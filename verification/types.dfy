/**
 * The records the expense app passes around: the extraction result, the
 * receipt attached to an expense, the expense record itself with its
 * three-valued review status, and a browser file as the app sees it.
 */
module Types {

  /** A value or JavaScript's `null` / `undefined`. */
  datatype Option<+T> = None | Some(value: T)

  /** The review status `'Pendiente' | 'Aprobado' | 'Rechazado'`. */
  datatype Status = Pendiente | Aprobado | Rechazado

  /** The statuses an accountant may set: `'Aprobado' | 'Rechazado'`. */
  type Decision = s: Status | s != Pendiente witness Aprobado

  /** What the extraction service returns for one receipt. */
  datatype ExtractedData = ExtractedData(
    vendor: string,
    date: string,        // YYYY-MM-DD
    totalAmount: real,
    currency: string,
    category: string)

  /**
   * The receipt embedded in an expense. `content` is the base64 payload cut
   * out of a data URL with `split(',')[1]`, which is `undefined` (None) when
   * the data URL holds no comma.
   */
  datatype ReceiptFile = ReceiptFile(name: string, mimeType: string, content: Option<string>)

  /** An expense record as reviewed by the accountant. */
  datatype Expense = Expense(
    id: string,
    employeeName: string,   // one or more names joined by commas
    tripName: string,
    vendor: string,
    date: string,           // YYYY-MM-DD
    amount: real,
    currency: string,
    category: string,
    receiptFile: ReceiptFile,
    status: Status)

  /**
   * A file chosen in the upload control: its name and MIME type, together
   * with what the browser yields when the file is read as a data URL
   * (`readAsDataURL`) and as text (`file.text()`).
   */
  datatype File = File(name: string, mimeType: string, dataUrl: string, text: string)
}
