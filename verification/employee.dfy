/**
 * The employee's submission form: extraction over a batch of files (one
 * settled outcome per file, split into kept extractions and a failure
 * count), hand edits of an extracted field, and submission, which turns
 * every held extraction into a pending expense record and hands the batch
 * to the application state.
 */
module Employee {

  import opened Types
  import opened Strings
  import opened Review
  import opened Gemini
  import Store

  /** An extraction held by the form: its id, the file it came from and the (editable) fields. */
  datatype ExtractedInfo = ExtractedInfo(id: string, file: File, data: ExtractedData)

  /**
   * One settled extraction promise, in file order: fulfilled with the
   * service's answer (`null` is None) or rejected.
   */
  datatype Settled = Fulfilled(data: Option<ExtractedData>) | Rejected

  predicate Succeeded(o: Settled)
  {
    o.Fulfilled? && o.data.Some?
  }

  const NoFilesMessage := "Por favor, selecciona al menos un archivo de comprobante."

  const IncompleteMessage :=
    "Por favor, completa tu nombre, el del viaje y extrae la información de al menos un comprobante."

  const FailurePrefix := "No se pudo extraer información de "

  /** What follows the count: a space, then the rest of the sentence. */
  const FailureSuffix := " " + "archivo(s). Revisa los que se muestran a continuación."

  /** The summary shown when `n` files could not be extracted. */
  function FailureMessage(n: nat): string
  {
    FailurePrefix + DecimalString(n) + FailureSuffix
  }

  /** Different failure counts give different summaries: the summary names its count unambiguously. */
  lemma FailureMessageDistinct(m: nat, n: nat)
    requires FailureMessage(m) == FailureMessage(n)
    ensures m == n
  {
    assert FailureSuffix[0] == ' ';
    DigitsBeforeSpace(FailurePrefix, DecimalString(m), DecimalString(n), FailureSuffix);
    DecimalRoundTrip(m);
    DecimalRoundTrip(n);
  }

  /** Two digit runs framed by the same text, with a space right after them, are equal. */
  lemma DigitsBeforeSpace(p: string, a: string, b: string, q: string)
    requires forall k :: 0 <= k < |a| ==> '0' <= a[k] <= '9'
    requires forall k :: 0 <= k < |b| ==> '0' <= b[k] <= '9'
    requires q != [] && q[0] == ' '
    requires p + a + q == p + b + q
    ensures a == b
  {
    assert a + q == (p + a + q)[|p|..];
    assert b + q == (p + b + q)[|p|..];
    assert a == (a + q)[..|a|];
  }

  /** `${file.name}-${Math.random()}`, with the random part supplied by the caller. */
  function ExtractionId(file: File, random: string): string
  {
    file.name + "-" + random
  }

  // ---------------------------------------------------------------------
  // Settling a batch
  // ---------------------------------------------------------------------

  /** The kept extractions: each success, paired with its file, in file order. */
  function Successes(files: seq<File>, outcomes: seq<Settled>, randoms: seq<string>): seq<ExtractedInfo>
    requires |outcomes| == |files| && |randoms| == |files|
  {
    if files == [] then []
    else
      var n := |files| - 1;
      Successes(files[..n], outcomes[..n], randoms[..n])
      + if Succeeded(outcomes[n])
        then [ExtractedInfo(ExtractionId(files[n], randoms[n]), files[n], outcomes[n].data.value)]
        else []
  }

  /** How many outcomes succeeded. */
  function SuccessCount(outcomes: seq<Settled>): nat
  {
    if outcomes == [] then 0
    else SuccessCount(outcomes[..|outcomes| - 1]) + if Succeeded(outcomes[|outcomes| - 1]) then 1 else 0
  }

  /** How many outcomes failed: rejected, or fulfilled with `null`. */
  function FailureCount(outcomes: seq<Settled>): nat
  {
    if outcomes == [] then 0
    else FailureCount(outcomes[..|outcomes| - 1]) + if Succeeded(outcomes[|outcomes| - 1]) then 0 else 1
  }

  /** Every file is accounted for once: as a kept extraction or as a failure. */
  lemma {:induction false} SettleCounts(files: seq<File>, outcomes: seq<Settled>, randoms: seq<string>)
    requires |outcomes| == |files| && |randoms| == |files|
    ensures |Successes(files, outcomes, randoms)| == SuccessCount(outcomes)
    ensures SuccessCount(outcomes) + FailureCount(outcomes) == |files|
    decreases |files|
  {
    if files != [] {
      var n := |files| - 1;
      SettleCounts(files[..n], outcomes[..n], randoms[..n]);
    }
  }

  /**
   * The successful outcome of file `i` is kept at position "number of
   * successes before `i`", paired with file `i` and its data: kept
   * extractions follow the file order.
   */
  lemma {:induction false} SettleOrder(files: seq<File>, outcomes: seq<Settled>, randoms: seq<string>, i: nat)
    requires |outcomes| == |files| && |randoms| == |files|
    requires i < |files| && Succeeded(outcomes[i])
    ensures SuccessCount(outcomes[..i]) < |Successes(files, outcomes, randoms)|
    ensures Successes(files, outcomes, randoms)[SuccessCount(outcomes[..i])]
      == ExtractedInfo(ExtractionId(files[i], randoms[i]), files[i], outcomes[i].data.value)
    decreases |files|
  {
    var n := |files| - 1;
    SettleCounts(files[..n], outcomes[..n], randoms[..n]);
    if i < n {
      SettleOrder(files[..n], outcomes[..n], randoms[..n], i);
      assert outcomes[..n][..i] == outcomes[..i];
    } else {
      assert outcomes[..n] == outcomes[..i];
    }
  }

  /**
   * The loop of `handleExtraction`: walks the settled outcomes in order,
   * keeping each success and counting each failure.
   */
  method Settle(files: seq<File>, outcomes: seq<Settled>, randoms: seq<string>)
    returns (successes: seq<ExtractedInfo>, extractionErrors: nat)
    requires |outcomes| == |files| && |randoms| == |files|
    ensures successes == Successes(files, outcomes, randoms)
    ensures extractionErrors == FailureCount(outcomes)
    ensures |successes| + extractionErrors == |files|
  {
    successes := [];
    extractionErrors := 0;
    var i := 0;
    while i < |outcomes|
      invariant 0 <= i <= |outcomes|
      invariant successes == Successes(files[..i], outcomes[..i], randoms[..i])
      invariant extractionErrors == FailureCount(outcomes[..i])
    {
      assert files[..i + 1][..i] == files[..i];
      assert outcomes[..i + 1][..i] == outcomes[..i];
      assert randoms[..i + 1][..i] == randoms[..i];
      match outcomes[i] {
        case Fulfilled(data) =>
          if data.Some? {
            successes := successes + [ExtractedInfo(ExtractionId(files[i], randoms[i]), files[i], data.value)];
          } else {
            extractionErrors := extractionErrors + 1;
          }
        case Rejected =>
          extractionErrors := extractionErrors + 1;
      }
      i := i + 1;
    }
    assert files[..i] == files && outcomes[..i] == outcomes && randoms[..i] == randoms;
    SettleCounts(files, outcomes, randoms);
  }

  /**
   * The settled outcomes when every file goes through `extractExpenseInfo`
   * with the same service: outcome `i` belongs to file `i`, and none is
   * rejected, as the client turns every failure into `null`.
   */
  function ExtractionOutcomes(files: seq<File>, call: seq<Part> -> CallOutcome): (r: seq<Settled>)
    ensures |r| == |files|
    ensures forall i :: 0 <= i < |files| ==> r[i].Fulfilled? && r[i].data == ExtractExpenseInfo(files[i], call)
  {
    seq(|files|, i requires 0 <= i < |files| => Fulfilled(ExtractExpenseInfo(files[i], call)))
  }

  /** Through the real extraction client, a file of an unsupported type is never kept. */
  lemma {:induction false} SuccessesAreSupported(files: seq<File>, call: seq<Part> -> CallOutcome, randoms: seq<string>)
    requires |randoms| == |files|
    ensures forall k :: 0 <= k < |Successes(files, ExtractionOutcomes(files, call), randoms)| ==>
      IsSupported(Successes(files, ExtractionOutcomes(files, call), randoms)[k].file.mimeType)
    decreases |files|
  {
    if files != [] {
      var n := |files| - 1;
      SuccessesAreSupported(files[..n], call, randoms[..n]);
      assert ExtractionOutcomes(files, call)[..n] == ExtractionOutcomes(files[..n], call);
      ExtractExpenseInfoOutcome(files[n], call);
    }
  }

  // ---------------------------------------------------------------------
  // Submission
  // ---------------------------------------------------------------------

  /** What `handleSubmit` demands before it builds anything. */
  predicate CanSubmit(employeeName: string, tripName: string, infos: seq<ExtractedInfo>)
  {
    employeeName != "" && tripName != "" && |infos| != 0
  }

  /** The record built from one held extraction. */
  function ToExpense(employeeName: string, tripName: string, info: ExtractedInfo): Expense
  {
    Expense(info.id, employeeName, tripName, info.data.vendor, info.data.date, info.data.totalAmount,
      info.data.currency, info.data.category,
      ReceiptFile(info.file.name, info.file.mimeType, DataUrlPayload(info.file.dataUrl)), Pendiente)
  }

  /** `extractedInfos.map(...)`: one record per held extraction. */
  function BuildExpenses(employeeName: string, tripName: string, infos: seq<ExtractedInfo>): seq<Expense>
  {
    if infos == [] then []
    else [ToExpense(employeeName, tripName, infos[0])] + BuildExpenses(employeeName, tripName, infos[1..])
  }

  /**
   * Exactly one record per extraction, in the same order; each reuses the
   * extraction's id, carries the shared employee and trip names, takes the
   * (possibly edited) fields with `amount = totalAmount`, embeds the
   * file's name, type and data-URL payload, and is pending.
   */
  lemma {:induction false} BuildExpensesFields(employeeName: string, tripName: string, infos: seq<ExtractedInfo>)
    ensures |BuildExpenses(employeeName, tripName, infos)| == |infos|
    ensures forall i :: 0 <= i < |infos| ==>
      var e := BuildExpenses(employeeName, tripName, infos)[i];
      && e.id == infos[i].id
      && e.employeeName == employeeName && e.tripName == tripName
      && e.vendor == infos[i].data.vendor && e.date == infos[i].data.date
      && e.amount == infos[i].data.totalAmount
      && e.currency == infos[i].data.currency && e.category == infos[i].data.category
      && e.receiptFile == ReceiptFile(infos[i].file.name, infos[i].file.mimeType, DataUrlPayload(infos[i].file.dataUrl))
      && e.status == Pendiente
  {
    if infos != [] {
      BuildExpensesFields(employeeName, tripName, infos[1..]);
      var r := BuildExpenses(employeeName, tripName, infos);
      assert forall i :: 1 <= i < |infos| ==> r[i] == BuildExpenses(employeeName, tripName, infos[1..])[i - 1];
    }
  }

  /** A receipt read as `header,payload` is stored with exactly its payload. */
  lemma ReceiptContentRoundTrip(employeeName: string, tripName: string, info: ExtractedInfo, header: string, payload: string)
    requires info.file.dataUrl == header + "," + payload && ',' !in header && ',' !in payload
    ensures ToExpense(employeeName, tripName, info).receiptFile.content == Some(payload)
  {
    DataUrlPayloadRoundTrip(header, payload);
  }

  /**
   * A submitted batch, prepended to the earlier records, shows in full at
   * the top of the accountant's opening (pending-only) view.
   */
  lemma SubmittedBatchShownByDefault(employeeName: string, tripName: string, infos: seq<ExtractedInfo>, earlier: seq<Expense>)
    ensures Filtered(BuildExpenses(employeeName, tripName, infos) + earlier, DefaultFilter)
      == BuildExpenses(employeeName, tripName, infos) + Filtered(earlier, DefaultFilter)
  {
    var batch := BuildExpenses(employeeName, tripName, infos);
    BuildExpensesFields(employeeName, tripName, infos);
    FilteredConcat(batch, earlier, DefaultFilter);
    FilteredAllKept(batch, DefaultFilter);
  }

  // ---------------------------------------------------------------------
  // Editing an extracted field
  // ---------------------------------------------------------------------

  /** The keys of the extracted fields (`keyof ExtractedData`). */
  datatype Field = Vendor | Date | TotalAmount | Currency | Category

  /** A field value, as read back for comparison. */
  datatype FieldValue = TextValue(text: string) | NumberValue(number: real)

  /** One edit made in the form: a field and its new value. */
  datatype FieldEdit =
    | SetVendor(vendor: string)
    | SetDate(date: string)
    | SetTotalAmount(totalAmount: real)
    | SetCurrency(currency: string)
    | SetCategory(category: string)

  function FieldOf(edit: FieldEdit): Field
  {
    match edit
    case SetVendor(_) => Vendor
    case SetDate(_) => Date
    case SetTotalAmount(_) => TotalAmount
    case SetCurrency(_) => Currency
    case SetCategory(_) => Category
  }

  function ValueOf(edit: FieldEdit): FieldValue
  {
    match edit
    case SetVendor(v) => TextValue(v)
    case SetDate(v) => TextValue(v)
    case SetTotalAmount(v) => NumberValue(v)
    case SetCurrency(v) => TextValue(v)
    case SetCategory(v) => TextValue(v)
  }

  /** `data[field]`. */
  function Get(data: ExtractedData, field: Field): FieldValue
  {
    match field
    case Vendor => TextValue(data.vendor)
    case Date => TextValue(data.date)
    case TotalAmount => NumberValue(data.totalAmount)
    case Currency => TextValue(data.currency)
    case Category => TextValue(data.category)
  }

  /** `{ ...data, [field]: value }`. */
  function Apply(data: ExtractedData, edit: FieldEdit): ExtractedData
  {
    match edit
    case SetVendor(v) => data.(vendor := v)
    case SetDate(v) => data.(date := v)
    case SetTotalAmount(v) => data.(totalAmount := v)
    case SetCurrency(v) => data.(currency := v)
    case SetCategory(v) => data.(category := v)
  }

  /** An edit sets its own field and leaves every other field as it was. */
  lemma ApplyChangesOnlyItsField(data: ExtractedData, edit: FieldEdit, field: Field)
    ensures Get(Apply(data, edit), field) == if field == FieldOf(edit) then ValueOf(edit) else Get(data, field)
  {
  }

  /** `infos.map(info => info.id === id ? { ...info, data: { ...info.data, [field]: value } } : info)`. */
  function WithField(infos: seq<ExtractedInfo>, id: string, edit: FieldEdit): seq<ExtractedInfo>
  {
    if infos == [] then []
    else
      var first := if infos[0].id == id then infos[0].(data := Apply(infos[0].data, edit)) else infos[0];
      [first] + WithField(infos[1..], id, edit)
  }

  /**
   * Length, order, ids and files are preserved; only extractions with the
   * given id change, and only in their data.
   */
  lemma {:induction false} WithFieldPointwise(infos: seq<ExtractedInfo>, id: string, edit: FieldEdit)
    ensures |WithField(infos, id, edit)| == |infos|
    ensures forall i :: 0 <= i < |infos| ==>
      var r := WithField(infos, id, edit)[i];
      && r.id == infos[i].id && r.file == infos[i].file
      && r.data == if infos[i].id == id then Apply(infos[i].data, edit) else infos[i].data
  {
    if infos != [] {
      WithFieldPointwise(infos[1..], id, edit);
      var r := WithField(infos, id, edit);
      assert forall i :: 1 <= i < |infos| ==> r[i] == WithField(infos[1..], id, edit)[i - 1];
    }
  }

  // ---------------------------------------------------------------------
  // The form
  // ---------------------------------------------------------------------

  /** The form's state: the two names, the held extractions and the error banner. */
  class EmployeeForm {
    var employeeName: string
    var tripName: string
    var extractedInfos: seq<ExtractedInfo>
    var error: Option<string>

    constructor ()
      ensures employeeName == "" && tripName == "" && extractedInfos == [] && error == None
    {
      employeeName := "";
      tripName := "";
      extractedInfos := [];
      error := None;
    }

    /** The name inputs' `onChange`. */
    method SetNames(employee: string, trip: string)
      modifies this
      ensures employeeName == employee && tripName == trip
      ensures extractedInfos == old(extractedInfos) && error == old(error)
    {
      employeeName := employee;
      tripName := trip;
    }

    /** The file input's `onChange`: a new selection drops the held extractions. */
    method HandleFilesChanged()
      modifies this
      ensures extractedInfos == []
      ensures employeeName == old(employeeName) && tripName == old(tripName) && error == old(error)
    {
      extractedInfos := [];
    }

    /**
     * `handleExtraction`, given the settled outcome of every file. With no
     * file selected only the error is set. Otherwise the successes replace
     * the held extractions (even when some files failed) and the error is
     * set exactly when some file failed.
     */
    method HandleExtraction(files: seq<File>, outcomes: seq<Settled>, randoms: seq<string>)
      requires |outcomes| == |files| && |randoms| == |files|
      modifies this
      ensures employeeName == old(employeeName) && tripName == old(tripName)
      ensures |files| == 0 ==> extractedInfos == old(extractedInfos) && error == Some(NoFilesMessage)
      ensures |files| > 0 ==> extractedInfos == Successes(files, outcomes, randoms)
      ensures |files| > 0 ==> (error.Some? <==> FailureCount(outcomes) > 0)
      ensures |files| > 0 && FailureCount(outcomes) > 0 ==> error == Some(FailureMessage(FailureCount(outcomes)))
    {
      if |files| == 0 {
        error := Some(NoFilesMessage);
        return;
      }
      error := None;
      extractedInfos := [];
      var successes, extractionErrors := Settle(files, outcomes, randoms);
      extractedInfos := successes;
      if extractionErrors > 0 {
        error := Some(FailureMessage(extractionErrors));
      }
    }

    /**
     * `handleSubmit`: rejected with a message and nothing emitted unless
     * both names are filled in and some extraction is held; otherwise the
     * built batch is prepended to the application's records, the
     * extractions and the error are cleared and the names are kept.
     */
    method HandleSubmit(store: Store.ExpenseStore)
      modifies this, store
      ensures employeeName == old(employeeName) && tripName == old(tripName)
      ensures !CanSubmit(employeeName, tripName, old(extractedInfos)) ==>
        && store.expenses == old(store.expenses)
        && extractedInfos == old(extractedInfos)
        && error == Some(IncompleteMessage)
      ensures CanSubmit(employeeName, tripName, old(extractedInfos)) ==>
        && store.expenses == BuildExpenses(employeeName, tripName, old(extractedInfos)) + old(store.expenses)
        && extractedInfos == []
        && error == None
    {
      if !CanSubmit(employeeName, tripName, extractedInfos) {
        error := Some(IncompleteMessage);
        return;
      }
      var newExpenses := BuildExpenses(employeeName, tripName, extractedInfos);
      store.AddExpenses(newExpenses);
      extractedInfos := [];
      error := None;
    }

    /** `handleFieldChange`: edits one field of the extraction(s) with the given id. */
    method HandleFieldChange(id: string, edit: FieldEdit)
      modifies this
      ensures extractedInfos == WithField(old(extractedInfos), id, edit)
      ensures employeeName == old(employeeName) && tripName == old(tripName) && error == old(error)
    {
      extractedInfos := WithField(extractedInfos, id, edit);
    }
  }
}
