/**
 * The extraction service client: which request a file produces, chosen by
 * its MIME type (image, XML invoice, PDF, or unsupported), and the policy
 * that every failure, including an unsupported type, ends in `null` rather
 * than an exception. The generation call itself (model, response schema,
 * JSON parsing) is an opaque function from the request parts to an outcome.
 */
module Gemini {

  import opened Types
  import opened Strings

  /** The extraction instruction sent with every request (a template literal with its indentation). */
  const Prompt :=
    "\n    Analiza la imagen o el texto del comprobante y extrae la siguiente información en formato JSON."
    + "\n    - El nombre del vendedor o tienda."
    + "\n    - La fecha de la transacción en formato AAAA-MM-DD."
    + "\n    - El monto total de la transacción como un número."
    + "\n    - El símbolo o código de la moneda (ej. $, MXN, USD)."
    + "\n    - Una categoría sugerida para el gasto (ej. Comida, Transporte, Alojamiento, Otro)."
    + "\n"
    + "\n    Si alguna información no está disponible, déjala como un string vacío o 0 para el monto."
    + "\n    Asegúrate de que el resultado sea únicamente el objeto JSON."
    + "\n    "

  /** What precedes the invoice text in an XML request. */
  const XmlPreamble := "Analiza el siguiente contenido XML de una factura y extrae la información requerida.\n\n"

  /** What precedes the instruction in a PDF request. */
  const PdfNote := "Este archivo es un PDF, trátalo como una imagen. "

  /** A content part of the request: inline file bytes tagged with a MIME type, or text. */
  datatype Part = InlineData(data: Option<string>, mimeType: string) | Text(text: string)

  /** What the generation call and the parsing of its JSON answer come to. */
  datatype CallOutcome = Parsed(data: ExtractedData) | Threw

  predicate IsImage(mimeType: string) { "image/" <= mimeType }

  predicate IsXml(mimeType: string) { mimeType == "application/xml" || mimeType == "text/xml" }

  predicate IsPdf(mimeType: string) { mimeType == "application/pdf" }

  predicate IsSupported(mimeType: string) { IsImage(mimeType) || IsXml(mimeType) || IsPdf(mimeType) }

  /** The three kinds are disjoint, so the order of the type tests does not matter. */
  lemma MimeKindsDisjoint(mimeType: string)
    ensures !(IsImage(mimeType) && IsXml(mimeType))
    ensures !(IsImage(mimeType) && IsPdf(mimeType))
    ensures !(IsXml(mimeType) && IsPdf(mimeType))
  {
    if IsImage(mimeType) {
      assert mimeType[0] == "image/"[0] == 'i';
      assert "application/xml"[0] == 'a' && "text/xml"[0] == 't' && "application/pdf"[0] == 'a';
    }
  }

  /** `fileToGenerativePart`: the data URL's payload, tagged with the file's type. */
  function FileToGenerativePart(file: File): Part
  {
    InlineData(DataUrlPayload(file.dataUrl), file.mimeType)
  }

  /** The request parts for a file, or `None` for an unsupported type. */
  function BuildParts(file: File): Option<seq<Part>>
  {
    if IsImage(file.mimeType) then Some([FileToGenerativePart(file), Text(Prompt)])
    else if IsXml(file.mimeType) then Some([Text(XmlPreamble + file.text + "\n\n" + Prompt)])
    else if IsPdf(file.mimeType) then Some([FileToGenerativePart(file), Text(PdfNote + Prompt)])
    else None
  }

  /** A request is built exactly for image, XML and PDF files. */
  lemma BuildPartsSupported(file: File)
    ensures BuildParts(file).Some? <==> IsSupported(file.mimeType)
  {
  }

  /**
   * Every request ends with a text part carrying the instruction; image and
   * PDF requests start with the file inline (its data-URL payload and its
   * type); an XML request is a single text part holding the invoice text.
   */
  lemma BuildPartsShape(file: File)
    requires IsSupported(file.mimeType)
    ensures var parts := BuildParts(file).value;
      && 1 <= |parts| <= 2
      && parts[|parts| - 1].Text?
      && |Prompt| <= |parts[|parts| - 1].text|
      && parts[|parts| - 1].text[|parts[|parts| - 1].text| - |Prompt|..] == Prompt
      && (|parts| == 2 <==> !IsXml(file.mimeType))
      && (|parts| == 2 ==> parts[0] == InlineData(DataUrlPayload(file.dataUrl), file.mimeType))
      && (|parts| == 1 ==> parts[0].text[|XmlPreamble|..|XmlPreamble| + |file.text|] == file.text)
  {
    MimeKindsDisjoint(file.mimeType);
    var parts := BuildParts(file).value;
    var t := parts[|parts| - 1].text;
    if IsImage(file.mimeType) {
      assert t == Prompt;
    } else if IsXml(file.mimeType) {
      assert t == (XmlPreamble + file.text + "\n\n") + Prompt;
    } else {
      assert t == PdfNote + Prompt;
    }
  }

  /** An image request's text is the instruction alone. */
  lemma ImageRequestText(file: File)
    requires IsImage(file.mimeType)
    ensures |BuildParts(file).value| == 2 && BuildParts(file).value[1] == Text(Prompt)
  {
  }

  /** A PDF request's text is the PDF note followed by the instruction. */
  lemma PdfRequestText(file: File)
    requires IsPdf(file.mimeType)
    ensures |BuildParts(file).value| == 2 && BuildParts(file).value[1] == Text(PdfNote + Prompt)
  {
    MimeKindsDisjoint(file.mimeType);
  }

  /**
   * An XML request's single text opens with the invoice preamble, and is
   * the preamble, the file text, a blank line and the instruction.
   */
  lemma XmlRequestText(file: File)
    requires IsXml(file.mimeType)
    ensures BuildParts(file) == Some([Text(XmlPreamble + file.text + "\n\n" + Prompt)])
    ensures |BuildParts(file).value| == 1
    ensures |XmlPreamble| <= |BuildParts(file).value[0].text|
    ensures BuildParts(file).value[0].text[..|XmlPreamble|] == XmlPreamble
  {
    assert !IsImage(file.mimeType) by {
      MimeKindsDisjoint(file.mimeType);
    }
    OpensWith(XmlPreamble, file.text, "\n\n", Prompt);
  }

  lemma OpensWith(a: string, b: string, c: string, d: string)
    ensures |a| <= |a + b + c + d| && (a + b + c + d)[..|a|] == a
  {
  }

  /** For a well-formed data URL `header,payload`, the inline part carries exactly the payload. */
  lemma InlinePartCarriesPayload(file: File, header: string, payload: string)
    requires IsImage(file.mimeType) || IsPdf(file.mimeType)
    requires file.dataUrl == header + "," + payload && ',' !in header && ',' !in payload
    ensures BuildParts(file).value[0] == InlineData(Some(payload), file.mimeType)
  {
    DataUrlPayloadRoundTrip(header, payload);
  }

  /**
   * `extractExpenseInfo`: the parsed fields, or `None` (`null`) when the type
   * is unsupported or the call or the parsing fails. It never throws.
   */
  function ExtractExpenseInfo(file: File, call: seq<Part> -> CallOutcome): Option<ExtractedData>
  {
    match BuildParts(file)
    case None => None
    case Some(parts) =>
      match call(parts)
      case Parsed(data) => Some(data)
      case Threw => None
  }

  /**
   * The result is data exactly when the type is supported and the call on
   * the built parts succeeds, and then it is the call's data; for an
   * unsupported type the result is `None` whatever the call would do, as no
   * call is made.
   */
  lemma ExtractExpenseInfoOutcome(file: File, call: seq<Part> -> CallOutcome)
    ensures ExtractExpenseInfo(file, call).Some? <==>
      IsSupported(file.mimeType) && call(BuildParts(file).value).Parsed?
    ensures ExtractExpenseInfo(file, call).Some? ==>
      ExtractExpenseInfo(file, call).value == call(BuildParts(file).value).data
    ensures !IsSupported(file.mimeType) ==> ExtractExpenseInfo(file, call) == None
  {
  }
}
