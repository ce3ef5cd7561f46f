/** The preview page reached by navigation: a fallback screen when no
    invoice came with the navigation state, otherwise the invoice preview
    (the same markup as `InvoicePreview`) plus a downloadable PDF. The PDF is modelled by the ordered
    text it writes, section by section; coordinates, fonts, colours and page
    breaks are not modelled. */
module PdfPreview {
  import opened Wrappers
  import opened JsNumber
  import opened Invoice
  import opened Totals
  import opened InvoicePreview

  /** How many characters of a description fit in the PDF's first column. */
  const DescriptionWidth: nat := 12

  /** `s.substring(0, n)`: the first `n` characters, or all of a shorter
      string. */
  function Prefix(s: string, n: nat): (r: string)
    ensures |r| == if |s| <= n then |s| else n
    ensures r == s[..|r|]
  {
    if |s| <= n then s else s[..n]
  }

  /** One item row of the PDF table: description, quantity, rate, amount. */
  datatype PdfRow = PdfRow(description: string, quantity: Val, rate: real, amount: real)

  function PdfRowOf(it: Item): (r: PdfRow)
    ensures |r.description| <= DescriptionWidth && |r.description| <= |it.description|
    ensures r.description == it.description[..|r.description|]
    ensures |it.description| <= DescriptionWidth ==> r.description == it.description
    ensures |it.description| > DescriptionWidth ==> |r.description| == DescriptionWidth
    ensures r.quantity == it.quantity && r.amount == NumOr0(it.amount)
    ensures r.rate == NumOr0(it.rate)
  {
    PdfRow(Prefix(it.description, DescriptionWidth), it.quantity, NumOr0(it.rate), NumOr0(it.amount))
  }

  function PdfRows(items: seq<Item>): (rows: seq<PdfRow>)
    ensures |rows| == |items|
    ensures forall i | 0 <= i < |items| :: rows[i] == PdfRowOf(items[i])
  {
    if items == [] then [] else [PdfRowOf(items[0])] + PdfRows(items[1..])
  }

  /** The text a PDF carries, in the order it is written. */
  datatype PdfDocument = PdfDocument(
    title: string,
    company: Party,
    invoiceNumberLine: string,
    dateLine: string,
    dueDateLine: string,
    billToLabel: string,
    client: Party,
    columns: seq<string>,
    rows: seq<PdfRow>,
    summary: seq<SummaryRow>,
    notes: seq<string>,
    fileName: string)

  /** The download name `Invoice_<number>.pdf`. */
  function FileName(invoiceNumber: string): (f: string)
    ensures |f| == |invoiceNumber| + 12
    ensures f[..8] == "Invoice_" && f[|f| - 4..] == ".pdf"
    ensures f[8..|f| - 4] == invoiceNumber
  {
    "Invoice_" + invoiceNumber + ".pdf"
  }

  /** The invoice number can be read back from the file name, so two
      invoices with different numbers download under different names. */
  lemma FileNameInjective(a: string, b: string)
    ensures FileName(a) == FileName(b) <==> a == b
  {
    if FileName(a) == FileName(b) {
      assert FileName(a)[8..|FileName(a)| - 4] == FileName(b)[8..|FileName(b)| - 4];
    }
  }

  /** The notes section: a label and the notes text, or nothing at all. */
  function NotesLines(notes: string): (lines: seq<string>)
    ensures |notes| > 0 ==> lines == ["Notes:", notes]
    ensures |notes| == 0 ==> lines == []
  {
    match NotesBlock(notes)
    case Some(text) => ["Notes:", text]
    case None => []
  }

  /** `downloadPDFWithJsPDF`: the document written for a draft. */
  function Document(d: Draft, formatDate: string -> string): (doc: PdfDocument)
    ensures doc.company == Party(d.companyName, d.companyEmail, d.companyPhone, d.companyAddress)
    ensures doc.client == Party(d.clientName, d.clientEmail, d.clientPhone, d.clientAddress)
    ensures doc.invoiceNumberLine == "Invoice #: " + d.invoiceNumber
    ensures |doc.rows| == |d.items|
    ensures forall i | 0 <= i < |d.items| :: doc.rows[i] == PdfRowOf(d.items[i])
    ensures doc.summary == SummaryRows(ComputeTotals(d))
    ensures d.date == "" ==> doc.dateLine == "Date: "
    ensures d.date != "" ==> doc.dateLine == "Date: " + formatDate(d.date)
    ensures d.dueDate == "" ==> doc.dueDateLine == "Due Date: "
    ensures d.dueDate != "" ==> doc.dueDateLine == "Due Date: " + formatDate(d.dueDate)
    ensures |doc.notes| > 0 <==> |d.notes| > 0
    ensures |d.notes| > 0 ==> doc.notes == ["Notes:", d.notes]
    ensures doc.fileName == FileName(d.invoiceNumber)
  {
    PdfDocument(
      "INVOICE",
      Party(d.companyName, d.companyEmail, d.companyPhone, d.companyAddress),
      "Invoice #: " + d.invoiceNumber,
      "Date: " + FormatDate(formatDate, d.date),
      "Due Date: " + FormatDate(formatDate, d.dueDate),
      "BILL TO:",
      Party(d.clientName, d.clientEmail, d.clientPhone, d.clientAddress),
      ["Description", "Qty", "Rate", "Amount"],
      PdfRows(d.items),
      SummaryRows(ComputeTotals(d)),
      NotesLines(d.notes),
      FileName(d.invoiceNumber))
  }

  /** What the page shows: the fallback screen, or the preview together
      with the document its download button writes. */
  datatype Page =
    | NoInvoiceData
    | InvoicePage(view: View, document: PdfDocument)

  /** `PDFPreviewPage` given `location.state?.invoice`. */
  function PreviewPage(invoice: Option<Draft>, formatDate: string -> string): (p: Page)
    ensures p.NoInvoiceData? <==> invoice.None?
  {
    match invoice
    case None => NoInvoiceData
    case Some(d) => InvoicePage(Render(d, formatDate), Document(d, formatDate))
  }

  /** The PDF and the on-screen preview agree: the same summary rows (hence
      the same subtotal, tax, discount and total), one row per item in the
      same order with the same rates and amounts, the same parties, and notes in both
      or in neither. */
  lemma DocumentMatchesPreview(d: Draft, formatDate: string -> string)
    ensures var p := PreviewPage(Some(d), formatDate);
            && p.document.summary == p.view.summary
            && |p.document.rows| == |p.view.rows|
            && (forall i | 0 <= i < |p.view.rows| ::
                  p.document.rows[i].amount == p.view.rows[i].amount
                  && p.document.rows[i].rate == p.view.rows[i].rate
                  && p.document.rows[i].quantity == p.view.rows[i].quantity
                  && p.document.rows[i].description == Prefix(p.view.rows[i].description, DescriptionWidth))
            && p.document.company == p.view.company && p.document.client == p.view.client
            && (|p.document.notes| > 0 <==> p.view.notes.Some?)
  {
    var p := PreviewPage(Some(d), formatDate);
    assert p.view == Render(d, formatDate);
    assert p.document == Document(d, formatDate);
    forall i | 0 <= i < |p.view.rows|
      ensures p.document.rows[i].amount == p.view.rows[i].amount
      ensures p.document.rows[i].rate == p.view.rows[i].rate
      ensures p.document.rows[i].quantity == p.view.rows[i].quantity
      ensures p.document.rows[i].description == Prefix(p.view.rows[i].description, DescriptionWidth)
    {
      assert p.view.rows[i] == RowOf(d.items[i]);
    }
  }
}
