/** The on-screen invoice preview: the draft's party details, one table row
    per line item, the summary box and the optional notes. Date formatting
    is locale-dependent and is passed in as `formatDate`. */
module InvoicePreview {
  import opened Wrappers
  import opened JsNumber
  import opened Invoice
  import opened Totals

  /** The four address lines of a party, in display order. */
  datatype Party = Party(name: string, email: string, phone: string, address: string)

  /** One table row; `key` is the React key, the item's id. */
  datatype Row = Row(key: int, description: string, quantity: Val, rate: real, amount: real)

  datatype View = View(
    company: Party,
    invoiceNumber: string,
    date: string,
    dueDate: string,
    client: Party,
    rows: seq<Row>,
    summary: seq<SummaryRow>,
    notes: Option<string>)

  /** `value ? new Date(value).toLocaleDateString() : ''`: an empty date
      shows nothing, anything else goes through the locale formatter. */
  function FormatDate(formatDate: string -> string, value: string): (r: string)
    ensures value == "" ==> r == ""
    ensures value != "" ==> r == formatDate(value)
  {
    if value != "" then formatDate(value) else ""
  }

  /** A table row: the rate and amount cells read their values with
      `parseFloat(x) || 0`; description and quantity are shown as stored. */
  function RowOf(it: Item): (r: Row)
    ensures r.key == it.id && r.description == it.description && r.quantity == it.quantity
    ensures r.rate == NumOr0(it.rate) && r.amount == NumOr0(it.amount)
  {
    Row(it.id, it.description, it.quantity, NumOr0(it.rate), NumOr0(it.amount))
  }

  function Rows(items: seq<Item>): (rows: seq<Row>)
    ensures |rows| == |items|
    ensures forall i | 0 <= i < |items| :: rows[i] == RowOf(items[i])
  {
    if items == [] then [] else [RowOf(items[0])] + Rows(items[1..])
  }

  /** The preview of a draft. */
  function Render(d: Draft, formatDate: string -> string): (v: View)
    ensures v.company == Party(d.companyName, d.companyEmail, d.companyPhone, d.companyAddress)
    ensures v.client == Party(d.clientName, d.clientEmail, d.clientPhone, d.clientAddress)
    ensures v.invoiceNumber == d.invoiceNumber
    ensures d.date == "" ==> v.date == ""
    ensures d.date != "" ==> v.date == formatDate(d.date)
    ensures d.dueDate == "" ==> v.dueDate == ""
    ensures d.dueDate != "" ==> v.dueDate == formatDate(d.dueDate)
    ensures |v.rows| == |d.items|
    ensures forall i | 0 <= i < |d.items| :: v.rows[i] == RowOf(d.items[i])
    ensures v.summary == SummaryRows(ComputeTotals(d))
    ensures v.notes.Some? <==> d.notes != ""
    ensures v.notes.Some? ==> v.notes.value == d.notes
  {
    View(
      Party(d.companyName, d.companyEmail, d.companyPhone, d.companyAddress),
      d.invoiceNumber,
      FormatDate(formatDate, d.date),
      FormatDate(formatDate, d.dueDate),
      Party(d.clientName, d.clientEmail, d.clientPhone, d.clientAddress),
      Rows(d.items),
      SummaryRows(ComputeTotals(d)),
      NotesBlock(d.notes))
  }

  /** The sum of the amount column. */
  function AmountColumn(rows: seq<Row>): real {
    if rows == [] then 0.0 else rows[0].amount + AmountColumn(rows[1..])
  }

  lemma {:induction false} AmountColumnIsSum(items: seq<Item>)
    ensures AmountColumn(Rows(items)) == Sum(items)
  {
    if items != [] {
      assert Rows(items)[1..] == Rows(items[1..]);
      AmountColumnIsSum(items[1..]);
    }
  }

  /** The subtotal shown in the summary box is the sum of the amount column
      of the table above it. */
  lemma SubtotalIsAmountColumn(d: Draft, formatDate: string -> string)
    ensures Render(d, formatDate).summary[0] == SubtotalRow(AmountColumn(Render(d, formatDate).rows))
  {
    AmountColumnIsSum(d.items);
  }

  /** What the visible summary rows add up to: the subtotal, plus the tax
      row, minus the discount row. */
  function Shown(rows: seq<SummaryRow>): real {
    if rows == [] then 0.0
    else
      var contribution :=
        match rows[0]
        case SubtotalRow(a) => a
        case TaxRow(_, a) => a
        case DiscountRow(a) => -a
        case TotalRow(_) => 0.0;
      contribution + Shown(rows[1..])
  }

  lemma {:induction false} ShownConcat(a: seq<SummaryRow>, b: seq<SummaryRow>)
    ensures Shown(a + b) == Shown(a) + Shown(b)
    decreases |a|
  {
    if a == [] {
      assert a + b == b;
    } else {
      assert (a + b)[1..] == a[1..] + b;
      ShownConcat(a[1..], b);
    }
  }

  /** The visible rows add up to the subtotal plus the tax amount when its
      row is shown, minus the discount when its row is shown. */
  lemma ShownSummary(t: Totals)
    ensures Shown(SummaryRows(t)) ==
              t.subtotal + (if t.taxRate > 0.0 then t.taxAmount else 0.0)
              - (if t.discountAmount > 0.0 then t.discountAmount else 0.0)
  {
    var head := [SubtotalRow(t.subtotal)];
    var tax := if t.taxRate > 0.0 then [TaxRow(t.taxRate, t.taxAmount)] else [];
    var discount := if t.discountAmount > 0.0 then [DiscountRow(t.discountAmount)] else [];
    assert SummaryRows(t) == head + tax + discount + [TotalRow(t.total)];
    ShownConcat(head + tax + discount, [TotalRow(t.total)]);
    ShownConcat(head + tax, discount);
    ShownConcat(head, tax);
    assert Shown([TotalRow(t.total)]) == 0.0;
  }

  /** With a non-negative tax rate and discount the visible rows add up to
      the total: no hidden row affects it. */
  lemma SummaryAddsUp(d: Draft)
    requires NumOr0(d.tax) >= 0.0 && NumOr0(d.discount) >= 0.0
    ensures Shown(SummaryRows(ComputeTotals(d))) == ComputeTotals(d).total
  {
    var t := ComputeTotals(d);
    ShownSummary(t);
    if t.taxRate == 0.0 {
      assert t.taxAmount * 100.0 == 0.0;
    }
  }

  /** A negative tax rate is applied to the total but its row is hidden, so
      the visible rows no longer add up: one line worth 100 with tax -10
      shows only the subtotal 100 above a total of 90. */
  lemma HiddenNegativeTax(d: Draft)
    requires |d.items| == 1 && d.items[0].amount == Num(100.0)
    requires d.tax == Num(-10.0) && d.discount == Num(0.0)
    ensures SummaryRows(ComputeTotals(d)) == [SubtotalRow(100.0), TotalRow(90.0)]
    ensures Shown(SummaryRows(ComputeTotals(d))) == 100.0
  {
    assert Sum(d.items) == 100.0 by {
      assert d.items[1..] == [];
    }
    var t := ComputeTotals(d);
    assert t == Totals(100.0, -10.0, 0.0, -10.0, 90.0);
    ShownSummary(t);
  }
}
