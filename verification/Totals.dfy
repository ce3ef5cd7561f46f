/** The money summary under the item table: subtotal, tax, discount and
    total. The on-screen preview and the PDF page compute it with the same
    four formulas; amounts are exact reals, an idealisation of the source's
    double-precision numbers. */
module Totals {
  import opened Wrappers
  import opened JsNumber
  import opened Invoice

  /** The `reduce` callback: the running sum plus the item's amount read
      with `parseFloat(amount) || 0`. */
  function AddAmount(sum: real, it: Item): real {
    sum + NumOr0(it.amount)
  }

  /** `items.reduce(callback, acc)`: a left fold, first item first. It adds
      the sum of the amounts to the start value. */
  function Reduce(items: seq<Item>, acc: real): (r: real)
    ensures r == acc + Sum(items)
    decreases |items|
  {
    if items == [] then acc else Reduce(items[1..], AddAmount(acc, items[0]))
  }

  /** Reference definition: the sum of the item amounts. */
  function Sum(items: seq<Item>): real {
    if items == [] then 0.0 else NumOr0(items[0].amount) + Sum(items[1..])
  }

  /** The subtotal: the fold starting from 0 adds up every amount. */
  function Subtotal(items: seq<Item>): (s: real)
    ensures s == Sum(items)
  {
    Reduce(items, 0.0)
  }

  lemma {:induction false} SumConcat(a: seq<Item>, b: seq<Item>)
    ensures Sum(a + b) == Sum(a) + Sum(b)
    decreases |a|
  {
    if a == [] {
      assert a + b == b;
    } else {
      assert (a + b)[1..] == a[1..] + b;
      SumConcat(a[1..], b);
    }
  }

  /** The subtotal of an empty list is 0, and the subtotal of two lists
      put together is the sum of their subtotals. */
  lemma SubtotalAdditive(a: seq<Item>, b: seq<Item>)
    ensures Subtotal([]) == 0.0
    ensures Subtotal(a + b) == Subtotal(a) + Subtotal(b)
  {
    SumConcat(a, b);
  }

  /** What a line is worth by its inputs: quantity times rate. */
  function LineValue(it: Item): real {
    NumOr0(it.quantity) * NumOr0(it.rate)
  }

  function LineValueSum(items: seq<Item>): real {
    if items == [] then 0.0 else LineValue(items[0]) + LineValueSum(items[1..])
  }

  /** When every stored amount is up to date, the subtotal is the sum of
      quantity times rate over the lines. */
  lemma {:induction false} ConsistentSubtotal(items: seq<Item>)
    requires AmountsConsistent(items)
    ensures Subtotal(items) == LineValueSum(items)
    decreases |items|
  {
    if items != [] {
      assert AmountMatches(items[0]);
      assert AmountsConsistent(items[1..]) by {
        forall i | 0 <= i < |items[1..]|
          ensures AmountMatches(items[1..][i])
        {
          assert items[1..][i] == items[i + 1];
        }
      }
      ConsistentSubtotal(items[1..]);
    }
  }

  datatype Totals = Totals(
    subtotal: real,
    taxRate: real,
    discountAmount: real,
    taxAmount: real,
    total: real)

  /** The totals of a draft. The tax and discount inputs read as 0 when they
      are blank or do not parse; the tax field is a percentage of the
      subtotal and the discount an absolute amount. Nothing is clamped. */
  function ComputeTotals(d: Draft): (t: Totals)
    ensures t.subtotal == Sum(d.items)
    ensures t.taxRate == NumOr0(d.tax) && t.discountAmount == NumOr0(d.discount)
    ensures t.taxAmount * 100.0 == t.subtotal * t.taxRate
    ensures t.total + t.discountAmount == t.subtotal + t.taxAmount
  {
    var subtotal := Subtotal(d.items);
    var taxRate := NumOr0(d.tax);
    var discountAmount := NumOr0(d.discount);
    var taxAmount := subtotal * (taxRate / 100.0);
    Totals(subtotal, taxRate, discountAmount, taxAmount, subtotal + taxAmount - discountAmount)
  }

  /** A blank or unparseable tax or discount counts as 0. */
  lemma UnreadableRateIsZero(v: Val)
    requires IsEmpty(v) || ParseNum(v) == None
    ensures NumOr0(v) == 0.0
  {
    if IsEmpty(v) {
      EmptyIsNaN(v);
    }
  }

  /** With no tax and no discount the total is the subtotal. */
  lemma TotalWithoutTaxOrDiscount(d: Draft)
    requires NumOr0(d.tax) == 0.0 && NumOr0(d.discount) == 0.0
    ensures ComputeTotals(d).taxAmount == 0.0
    ensures ComputeTotals(d).total == ComputeTotals(d).subtotal
  {
  }

  /** The total falls by exactly the discount: a discount larger than the
      taxed subtotal makes it negative. */
  lemma DiscountCanMakeTotalNegative(d: Draft)
    requires d.items == [] && d.discount == Num(50.0)
    ensures ComputeTotals(d).total == -50.0
  {
    assert Sum(d.items) == 0.0;
  }

  /** One line worth 100 with 10% tax and a blank discount totals 110. */
  lemma TenPercentTaxExample(d: Draft)
    requires |d.items| == 1 && d.items[0].amount == Num(100.0)
    requires d.tax == Num(10.0) && d.discount == Str("")
    ensures ComputeTotals(d) == Totals(100.0, 10.0, 0.0, 10.0, 110.0)
  {
    assert Sum(d.items) == 100.0 by {
      assert d.items[1..] == [];
    }
    assert NumOr0(d.tax) == 10.0;
    UnreadableRateIsZero(d.discount);
    assert NumOr0(d.discount) == 0.0;
  }

  /** One row of the summary box, in display order. */
  datatype SummaryRow =
    | SubtotalRow(amount: real)
    | TaxRow(rate: real, amount: real)
    | DiscountRow(amount: real)
    | TotalRow(amount: real)

  /** The summary box: the subtotal and total rows always, the tax row only
      for a positive rate and the discount row only for a positive
      discount, in that order. */
  function SummaryRows(t: Totals): (rows: seq<SummaryRow>)
    ensures 2 <= |rows| <= 4
    ensures rows[0] == SubtotalRow(t.subtotal) && rows[|rows| - 1] == TotalRow(t.total)
    ensures TaxRow(t.taxRate, t.taxAmount) in rows <==> t.taxRate > 0.0
    ensures DiscountRow(t.discountAmount) in rows <==> t.discountAmount > 0.0
    ensures forall i | 0 < i < |rows| - 1 :: rows[i].TaxRow? || rows[i].DiscountRow?
    ensures forall i, j | 0 <= i < |rows| && 0 <= j < |rows| && rows[i].TaxRow? && rows[j].DiscountRow? :: i < j
    ensures |rows| == 2 + (if t.taxRate > 0.0 then 1 else 0) + (if t.discountAmount > 0.0 then 1 else 0)
    ensures forall i | 0 <= i < |rows| && rows[i].TaxRow? :: rows[i] == TaxRow(t.taxRate, t.taxAmount)
    ensures forall i | 0 <= i < |rows| && rows[i].DiscountRow? :: rows[i] == DiscountRow(t.discountAmount)
  {
    var tax := if t.taxRate > 0.0 then [TaxRow(t.taxRate, t.taxAmount)] else [];
    var discount := if t.discountAmount > 0.0 then [DiscountRow(t.discountAmount)] else [];
    [SubtotalRow(t.subtotal)] + tax + discount + [TotalRow(t.total)]
  }

  /** The notes block: present exactly when the notes text is non-empty
      (the source tests the string's truthiness, so white space counts). */
  function NotesBlock(notes: string): (b: Option<string>)
    ensures b.Some? <==> |notes| > 0
    ensures b.Some? ==> b.value == notes
  {
    if notes != "" then Some(notes) else None
  }
}
