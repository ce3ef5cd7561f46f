/** The edit handlers of the invoice form. Each one builds the next draft
    from the current one; the caller hands it to the store. */
module InvoiceForm {
  import opened JsNumber
  import opened Invoice

  /** `handleCompanyChange`: the input's `name` selects the field and its
      text replaces the old value. */
  function HandleCompanyChange(d: Draft, name: FieldName, value: string): (r: Draft)
    ensures Get(r, name) == Str(value)
    ensures r.items == d.items
    ensures forall g: FieldName | g != name :: Get(r, g) == Get(d, g)
  {
    Put(d, name, Str(value))
  }

  /** `handleClientChange`: the same spread-and-replace as the company
      handler, wired to the client inputs. */
  function HandleClientChange(d: Draft, name: FieldName, value: string): (r: Draft)
    ensures Get(r, name) == Str(value)
    ensures r.items == d.items
    ensures forall g: FieldName | g != name :: Get(r, g) == Get(d, g)
  {
    Put(d, name, Str(value))
  }

  /** `value === '' ? '' : (parseFloat(value) || 0)`: empty input stays
      empty, anything else becomes a number, unparseable text becoming 0. */
  function NormaliseNumber(value: string): (v: Val)
    ensures v == Str("") <==> value == ""
    ensures v != Str("") ==> v.Num?
    ensures NumOr0(v) == NumOr0(Str(value))
    ensures ParseNum(Str(value)).Some? ==> v == Num(ParseNum(Str(value)).value)
  {
    if value == "" then Str("") else Num(NumOr0(Str(value)))
  }

  /** `handleMetadataChange`: tax and discount are normalised to a number or
      `''`; invoice number, dates and notes keep the raw text. */
  function HandleMetadataChange(d: Draft, name: FieldName, value: string): (r: Draft)
    ensures r.items == d.items
    ensures forall g: FieldName | g != name :: Get(r, g) == Get(d, g)
    ensures !name.IsNumeric() ==> Get(r, name) == Str(value)
    ensures name.IsNumeric() ==> (Get(r, name) == Str("") <==> value == "")
    ensures name.IsNumeric() && value != "" ==> Get(r, name) == Num(NumOr0(Str(value)))
  {
    Put(d, name, if name.IsNumeric() then NormaliseNumber(value) else Str(value))
  }

  /** `updatedItem.amount = quantity * rate`, each operand read with
      `parseFloat(x) || 0`. */
  function WithRecomputedAmount(it: Item): (r: Item)
    ensures AmountMatches(r)
    ensures r.(amount := it.amount) == it
  {
    var quantity := NumOr0(it.quantity);
    var rate := NumOr0(it.rate);
    it.(amount := Num(quantity * rate))
  }

  /** The `items.map` callback for the matching item: set the field and,
      for quantity or rate, recompute the amount from the updated item. */
  function ChangeItem(it: Item, field: ItemField, value: string): (r: Item)
    ensures r.id == it.id
    ensures field == Description ==> r == it.(description := value)
    ensures field == Quantity ==> r.description == it.description && r.quantity == Str(value) && r.rate == it.rate
    ensures field == Rate ==> r.description == it.description && r.quantity == it.quantity && r.rate == Str(value)
    ensures field != Description ==> AmountMatches(r)
    ensures AmountMatches(it) ==> AmountMatches(r)
  {
    match field
    case Description => it.(description := value)
    case Quantity => WithRecomputedAmount(it.(quantity := Str(value)))
    case Rate => WithRecomputedAmount(it.(rate := Str(value)))
  }

  /** `items.map(item => item.id === id ? <changed> : item)`. */
  function UpdateItems(items: seq<Item>, id: int, field: ItemField, value: string): (r: seq<Item>)
    ensures |r| == |items|
    ensures forall i | 0 <= i < |items| ::
              r[i] == if items[i].id == id then ChangeItem(items[i], field, value) else items[i]
  {
    if |items| == 0 then []
    else
      [if items[0].id == id then ChangeItem(items[0], field, value) else items[0]]
      + UpdateItems(items[1..], id, field, value)
  }

  /** `handleItemChange(id, field, value)`: every item whose id matches is
      changed; the list keeps its length, order and ids. */
  function HandleItemChange(d: Draft, id: int, field: ItemField, value: string): (r: Draft)
    ensures forall g: FieldName :: Get(r, g) == Get(d, g)
    ensures |r.items| == |d.items|
    ensures forall i | 0 <= i < |d.items| :: r.items[i].id == d.items[i].id
    ensures forall i | 0 <= i < |d.items| && d.items[i].id != id :: r.items[i] == d.items[i]
    ensures forall i | 0 <= i < |d.items| && d.items[i].id == id ::
              r.items[i] == ChangeItem(d.items[i], field, value)
    ensures UniqueIds(d.items) ==> UniqueIds(r.items)
    ensures AmountsConsistent(d.items) ==> AmountsConsistent(r.items)
  {
    d.(items := UpdateItems(d.items, id, field, value))
  }

  /** `Math.max(...ids, 0)`. */
  function MaxId(items: seq<Item>): (m: int)
    ensures m >= 0
    ensures forall i | 0 <= i < |items| :: items[i].id <= m
    ensures m == 0 || exists i | 0 <= i < |items| :: items[i].id == m
  {
    if |items| == 0 then 0
    else
      var rest := MaxId(items[1..]);
      if items[0].id > rest then items[0].id
      else
        assert rest == 0 || exists i | 0 <= i < |items| :: items[i].id == rest by {
          if rest != 0 {
            var k :| 0 <= k < |items[1..]| && items[1..][k].id == rest;
            assert items[k + 1].id == rest;
          }
        }
        rest
  }

  /** The fresh line item `addItem` appends. */
  function NewItem(id: int): Item {
    Item(id, "", Num(1.0), Num(0.0), Num(0.0))
  }

  /** `addItem`: one new item at the end, with an id one above the largest
      (or 1 for an empty list); everything before it is untouched. */
  function AddItem(d: Draft): (r: Draft)
    ensures forall g: FieldName :: Get(r, g) == Get(d, g)
    ensures |r.items| == |d.items| + 1 && r.items[..|d.items|] == d.items
    ensures r.items[|d.items|] == NewItem(MaxId(d.items) + 1)
    ensures forall i | 0 <= i < |d.items| :: d.items[i].id < r.items[|d.items|].id
    ensures UniqueIds(d.items) ==> UniqueIds(r.items)
    ensures AmountsConsistent(d.items) ==> AmountsConsistent(r.items)
  {
    var r := d.(items := d.items + [NewItem(MaxId(d.items) + 1)]);
    assert r.items[..|d.items|] == d.items;
    r
  }

  /** `items.filter(item => item.id !== id)`. */
  function Without(items: seq<Item>, id: int): (r: seq<Item>)
    ensures |r| <= |items|
    ensures forall x :: x in r <==> x in items && x.id != id
  {
    if |items| == 0 then []
    else if items[0].id != id then [items[0]] + Without(items[1..], id)
    else Without(items[1..], id)
  }

  /** Filtering distributes over concatenation, so it keeps the surviving
      items in their original order. */
  lemma {:induction false} WithoutConcat(a: seq<Item>, b: seq<Item>, id: int)
    ensures Without(a + b, id) == Without(a, id) + Without(b, id)
  {
    if |a| == 0 {
      assert a + b == b;
    } else {
      assert (a + b)[0] == a[0];
      assert (a + b)[1..] == a[1..] + b;
      WithoutConcat(a[1..], b, id);
    }
  }

  /** Removing an id no item carries changes nothing. */
  lemma {:induction false} WithoutAbsent(items: seq<Item>, id: int)
    requires forall i | 0 <= i < |items| :: items[i].id != id
    ensures Without(items, id) == items
  {
    if |items| > 0 {
      WithoutAbsent(items[1..], id);
      assert [items[0]] + items[1..] == items;
    }
  }

  lemma {:induction false} WithoutKeepsUnique(items: seq<Item>, id: int)
    requires UniqueIds(items)
    ensures UniqueIds(Without(items, id))
  {
    if |items| > 0 {
      var rest := Without(items[1..], id);
      WithoutKeepsUnique(items[1..], id);
      if items[0].id != id {
        forall y | y in rest
          ensures y.id != items[0].id
        {
          assert y in items[1..];
          var k :| 0 <= k < |items[1..]| && items[1..][k] == y;
          assert items[k + 1] == y;
        }
        ConsKeepsUnique(items[0], rest);
      }
    }
  }

  /** Putting an item with a fresh id in front keeps the ids unique. */
  lemma ConsKeepsUnique(x: Item, rest: seq<Item>)
    requires UniqueIds(rest)
    requires forall y | y in rest :: y.id != x.id
    ensures UniqueIds([x] + rest)
  {
    var r := [x] + rest;
    forall i, j | 0 <= i < j < |r|
      ensures r[i].id != r[j].id
    {
      assert r[j] == rest[j - 1];
      if i > 0 {
        assert r[i] == rest[i - 1];
      }
    }
  }

  lemma {:induction false} WithoutKeepsAmounts(items: seq<Item>, id: int)
    requires AmountsConsistent(items)
    ensures AmountsConsistent(Without(items, id))
  {
    var r := Without(items, id);
    forall i | 0 <= i < |r|
      ensures AmountMatches(r[i])
    {
      assert r[i] in items;
    }
  }

  /** `removeItem(id)`: drops exactly the items carrying `id`; the others keep
      their order, and the invariants of the list survive. */
  function RemoveItem(d: Draft, id: int): (r: Draft)
    ensures forall g: FieldName :: Get(r, g) == Get(d, g)
    ensures r.items == Without(d.items, id)
    ensures forall x :: x in r.items <==> x in d.items && x.id != id
    ensures (forall i | 0 <= i < |d.items| :: d.items[i].id != id) ==> r == d
    ensures UniqueIds(d.items) ==> UniqueIds(r.items)
    ensures AmountsConsistent(d.items) ==> AmountsConsistent(r.items)
  {
    var r := d.(items := Without(d.items, id));
    assert (forall i | 0 <= i < |d.items| :: d.items[i].id != id) ==> r == d by {
      if forall i | 0 <= i < |d.items| :: d.items[i].id != id {
        WithoutAbsent(d.items, id);
      }
    }
    assert UniqueIds(d.items) ==> UniqueIds(r.items) by {
      if UniqueIds(d.items) {
        WithoutKeepsUnique(d.items, id);
      }
    }
    assert AmountsConsistent(d.items) ==> AmountsConsistent(r.items) by {
      if AmountsConsistent(d.items) {
        WithoutKeepsAmounts(d.items, id);
      }
    }
    r
  }

  /** Ids are unique within the list but not over its history: removing the
      item with the largest id `m` and adding a new one never yields an id
      above `m`, and yields `m` again when `m - 1` is still present (or
      `m` is 1). */
  lemma IdReissuedAfterRemovingMax(d: Draft)
    requires MaxId(d.items) >= 1
    ensures AddItem(RemoveItem(d, MaxId(d.items))).items[|RemoveItem(d, MaxId(d.items)).items|].id <= MaxId(d.items)
    ensures (MaxId(d.items) == 1 || exists i | 0 <= i < |d.items| :: d.items[i].id == MaxId(d.items) - 1) ==>
              AddItem(RemoveItem(d, MaxId(d.items))).items[|RemoveItem(d, MaxId(d.items)).items|].id == MaxId(d.items)
  {
    var m := MaxId(d.items);
    var rest := Without(d.items, m);
    assert RemoveItem(d, m).items == rest;
    assert AddItem(RemoveItem(d, m)).items[|rest|].id == MaxId(rest) + 1;
    assert MaxId(rest) < m by {
      if MaxId(rest) != 0 {
        var k :| 0 <= k < |rest| && rest[k].id == MaxId(rest);
        assert rest[k] in d.items;
      }
    }
    if exists i | 0 <= i < |d.items| :: d.items[i].id == m - 1 {
      var i :| 0 <= i < |d.items| && d.items[i].id == m - 1;
      assert d.items[i] in rest;
    }
  }
}
