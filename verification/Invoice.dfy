/** The invoice draft: the record the editor builds, previews and stores.
    Money-like fields (`quantity`, `rate`, `amount`, `tax`, `discount`) hold
    either input text or a number, as in the source. */
module Invoice {
  import opened JsNumber

  datatype Item = Item(id: int, description: string, quantity: Val, rate: Val, amount: Val)

  /** The editable fields of a line item, as named by `handleItemChange`. */
  datatype ItemField = Description | Quantity | Rate

  /** The top-level scalar fields of a draft, each bound to one form input. */
  datatype FieldName =
    | InvoiceNumber | Date | DueDate
    | CompanyName | CompanyEmail | CompanyPhone | CompanyAddress
    | ClientName | ClientEmail | ClientPhone | ClientAddress
    | Tax | Discount | Notes
  {
    /** Tax and discount may hold a number; every other field is text. */
    predicate IsNumeric() {
      this == Tax || this == Discount
    }
  }

  datatype Draft = Draft(
    invoiceNumber: string,
    date: string,
    dueDate: string,
    companyName: string,
    companyEmail: string,
    companyPhone: string,
    companyAddress: string,
    clientName: string,
    clientEmail: string,
    clientPhone: string,
    clientAddress: string,
    items: seq<Item>,
    tax: Val,
    discount: Val,
    notes: string)

  /** `invoice[name]` for a scalar field; text fields read as `Str`. */
  function Get(d: Draft, f: FieldName): Val {
    match f
    case InvoiceNumber => Str(d.invoiceNumber)
    case Date => Str(d.date)
    case DueDate => Str(d.dueDate)
    case CompanyName => Str(d.companyName)
    case CompanyEmail => Str(d.companyEmail)
    case CompanyPhone => Str(d.companyPhone)
    case CompanyAddress => Str(d.companyAddress)
    case ClientName => Str(d.clientName)
    case ClientEmail => Str(d.clientEmail)
    case ClientPhone => Str(d.clientPhone)
    case ClientAddress => Str(d.clientAddress)
    case Tax => d.tax
    case Discount => d.discount
    case Notes => Str(d.notes)
  }

  /** `{ ...invoice, [name]: value }` for a scalar field. Only the numeric
      fields can take a number. */
  function Put(d: Draft, f: FieldName, v: Val): (r: Draft)
    requires v.Str? || f.IsNumeric()
    ensures Get(r, f) == v
    ensures r.items == d.items
    ensures forall g: FieldName | g != f :: Get(r, g) == Get(d, g)
  {
    match f
    case InvoiceNumber => d.(invoiceNumber := v.text)
    case Date => d.(date := v.text)
    case DueDate => d.(dueDate := v.text)
    case CompanyName => d.(companyName := v.text)
    case CompanyEmail => d.(companyEmail := v.text)
    case CompanyPhone => d.(companyPhone := v.text)
    case CompanyAddress => d.(companyAddress := v.text)
    case ClientName => d.(clientName := v.text)
    case ClientEmail => d.(clientEmail := v.text)
    case ClientPhone => d.(clientPhone := v.text)
    case ClientAddress => d.(clientAddress := v.text)
    case Tax => d.(tax := v)
    case Discount => d.(discount := v)
    case Notes => d.(notes := v.text)
  }

  /** The scalar fields and the item list determine a draft completely, so a
      frame stated with `Get` and `items` says that nothing else changed. */
  lemma DraftDeterminedByFields(a: Draft, b: Draft)
    requires a.items == b.items
    requires forall f: FieldName :: Get(a, f) == Get(b, f)
    ensures a == b
  {
    assert Get(a, InvoiceNumber) == Get(b, InvoiceNumber);
    assert Get(a, Date) == Get(b, Date);
    assert Get(a, DueDate) == Get(b, DueDate);
    assert Get(a, CompanyName) == Get(b, CompanyName);
    assert Get(a, CompanyEmail) == Get(b, CompanyEmail);
    assert Get(a, CompanyPhone) == Get(b, CompanyPhone);
    assert Get(a, CompanyAddress) == Get(b, CompanyAddress);
    assert Get(a, ClientName) == Get(b, ClientName);
    assert Get(a, ClientEmail) == Get(b, ClientEmail);
    assert Get(a, ClientPhone) == Get(b, ClientPhone);
    assert Get(a, ClientAddress) == Get(b, ClientAddress);
    assert Get(a, Tax) == Get(b, Tax);
    assert Get(a, Discount) == Get(b, Discount);
    assert Get(a, Notes) == Get(b, Notes);
  }

  /** Every line item has its own id. */
  predicate UniqueIds(items: seq<Item>) {
    forall i, j | 0 <= i < j < |items| :: items[i].id != items[j].id
  }

  /** The stored amount is what `parseFloat(quantity) || 0` times
      `parseFloat(rate) || 0` gives. */
  predicate AmountMatches(it: Item) {
    it.amount == Num(NumOr0(it.quantity) * NumOr0(it.rate))
  }

  predicate AmountsConsistent(items: seq<Item>) {
    forall i | 0 <= i < |items| :: AmountMatches(items[i])
  }
}
