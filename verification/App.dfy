/** The editor's top level: the default draft and the small state machine
    that keeps the current draft in browser storage. Storage is a map from
    key to what `getItem` would return; what the JSON text encodes is
    abstracted to the draft itself, or to a text `JSON.parse` rejects. */
module App {
  import opened Wrappers
  import opened JsText
  import opened JsNumber
  import opened Invoice
  import opened Validation
  import opened InvoiceForm

  /** The draft a new session starts from. */
  const DefaultInvoice: Draft := Draft(
    "INV-001", "", "",
    "", "", "", "",
    "", "", "", "",
    [Item(1, "", Str(""), Str(""), Num(0.0))],
    Str(""), Str(""), "")

  /** The storage key the draft is saved under. */
  const StorageKey: string := "invoiceData"

  /** A stored value: the serialisation of a draft, the empty string (which
      the source treats as absent), or text that is not valid JSON. */
  datatype Stored = Saved(draft: Draft) | EmptyText | Malformed

  type Storage = map<string, Stored>

  /** The component's state: the draft being edited and the storage. */
  datatype State = State(invoice: Draft, storage: Storage)

  /** `JSON.parse` throws on malformed text; nothing catches it, so the
      editor fails to start. */
  datatype StartError = UnparseableDraft

  /** The `useState` initialiser: the stored draft when there is one, the
      default when the key is missing or holds the empty string. */
  function InitialInvoice(storage: Storage): (r: Result<Draft, StartError>)
    ensures StorageKey !in storage ==> r == Success(DefaultInvoice)
    ensures StorageKey in storage && storage[StorageKey] == EmptyText ==> r == Success(DefaultInvoice)
    ensures StorageKey in storage && storage[StorageKey].Saved? ==> r == Success(storage[StorageKey].draft)
    ensures r.Failure? <==> StorageKey in storage && storage[StorageKey] == Malformed
  {
    if StorageKey !in storage then Success(DefaultInvoice)
    else
      match storage[StorageKey]
      case EmptyText => Success(DefaultInvoice)
      case Saved(d) => Success(d)
      case Malformed => Failure(UnparseableDraft)
  }

  /** The save effect: after every change of draft, the storage holds it
      under `StorageKey`. */
  function Save(invoice: Draft, storage: Storage): (s: Storage)
    ensures StorageKey in s && s[StorageKey] == Saved(invoice)
    ensures forall k | k != StorageKey :: (k in s <==> k in storage)
    ensures forall k | k != StorageKey && k in storage :: s[k] == storage[k]
  {
    storage[StorageKey := Saved(invoice)]
  }

  /** The draft in the component and the one in storage agree. */
  predicate Synced(s: State) {
    StorageKey in s.storage && s.storage[StorageKey] == Saved(s.invoice)
  }

  /** First render: initialise the draft, then run the save effect once. */
  function Mount(storage: Storage): (r: Result<State, StartError>)
    ensures r.Success? ==> Synced(r.value)
    ensures r.Failure? <==> InitialInvoice(storage).Failure?
    ensures r.Success? ==> r.value.invoice == InitialInvoice(storage).value
    ensures r.Success? ==> forall k | k != StorageKey :: (k in r.value.storage <==> k in storage)
    ensures r.Success? ==> forall k | k != StorageKey && k in storage :: r.value.storage[k] == storage[k]
  {
    match InitialInvoice(storage)
    case Success(d) => Success(State(d, Save(d, storage)))
    case Failure(e) => Failure(e)
  }

  /** `handleInvoiceChange`: the new draft replaces the old one wholesale and
      the save effect stores it. */
  function HandleInvoiceChange(s: State, updated: Draft): (r: State)
    ensures r.invoice == updated && Synced(r)
    ensures forall k | k != StorageKey :: (k in r.storage <==> k in s.storage)
    ensures forall k | k != StorageKey && k in s.storage :: r.storage[k] == s.storage[k]
  {
    State(updated, Save(updated, s.storage))
  }

  /** `handleNewInvoice`: the stored draft is removed and the editor goes
      back to the default draft. */
  function HandleNewInvoice(s: State): (r: State)
    ensures r.invoice == DefaultInvoice && StorageKey !in r.storage
    ensures forall k | k != StorageKey :: (k in r.storage <==> k in s.storage)
    ensures forall k | k != StorageKey && k in s.storage :: r.storage[k] == s.storage[k]
  {
    State(DefaultInvoice, s.storage - {StorageKey})
  }

  /** The preview page's "New Invoice" button: it removes the stored draft
      before navigating back to the editor. */
  function PreviewNewInvoice(storage: Storage): (r: Storage)
    ensures StorageKey !in r
    ensures forall k | k != StorageKey :: (k in r <==> k in storage)
    ensures forall k | k != StorageKey && k in storage :: r[k] == storage[k]
  {
    storage - {StorageKey}
  }

  /** A reload restores the draft last saved: mounting on the storage left by
      an edit gives back the edited draft, with the storage unchanged. */
  lemma ReloadRestoresDraft(s: State, updated: Draft)
    ensures Mount(HandleInvoiceChange(s, updated).storage) ==
              Success(HandleInvoiceChange(s, updated))
  {
    var r := HandleInvoiceChange(s, updated);
    assert Save(updated, r.storage) == r.storage;
  }

  /** After "New Invoice" on either page, the next mount starts from the
      default draft. */
  lemma NewInvoiceRestartsFromDefault(s: State, storage: Storage)
    ensures Mount(HandleNewInvoice(s).storage).Success?
    ensures Mount(HandleNewInvoice(s).storage).value.invoice == DefaultInvoice
    ensures Mount(PreviewNewInvoice(storage)).Success?
    ensures Mount(PreviewNewInvoice(storage)).value.invoice == DefaultInvoice
  {
  }

  /** Every edit keeps the component and the storage in step. */
  lemma EditsKeepSynced(s: State, updated: Draft)
    requires Synced(s)
    ensures Synced(HandleInvoiceChange(s, updated))
    ensures HandleInvoiceChange(s, updated).storage.Keys == s.storage.Keys
  {
  }

  /** The default draft meets the list invariants the form maintains. */
  lemma DefaultInvoiceWellFormed()
    ensures UniqueIds(DefaultInvoice.items)
    ensures AmountsConsistent(DefaultInvoice.items)
  {
    var it := DefaultInvoice.items[0];
    assert NumOr0(it.quantity) == 0.0 by {
      BlankIsNaN("");
    }
  }

  /** The default draft is not a valid invoice: its invoice number passes,
      but its dates, names, addresses, e-mails and phones are blank, and so
      is its one item's description. */
  lemma DefaultInvoiceRejected(today: string)
    ensures var v := Validate(Some(DefaultInvoice), today);
            && !v.isValid
            && Lookup(v.fieldErrors, Field(InvoiceNumber)) == None
            && Lookup(v.fieldErrors, Field(Date)) == Some(DateRequired)
            && Lookup(v.fieldErrors, Field(DueDate)) == Some(DueDateRequired)
            && Lookup(v.fieldErrors, Field(CompanyName)) == Some(CompanyNameRequired)
            && Lookup(v.fieldErrors, Field(CompanyEmail)) == Some(EmailRequired)
            && Lookup(v.fieldErrors, Field(CompanyPhone)) == Some(PhoneRequired)
            && Lookup(v.fieldErrors, Field(ClientAddress)) == Some(ClientAddressRequired)
            && Lookup(v.fieldErrors, Field(Tax)) == None
            && |v.itemsErrors| == 1 && v.itemsErrors[0].Some?
  {
    var d := DefaultInvoice;
    var o := Rules(d, today);
    var itemsErrors := MapSeq(ItemErrors, d.items);
    assert Validate(Some(d), today) == Assemble(o, itemsErrors);
    AssembleFields(o, itemsErrors);
    AssemblePartyFields(o, itemsErrors);
    DefaultNumberAccepted(today);
    BlankDetailsRejected(d, today);
    DefaultRatesPass(today);
    DefaultItemRejected();
    assert itemsErrors[0].Some?;
    AssembleIsValid(o, itemsErrors);
  }

  /** A draft whose dates and party details are all empty is flagged on
      each of them, with the field's own message. */
  lemma BlankDetailsRejected(d: Draft, today: string)
    requires d.date == "" && d.dueDate == ""
    requires d.companyName == "" && d.companyEmail == "" && d.companyPhone == "" && d.companyAddress == ""
    requires d.clientName == "" && d.clientEmail == "" && d.clientPhone == "" && d.clientAddress == ""
    ensures var o := Rules(d, today);
            && o.date == Some(DateRequired) && o.dueDate == Some(DueDateRequired)
            && o.companyName == Some(CompanyNameRequired) && o.companyEmail == Some(EmailRequired)
            && o.companyPhone == Some(PhoneRequired) && o.companyAddress == Some(CompanyAddressRequired)
            && o.clientName == Some(ClientNameRequired) && o.clientEmail == Some(EmailRequired)
            && o.clientPhone == Some(PhoneRequired) && o.clientAddress == Some(ClientAddressRequired)
  {
    assert IsBlank("");
  }

  lemma DefaultNumberAccepted(today: string)
    ensures Rules(DefaultInvoice, today).invoiceNumber.None?
  {
    var n := DefaultInvoice.invoiceNumber;
    assert !AllSpace(n) by {
      assert !IsSpace(n[0]);
    }
  }

  /** The default's blank tax and discount are not checked at all. */
  lemma DefaultRatesPass(today: string)
    ensures Rules(DefaultInvoice, today).tax.None? && Rules(DefaultInvoice, today).discount.None?
  {
  }

  lemma DefaultItemRejected()
    ensures ItemErrors(DefaultInvoice.items[0]).Some?
  {
    assert IsBlank("");
  }

  /** Clearing an item's quantity recomputes its amount to 0 and gives the
      item a quantity error (so, by `ItemErrorInvalidates`, any draft holding
      it is invalid). */
  lemma BlankQuantityFlagged(it: Item)
    ensures var r := ChangeItem(it, Quantity, "");
            && r.amount == Num(0.0)
            && ItemErrors(r).Some? && Quantity in ItemErrors(r).value
  {
    BlankIsNaN("");
  }
}
