/** `getInvoiceValidation`: a total, pure function from a draft (or its
    absence) and the current date to field errors, one item-error entry per
    line item and an overall validity flag. The current date is a parameter:
    the source reads it from the clock as a UTC `YYYY-MM-DD` string. */
module Validation {
  import opened Wrappers
  import opened JsText
  import opened JsNumber
  import opened Invoice

  /** The keys of `fieldErrors`: the whole form, or one scalar field. */
  datatype ErrorKey = Form | Field(name: FieldName)

  datatype Validation = Validation(
    fieldErrors: map<ErrorKey, Message>,
    itemsErrors: seq<Option<map<ItemField, Message>>>,
    isValid: bool)

  /** The fixed messages of the validator, one per rule. */
  datatype Message =
    | MissingInvoice
    | InvoiceNumberRequired
    | DateRequired
    | DateBeforeToday
    | DueDateRequired
    | DueBeforeDate
    | DueBeforeToday
    | CompanyNameRequired
    | CompanyAddressRequired
    | ClientNameRequired
    | ClientAddressRequired
    | EmailRequired
    | PhoneRequired
    | TaxOutOfRange
    | DiscountNegative
    | DescriptionRequired
    | QuantityNotPositive
    | RateNegative

  /** The text shown for each message. */
  function Text(m: Message): string {
    match m
    case MissingInvoice => "Invoice data is missing."
    case InvoiceNumberRequired => "Invoice number is required."
    case DateRequired => "Invoice date is required."
    case DateBeforeToday => "Invoice date cannot be earlier than today."
    case DueDateRequired => "Due date is required."
    case DueBeforeDate => "Due date must be on or after the invoice date."
    case DueBeforeToday => "Due date cannot be earlier than today."
    case CompanyNameRequired => "Company name is required."
    case CompanyAddressRequired => "Company address is required."
    case ClientNameRequired => "Client name is required."
    case ClientAddressRequired => "Client address is required."
    case EmailRequired => "Valid email is required."
    case PhoneRequired => "Valid phone is required."
    case TaxOutOfRange => "Tax must be between 0 and 100."
    case DiscountNegative => "Discount cannot be negative."
    case DescriptionRequired => "Description is required."
    case QuantityNotPositive => "Quantity must be greater than 0."
    case RateNegative => "Rate must be 0 or greater."
  }

  /** `isEmpty` on a text field: blank exactly when every character is
      white space. */
  function IsBlank(s: string): (b: bool)
    ensures b <==> AllSpace(s)
  {
    TrimEmptyIffAllSpace(s);
    IsEmpty(Str(s))
  }

  // ---------------------------------------------------------------- e-mail

  predicate EmailChar(c: char) {
    !IsSpace(c) && c != '@'
  }

  /** The regular expression `^[^\s@]+@[^\s@]+\.[^\s@]+$`: a split
      `x@y.z` with `x`, `y`, `z` non-empty and free of white space and `@`
      (the `.` before `z` may be any dot after `y`'s first character). */
  predicate MatchesEmailPattern(s: string) {
    exists i, j | 0 < i && i + 1 < j && j + 1 < |s| ::
      && s[i] == '@' && s[j] == '.'
      && forall k | 0 <= k < |s| && k != i :: EmailChar(s[k])
  }

  /** `isValidEmail`: not blank and matching the pattern, which comes to
      having the plain-words `EmailShape`. */
  function IsValidEmail(s: string): (b: bool)
    ensures b <==> EmailShape(s)
  {
    EmailPatternIff(s);
    !IsBlank(s) && MatchesEmailPattern(s)
  }

  function Count(s: string, c: char): (n: nat)
    ensures n <= |s|
  {
    if |s| == 0 then 0 else (if s[0] == c then 1 else 0) + Count(s[1..], c)
  }

  /** The position of the first `c` in `s`, or `|s|` when there is none. */
  function IndexOf(s: string, c: char): (i: nat)
    ensures i <= |s|
    ensures i < |s| ==> s[i] == c
  {
    if |s| == 0 then 0
    else if s[0] == c then 0
    else 1 + IndexOf(s[1..], c)
  }

  /** No `c` occurs before `IndexOf(s, c)`. */
  lemma {:induction false} IndexOfFirst(s: string, c: char)
    ensures forall k | 0 <= k < IndexOf(s, c) :: s[k] != c
  {
    if |s| > 0 && s[0] != c {
      IndexOfFirst(s[1..], c);
      forall k | 1 <= k < IndexOf(s, c)
        ensures s[k] != c
      {
        assert s[k] == s[1..][k - 1];
      }
    }
  }

  /** `c` occurs exactly once, at position `i`. */
  lemma {:induction false} CountOnce(s: string, c: char, i: nat)
    requires i < |s| && s[i] == c
    ensures Count(s, c) == 1 <==> forall k | 0 <= k < |s| && k != i :: s[k] != c
  {
    if i == 0 {
      CountZero(s[1..], c);
      forall k | 1 <= k < |s|
        ensures s[k] == s[1..][k - 1]
      {
      }
    } else {
      CountOnce(s[1..], c, i - 1);
      if s[0] == c {
        assert Count(s[1..], c) >= 1 by {
          CountZero(s[1..], c);
          assert s[1..][i - 1] == c;
        }
      }
      forall k | 1 <= k < |s|
        ensures s[k] == s[1..][k - 1]
      {
      }
    }
  }

  lemma {:induction false} CountZero(s: string, c: char)
    ensures Count(s, c) == 0 <==> forall k | 0 <= k < |s| :: s[k] != c
  {
    if |s| > 0 {
      CountZero(s[1..], c);
      forall k | 1 <= k < |s|
        ensures s[k] == s[1..][k - 1]
      {
      }
    }
  }

  /** The plain-words reading of the e-mail rule: no white space, exactly one
      `@` with something before it, and after it a `.` with something on both
      sides. */
  ghost predicate EmailShape(s: string) {
    && (forall k | 0 <= k < |s| :: !IsSpace(s[k]))
    && Count(s, '@') == 1
    && 0 < IndexOf(s, '@') < |s|
    && var domain := s[IndexOf(s, '@') + 1..];
       exists j | 0 < j < |domain| - 1 :: domain[j] == '.'
  }

  lemma EmailPatternIff(s: string)
    ensures !IsBlank(s) && MatchesEmailPattern(s) <==> EmailShape(s)
  {
    if MatchesEmailPattern(s) {
      EmailPatternHasShape(s);
    }
    if EmailShape(s) {
      EmailShapeMatchesPattern(s);
    }
  }

  lemma EmailPatternHasShape(s: string)
    requires MatchesEmailPattern(s)
    ensures EmailShape(s)
  {
    var i, j :| && 0 < i && i + 1 < j && j + 1 < |s| && s[i] == '@' && s[j] == '.'
                && forall k | 0 <= k < |s| && k != i :: EmailChar(s[k]);
    SingleAt(s, i);
    DotAfter(s, i, j);
  }

  /** An `@` at `i` with only e-mail characters elsewhere is the only `@`,
      and the string has no white space. */
  lemma SingleAt(s: string, i: nat)
    requires i < |s| && s[i] == '@'
    requires forall k | 0 <= k < |s| && k != i :: EmailChar(s[k])
    ensures forall k | 0 <= k < |s| :: !IsSpace(s[k])
    ensures Count(s, '@') == 1 && IndexOf(s, '@') == i
  {
    forall k | 0 <= k < |s|
      ensures !IsSpace(s[k]) && (k != i ==> s[k] != '@')
    {
      if k != i {
        assert EmailChar(s[k]);
      }
    }
    CountOnce(s, '@', i);
    IndexOfFirst(s, '@');
  }

  lemma DotAfter(s: string, i: nat, j: nat)
    requires i + 1 < j && j + 1 < |s| && s[j] == '.'
    ensures var domain := s[i + 1..]; exists k | 0 < k < |domain| - 1 :: domain[k] == '.'
  {
    var domain := s[i + 1..];
    assert domain[j - i - 1] == '.';
  }

  lemma EmailShapeMatchesPattern(s: string)
    requires EmailShape(s)
    ensures !IsBlank(s) && MatchesEmailPattern(s)
  {
    var i := IndexOf(s, '@');
    CountOnce(s, '@', i);
    var domain := s[i + 1..];
    var j :| 0 < j < |domain| - 1 && domain[j] == '.';
    assert s[i + 1 + j] == '.';
    assert !IsSpace(s[0]);
    forall k | 0 <= k < |s| && k != i
      ensures EmailChar(s[k])
    {
    }
    assert 0 < i && i + 1 < i + 1 + j && i + 1 + j + 1 < |s| && s[i] == '@' && s[i + 1 + j] == '.';
  }

  // ---------------------------------------------------------------- phone

  /** The punctuation the phone pattern allows: `+ ( ) - .`. */
  predicate PhonePunctuation(c: char) {
    c == '+' || c == '(' || c == ')' || c == '-' || c == '.'
  }

  predicate PhoneChar(c: char) {
    PhonePunctuation(c) || IsSpace(c) || IsDigit(c)
  }

  /** The regular expression `^[+()\-.\s\d]{7,}$`. */
  predicate MatchesPhonePattern(s: string) {
    |s| >= 7 && forall k | 0 <= k < |s| :: PhoneChar(s[k])
  }

  /** `isValidPhone`: accepted exactly when the number is at least seven
      characters of digits, white space and `+ ( ) - .`, not all of them
      white space. No digit is needed. */
  function IsValidPhone(s: string): (b: bool)
    ensures b <==>
              && |s| >= 7
              && (forall k | 0 <= k < |s| :: PhoneChar(s[k]))
              && (exists k | 0 <= k < |s| :: !IsSpace(s[k]))
  {
    !IsBlank(s) && MatchesPhonePattern(s)
  }

  /** Punctuation alone is a valid phone number: the pattern never asks for
      a digit (so `"-------"` is accepted). */
  lemma DigitFreePhoneAccepted(s: string)
    requires |s| >= 7 && forall k | 0 <= k < |s| :: PhonePunctuation(s[k])
    ensures IsValidPhone(s)
  {
    TrimEmptyIffAllSpace(s);
    assert !IsSpace(s[0]);
  }

  /** Seven or more white-space characters match the pattern, but the blank
      test in front of it rejects them. */
  lemma BlankPhoneRejected(s: string)
    requires |s| >= 7 && AllSpace(s)
    ensures MatchesPhonePattern(s) && !IsValidPhone(s)
  {
    TrimEmptyIffAllSpace(s);
  }

  // ---------------------------------------------------------------- rules

  /** A plain required field is flagged, with its own message, exactly when
      it is all white space. */
  function Required(s: string, message: Message): (r: Option<Message>)
    ensures r.Some? <==> AllSpace(s)
    ensures r.Some? ==> r.value == message
  {
    if IsBlank(s) then Some(message) else None
  }

  /** Invoice date: an empty date gets only "required"; a filled one is
      flagged, with "earlier than today", exactly when it sorts before
      today. */
  function DateError(d: Draft, today: string): (r: Option<Message>)
    ensures AllSpace(d.date) ==> r == Some(DateRequired)
    ensures !AllSpace(d.date) ==> (r.Some? <==> StrLt(d.date, today))
    ensures !AllSpace(d.date) && r.Some? ==> r.value == DateBeforeToday
  {
    if IsBlank(d.date) then Some(DateRequired)
    else if StrLt(d.date, today) then Some(DateBeforeToday)
    else None
  }

  /** Due date: three checks run in order, each overwriting the message of
      the one before: blank, before the invoice date (both dates non-empty),
      before today (due date non-empty). The message is decided by the last
      check that fires: "earlier than today" beats "on or after the invoice
      date", which beats "required". */
  function DueDateError(d: Draft, today: string): (e: Option<Message>)
    ensures var beforeToday := d.dueDate != "" && StrLt(d.dueDate, today);
            var beforeDate := d.date != "" && d.dueDate != "" && StrLt(d.dueDate, d.date);
            && (beforeToday ==> e == Some(DueBeforeToday))
            && (e == Some(DueBeforeDate) <==> beforeDate && !beforeToday)
            && (e == Some(DueDateRequired) <==> AllSpace(d.dueDate) && !beforeDate && !beforeToday)
            && (e.None? <==> !AllSpace(d.dueDate) && !beforeDate && !beforeToday)
  {
    var afterRequired := if IsBlank(d.dueDate) then Some(DueDateRequired) else None;
    var afterOrder :=
      if d.date != "" && d.dueDate != "" && StrLt(d.dueDate, d.date) then Some(DueBeforeDate)
      else afterRequired;
    if d.dueDate != "" && StrLt(d.dueDate, today) then Some(DueBeforeToday)
    else afterOrder
  }

  /** Tax: when not `''`, a parsed value outside [0, 100] is an error. NaN
      compares false both ways, so unparseable text passes, and the `!== ''`
      guard is subsumed because `''` reads as NaN: tax is flagged exactly
      when it reads as a number outside [0, 100]. */
  function TaxError(tax: Val): (r: Option<Message>)
    ensures r.Some? <==> exists x :: ParseNum(tax) == Some(x) && (x < 0.0 || x > 100.0)
    ensures r.None? <==> TaxAcceptable(tax)
    ensures ParseNum(tax).None? ==> r.None?
    ensures r.Some? ==> r.value == TaxOutOfRange
  {
    BlankIsNaN("");
    assert ParseNum(tax).Some? ==> ParseNum(tax) == Some(ParseNum(tax).value);
    if tax != Str("") && ParseNum(tax).Some? && (ParseNum(tax).value < 0.0 || ParseNum(tax).value > 100.0)
    then Some(TaxOutOfRange)
    else None
  }

  /** Discount: when not `''`, a parsed negative value is an error. So
      discount is flagged exactly when it reads as a negative number. */
  function DiscountError(discount: Val): (r: Option<Message>)
    ensures r.Some? <==> exists x :: ParseNum(discount) == Some(x) && x < 0.0
    ensures r.None? <==> DiscountAcceptable(discount)
    ensures ParseNum(discount).None? ==> r.None?
    ensures r.Some? ==> r.value == DiscountNegative
  {
    BlankIsNaN("");
    assert ParseNum(discount).Some? ==> ParseNum(discount) == Some(ParseNum(discount).value);
    if discount != Str("") && ParseNum(discount).Some? && ParseNum(discount).value < 0.0
    then Some(DiscountNegative)
    else None
  }

  /** `fieldErrors[key]`, absent keys reading as `None`. */
  function Lookup<K>(m: map<K, Message>, k: K): Option<Message> {
    if k in m then Some(m[k]) else None
  }

  /** The keys a field rule can write: every field except the notes. */
  const RuledKeys: set<ErrorKey> := {
    Field(InvoiceNumber), Field(Date), Field(DueDate),
    Field(CompanyName), Field(CompanyEmail), Field(CompanyPhone), Field(CompanyAddress),
    Field(ClientName), Field(ClientEmail), Field(ClientPhone), Field(ClientAddress),
    Field(Tax), Field(Discount)}

  /** The outcome of each field rule, one per ruled field. */
  datatype Outcomes = Outcomes(
    invoiceNumber: Option<Message>, date: Option<Message>, dueDate: Option<Message>,
    companyName: Option<Message>, companyEmail: Option<Message>,
    companyPhone: Option<Message>, companyAddress: Option<Message>,
    clientName: Option<Message>, clientEmail: Option<Message>,
    clientPhone: Option<Message>, clientAddress: Option<Message>,
    tax: Option<Message>, discount: Option<Message>)
  {
    /** The outcome recorded for `key`; the form key and the notes have no rule. */
    function Pick(key: ErrorKey): Option<Message> {
      match key
      case Form => None
      case Field(f) =>
        match f
        case InvoiceNumber => invoiceNumber
        case Date => date
        case DueDate => dueDate
        case CompanyName => companyName
        case CompanyEmail => companyEmail
        case CompanyPhone => companyPhone
        case CompanyAddress => companyAddress
        case ClientName => clientName
        case ClientEmail => clientEmail
        case ClientPhone => clientPhone
        case ClientAddress => clientAddress
        case Tax => tax
        case Discount => discount
        case Notes => None
    }

    /** No rule fired. */
    predicate AllPass() {
      && invoiceNumber.None? && date.None? && dueDate.None?
      && companyName.None? && companyEmail.None? && companyPhone.None? && companyAddress.None?
      && clientName.None? && clientEmail.None? && clientPhone.None? && clientAddress.None?
      && tax.None? && discount.None?
    }
  }

  /** The sequence of `if (<rule fires>) fieldErrors[name] = <message>`
      statements: each rule writes only its own key, so the resulting map
      holds exactly the outcomes that fired. */
  function Collect(o: Outcomes): (m: map<ErrorKey, Message>)
    ensures forall k :: Lookup(m, k) == o.Pick(k)
  {
    map k | k in RuledKeys && o.Pick(k).Some? :: o.Pick(k).value
  }

  /** The error map is empty exactly when no rule fired. */
  lemma CollectEmptyIff(o: Outcomes)
    ensures Collect(o) == map[] <==> o.AllPass()
  {
    if o.AllPass() {
      AllPassCollectsNothing(o);
    } else {
      FiredRuleCollected(o);
    }
  }

  lemma AllPassCollectsNothing(o: Outcomes)
    requires o.AllPass()
    ensures Collect(o) == map[]
  {
    var m := Collect(o);
    assert forall k :: k !in m;
  }

  lemma FiredRuleCollected(o: Outcomes)
    requires !o.AllPass()
    ensures Collect(o) != map[]
  {
    var f: FieldName :|
      f in {InvoiceNumber, Date, DueDate, CompanyName, CompanyEmail, CompanyPhone, CompanyAddress,
            ClientName, ClientEmail, ClientPhone, ClientAddress, Tax, Discount}
      && o.Pick(Field(f)).Some?;
    assert Lookup(Collect(o), Field(f)).Some?;
  }

  /** `!isValidEmail(value)` as a rule outcome. */
  function EmailError(s: string): (r: Option<Message>)
    ensures r.None? <==> IsValidEmail(s)
    ensures r.Some? ==> r.value == EmailRequired
  {
    if IsValidEmail(s) then None else Some(EmailRequired)
  }

  /** `!isValidPhone(value)` as a rule outcome. */
  function PhoneError(s: string): (r: Option<Message>)
    ensures r.None? <==> IsValidPhone(s)
    ensures r.Some? ==> r.value == PhoneRequired
  {
    if IsValidPhone(s) then None else Some(PhoneRequired)
  }

  /** Every field rule of the validator applied to `d`, in source order; the
      three due-date checks are folded into `DueDateError`. No rule fires
      exactly when the fields are acceptable in plain terms. */
  function Rules(d: Draft, today: string): (o: Outcomes)
    ensures o.AllPass() <==> FieldsAcceptable(d, today)
  {
    DateRulesPass(d, today);
    PartyRulesPass(d.companyName, d.companyEmail, d.companyPhone, d.companyAddress,
                   CompanyNameRequired, CompanyAddressRequired);
    PartyRulesPass(d.clientName, d.clientEmail, d.clientPhone, d.clientAddress,
                   ClientNameRequired, ClientAddressRequired);
    Outcomes(
      Required(d.invoiceNumber, InvoiceNumberRequired),
      DateError(d, today),
      DueDateError(d, today),
      Required(d.companyName, CompanyNameRequired),
      EmailError(d.companyEmail),
      PhoneError(d.companyPhone),
      Required(d.companyAddress, CompanyAddressRequired),
      Required(d.clientName, ClientNameRequired),
      EmailError(d.clientEmail),
      PhoneError(d.clientPhone),
      Required(d.clientAddress, ClientAddressRequired),
      TaxError(d.tax),
      DiscountError(d.discount))
  }

  /** `isEmpty(item.quantity) || Number.isNaN(quantity) || quantity <= 0`.
      Blank input needs no rule of its own, since it reads as NaN: a
      quantity fails exactly when it does not read as a positive number. */
  function QuantityFails(v: Val): (b: bool)
    ensures b <==> !QuantityAcceptable(v)
  {
    if IsEmpty(v) then EmptyIsNaN(v); true
    else
      assert ParseNum(v).Some? ==> ParseNum(v) == Some(ParseNum(v).value);
      ParseNum(v).None? || ParseNum(v).value <= 0.0
  }

  /** `isEmpty(item.rate) || Number.isNaN(rate) || rate < 0`: a rate fails
      exactly when it does not read as a non-negative number. */
  function RateFails(v: Val): (b: bool)
    ensures b <==> !RateAcceptable(v)
  {
    if IsEmpty(v) then EmptyIsNaN(v); true
    else
      assert ParseNum(v).Some? ==> ParseNum(v) == Some(ParseNum(v).value);
      ParseNum(v).None? || ParseNum(v).value < 0.0
  }

  /** The errors object of one item, from which of its three rules fired. */
  function ItemMap(descriptionFails: bool, quantityFails: bool, rateFails: bool): (m: map<ItemField, Message>)
    ensures Description in m <==> descriptionFails
    ensures Quantity in m <==> quantityFails
    ensures Rate in m <==> rateFails
    ensures descriptionFails ==> m[Description] == DescriptionRequired
    ensures quantityFails ==> m[Quantity] == QuantityNotPositive
    ensures rateFails ==> m[Rate] == RateNegative
    ensures m == map[] <==> !descriptionFails && !quantityFails && !rateFails
  {
    var none: map<ItemField, Message> := map[];
    var e1 := if descriptionFails then none[Description := DescriptionRequired] else none;
    var e2 := if quantityFails then e1[Quantity := QuantityNotPositive] else e1;
    var e3 := if rateFails then e2[Rate := RateNegative] else e2;
    assert descriptionFails ==> Description in e3;
    assert quantityFails ==> Quantity in e3;
    assert rateFails ==> Rate in e3;
    e3
  }

  /** The item callback: collect the item's errors; `null` when none. */
  function ItemErrors(it: Item): (r: Option<map<ItemField, Message>>)
    ensures r.Some? ==> r.value != map[]
  {
    var m := ItemMap(IsBlank(it.description), QuantityFails(it.quantity), RateFails(it.rate));
    if m != map[] then Some(m) else None
  }

  /** `Array.prototype.map`: `f` applied to every element, in order. */
  function MapSeq<A, B>(f: A -> B, s: seq<A>): (r: seq<B>)
    ensures |r| == |s|
    ensures forall i | 0 <= i < |s| :: r[i] == f(s[i])
  {
    if s == [] then [] else [f(s[0])] + MapSeq(f, s[1..])
  }

  /** `itemsErrors.some(e => e !== null)`. */
  predicate HasItemErrors(errors: seq<Option<map<ItemField, Message>>>) {
    if errors == [] then false else errors[0].Some? || HasItemErrors(errors[1..])
  }

  /** `some` finds an entry exactly when one exists. */
  lemma {:induction false} HasItemErrorsIff(errors: seq<Option<map<ItemField, Message>>>)
    ensures HasItemErrors(errors) <==> exists i | 0 <= i < |errors| :: errors[i].Some?
  {
    if errors != [] {
      HasItemErrorsIff(errors[1..]);
      if errors[0].None? && HasItemErrors(errors[1..]) {
        var i :| 0 <= i < |errors[1..]| && errors[1..][i].Some?;
        assert errors[i + 1].Some?;
      }
      if !HasItemErrors(errors) {
        forall i | 0 <= i < |errors|
          ensures errors[i].None?
        {
          if i > 0 {
            assert errors[i] == errors[1..][i - 1];
          }
        }
      }
    }
  }

  /** The result record of the validator for a given draft: the field
      rules' outcomes collected into the error map, the item entries, and
      the flag `isValid`, computed from the outcomes themselves rather than
      from the map (`ValidationIsValid` shows the two readings agree). */
  function Assemble(outcomes: Outcomes, itemsErrors: seq<Option<map<ItemField, Message>>>): (v: Validation)
    ensures Form !in v.fieldErrors && v.itemsErrors == itemsErrors
  {
    Validation(Collect(outcomes), itemsErrors, outcomes.AllPass() && !HasItemErrors(itemsErrors))
  }

  /** The invoice's own fields' keys hold those fields' outcomes; the form
      key and the notes are never written. */
  lemma AssembleFields(o: Outcomes, itemsErrors: seq<Option<map<ItemField, Message>>>)
    ensures var m := Assemble(o, itemsErrors).fieldErrors;
            && Lookup(m, Form) == None && Lookup(m, Field(Notes)) == None
            && Lookup(m, Field(InvoiceNumber)) == o.invoiceNumber
            && Lookup(m, Field(Date)) == o.date && Lookup(m, Field(DueDate)) == o.dueDate
            && Lookup(m, Field(Tax)) == o.tax && Lookup(m, Field(Discount)) == o.discount
  {
  }

  /** Each party field's key holds that field's outcome. */
  lemma AssemblePartyFields(o: Outcomes, itemsErrors: seq<Option<map<ItemField, Message>>>)
    ensures var m := Assemble(o, itemsErrors).fieldErrors;
            && Lookup(m, Field(CompanyName)) == o.companyName && Lookup(m, Field(CompanyEmail)) == o.companyEmail
            && Lookup(m, Field(CompanyPhone)) == o.companyPhone && Lookup(m, Field(CompanyAddress)) == o.companyAddress
            && Lookup(m, Field(ClientName)) == o.clientName && Lookup(m, Field(ClientEmail)) == o.clientEmail
            && Lookup(m, Field(ClientPhone)) == o.clientPhone && Lookup(m, Field(ClientAddress)) == o.clientAddress
  {
  }

  /** `isValid` is `Object.keys(fieldErrors).length === 0 && !hasItemErrors`. */
  lemma ValidationIsValid(outcomes: Outcomes, itemsErrors: seq<Option<map<ItemField, Message>>>)
    ensures var v := Assemble(outcomes, itemsErrors);
            v.isValid <==> v.fieldErrors == map[] && forall i | 0 <= i < |itemsErrors| :: itemsErrors[i].None?
  {
    CollectEmptyIff(outcomes);
    HasItemErrorsIff(itemsErrors);
  }

  /** The flag in terms of the rule outcomes: no rule fired and no item
      entry is present. */
  lemma AssembleIsValid(outcomes: Outcomes, itemsErrors: seq<Option<map<ItemField, Message>>>)
    ensures Assemble(outcomes, itemsErrors).isValid <==>
              outcomes.AllPass() && forall i | 0 <= i < |itemsErrors| :: itemsErrors[i].None?
  {
    HasItemErrorsIff(itemsErrors);
  }

  /** `getInvoiceValidation(invoice)`, with the clock's date as `today`. */
  function Validate(invoice: Option<Draft>, today: string): (v: Validation)
    ensures invoice.None? ==> v.fieldErrors == map[Form := MissingInvoice] && v.itemsErrors == [] && !v.isValid
    ensures invoice.Some? ==> Form !in v.fieldErrors && |v.itemsErrors| == |invoice.value.items|
  {
    match invoice
    case None =>
      var fieldErrors := map[Form := MissingInvoice];
      assert Form in fieldErrors;
      Validation(fieldErrors, [], false)
    case Some(d) =>
      Assemble(Rules(d, today), MapSeq(ItemErrors, d.items))
  }

  /** Each field key holds exactly the outcome of that field's rule. */
  lemma ValidateFieldErrors(d: Draft, today: string)
    ensures forall k :: Lookup(Validate(Some(d), today).fieldErrors, k) == Rules(d, today).Pick(k)
  {
  }

  /** The item entries are the item callback applied to each item, in order. */
  lemma ValidateItemErrors(d: Draft, today: string)
    ensures var v := Validate(Some(d), today);
            forall i | 0 <= i < |v.itemsErrors| :: v.itemsErrors[i] == ItemErrors(d.items[i])
  {
    assert Validate(Some(d), today).itemsErrors == MapSeq(ItemErrors, d.items);
  }

  /** `isValid` holds exactly when no field error and no item error was
      recorded, whether or not an invoice was given. */
  lemma ValidateIsValid(invoice: Option<Draft>, today: string)
    ensures var v := Validate(invoice, today);
            v.isValid <==> v.fieldErrors == map[] && forall i | 0 <= i < |v.itemsErrors| :: v.itemsErrors[i].None?
  {
    if invoice.None? {
      assert Form in Validate(invoice, today).fieldErrors;
    } else {
      var d := invoice.value;
      ValidationIsValid(Rules(d, today), MapSeq(ItemErrors, d.items));
    }
  }

  // ---------------------------------------------------------------- properties
  //
  // By `Validate`'s contract, `fieldErrors[name]` holds exactly what the
  // rule for `name` produces, so the rules below are stated on them.

  /** For well-formed ISO dates the string comparison is the calendar one. */
  lemma DateRuleOnIsoDates(d: Draft, today: string)
    requires IsIsoDate(d.date) && IsIsoDate(today)
    ensures DateError(d, today).Some? <==> DayKey(d.date) < DayKey(today)
  {
    IsoDateOrder(d.date, today);
    assert !AllSpace(d.date) by {
      assert !IsSpace(d.date[0]);
    }
  }

  /** With ISO dates throughout, the due date passes exactly when it is on
      or after both today and the invoice date. */
  lemma DueDateRuleOnIsoDates(d: Draft, today: string)
    requires IsIsoDate(d.date) && IsIsoDate(d.dueDate) && IsIsoDate(today)
    ensures DueDateError(d, today).None? <==>
              DayKey(today) <= DayKey(d.dueDate) && DayKey(d.date) <= DayKey(d.dueDate)
  {
    IsoDateOrder(d.dueDate, today);
    IsoDateOrder(d.dueDate, d.date);
    assert !AllSpace(d.dueDate) by {
      assert !IsSpace(d.dueDate[0]);
    }
    assert d.date != "" && d.dueDate != "";
  }

  /** A line item the validator accepts: a non-blank description, a
      quantity that reads as a positive number and a rate that reads as a
      non-negative one. */
  ghost predicate ItemAcceptable(it: Item) {
    !AllSpace(it.description) && QuantityAcceptable(it.quantity) && RateAcceptable(it.rate)
  }

  /** A quantity that reads as a positive number. */
  ghost predicate QuantityAcceptable(v: Val) {
    exists q :: ParseNum(v) == Some(q) && q > 0.0
  }

  /** A rate that reads as a non-negative number. */
  ghost predicate RateAcceptable(v: Val) {
    exists r :: ParseNum(v) == Some(r) && r >= 0.0
  }

  /** Each item error names exactly the failing fields, and the entry is
      `null` exactly for an acceptable item. */
  lemma ItemRule(it: Item)
    ensures ItemErrors(it).None? <==> ItemAcceptable(it)
    ensures ItemErrors(it).Some? ==>
              && (Description in ItemErrors(it).value <==> AllSpace(it.description))
              && (Quantity in ItemErrors(it).value <==> !QuantityAcceptable(it.quantity))
              && (Rate in ItemErrors(it).value <==> !RateAcceptable(it.rate))
  {
  }

  /** A tax the validator accepts: it does not read as a number outside [0, 100]. */
  ghost predicate TaxAcceptable(tax: Val) {
    !exists x :: ParseNum(tax) == Some(x) && (x < 0.0 || x > 100.0)
  }

  /** A discount the validator accepts: it does not read as a negative number. */
  ghost predicate DiscountAcceptable(discount: Val) {
    !exists x :: ParseNum(discount) == Some(x) && x < 0.0
  }

  /** The scalar fields of a draft the validator accepts, rule by rule in
      plain terms. */
  ghost predicate FieldsAcceptable(d: Draft, today: string) {
    && !AllSpace(d.invoiceNumber)
    && !AllSpace(d.date) && !StrLt(d.date, today)
    && !AllSpace(d.dueDate) && !StrLt(d.dueDate, today) && !StrLt(d.dueDate, d.date)
    && !AllSpace(d.companyName) && EmailShape(d.companyEmail) && IsValidPhone(d.companyPhone)
    && !AllSpace(d.companyAddress)
    && !AllSpace(d.clientName) && EmailShape(d.clientEmail) && IsValidPhone(d.clientPhone)
    && !AllSpace(d.clientAddress)
    && TaxAcceptable(d.tax) && DiscountAcceptable(d.discount)
  }

  /** A draft the validator accepts. */
  ghost predicate Acceptable(d: Draft, today: string) {
    FieldsAcceptable(d, today) && forall i | 0 <= i < |d.items| :: ItemAcceptable(d.items[i])
  }

  /** The date rules pass exactly when both dates are filled in and
      neither sorts before the dates it is checked against. */
  lemma DateRulesPass(d: Draft, today: string)
    ensures DateError(d, today).None? <==> !AllSpace(d.date) && !StrLt(d.date, today)
    ensures DueDateError(d, today).None? <==>
              !AllSpace(d.dueDate) && !StrLt(d.dueDate, today) && !StrLt(d.dueDate, d.date)
  {
    if !AllSpace(d.dueDate) {
      assert d.dueDate != "";
    }
  }

  /** The rules for one party (company or client) pass exactly when the name
      and address are filled in, the e-mail has the expected shape and the
      phone number matches. */
  lemma PartyRulesPass(name: string, email: string, phone: string, address: string,
                       nameMessage: Message, addressMessage: Message)
    ensures (Required(name, nameMessage).None? && EmailError(email).None?
             && PhoneError(phone).None? && Required(address, addressMessage).None?)
            <==> !AllSpace(name) && EmailShape(email) && IsValidPhone(phone) && !AllSpace(address)
  {
  }

  /** The error map of a draft is empty exactly when its scalar fields are
      acceptable. */
  lemma FieldsValidIff(d: Draft, today: string)
    ensures Collect(Rules(d, today)) == map[] <==> FieldsAcceptable(d, today)
  {
    CollectEmptyIff(Rules(d, today));
  }

  /** Every item entry is `null` exactly when every item is acceptable. */
  lemma ItemsValidIff(items: seq<Item>)
    ensures (forall i | 0 <= i < |items| :: ItemErrors(items[i]).None?) <==>
            (forall i | 0 <= i < |items| :: ItemAcceptable(items[i]))
  {
    forall i | 0 <= i < |items|
      ensures ItemErrors(items[i]).None? <==> ItemAcceptable(items[i])
    {
      ItemRule(items[i]);
    }
  }

  /** `isValid` holds exactly for acceptable drafts. */
  lemma ValidIffAcceptable(d: Draft, today: string)
    ensures Validate(Some(d), today).isValid <==> Acceptable(d, today)
  {
    ValidateDraftIsValid(d, today);
    ItemsValidIff(d.items);
  }

  /** One failing item is enough to make a draft invalid. */
  lemma ItemErrorInvalidates(d: Draft, today: string, i: nat)
    requires i < |d.items| && ItemErrors(d.items[i]).Some?
    ensures !Validate(Some(d), today).isValid
  {
    ValidateDraftIsValid(d, today);
  }

  lemma ValidateDraftIsValid(d: Draft, today: string)
    ensures Validate(Some(d), today).isValid <==>
              Rules(d, today).AllPass() && forall i | 0 <= i < |d.items| :: ItemErrors(d.items[i]).None?
  {
    var itemsErrors := MapSeq(ItemErrors, d.items);
    assert Validate(Some(d), today) == Assemble(Rules(d, today), itemsErrors);
    AssembleIsValid(Rules(d, today), itemsErrors);
  }
}
