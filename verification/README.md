# Invoice editor core, modelled in Dafny

This project models the pure logic inside a small React invoice editor:

- the validator `getInvoiceValidation` with its helpers `isEmpty`,
  `isValidEmail` and `isValidPhone`;
- the edit handlers of the invoice form (replace a field, change an item
  and recompute its amount, add an item, remove an item, normalise tax and
  discount);
- the totals shown under the item table (subtotal, tax, discount, total)
  and the summary rows that are displayed;
- the on-screen preview and the PDF preview page: the fallback screen, the
  table rows, the text the PDF writes in order, and the download name;
- the top-level draft lifecycle: the default draft, loading from browser
  storage, saving on every change, and starting a new invoice.

A draft is an immutable `Invoice.Draft`. Quantity, rate, amount, tax and
discount hold `Val = Str(text) | Num(real)`, because the source stores either
the input text or a number in them. `parseFloat` is modelled by a concrete
prefix parser, `JsNumber.ParseFloat`: it skips leading white space, reads a
sign, digits, a fraction and an exponent, and reads NaN as `None`.
`parseFloat(x) || 0` is `JsNumber.NumOr0`. JavaScript's `<` on strings is
`JsText.StrLt`, the lexicographic order on characters. Dafny's `<` on
sequences means proper prefix, which is not the same order. Money is `real`,
an idealisation of IEEE doubles. The current date (`today`) and the locale
date formatter (`formatDate`) are parameters.

Modules follow the source:

- `JsText`: trim, white space, string order, ISO dates.
- `JsNumber`: values and `parseFloat`.
- `Invoice`: the draft and its field access.
- `Validation`: the validator.
- `InvoiceForm`: the edit handlers.
- `Totals`: money and the summary rows.
- `InvoicePreview`: the on-screen preview.
- `PdfPreview`: the preview page and the PDF text.
- `App`: defaults and storage.
- `Wrappers`: `Option` and `Result`.

Behaviours of the code worth knowing, each stated by the model:

- **Due-date messages.** The "earlier than today" check runs last and
  overwrites the "on or after the invoice date" message
  (`src/utils/validation.js:28-33`, `Validation.DueDateError`).
- **Malformed stored data.** `JSON.parse` is unguarded, so malformed text
  throws and there is no fallback to the default draft
  (`src/App.js:31`, `App.InitialInvoice` returns a failure).
- **Item ids.** Ids can be reissued after the item with the largest id is
  removed (`src/components/InvoiceForm.js:37` and `:46`,
  `InvoiceForm.IdReissuedAfterRemovingMax`).
- **Tax and discount text that does not parse.** It is never flagged,
  because NaN compares false (`src/utils/validation.js:45-51`,
  `Validation.TaxError`, `Validation.DiscountError`).
- **Empty item list.** A draft with no line items can be valid: no rule
  looks at the number of items (`src/utils/validation.js:53-68`,
  `Validation.ValidIffAcceptable`).

## Model

| member | source | states |
|---|---|---|
| JsText.TrimEmptyIffAllSpace | src/utils/validation.js:1 | `String(value).trim() === ''` holds exactly when every character is ECMAScript white space |
| JsText.TrimStart | src/utils/validation.js:1 | the part left after trimming the front is a suffix of the input that does not start with white space |
| JsText.TrimEnd | src/utils/validation.js:1 | the part left after trimming the back is a prefix of the input that does not end with white space |
| JsText.StrLtIsLexLess | src/utils/validation.js:24 | the JavaScript string `<` used by the date rules is the textbook lexicographic order |
| JsText.StrLtIrreflexive | src/utils/validation.js:24 | no date sorts before itself |
| JsText.StrLtTransitive | src/utils/validation.js:28-31 | the string order is transitive |
| JsText.StrLtTrichotomy | src/utils/validation.js:28-31 | for any two strings exactly one of `a < b`, `a == b`, `b < a` holds |
| JsText.StrLtAppend | src/utils/validation.js:28-31 | concatenations whose first parts have equal length compare by the first parts, then by the rest |
| JsText.DigitStringOrder | src/utils/validation.js:24 | digit strings of equal length compare as strings exactly as their numeric values compare |
| JsText.IsoDateOrder | src/utils/validation.js:15-31 | two `YYYY-MM-DD` dates compare as strings exactly as they compare on the calendar |
| JsNumber.ParseFloat | src/components/InvoiceForm.js:25-26 | text without a digit never reads as a number |
| JsNumber.BlankIsNaN | src/utils/validation.js:56-57 | `parseFloat` of blank text is NaN |
| JsNumber.EmptyIsNaN | src/utils/validation.js:56-61 | every value that `isEmpty` accepts reads as NaN |
| JsNumber.LeadingSpaceIgnored | src/components/InvoiceForm.js:25-26 | leading white space does not change what `parseFloat` reads |
| JsNumber.DigitsPrefixValue | src/components/InvoiceForm.js:25-26 | a run of digits followed by text that cannot extend a number reads as its decimal value |
| JsNumber.MinusNegates | src/utils/validation.js:45-49 | a leading minus reads as the negation of the number that follows it |
| Invoice.Put | src/components/InvoiceForm.js:6-9 | `{ ...invoice, [name]: value }` sets the named field, keeps the items and leaves every other field as it was |
| Invoice.DraftDeterminedByFields | src/components/InvoiceForm.js:6-9 | the scalar fields and the item list determine a draft, so a frame stated field by field means nothing else changed |
| InvoiceForm.HandleCompanyChange | src/components/InvoiceForm.js:4-10 | the named field takes the input text; the items and every other field are unchanged |
| InvoiceForm.HandleClientChange | src/components/InvoiceForm.js:12-18 | the same frame as the company handler, for the client inputs |
| InvoiceForm.NormaliseNumber | src/components/InvoiceForm.js:54-55 | empty input stays `''` and anything else becomes a number (never NaN) equal to what `parseFloat(value)` with NaN read as 0 gives; parseable input keeps its value |
| InvoiceForm.HandleMetadataChange | src/components/InvoiceForm.js:50-58 | tax and discount become `''` exactly for empty input and a number otherwise; other fields take the raw text; nothing else changes |
| InvoiceForm.WithRecomputedAmount | src/components/InvoiceForm.js:25-27 | the amount becomes quantity times rate, each read with `parseFloat` with NaN read as 0; nothing else about the item changes |
| InvoiceForm.ChangeItem | src/components/InvoiceForm.js:22-29 | a description edit leaves the amount alone; a quantity or rate edit stores the text and makes the amount consistent; the id is kept |
| InvoiceForm.UpdateItems | src/components/InvoiceForm.js:21-32 | each position holds the changed item when its id matches and the original item otherwise |
| InvoiceForm.HandleItemChange | src/components/InvoiceForm.js:20-34 | length, order and ids are kept, items with another id are untouched, and id uniqueness and amount consistency are preserved |
| InvoiceForm.MaxId | src/components/InvoiceForm.js:37 | `Math.max(...ids, 0)` bounds every id, is non-negative, and is 0 or one of the ids |
| InvoiceForm.AddItem | src/components/InvoiceForm.js:36-43 | exactly one item `{max+1, '', 1, 0, 0}` is appended after an unchanged prefix; its id exceeds every existing id, so uniqueness and amount consistency are preserved |
| InvoiceForm.Without | src/components/InvoiceForm.js:46 | `filter` keeps exactly the items whose id differs |
| InvoiceForm.WithoutConcat | src/components/InvoiceForm.js:46 | filtering distributes over concatenation, so surviving items keep their order |
| InvoiceForm.WithoutAbsent | src/components/InvoiceForm.js:46 | removing an id that no item carries returns the same list |
| InvoiceForm.WithoutKeepsUnique | src/components/InvoiceForm.js:46 | filtering preserves id uniqueness |
| InvoiceForm.WithoutKeepsAmounts | src/components/InvoiceForm.js:46 | filtering preserves amount consistency |
| InvoiceForm.RemoveItem | src/components/InvoiceForm.js:45-48 | keeps exactly the items with another id, in their original order, is a no-op for an absent id, and preserves both list invariants |
| InvoiceForm.IdReissuedAfterRemovingMax | src/components/InvoiceForm.js:37-46 | after removing the item with the largest id m, `addItem` never gives an id above m, and gives m again when m-1 is present or m is 1 |
| Validation.IsBlank | src/utils/validation.js:1 | a text field is blank exactly when every character is white space |
| Validation.IndexOf | src/utils/validation.js:5 | the first `@` position is within bounds and holds `@` |
| Validation.IndexOfFirst | src/utils/validation.js:5 | no `@` occurs before the position found |
| Validation.CountOnce | src/utils/validation.js:5 | a character occurs exactly once exactly when it occurs nowhere but at one known position |
| Validation.IsValidEmail | src/utils/validation.js:3-6 | an e-mail is accepted exactly when it has no white space, exactly one `@` with text before it, and after it a `.` with text on both sides |
| Validation.EmailPatternHasShape | src/utils/validation.js:3-6 | every string the pattern matches has that shape |
| Validation.EmailShapeMatchesPattern | src/utils/validation.js:3-6 | every string of that shape is not blank and matches the pattern |
| Validation.IsValidPhone | src/utils/validation.js:8-11 | a phone is accepted exactly when it has at least 7 characters, all digits, white space or `+ ( ) - .`, and not all of them white space |
| Validation.DigitFreePhoneAccepted | src/utils/validation.js:8-11 | punctuation alone, such as `"-------"`, is a valid phone |
| Validation.BlankPhoneRejected | src/utils/validation.js:8-11 | seven spaces match the pattern but are rejected by the blank test |
| Validation.EmailError | src/utils/validation.js:36 | the e-mail rule fires exactly when the address is not valid, always with "Valid email is required." |
| Validation.PhoneError | src/utils/validation.js:37 | the phone rule fires exactly when the number is not valid, always with "Valid phone is required." |
| Validation.Collect | src/utils/validation.js:21-51 | each key of the error map holds exactly the outcome of its own field's rule |
| Validation.CollectEmptyIff | src/utils/validation.js:68 | the error map is empty exactly when no field rule fired |
| Validation.AssembleFields | src/utils/validation.js:21-51 | the invoice number, date, due date, tax and discount keys hold their rules' outcomes; the form and notes keys are absent |
| Validation.AssemblePartyFields | src/utils/validation.js:35-43 | each company and client key holds its rule's outcome |
| Validation.ItemMap | src/utils/validation.js:54-63 | an item's error object has a key exactly for each failing field, with that field's message |
| Validation.ItemErrors | src/utils/validation.js:64 | an item entry, when present, is never an empty object |
| Validation.MapSeq | src/utils/validation.js:53 | `map` gives one result per element, in order |
| Validation.HasItemErrorsIff | src/utils/validation.js:67 | `some(Boolean)` holds exactly when some entry is not null |
| Validation.Assemble | src/utils/validation.js:53-70 | the result never has a form error and carries the item entries unchanged |
| Validation.ValidationIsValid | src/utils/validation.js:67-68 | the flag computed from the outcomes equals "no key in the error map and every item entry null" |
| Validation.AssembleIsValid | src/utils/validation.js:67-68 | the flag holds exactly when no field rule fired and every item entry is null |
| Validation.Validate | src/utils/validation.js:13-71 | an absent invoice gives exactly the form error, no item entries and `isValid` false; a draft gives no form error and one entry per item |
| Validation.ValidateFieldErrors | src/utils/validation.js:21-51 | each `fieldErrors` key holds exactly what its field's rule produced |
| Validation.ValidateItemErrors | src/utils/validation.js:53-65 | entry i is the item callback applied to item i |
| Validation.ValidateIsValid | src/utils/validation.js:17-68 | with or without an invoice, `isValid` holds exactly when `fieldErrors` is empty and every item entry is null |
| Validation.ValidateDraftIsValid | src/utils/validation.js:67-68 | for a draft, `isValid` holds exactly when no field rule fires and every item's callback returns null |
| Validation.ItemErrorInvalidates | src/utils/validation.js:64-68 | a single item with an error entry makes the whole draft invalid |
| Validation.Required | src/utils/validation.js:21-43 | a required text field is flagged, with its own message, exactly when it is all white space |
| Validation.DateError | src/utils/validation.js:22-26 | a blank date gets only "required"; a filled one is flagged as earlier than today exactly when it sorts before today |
| Validation.DateRuleOnIsoDates | src/utils/validation.js:22-26 | for ISO dates the invoice date is flagged exactly when it is before today on the calendar |
| Validation.DueDateError | src/utils/validation.js:27-33 | a non-empty due date before today always gets "earlier than today"; "on or after the invoice date" survives exactly when the due date is before the date and not before today; "required" survives exactly when it is blank and neither later check fires |
| Validation.DueDateRuleOnIsoDates | src/utils/validation.js:27-33 | for ISO dates the due date passes exactly when it is on or after both today and the invoice date |
| Validation.TaxError | src/utils/validation.js:45-47 | tax is flagged, with its message, exactly when it parses to a number outside [0, 100]; unparseable text and `''` are never flagged |
| Validation.DiscountError | src/utils/validation.js:49-51 | discount is flagged, with its message, exactly when it parses to a negative number; unparseable text is never flagged |
| Validation.QuantityFails | src/utils/validation.js:56-59 | a quantity fails exactly when it does not read as a positive number |
| Validation.RateFails | src/utils/validation.js:60-63 | a rate fails exactly when it does not read as a non-negative number |
| Validation.ItemRule | src/utils/validation.js:53-65 | an item's entry is null exactly for an acceptable item, and otherwise names exactly its failing fields |
| Validation.DateRulesPass | src/utils/validation.js:22-33 | both date rules pass exactly when both dates are filled and neither sorts before what it is checked against |
| Validation.PartyRulesPass | src/utils/validation.js:35-43 | one party's four rules pass exactly when name and address are filled, the e-mail has the expected shape and the phone matches |
| Validation.Rules | src/utils/validation.js:21-51 | no field rule fires exactly when every field is acceptable in plain terms |
| Validation.FieldsValidIff | src/utils/validation.js:21-51 | the error map is empty exactly when the scalar fields are acceptable |
| Validation.ItemsValidIff | src/utils/validation.js:53-65 | every item entry is null exactly when every item is acceptable |
| Validation.ValidIffAcceptable | src/utils/validation.js:13-71 | `isValid` holds exactly for drafts whose fields and items are all acceptable, with no lower bound on the number of items |
| Totals.Reduce | src/components/InvoicePreview.js:6 | the left fold of `reduce` equals the start value plus the sum of the amounts |
| Totals.Subtotal | src/components/InvoicePreview.js:6 | the subtotal is the sum of `parseFloat(amount)` with NaN read as 0 over the items |
| Totals.SubtotalAdditive | src/components/InvoicePreview.js:6 | the subtotal of no items is 0, and the subtotal of two lists put together is the sum of their subtotals |
| Totals.ConsistentSubtotal | src/components/InvoicePreview.js:6 | when every amount is up to date, the subtotal is the sum of quantity times rate |
| Totals.ComputeTotals | src/components/InvoicePreview.js:6-10 | tax rate and discount read as `parseFloat` with NaN read as 0, tax amount times 100 is subtotal times rate, and total plus discount is subtotal plus tax amount |
| Totals.UnreadableRateIsZero | src/components/InvoicePreview.js:7-8 | a blank or unparseable tax or discount counts as 0 |
| Totals.TotalWithoutTaxOrDiscount | src/components/InvoicePreview.js:9-10 | with a zero rate and discount, the tax amount is 0 and the total is the subtotal |
| Totals.DiscountCanMakeTotalNegative | src/components/InvoicePreview.js:10 | nothing is clamped: no items with a discount of 50 give a total of -50 |
| Totals.TenPercentTaxExample | src/components/InvoicePreview.js:6-10 | one line worth 100 with 10% tax and a blank discount gives subtotal 100, tax 10, total 110 |
| Totals.SummaryRows | src/components/InvoicePreview.js:65-84 | the subtotal row comes first and the total row last; the tax row appears exactly for a positive rate and the discount row exactly for a positive discount, with tax before discount; every tax or discount row holds the draft's own values, and there are no other rows |
| Totals.NotesBlock | src/components/InvoicePreview.js:89-94 | the notes block is shown exactly when the notes text is non-empty, and it holds that text |
| InvoicePreview.FormatDate | src/components/InvoicePreview.js:5 | an empty date shows as empty text, and any other date as the locale formatter's text for it |
| InvoicePreview.RowOf | src/components/InvoicePreview.js:51-57 | a row shows the item's id, description and quantity as stored, and its rate and amount read with `parseFloat` with NaN read as 0 |
| InvoicePreview.Rows | src/components/InvoicePreview.js:51-58 | there is one row per item, in item order |
| InvoicePreview.Render | src/components/InvoicePreview.js:4-94 | the preview shows both parties and the invoice number as stored, empty dates as empty and other dates through the formatter, one row per item in order, the summary rows of the draft's totals, and the notes text exactly when non-empty |
| InvoicePreview.AmountColumnIsSum | src/components/InvoicePreview.js:51-56 | the amount column adds up to the sum of the item amounts |
| InvoicePreview.SubtotalIsAmountColumn | src/components/InvoicePreview.js:51-67 | the subtotal row equals the sum of the amount column above it |
| InvoicePreview.ShownConcat | src/components/InvoicePreview.js:65-84 | the signed sum of the visible rows is additive over concatenation |
| InvoicePreview.ShownSummary | src/components/InvoicePreview.js:65-84 | the visible rows add up to the subtotal, plus the tax amount if its row shows, minus the discount if its row shows |
| InvoicePreview.SummaryAddsUp | src/components/InvoicePreview.js:65-84 | with a non-negative rate and discount, the visible rows add up to the total |
| InvoicePreview.HiddenNegativeTax | src/components/InvoicePreview.js:69-74 | a negative tax rate changes the total but hides its row: one line of 100 with tax -10 shows subtotal 100 above a total of 90 |
| PdfPreview.Prefix | src/components/PDFPreviewPage.js:136 | `substring(0, n)` is the first n characters, or the whole of a shorter string |
| PdfPreview.PdfRowOf | src/components/PDFPreviewPage.js:136-142 | the description cell is exactly the first 12 characters of a long description, and all of a short one; quantity as stored; rate and amount read with `parseFloat` with NaN read as 0 |
| PdfPreview.PdfRows | src/components/PDFPreviewPage.js:111-145 | there is one PDF row per item, in item order |
| PdfPreview.FileName | src/components/PDFPreviewPage.js:179 | the name is `Invoice_`, then the invoice number, then `.pdf`, and the number can be read back from it |
| PdfPreview.FileNameInjective | src/components/PDFPreviewPage.js:179 | two drafts download under the same name exactly when their invoice numbers are equal |
| PdfPreview.NotesLines | src/components/PDFPreviewPage.js:169-176 | the PDF writes `Notes:` and the text exactly when the notes are non-empty |
| PdfPreview.Document | src/components/PDFPreviewPage.js:35-180 | the PDF writes both parties, the invoice number line, the date lines with the formatted dates (empty when unset), one row per item in order, the summary rows of the draft's totals, `Notes:` and the notes text exactly when non-empty, and the file name |
| PdfPreview.PreviewPage | src/components/PDFPreviewPage.js:9-26 | the fallback screen is shown exactly when no invoice came with the navigation |
| PdfPreview.DocumentMatchesPreview | src/components/PDFPreviewPage.js:111-176 | the PDF and the page's preview show the same summary rows, the same rates, amounts and quantities row by row, the same parties, and notes in both or in neither |
| App.InitialInvoice | src/App.js:29-32 | a missing key or an empty string gives the default draft, a stored draft is restored, and malformed text is a failure |
| App.Save | src/App.js:34-36 | the storage holds the draft under `invoiceData`; every other key is untouched |
| App.Mount | src/App.js:29-36 | mounting succeeds exactly when initialisation does, and then the draft and the storage agree; every other storage key keeps its value |
| App.HandleInvoiceChange | src/App.js:34-40 | the new draft replaces the old wholesale and is what storage then holds; other keys are untouched |
| App.HandleNewInvoice | src/App.js:42-45 | the stored key is removed and the draft is the default; other keys are untouched |
| App.PreviewNewInvoice | src/components/PDFPreviewPage.js:182-185 | the preview page's button removes the stored key; every other key keeps its value |
| App.ReloadRestoresDraft | src/App.js:29-40 | mounting on the storage an edit left behind gives back the edited draft, with the storage unchanged |
| App.NewInvoiceRestartsFromDefault | src/App.js:29-45 | after either "New Invoice" button the next mount starts from the default draft |
| App.EditsKeepSynced | src/App.js:34-40 | edits keep the draft and the storage in step, and the set of keys unchanged |
| App.DefaultInvoiceWellFormed | src/App.js:8-26 | the default draft has unique ids and up-to-date amounts |
| App.DefaultInvoiceRejected | src/App.js:8-26 | the validator rejects the default draft: dates, company name, e-mail, phone and client address are flagged with their messages, the invoice number and tax pass, and the one item has errors |
| App.BlankDetailsRejected | src/utils/validation.js:22-43 | with empty dates and party details, each of those ten fields is flagged with its own message |
| App.DefaultNumberAccepted | src/utils/validation.js:21 | `INV-001` passes the invoice-number rule |
| App.DefaultRatesPass | src/utils/validation.js:45-51 | the default's `''` tax and discount are not flagged |
| App.DefaultItemRejected | src/utils/validation.js:53-65 | the default item, with a blank description, gets an error entry |
| App.BlankQuantityFlagged | src/components/InvoiceForm.js:23-27 | clearing an item's quantity recomputes its amount to 0 and gives the item a quantity error |

## Left out

- `isEmpty(null)` and `isEmpty(undefined)`, and a missing `items` array: a draft always has every field, so `null` and `undefined` are not modelled.
- `parseFloat("Infinity")` and overflow to infinity: `JsNumber.ParseFloat` reads only finite decimal literals and gives `None` for `Infinity`, which JavaScript reads as a number.
- IEEE-754 rounding: money and parsed numbers are exact reals, so no cent-level rounding behaviour is claimed.
- Characters are Dafny `char` values: UTF-16 surrogate pairs and any Unicode normalisation are not modelled in trim, the regexes, `substring` or the string order `<`: `JsText.StrLt` compares code points, where JavaScript compares UTF-16 code units, so the two differ for characters outside the Basic Multilingual Plane against U+E000 to U+FFFF.
- `toFixed(2)`, the `${taxRate}%` text, `quantity.toString()` and other number-to-text formatting: rows and summaries carry numbers, not their printed text.
- `new Date(value).toLocaleDateString()` is the parameter `formatDate`; the clock (`new Date().toISOString()`) is the parameter `today`.
- `JSON.stringify` and `JSON.parse`: storage maps a key to a saved draft, an empty string, or malformed text; the text encoding itself is not modelled.
- The React effect's timing: `App.HandleInvoiceChange` and `App.Mount` run the save effect right after the draft changes, but `App.HandleNewInvoice` gives the storage before the effect runs, with the key removed. In the source, `setInvoice(defaultInvoice)` changes the draft, so the effect then normally stores the default draft again (`src/App.js:34-36`); either way the next mount starts from the default draft.
- jsPDF layout: coordinates, fonts, colours, rectangles, `maxWidth` wrapping and the page-break arithmetic; the PDF is modelled as its ordered text.
- `window.print`, routing and `navigate`; the "Back to Invoice" button has no state effect.
- `src/components/PDFExport.js` is not part of this model: it holds navigation buttons only, and no file passes it a validity flag.
- JSX markup, CSS classes and the alternating row colours.
