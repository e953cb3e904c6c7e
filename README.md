# Purchase management — a verified model

`PurchaseManagement` is a React component that keeps a purchase ledger. It
has four pieces of state:

- an ordered list of purchase records, each with nine fields;
- a draft form of nine strings;
- the position being edited, or none;
- four search inputs.

It offers these operations:

- add, edit, delete and cancel through the form;
- filter the table by keyword (product code or product name), exact date,
  supplier and warehouse note, and total the quantities and amounts shown;
- offer each field's distinct earlier values as input suggestions;
- load the whole list from a JSON file, normalising every element to the nine
  fields.

This project models that component in Dafny and proves what its handlers and
derived views do.

## Modules

| file | module | models |
|---|---|---|
| `wrappers.dfy` | `Wrappers` | `Option` and `Result` |
| `numbers.dfy` | `Numbers` | `parseFloat(s) \|\| 0` (`ParseOrZero`) and `Number.prototype.toString` for plain decimals (`NumberToString`) |
| `numbers.dfy` | `NumberFacts` | what those two functions do on typical inputs, and their round trip |
| `text.dfy` | `Text` | `toLowerCase` (`Lower`) and `includes` (`Contains`) |
| `records.dfy` | `Records` | the record, the draft form, committing a draft (`Coerce`) and loading a record into the form (`Load`) |
| `records.dfy` | `RecordFacts` | facts about committing and loading, including the edit round trip |
| `view.dfy` | `PurchaseView` | the four search predicates, the filtered view, the totals and the datalist suggestions |
| `view.dfy` | `ViewFacts` | facts about the filtered view, the totals and the suggestions |
| `file_import.dfy` | `FileImport` | the parsed JSON value, the element normalisation of the file import, and the JSON a record is saved as |
| `file_import.dfy` | `ImportFacts` | facts about import and export |
| `purchase_management.dfy` | `Component` | the component's state as a class whose methods are the event handlers |

### Numbers

Quantities and prices are exact `real`s. `parseFloat` is modelled as JavaScript
defines it:

- leading white space is skipped, using JavaScript's white-space set;
- an optional sign is read;
- then the longest prefix of the form `[digits][.[digits]][(e|E)[+-]digits]` holding at least one digit
  before the exponent, so ".5" and "5." are numbers too;
- no digit at all gives NaN.

`|| 0` maps NaN and 0 to 0.

`toString` is modelled for numbers with at most 20 fraction digits, written
without an exponent. That is the range in which the round trip
`parseFloat(x.toString()) || 0 == x` is proved.

## Model

| member | source | states |
|---|---|---|
| Numbers.ParseOrZero | src/components/purchasemanagement.jsx:69-70 | `parseFloat(s) \|\| 0`: a text with no number (NaN) gives 0, otherwise the number read |
| NumberFacts.ParseOrZeroDigits | src/components/purchasemanagement.jsx:69 | "3" commits as 3 |
| NumberFacts.ParseOrZeroNoNumber | src/components/purchasemanagement.jsx:69-70 | text that does not start with a sign, a ".", a digit or white space (such as "bad", "undefined", "", but not the "Infinity" literal, which is left out with floating point) commits as 0 |
| NumberFacts.ParseOrZeroSkipsSpace | src/components/purchasemanagement.jsx:69-70 | leading white space does not change the number read |
| NumberFacts.ParseOrZeroLeadingDigits | src/components/purchasemanagement.jsx:69-70 | digits followed by text that cannot continue a number read as those digits (e.g. "12kg" is 12) |
| NumberFacts.ParseOrZeroSignedDecimal | src/components/purchasemanagement.jsx:69-70 | "-2.5" commits as -2.5 |
| NumberFacts.ParseOrZeroExponent | src/components/purchasemanagement.jsx:69-70 | digits `d`, "e" and digits `e` read as d times 10 to the power e |
| NumberFacts.ParseOrZeroOfNumberToString | src/components/purchasemanagement.jsx:88-89 | a quantity or price written into the form with `toString` and read back with `parseFloat(x) \|\| 0` is the same number |
| Records.Draft.Set | src/components/purchasemanagement.jsx:62 | `{ ...prev, [name]: value }`: the named field holds the value and every other field is unchanged |
| Records.Coerce | src/components/purchasemanagement.jsx:66-70 | the record a submitted draft becomes: quantity and price through `parseFloat(x) \|\| 0`, the rest as typed; see RecordFacts.CoerceFields |
| Records.Load | src/components/purchasemanagement.jsx:86-90 | the draft an edited record loads as: the numbers through `toString`, the rest as stored; see RecordFacts.LoadDisplays |
| Numbers.NumberToString | src/components/purchasemanagement.jsx:88-89 | `toString` of a number without exponent: a sign for negatives, the whole digits, and, for numbers with at most 20 fraction digits, the fraction digits without trailing zeros; see NumberFacts.ParseOrZeroOfNumberToString |
| RecordFacts.CoerceFields | src/components/purchasemanagement.jsx:67-71 | the committed record holds quantity and price as `ParseOrZero` of the typed text, and every other field exactly as typed |
| RecordFacts.LoadDisplays | src/components/purchasemanagement.jsx:86-90 | editing loads each text field as stored and quantity and price as their `toString` text |
| RecordFacts.EditRoundTrip | src/components/purchasemanagement.jsx:67-91 | loading a record into the form and committing it unchanged gives back the same record (for numbers with at most 20 fraction digits) |
| RecordFacts.BlankDraftIsBlank | src/components/purchasemanagement.jsx:41-52 | the cleared form has all nine fields empty |
| RecordFacts.ValuesDetermineRecord | src/components/purchasemanagement.jsx:67-71 | a record is determined by the values of its nine fields |
| Text.Lower | src/components/purchasemanagement.jsx:137 | lower-casing keeps the length and lower-cases each character |
| Text.Contains | src/components/purchasemanagement.jsx:137-142 | `includes`: the needle is a prefix of the text or of one of its suffixes; see Text.ContainsIffOccurs |
| Text.ContainsIffOccurs | src/components/purchasemanagement.jsx:137 | `includes` holds exactly when the needle occurs at some position of the text |
| Text.ContainsEmptyNeedle | src/components/purchasemanagement.jsx:141-142 | an empty search input is contained in every field |
| PurchaseView.Matches | src/components/purchasemanagement.jsx:136-144 | a record matches when all four search predicates hold: the keyword occurs in the product code or name, the date input is empty or equal to the date, and the supplier and note inputs occur in those fields, all but the date ignoring case; see ViewFacts.MatchesNoCriteria |
| PurchaseView.TotalQuantity | src/components/purchasemanagement.jsx:151 | the sum of the quantities of a view, as `reduce` from 0; see ViewFacts.TotalsAppend |
| PurchaseView.TotalAmount | src/components/purchasemanagement.jsx:152 | the sum of quantity times price over a view, as `reduce` from 0; see ViewFacts.TotalsAppend |
| PurchaseView.Filtered | src/components/purchasemanagement.jsx:135-145 | the view is no longer than the list, and every record in it matches all four criteria |
| PurchaseView.MatchingIndices | src/components/purchasemanagement.jsx:135-145 | the positions of the matching records: in range, ascending, and every match is among them |
| ViewFacts.FilteredMembers | src/components/purchasemanagement.jsx:135-145 | a record is in the view exactly when it is in the list and matches |
| ViewFacts.FilteredIsSubsequence | src/components/purchasemanagement.jsx:135-145 | the view is the list taken at the ascending positions of the matching records |
| ViewFacts.FilteredAppend | src/components/purchasemanagement.jsx:135 | filtering a concatenation concatenates the filtered parts, so the view keeps list order |
| ViewFacts.MatchesNoCriteria | src/components/purchasemanagement.jsx:136-144 | with all four search inputs empty every record matches |
| ViewFacts.FilterNoCriteria | src/components/purchasemanagement.jsx:135-145 | with all four search inputs empty the view is the whole list |
| ViewFacts.TotalsAppend | src/components/purchasemanagement.jsx:151-152 | both totals add up over concatenation |
| ViewFacts.TotalsSingle | src/components/purchasemanagement.jsx:151-152 | the totals of one record are its quantity and its quantity times price |
| ViewFacts.FilteredTotalsStep | src/components/purchasemanagement.jsx:135-152 | adding a record adds its quantity and amount to the totals exactly when it matches |
| ViewFacts.TotalsScenario | src/components/purchasemanagement.jsx:135-152 | quantities 2, 3, 5, prices 10, 20, 4 and suppliers A, B, A, with a search for supplier "A", show 2 rows, quantity 7 and amount 40 |
| PurchaseView.FieldValues | src/components/purchasemanagement.jsx:173 | `map(item => item[key])` has one value per record, in order |
| PurchaseView.TruthyOnly | src/components/purchasemanagement.jsx:173 | `filter(v => v)` keeps exactly the truthy values |
| ViewFacts.TruthyOnlyAppend | src/components/purchasemanagement.jsx:173 | `filter(v => v)` distributes over concatenation, so the truthy values keep their order |
| ViewFacts.TruthyOnlyFirstIndexOrder | src/components/purchasemanagement.jsx:173 | dropping the falsy values keeps the order in which the truthy values first occur, both ways |
| PurchaseView.Distinct | src/components/purchasemanagement.jsx:173 | `[...new Set(s)]` holds every value of `s`, only values of `s`, and none twice |
| ViewFacts.FirstIndex | src/components/purchasemanagement.jsx:173 | the first position at which a value occurs |
| ViewFacts.DistinctInFirstOccurrenceOrder | src/components/purchasemanagement.jsx:173 | the distinct values come in the order of their first occurrences |
| PurchaseView.Suggestions | src/components/purchasemanagement.jsx:173 | the datalist options of a field: its distinct truthy values over the list, in first-occurrence order; see ViewFacts.SuggestionsMembers and ViewFacts.SuggestionsInListOrder |
| ViewFacts.SuggestionsInListOrder | src/components/purchasemanagement.jsx:173 | of two suggestions for a field, the one offered first is first held by an earlier record of the list |
| ViewFacts.SuggestionsMembers | src/components/purchasemanagement.jsx:173 | a value is suggested for a field exactly when it is truthy and some record holds it in that field |
| FileImport.TextOr | src/components/purchasemanagement.jsx:119-123 | `x \|\| ''`: an absent or falsy property gives "", a string property gives itself |
| FileImport.ToStringThrows | src/components/purchasemanagement.jsx:124-125 | `String(v)` throws for a parsed object with its own "toString" key (it hides the callable one and `valueOf` gives no primitive), and for an array holding such a value |
| FileImport.ItemError | src/components/purchasemanagement.jsx:118-128 | the error reading an element throws: a null element at its first property, otherwise a quantity or price that `parseFloat` cannot convert to text; none else |
| FileImport.FirstItemError | src/components/purchasemanagement.jsx:118-128 | the error of the first element that throws, which `map` stops at; none exactly when no element throws |
| FileImport.ImportRecords | src/components/purchasemanagement.jsx:117-128 | the import succeeds exactly when the file parses to an array none of whose elements throws; it then gives one normalised record per element, in order; unparsable text fails with `NotJson`, a non-array with `NotAnArray`, and an array with the error of its first throwing element |
| FileImport.NormaliseItem | src/components/purchasemanagement.jsx:118-128 | the record an element becomes: the seven text fields through `TextOr`, quantity and price through `NumberOr`; see ImportFacts.NormaliseItemFields |
| FileImport.NumberOr | src/components/purchasemanagement.jsx:124-125 | `parseFloat(x) \|\| 0` of a property: `ParseOrZero` of its `String()` text, "undefined" when missing; see ImportFacts.NumberOrMissing and ImportFacts.NumberOrNumber |
| FileImport.RecordJson | src/components/purchasemanagement.jsx:107 | the JSON object `JSON.stringify` writes for one record: its nine fields under their own keys; see ImportFacts.RecordJsonProperty |
| FileImport.ExportValue | src/components/purchasemanagement.jsx:107 | the JSON array the save button writes: one object per record, in list order; see ImportFacts.ExportImportRoundTrip |
| ImportFacts.UnconvertibleStopsImport | src/components/purchasemanagement.jsx:117-128 | `[{"quantity": {"toString": 1}}]` fails, and a throwing element ahead of a null element decides the error |
| ImportFacts.NormaliseItemFields | src/components/purchasemanagement.jsx:118-128 | each imported field comes from the element's property of the same name, through `\|\| ''` or `parseFloat(x) \|\| 0` |
| ImportFacts.ExtraPropertiesDropped | src/components/purchasemanagement.jsx:118-128 | properties other than the nine fields do not affect the imported record |
| ImportFacts.NumberOrMissing | src/components/purchasemanagement.jsx:124-125 | a missing or null quantity or price imports as 0 |
| ImportFacts.NumberOrNumber | src/components/purchasemanagement.jsx:124-125 | a quantity or price saved as a number imports as that number (for numbers with at most 20 fraction digits) |
| ImportFacts.ImportScenario | src/components/purchasemanagement.jsx:117-128 | an element with a date, code, name, quantity "3" and price "bad" imports as that record with quantity 3, price 0 and the other four fields "" |
| ImportFacts.RecordJsonProperty | src/components/purchasemanagement.jsx:107 | the saved object holds each field under its own name |
| ImportFacts.NormaliseFromProperties | src/components/purchasemanagement.jsx:118-128 | an element whose nine properties hold a record's values imports as that record (for numbers with at most 20 fraction digits) |
| ImportFacts.RecordJsonRoundTrip | src/components/purchasemanagement.jsx:107-128 | a saved record imports as itself (for numbers with at most 20 fraction digits) |
| ImportFacts.ExportImportRoundTrip | src/components/purchasemanagement.jsx:107-128 | saving the list and loading the saved file gives the same list back (for numbers with at most 20 fraction digits) |
| Component.WithoutIndex | src/components/purchasemanagement.jsx:96 | `filter((_, i) => i !== target)` removes exactly position `target` and keeps the rest in order; an out-of-range position removes nothing |
| Component.WithInput | src/components/purchasemanagement.jsx:196-216 | typing into one search input changes that input only |
| Component.StoreIndexOfRow | src/components/purchasemanagement.jsx:232-241 | the list position of the record shown in a given row of the filtered table: the row-th of the ascending matching positions, which holds that record (so duplicates resolve to the row's own record) |
| Component.PurchaseManagement.constructor | src/components/purchasemanagement.jsx:4-27 | the list starts as the saved list; the form, the edited position and the search start empty |
| Component.PurchaseManagement.ClearForm | src/components/purchasemanagement.jsx:41-54 | blanks all nine form fields and drops the edited position; nothing else changes |
| Component.PurchaseManagement.HandleChange | src/components/purchasemanagement.jsx:60-63 | sets only the named form field |
| Component.PurchaseManagement.HandleSubmit | src/components/purchasemanagement.jsx:65-82 | with no edit in progress, appends the committed draft at the end; while editing position i, replaces only position i; then clears the form |
| Component.PurchaseManagement.HandleEdit | src/components/purchasemanagement.jsx:84-92 | loads list position `index` into the form and records it as the edited position |
| Component.PurchaseManagement.HandleEditRow | src/components/purchasemanagement.jsx:232-241 | loads the record shown in the clicked row and records as the edited position the row-th matching position of the list, which holds that record |
| Component.PurchaseManagement.HandleDelete | src/components/purchasemanagement.jsx:94-100 | while editing, removes exactly the edited position and clears the form; otherwise changes nothing |
| Component.PurchaseManagement.HandleCancel | src/components/purchasemanagement.jsx:102-104 | clears the form and drops the edited position without touching the list |
| Component.PurchaseManagement.HandleSearchInput | src/components/purchasemanagement.jsx:192-218 | sets only the search input typed into |
| Component.PurchaseManagement.HandleLoadFromFile | src/components/purchasemanagement.jsx:114-133 | on success replaces the list with the normalised records and clears the search; on failure changes nothing |
| Component.SubmitNewUpdatesTotals | src/components/purchasemanagement.jsx:65-82 | submitting a new record raises the totals under the table (lines 151-152) by its quantity and amount exactly when it matches the search |
| Component.EditThenSubmit | src/components/purchasemanagement.jsx:65-92 | editing a record and submitting the form unchanged leaves the list as it was (for numbers with at most 20 fraction digits) |
| Component.EditButtonLoadsOtherRecord | src/components/purchasemanagement.jsx:241 | with a search active, the first row's edit button loads a record other than the one shown |

## Left out

- Storage: reading the saved list from `localStorage` and writing it back on every change (lines 4-7 and 56-58) are browser storage I/O. The constructor takes the saved list as a parameter. The read at line 6 has no error handling, so a corrupt stored value would throw; that is not modelled.
- Files: the Blob download (lines 106-112) and the asynchronous `FileReader` read (lines 114-116 and 132) are file I/O.
- JSON: `JSON.parse` and `JSON.stringify` are library calls. The import handler takes the parse result as a value (`SyntaxError` or the parsed JSON), and saving is modelled as the JSON value written (`ExportValue`), not as its text.
- Presentation: rendering, labels, styles, `formatNumber`/`toLocaleString` and the browser's `required` check on five inputs (line 169) are not modelled. The form's submit handler is modelled as if any draft could be submitted.
- Floating point: numbers are exact reals. IEEE-754 rounding, overflow, NaN or Infinity as a stored value, parsing of "Infinity", and `toString`'s exponent form are not modelled.
- NumberFacts.ParseOrZeroOfNumberToString: proved only for numbers with at most 20 fraction digits (`IsShortDecimal`), the range in which `toString` writes plain decimals.
- Numbers.NumberToString: writes the fewest exact fraction digits only for numbers with at most 20 fraction digits; past that it cuts the digits at 20, where they may end in zeros.
- RecordFacts.EditRoundTrip: proved only for records whose quantity and price have at most 20 fraction digits (`HasShortNumbers`), the range of NumberFacts.ParseOrZeroOfNumberToString.
- Component.EditThenSubmit: proved only for a record whose quantity and price have at most 20 fraction digits (`HasShortNumbers`), the range of NumberFacts.ParseOrZeroOfNumberToString.
- ImportFacts.NumberOrNumber: proved only for numbers with at most 20 fraction digits (`IsShortDecimal`), the range of NumberFacts.ParseOrZeroOfNumberToString.
- ImportFacts.NormaliseFromProperties: proved only for records whose quantity and price have at most 20 fraction digits (`HasShortNumbers`), the range of NumberFacts.ParseOrZeroOfNumberToString.
- ImportFacts.RecordJsonRoundTrip: proved only for records whose quantity and price have at most 20 fraction digits (`HasShortNumbers`), the range of NumberFacts.ParseOrZeroOfNumberToString.
- ImportFacts.ExportImportRoundTrip: proved only for lists whose records have quantities and prices with at most 20 fraction digits (`HasShortNumbers`), the range of NumberFacts.ParseOrZeroOfNumberToString.
- Text.Lower: lower-cases ASCII letters only; JavaScript's full Unicode case mapping is not modelled.
- FileImport.TextOr: a truthy property that is not a string (a number, a boolean, an object) is stored as its `String()` text. The component stores the raw value, which keeps its JSON type; the model's records hold strings only. For `productCode`, `productName`, `supplier` or `note` this hides a failure: the component's filter (lines 137-142) calls `toLowerCase` on the raw value, which throws for a number, a boolean or an object, so every later render of the table fails. The model filters the `String()` text instead and does not capture that exception. For a value whose conversion throws (`ToStringThrows`, an object with its own "toString" key) no `String()` text exists; the model then stores `JsString`'s text ("[object Object]", or a join built on it), where the component stores the raw object.
- Component.PurchaseManagement.HandleSubmit: requires the edited position to be inside the list. The component does not check it. Loading a file while an edit is in progress leaves the old position in place, and submitting then writes at a position that may be past the end of the new list. JavaScript would then grow the array with holes. That case is excluded rather than modelled.
- Component.PurchaseManagement.HandleEdit: requires `index` to be inside the list. The only caller, the table's edit button, passes a row number of the filtered view, which is always inside the list.
- FileImport.NormaliseItem: requires an element that does not throw (`ItemError` is none). A null element makes the component throw while reading its first property, and a quantity or price that cannot be converted to text makes `parseFloat` throw; `ImportRecords` models both as a failure. FileImport.NumberOr likewise requires a property whose text conversion does not throw.
- Non-object elements other than null (numbers, strings, arrays) have none of the nine properties, so they import as records with empty text and zero numbers, as the component does.
- Loading a file keeps the form and the edited position, as the component does (line 129-130 touch only the list and the search).

## Findings

| source | as written | input that shows it | evidently intended | confidence | as-written member | corrected member |
|---|---|---|---|---|---|---|
| src/components/purchasemanagement.jsx:241 | each row's edit button calls `handleEdit(index)` with the row number of the filtered view, and `handleEdit` reads `purchases[index]` from the whole list | list [record with supplier "A", record with supplier "B"], supplier search "B": the only row shows the B record, and its edit button loads the A record and edits position 0 | the button edits the record shown in its row, at that record's position in the list | high; derived from the code, not executed | Component.EditButtonLoadsOtherRecord | Component.PurchaseManagement.HandleEditRow |
