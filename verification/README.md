# Contabilidad expense reports, modelled in Dafny

Contabilidad is a small expense-reporting app with two roles.

- **Employee.** An employee selects receipt files (images, XML invoices, PDFs). The app sends each file to an extraction service, which returns vendor, date, total, currency and category. The employee may correct these fields and then submits the batch.
- **Accountant.** An accountant reviews all expense records. Five criteria filter the list: employee, trip, start date, end date and status. The screen shows the total of the filtered amounts, and each pending record can be approved or rejected.

This project models the logic layer of the app. It does not model rendering. The modules are:

- `Types` (`types.dfy`): the records. `Expense`, `ExtractedData`, the status `Pendiente | Aprobado | Rechazado`, and `Decision`, the two statuses an accountant can set. A `File` value carries what the browser would read from a file: its name, MIME type, data URL and text.
- `Strings` (`strings.dfy`): the JavaScript string operations the app relies on, written out:
  - `<` on strings as a lexicographic order;
  - `split(',')`, which always yields at least one piece;
  - `split(',')[1]` as an `Option`, where `None` stands for `undefined`;
  - `trim()` over the ECMAScript whitespace and line-terminator set;
  - the default `sort()`, as insertion sort;
  - `${n}` for a count.
- `Sequences` (`sequences.dfy`): subsequences, first occurrences, and `[...new Set(xs)]`, which drops duplicates and keeps first occurrences in order.
- `Review` (`review.dfy`): the accountant's view. It covers the filter predicate (`Keeps`), the filtered list, the total, and the employee and trip drop-down lists.
- `Store` (`store.dfy`): the application's `expenses` state, as class `ExpenseStore` with a `seq<Expense>` field. Its two handlers are modelled: prepend a batch, and set the status of the record(s) with an id.
- `Gemini` (`gemini.dfy`): the extraction client. It chooses the request parts by MIME type, or gives `null` for an unsupported type, and every failure ends in `null`. The generation call itself is a function parameter, from the request parts to "parsed data" or "threw".
- `Employee` (`employee.dfy`): the employee form, as class `EmployeeForm`. It models:
  - `Settle`, the loop that splits settled extraction outcomes into kept extractions and a failure count;
  - the check before submission;
  - building one record per extraction;
  - editing one field of one extraction.
- `MockData` and `Scenarios` (`mock_data.dfy`, `examples_mock.dfy`): the six seed records, and concrete facts about them.

Amounts are `real`. The status filter's "all" entry (`''` in the source) is `None`.

## Model

| member | source | states |
|---|---|---|
| Strings.Less | components/AccountantView.tsx:58-59 | No ensures; see LessIrreflexive, LessTransitive, LessTotal, LessAsymmetric, NotLessIsLessEq and LessCommonPrefix. JavaScript `<` on strings, as a lexicographic order |
| Strings.LessEq | components/AccountantView.tsx:50 | No ensures; see LessEqTransitive and NotLessIsLessEq. `<` or equal, the order the default `sort()` arranges by |
| Strings.LessIrreflexive | components/AccountantView.tsx:58-59 | No date is before itself, so a bound equal to the date never excludes it |
| Strings.LessTransitive | components/AccountantView.tsx:58-59 | String `<` is transitive |
| Strings.LessTotal | components/AccountantView.tsx:58-59 | Of two different strings, one is `<` the other |
| Strings.LessAsymmetric | components/AccountantView.tsx:58-59 | `a < b` and `b < a` never hold together |
| Strings.NotLessIsLessEq | components/AccountantView.tsx:58-59 | `!(a < b)` is exactly `b <= a`, so "not before the start" means "on or after the start" |
| Strings.LessCommonPrefix | components/AccountantView.tsx:58-59 | A shared prefix (such as `2024-05-`) does not affect the comparison |
| Strings.LessEqTransitive | components/AccountantView.tsx:50 | `<=` is transitive, as sorting needs |
| Strings.Split | components/AccountantView.tsx:56 | `split(',')` gives at least one piece; no piece holds a comma; joining the pieces with commas gives back the input |
| Strings.SplitNoSeparator | components/AccountantView.tsx:56 | A string without a comma splits into itself alone |
| Strings.SplitAtFirstSeparator | components/AccountantView.tsx:56 | The text before the first comma is the first piece; the rest splits on its own |
| Strings.SplitJoin | components/AccountantView.tsx:56 | Splitting comma-free pieces joined with commas gives back the pieces |
| Strings.DataUrlPayload | components/EmployeeView.tsx:104 | `split(',')[1]` is defined exactly when the data URL holds a comma, and then holds no comma itself |
| Strings.DataUrlPayloadRoundTrip | services/geminiService.ts:16 | For a data URL `header,payload`, the payload comes back exactly |
| Strings.DataUrlPayloadFirstComma | components/EmployeeView.tsx:104 | For `header,rest` with a comma-free header, the payload is the first comma-separated piece of `rest`, whatever follows |
| Strings.IsWhitespace | components/AccountantView.tsx:49 | No ensures; see Trim. The characters `trim()` removes: the ECMAScript WhiteSpace and LineTerminator characters |
| Strings.TrimStart | components/AccountantView.tsx:49 | The result is a suffix of the input; every character cut off is whitespace; it does not start with whitespace |
| Strings.TrimEnd | components/AccountantView.tsx:49 | The result is a prefix of the input; every character cut off is whitespace; it does not end with whitespace |
| Strings.Trim | components/AccountantView.tsx:49 | `trim()` gives a contiguous piece of the input; whitespace only is cut on either side; the result has no whitespace at either end |
| Strings.TrimUnpadded | components/AccountantView.tsx:56 | A string without whitespace at either end is its own trim |
| Strings.TrimLeadingWhitespace | components/AccountantView.tsx:56 | A leading space (as after `, `) is cut off |
| Strings.Insert | components/AccountantView.tsx:50 | Inserting into a sorted list keeps it sorted and adds exactly the one element |
| Strings.SortStrings | components/AccountantView.tsx:50 | `sort()` gives a sorted permutation of its input |
| Strings.InsertStrictlySorted | components/AccountantView.tsx:50 | Inserting a new element into a strictly ascending list keeps it strictly ascending |
| Strings.StrictlySortedOnce | components/AccountantView.tsx:50 | A strictly ascending list holds each string at most once |
| Strings.SortStringsDistinct | components/AccountantView.tsx:50 | Sorting a duplicate-free list gives a strictly ascending list |
| Strings.DecimalString | components/EmployeeView.tsx:75 | `${n}` is a non-empty string of decimal digits with no leading zero (for a count above 0) |
| Strings.DecimalRoundTrip | components/EmployeeView.tsx:75 | Reading the rendered failure count back gives the count |
| Sequences.FirstIndex | components/AccountantView.tsx:52 | The first position holding `x`: it holds `x`, and nothing before it does |
| Sequences.FirstIndexUnique | components/AccountantView.tsx:52 | Any position holding `x` with no earlier `x` is the first position |
| Sequences.Dedupe | components/AccountantView.tsx:52 | `[...new Set(s)]` has no duplicates and holds exactly the elements of `s` |
| Sequences.DedupeFirstOccurrenceOrder | components/AccountantView.tsx:52 | `[...new Set(s)]` lists elements in the order of their first occurrence in `s` |
| Review.EmployeeNames | components/AccountantView.tsx:56 | A record is filed under at least one name, and no name holds a comma |
| Review.EmployeeNamesSingle | components/AccountantView.tsx:56 | A name field without a comma gives its trimmed self alone |
| Review.EmployeeNamesCons | components/AccountantView.tsx:56 | The trimmed text before the first comma is the first name; the rest gives the others |
| Review.EmployeeNamesPair | components/AccountantView.tsx:56 | `"A, B"` reads back as the names `[A, B]` |
| Review.DefaultFilter | components/AccountantView.tsx:41-45 | No ensures; see DefaultFilterShowsPending and SubmittedBatchShownByDefault. The opening filter: four empty criteria and the status `Pendiente` |
| Review.Keeps | components/AccountantView.tsx:55-61 | No ensures; see KeepsIsConjunction and DefaultFilterShowsPending. The per-record test of the filter callback: all five criteria joined by "and", an empty criterion always passing |
| Review.KeepsIsConjunction | components/AccountantView.tsx:55-61 | A record is kept iff it meets every non-empty criterion: an exact trimmed-name match (not a substring), the same trip, `start <= date`, `date <= end` (both bounds inclusive), and the same status |
| Review.DefaultFilterShowsPending | components/AccountantView.tsx:45 | Under the opening filter, a record is shown iff it is pending |
| Review.Filtered | components/AccountantView.tsx:54-63 | The filtered list is no longer than the input |
| Review.FilteredMembers | components/AccountantView.tsx:54-63 | A record is shown iff it is stored and passes the filter |
| Review.FilteredIsSubsequence | components/AccountantView.tsx:54-63 | The shown list is a subsequence of the records: records are dropped, never added or reordered |
| Review.FilteredMultiplicity | components/AccountantView.tsx:54-63 | A kept record appears exactly as often as it is stored; a rejected one never appears |
| Review.FilteredConcat | components/AccountantView.tsx:54-63 | Filtering a concatenation concatenates the filtered parts |
| Review.FilteredAllKept | components/AccountantView.tsx:55-61 | If every record passes, the list is shown unchanged |
| Review.NoFilterKeepsAll | components/AccountantView.tsx:55-61 | With every control on "all", the shown list equals the records |
| Review.Sum | components/AccountantView.tsx:65-67 | No ensures; see SumConcat. The `reduce` from 0 adding each amount, first to last |
| Review.TotalAmount | components/AccountantView.tsx:65-67 | No ensures; see TotalAmountIsKeptAmount and TotalAmountEmpty. The sum over the filtered list |
| Review.SumConcat | components/AccountantView.tsx:66 | The reduce over a concatenation is the sum of the two reduces |
| Review.TotalAmountIsKeptAmount | components/AccountantView.tsx:65-67 | The total equals the sum of the amounts of exactly the kept records (a per-record reference definition) |
| Review.TotalAmountEmpty | components/AccountantView.tsx:65-67 | When no record passes, nothing is shown and the total is 0 |
| Review.AllEmployeeNames | components/AccountantView.tsx:49 | No ensures; see AllEmployeeNamesMembership. The `flatMap` of every record's trimmed names, in record order |
| Review.AllEmployeeNamesMembership | components/AccountantView.tsx:49 | A name is in the flattened list iff some record is filed under it |
| Review.EmployeeOptions | components/AccountantView.tsx:48-51 | The employee drop-down is strictly ascending (sorted, no duplicates) and holds exactly the trimmed names of all records |
| Review.TripNames | components/AccountantView.tsx:52 | One trip name per record, in record order |
| Review.TripOptions | components/AccountantView.tsx:52 | The trip drop-down has no duplicates and holds exactly the trip names of the records |
| Review.TripOptionsOrder | components/AccountantView.tsx:52 | Trips are listed in the order of their first occurrence |
| Store.WithStatus | App.tsx:47-49 | No ensures; see WithStatusPointwise, WithStatusMissingId and WithStatusIdempotent. The `map` that sets the status of every record with the id |
| Store.WithStatusPointwise | App.tsx:46-50 | Length and order are kept; a record with the id gets the new status whatever its old one; other records keep their status; no other field changes |
| Store.WithStatusMissingId | App.tsx:48 | With no record holding the id, the list comes back unchanged |
| Store.WithStatusIdempotent | App.tsx:47-49 | Applying the same decision twice equals applying it once |
| Store.ExpenseStore.constructor | App.tsx:38 | The state starts as the seed records |
| Store.ExpenseStore.AddExpenses | App.tsx:40-43 | The new state is the batch followed by the old records, unchanged and in order; its length is the sum of both |
| Store.ExpenseStore.UpdateExpenseStatus | App.tsx:45-51 | The new state is the old list with the status of matching records set; pointwise, only the status of matching records changes |
| Gemini.Prompt | services/geminiService.ts:38-48 | No ensures; see ImageRequestText, PdfRequestText, XmlRequestText and BuildPartsShape. The extraction instruction that ends every request |
| Gemini.XmlPreamble | services/geminiService.ts:57 | No ensures; see XmlRequestText. The sentence that opens an XML request, followed by a blank line |
| Gemini.PdfNote | services/geminiService.ts:62 | No ensures; see PdfRequestText. The note placed before the instruction in a PDF request |
| Gemini.IsImage | services/geminiService.ts:52 | No ensures; see MimeKindsDisjoint and BuildPartsSupported. `file.type.startsWith('image/')` |
| Gemini.IsXml | services/geminiService.ts:55 | No ensures; see MimeKindsDisjoint and XmlRequestText. The type is `application/xml` or `text/xml` |
| Gemini.IsPdf | services/geminiService.ts:59 | No ensures; see MimeKindsDisjoint and PdfRequestText. The type is `application/pdf` |
| Gemini.IsSupported | services/geminiService.ts:52-67 | No ensures; see BuildPartsSupported and ExtractExpenseInfoOutcome. One of the three handled kinds |
| Gemini.MimeKindsDisjoint | services/geminiService.ts:52-59 | No type is both image and XML, image and PDF, or XML and PDF, so the order of the tests does not matter |
| Gemini.FileToGenerativePart | services/geminiService.ts:13-26 | No ensures; see InlinePartCarriesPayload. The inline part: the data-URL payload and the file's MIME type |
| Gemini.BuildParts | services/geminiService.ts:52-67 | No ensures; see BuildPartsSupported, BuildPartsShape and the three RequestText lemmas. The parts chosen by MIME type, or none for an unsupported type |
| Gemini.BuildPartsSupported | services/geminiService.ts:52-67 | A request is built iff the type is image, XML or PDF; any other type yields no request |
| Gemini.BuildPartsShape | services/geminiService.ts:52-63 | An image or PDF request is two parts: first the inline file (data-URL payload and the file's type), then text ending in the prompt. An XML request is one text part that holds the file text and ends with the prompt |
| Gemini.ImageRequestText | services/geminiService.ts:52-54 | The text of an image request is exactly the extraction prompt |
| Gemini.PdfRequestText | services/geminiService.ts:59-63 | The text of a PDF request is exactly the PDF note followed by the prompt |
| Gemini.XmlRequestText | services/geminiService.ts:55-58 | An XML request is exactly one text part: the invoice preamble, the file text, a blank line (`\n\n`), then the prompt; so it opens with the preamble |
| Gemini.InlinePartCarriesPayload | services/geminiService.ts:13-26 | For a data URL `header,payload`, the inline part's data is exactly `payload` |
| Gemini.ExtractExpenseInfo | services/geminiService.ts:50-94 | No ensures; see ExtractExpenseInfoOutcome. `null` for an unsupported type or a failed call, otherwise the call's data |
| Gemini.ExtractExpenseInfoOutcome | services/geminiService.ts:50-94 | The result is data iff the type is supported and the call succeeds, and then it is the call's data. An unsupported type gives `null` whatever the call would do. Every failure gives `null`; nothing throws |
| Employee.NoFilesMessage | components/EmployeeView.tsx:37 | No ensures; see HandleExtraction. The error set when no file is selected |
| Employee.IncompleteMessage | components/EmployeeView.tsx:84 | No ensures; see HandleSubmit. The error set when a name or the extractions are missing |
| Employee.FailurePrefix | components/EmployeeView.tsx:75 | No ensures; see FailureMessageDistinct. The text before the failure count |
| Employee.FailureSuffix | components/EmployeeView.tsx:75 | No ensures; see FailureMessageDistinct. The text after the failure count, which starts with a space |
| Employee.Succeeded | components/EmployeeView.tsx:55-56 | No ensures; see SettleCounts, SettleOrder and Settle. Fulfilled, with a non-null answer |
| Employee.FailureMessage | components/EmployeeView.tsx:75 | No ensures; see FailureMessageDistinct and HandleExtraction. The summary naming the failure count |
| Employee.FailureMessageDistinct | components/EmployeeView.tsx:75 | Two different failure counts never give the same summary: the count can be read back from it |
| Employee.ExtractionId | components/EmployeeView.tsx:58 | No ensures; see SettleOrder. The file name, a dash and the random part, which the caller supplies |
| Employee.Successes | components/EmployeeView.tsx:50-70 | No ensures; see SettleCounts, SettleOrder and Settle. The successes paired with their files, in file order |
| Employee.FailureCount | components/EmployeeView.tsx:50-70 | No ensures; see SettleCounts and Settle. The number of outcomes that were rejected or fulfilled with `null` |
| Employee.SettleCounts | components/EmployeeView.tsx:50-70 | Successes plus failures equals the number of files; both rejection and a `null` result count as failures |
| Employee.SettleOrder | components/EmployeeView.tsx:54-61 | The success of file `i` is kept after the successes of earlier files, paired with file `i` and its data |
| Employee.Settle | components/EmployeeView.tsx:50-70 | The loop yields exactly the successes in file order and the failure count, and the two add up to the number of files |
| Employee.ExtractionOutcomes | components/EmployeeView.tsx:46-48 | One settled outcome per file: outcome `i` is fulfilled with `extractExpenseInfo` of file `i`, and none is rejected, since the client never throws |
| Employee.SuccessesAreSupported | components/EmployeeView.tsx:46-61 | With the real client, no file of an unsupported type is ever kept |
| Employee.CanSubmit | components/EmployeeView.tsx:83 | No ensures; see HandleSubmit. Both names non-empty and at least one extraction held |
| Employee.ToExpense | components/EmployeeView.tsx:90-107 | No ensures; see BuildExpensesFields and ReceiptContentRoundTrip. The record built from one extraction |
| Employee.BuildExpenses | components/EmployeeView.tsx:90-107 | No ensures; see BuildExpensesFields. The `map` over the held extractions |
| Employee.BuildExpensesFields | components/EmployeeView.tsx:90-107 | One record per extraction, in order. Each record reuses the id, shares both names, sets `amount = totalAmount`, copies vendor, date, currency and category, takes the file's name, type and data-URL payload, and is pending |
| Employee.ReceiptContentRoundTrip | components/EmployeeView.tsx:101-105 | A receipt read as `header,payload` is stored with exactly its payload |
| Employee.SubmittedBatchShownByDefault | App.tsx:41 | A submitted batch, prepended, shows in full above the earlier pending records in the accountant's opening view |
| Employee.Apply | components/EmployeeView.tsx:124 | No ensures; see ApplyChangesOnlyItsField. The spread that sets one field of the extracted data |
| Employee.ApplyChangesOnlyItsField | components/EmployeeView.tsx:124 | An edit sets its own field to the new value and leaves every other field as it was |
| Employee.WithField | components/EmployeeView.tsx:121-127 | No ensures; see WithFieldPointwise. The `map` that edits the extractions with the id |
| Employee.WithFieldPointwise | components/EmployeeView.tsx:121-127 | Length, order, ids and files are kept; only extractions with the id change, and only in the edited data |
| Employee.EmployeeForm.constructor | components/EmployeeView.tsx:26-30 | The form starts with empty names, no extractions and no error |
| Employee.EmployeeForm.SetNames | components/EmployeeView.tsx:138-142 | The name inputs set the names and nothing else |
| Employee.EmployeeForm.HandleFilesChanged | components/EmployeeView.tsx:149 | A new file selection drops the held extractions and changes nothing else |
| Employee.EmployeeForm.HandleExtraction | components/EmployeeView.tsx:34-79 | With no file, only the error is set. Otherwise the successes replace the held extractions even when some files fail; the error is set iff some file failed, and then it names the failure count |
| Employee.EmployeeForm.HandleSubmit | components/EmployeeView.tsx:81-119 | Without both names and some extraction, only the error is set and no record is added. Otherwise the built batch is prepended to the store, the extractions and error are cleared, and the names are kept |
| Employee.EmployeeForm.HandleFieldChange | components/EmployeeView.tsx:121-127 | The held extractions become the field edit applied by id; names and error are unchanged |
| MockData.MockExpenses | mockData.ts:3-76 | No ensures; see ExpenseStore.constructor and the Scenarios lemmas. The six seed records, field by field |
| Scenarios.SeedNames | mockData.ts:6 | Each seed record is filed under a single name |
| Scenarios.JuanPendingView | mockData.ts:3-76 | Under the opening filter narrowed to Juan Pérez, the seed records show as records 1 and 3, in order |
| Scenarios.JuanPendingTotal | mockData.ts:3-76 | ...and their total is 850.50 + 230.00 = 1080.50 |
| Scenarios.DateInsideMonth | mockData.ts:9 | A record dated 2024-05-10 passes the range 2024-05-01 to 2024-05-31 |
| Scenarios.DateBeforeStart | mockData.ts:9 | It fails a range starting 2024-05-11 |
| Scenarios.DateOnBothBounds | mockData.ts:9 | It passes the one-day range 2024-05-10 to 2024-05-10: both bounds are inclusive |
| Scenarios.SharedNames | components/AccountantView.tsx:56 | A record filed under "Juan Pérez, Ana García" is filed under both trimmed names |
| Scenarios.EmployeeCriterionIsExact | components/AccountantView.tsx:56 | Such a record matches "Ana García" but not the mere part "Juan" |
| Scenarios.ApprovedRecordCanBeRejected | App.tsx:45-51 | The status update does not check the current status: approved seed record 5 can be set to rejected |
| Scenarios.ApproveOneOfTwo | App.tsx:47-49 | Approving one of two pending records changes only that record |

## Left out

- Rendering is not modelled: the JSX, styles, the status badge, the receipt modal, the role header and the spinner. The rule that only pending rows get approve and reject buttons (components/AccountantView.tsx:123-128) is UI. The model shows that the status update itself does not enforce it.
- The generation call is not modelled: `generateContent`, the response schema, the `response.text.trim()`, and `JSON.parse`. It is a function parameter whose outcome is "parsed data" or "threw". A parsed object is taken as well-formed `ExtractedData`, because the source does not check its fields. A parsed falsy answer (`null`, `0`, `""`, `false`) is turned away by `if (result.value.data)` (components/EmployeeView.tsx:56). The model represents such an answer by `Threw`, which gives the same `null` and the same failure count. The module-level `API_KEY` check, which throws at load time, is also left out.
- File reading is not modelled: `FileReader.readAsDataURL` and `file.text()`. A `File` value carries the data URL and the text the browser would produce. A read that fails is not modelled. In the client it would end in `null`, through the same catch as any other failure. In `handleSubmit` (components/EmployeeView.tsx:90-91) it would make `Promise.all` reject, and nothing catches that.
- Employee.EmployeeForm.HandleSubmit: assumes every file read succeeds. In the source, a failed read rejects the `Promise.all`. No record is added, the extractions stay held and `isSubmitting` stays true.
- `Promise.allSettled` and `Promise.all` are not modelled. `HandleExtraction` receives the outcomes already settled, one per file and in file order.
- `Math.random()` is not modelled: the id suffix of each extraction is a parameter. Nothing is claimed about the ids being unique.
- Floating point is not modelled: amounts are `real`, so the rounding of the JavaScript sum is not represented. `Intl.NumberFormat` display and the `parseFloat` of the amount input, including `NaN`, are left out.
- `alert` and `console.error` are not modelled; they are output only.
- `isLoading` and `isSubmitting` are not modelled. They only disable the buttons and show the spinner.
- Clearing the file input after a submit is not modelled. It is DOM state outside the form's fields.
- Trip start and end dates are left out. The record type declares them, but neither the record builder nor the seed records set them.
- Employee.EmployeeForm.HandleFieldChange: the source accepts `value: any`. The model takes an edit of the field's own type (text for vendor, date, currency and category; a number for the total).
- Strings.Less: JavaScript compares strings by UTF-16 code units. The model compares Dafny characters, which are code points. The two orders differ only for characters outside the Basic Multilingual Plane.
- Strings.DataUrlPayload: this follows the code, `split(',')[1]`. That is the text between the first and the second comma, not "everything after the first comma". For a data URL the two agree, because neither the header nor base64 holds a comma.
- Scenarios: the seed records' receipt content `''` is modelled as `Some("")`.
