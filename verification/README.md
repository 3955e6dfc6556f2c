# Receipt scanner core, modelled in Dafny

This project models the core of the iOS receipt scanner.

- **Text parsing.** OCR text is turned into a store name, a date, a time and line items. This is `parseReceiptText` and its helper `isLikelyDate`.
- **Records.** Receipt and item records are written to a CSV text format.
- **Persistence.** `ReceiptManager` keeps its two CSV files, `receipts.csv` and `digital_items.csv`, together with the receipts held in memory.
- **The list screen.** Two computations of the receipt list screen are modelled: the search filter and the one-line items preview.

The project has five modules, one file each:

| file | module | models |
|---|---|---|
| `text.dfy` | `Text` | The Foundation string operations the code relies on. These are character classes, trimming, ASCII case mapping, `contains`, `components(separatedBy:)` with `joined(separator:)`, and decimal rendering of counts. |
| `models.dfy` | `Models` | `ReceiptItem`, `Receipt` and `UUID` with its string form. Also `csvRepresentation`, `init?(fromCSV:)`, `csvRow`, and the `MM/dd/yyyy` date read by `dateComponents`. |
| `receipt_parser.dfy` | `ReceiptParser` | `parseReceiptText`, written as the loop it is. Each regular expression the parser uses is a hand-written matcher. Each matcher commits to the choices the backtracking engine is forced into. These matchers are `NumericDateAt`, `MonthDayYearAt`, `ClockTimeAt`, `NamePriceAt`, `QuantityAt` and the others. |
| `receipt_manager.dfy` | `ReceiptStorage` | `ReceiptManager` as a class. Its fields are the receipts in memory and the contents of the two files, with `None` standing for a file that does not exist. Also: how a file's text decodes back into receipts, the newest-first sort and removal by id. |
| `content_view.dfy` | `ContentView` | `filteredReceipts` and `itemsPreview`. |

### Main results

- **Parsing.** `ParseReceiptText` computes exactly:
  - the store name of the first normalised line;
  - the first date and the first time found, line by line and pattern by pattern;
  - the items of the eligible lines.

  Every item it keeps is well formed. The line search, the item gate and the pattern choice are each characterised by their own lemmas.
- **Saving and loading.** A file written row by row from memory decodes back as the same receipts, in the same order. This is `LoadAfterRewrite`. `loadReceipts` then sorts them, and receipts already newest first come out of the load as they were in memory. This is `LoadSortedAfterRewrite`. Appending a saved receipt's row adds exactly that receipt to what the file loads. This is `DecodeAfterAppend`.
- **Sorting.** The sort only reorders. When every date reads, it leaves the list newest first. It leaves an already ordered list alone.
- **Ids.** Saving never puts a second receipt with the same id into memory, so ids that were unique stay unique.
- **Deleting.** Deletion removes every receipt carrying the id and nothing else, and keeps the order. Both files are then back in step with memory.

## Model

| member | source | states |
|---|---|---|
| Models.ItemFromCsv | receipt-scanner/Models.swift:29-34 | A piece reads as an item exactly when it has one colon; both fields come back trimmed of spaces and tabs |
| Models.ItemCsv | receipt-scanner/Models.swift:18-20 | An item is written as its name, a colon and its price; `ItemCsvRoundTrip` shows it reads back when the fields hold no colon and are trimmed of spaces and tabs |
| Models.ItemCsvRoundTrip | receipt-scanner/Models.swift:18-20 | An item without colons or surrounding blanks reads back from its `name:price` representation |
| Models.ItemFromCsvRejects | receipt-scanner/Models.swift:29-31 | The empty piece and pieces with two or more colons are rejected |
| Models.CsvRowLayout | receipt-scanner/Models.swift:60-63 | A row is the id string, store, date, time, the items joined by `"; "`, the image file name and a line feed, separated by commas, nothing escaped |
| Models.RowText | receipt-scanner/Models.swift:60-63 | The row's six columns joined by commas; `CsvRowLayout` spells the columns out |
| Models.CsvRow | receipt-scanner/Models.swift:60-63 | The row text ended by a line feed; `CsvRowLayout` spells the columns out |
| Models.UuidString | receipt-scanner/Models.swift:62 | The id column is 36 characters long; `UuidStringAlphabet` and `UuidRoundTrip` say what they are |
| Models.UuidStringAlphabet | receipt-scanner/Models.swift:62 | The id column holds only dashes and hexadecimal digits, so never a comma, colon, semicolon or line feed |
| Models.UuidRoundTrip | receipt-scanner/ReceiptManager.swift:201 | `UUID(uuidString:)` of a UUID's `uuidString` gives the UUID back |
| Models.ParseUuid | receipt-scanner/ReceiptManager.swift:201 | `UUID(uuidString:)`: an 8-4-4-4-12 string of hexadecimal digits in either case; `UuidRoundTrip` and `UuidCanonical` state what it accepts and yields |
| Models.UuidCanonical | receipt-scanner/ReceiptManager.swift:201 | Every string `UUID(uuidString:)` accepts is the upper-cased string form of the UUID it yields |
| Models.DateComponents | receipt-scanner/Models.swift:52-57 | A date that reads gives a real calendar day (month 1-12, day within the month, leap years counted) |
| Models.DateComponentsOfFormat | receipt-scanner/Models.swift:52-57 | Every calendar day reads back from its `MM/dd/yyyy` text |
| Models.FormatOfDateComponents | receipt-scanner/Models.swift:52-57 | Under the strict `MM/dd/yyyy` reading, a text that reads as a day is that day's two-digit month, two-digit day and four-digit year, slash-separated |
| Models.AfterIsCalendarOrder | receipt-scanner/ReceiptManager.swift:171-175 | Comparing the dates of two keys is the order on year, then month, then day |
| ReceiptParser.NormalizeLines | receipt-scanner/ReceiptParser.swift:89-92 | Every line is non-empty, trimmed and free of line breaks |
| ReceiptParser.NormalizeOneLine | receipt-scanner/ReceiptParser.swift:89-92 | Text that already is one clean line gives exactly that line |
| ReceiptParser.NormalizeAppend | receipt-scanner/ReceiptParser.swift:89-92 | The lines of two texts joined by a line feed are the lines of each, in order |
| ReceiptParser.StripStorePrefix | receipt-scanner/ReceiptParser.swift:97-106 | No prefix leaves the line unchanged; a first prefix that matches is cut off and the rest trimmed |
| ReceiptParser.StoreName | receipt-scanner/ReceiptParser.swift:95-109 | The store name the first line gives; `StoreNamePlain`, `StoreNameStripsPrefix` and `StoreNameEmpty` state its cases |
| ReceiptParser.StoreNamePlain | receipt-scanner/ReceiptParser.swift:95-109 | A first line without any of the four prefixes is the store name as it stands |
| ReceiptParser.StoreNameStripsPrefix | receipt-scanner/ReceiptParser.swift:95-109 | A first line starting with a prefix in any letter case loses that prefix and the blanks after it |
| ReceiptParser.StripFirstMatching | receipt-scanner/ReceiptParser.swift:100-105 | The prefix removed is the first one in list order that matches; only one is removed |
| ReceiptParser.StoreNameEmpty | receipt-scanner/ReceiptParser.swift:83-109 | Text without lines leaves "Unknown Store" |
| ReceiptParser.StoreFromLines | receipt-scanner/ReceiptParser.swift:95-109 | The loop over the prefixes computes the store name |
| ReceiptParser.RunSpec | receipt-scanner/ReceiptParser.swift:113-121 | A quantified run (`\d+`, `\s+`, `\w*`) ends where the class stops |
| ReceiptParser.MatchAt | receipt-scanner/ReceiptParser.swift:112-122 | A date or time match starts with a digit or a month name and lies inside the line; its full shape is `MatchShape` |
| ReceiptParser.MatchShape | receipt-scanner/ReceiptParser.swift:112-122 | Every match a date or time matcher finds has its pattern's shape: the digit groups of the allowed lengths, the separators, the blanks, the month name, the optional seconds, meridiem or `min`, exactly as the regular expression spells them |
| ReceiptParser.FindFrom | receipt-scanner/ReceiptParser.swift:127-128 | The match found is the leftmost one; nothing is found only when no position matches |
| ReceiptParser.MatchTextSpec | receipt-scanner/ReceiptParser.swift:127-128 | `range(of:options:.regularExpression)` text is the leftmost match, present iff the pattern matches somewhere |
| ReceiptParser.FirstPatternMatchSpec | receipt-scanner/ReceiptParser.swift:126-131 | The first pattern in list order that occurs decides the line, not the leftmost match of any pattern |
| ReceiptParser.FirstLineMatchSpec | receipt-scanner/ReceiptParser.swift:124-144 | The first line with a match decides; nothing is found iff no line has one |
| ReceiptParser.FoundIsNotDefault | receipt-scanner/ReceiptParser.swift:132-143 | A found value never equals the placeholder, so the loop's "still unknown" test means "not found" |
| ReceiptParser.ShortDateAlsoLong | receipt-scanner/ReceiptParser.swift:113-114 | Wherever the two-digit-year pattern matches, the first date pattern matches with a match at least as long |
| ReceiptParser.ShortDateShadowed | receipt-scanner/ReceiptParser.swift:112-117 | The two-digit-year date pattern never changes the date found |
| ReceiptParser.SearchLines | receipt-scanner/ReceiptParser.swift:124-144 | The nested search loops give the first line's first pattern match, else the placeholder |
| ReceiptParser.IsLikelyDate | receipt-scanner/ReceiptParser.swift:226-238 | True iff a numeric date or a day followed by a month name occurs somewhere in the text |
| ReceiptParser.AmountAt | receipt-scanner/ReceiptParser.swift:149-155 | The amount `\$?\d+(?:[.,]\d+)?` is an optional dollar, digits and an optional separator with digits, not followed by a digit |
| ReceiptParser.QuantityAt | receipt-scanner/ReceiptParser.swift:152 | The quantity group is a run of digits followed by blanks and an `x` |
| ReceiptParser.Hits | receipt-scanner/ReceiptParser.swift:188 | For every place the lazy name group can end, where the price group then lies |
| ReceiptParser.FirstHit | receipt-scanner/ReceiptParser.swift:188 | The lazy name group ends at the first place where the rest matches |
| ReceiptParser.MatchItemPattern | receipt-scanner/ReceiptParser.swift:147-188 | `firstMatch` gives the shortest name group after which the rest of the pattern matches, or none if there is none |
| ReceiptParser.DecideFromSpec | receipt-scanner/ReceiptParser.swift:184-218 | An item decided for a line is well formed, and comes from a pattern that matched |
| ReceiptParser.AmountCleansToNumeral | receipt-scanner/ReceiptParser.swift:199-201 | Cleaning an amount gives digits, or digits, a point and digits, without `$` or `,` |
| ReceiptParser.CandidatePriceIsNumeral | receipt-scanner/ReceiptParser.swift:197-205 | Every price a pattern proposes passes `Double(price) != nil`, so that test never rejects |
| ReceiptParser.QuantityIsPrice | receipt-scanner/ReceiptParser.swift:152-207 | On the quantity pattern, group 2 is the digit run before the `x`, and cleaning leaves it as it is; `QuantityDecides` shows it becomes the item's price |
| ReceiptParser.QuantityDecides | receipt-scanner/ReceiptParser.swift:189-210 | When the name-and-price pattern does not match and the quantity pattern does, the line's item is that pattern's candidate, whose price is group 2, the quantity, if it passes the checks, and nothing otherwise |
| ReceiptParser.TabSeparatedIsNamePrice | receipt-scanner/ReceiptParser.swift:149-155 | Wherever the tab-separated pattern matches, the name-and-price pattern matches with the same groups |
| ReceiptParser.TabSeparatedShadowed | receipt-scanner/ReceiptParser.swift:147-156 | On a line, the name-and-price pattern matches whenever the tab-separated one does |
| ReceiptParser.LineItemWithoutTabSeparated | receipt-scanner/ReceiptParser.swift:147-218 | Dropping the tab-separated pattern changes no line's item |
| ReceiptParser.FirstMatchDecides | receipt-scanner/ReceiptParser.swift:204-210 | When the name-and-price pattern matches it decides the line (the `break`), even when its candidate is rejected; the quantity pattern's turn is `QuantityDecides`, and the tab-separated pattern never decides (`LineItemWithoutTabSeparated`) |
| ReceiptParser.LineItem | receipt-scanner/ReceiptParser.swift:184-218 | The item a line yields; `DecideFromSpec`, `FirstMatchDecides` and `LineItemWithoutTabSeparated` state which pattern decides it and that it is well formed |
| ReceiptParser.TryItemPatterns | receipt-scanner/ReceiptParser.swift:184-218 | The loop over the patterns computes the line's decided item |
| ReceiptParser.SubtotalIsTotal | receipt-scanner/ReceiptParser.swift:174-175 | The `SUBTOTAL` marker test is implied by the `TOTAL` one |
| ReceiptParser.GateAfterCharacterised | receipt-scanner/ReceiptParser.swift:159-180 | `potentialTotalLine` is the last closing line or -1; `processingItems` holds iff a header came after it |
| ReceiptParser.EligibleIff | receipt-scanner/ReceiptParser.swift:162-184 | A line is tried iff it is no header and either no total line came yet or a header came since the last one |
| ReceiptParser.TotalLineSkipped | receipt-scanner/ReceiptParser.swift:174-182 | A total line is never tried for an item |
| ReceiptParser.ParseItemsWellFormed | receipt-scanner/ReceiptParser.swift:204-207 | Every kept item has a non-empty trimmed name that is not a date and a plain decimal price |
| ReceiptParser.ItemsFromLines | receipt-scanner/ReceiptParser.swift:159-220 | The item loop keeps the decided item of each eligible line, in order |
| ReceiptParser.ParseItems | receipt-scanner/ReceiptParser.swift:159-220 | The items the loop keeps; `EligibleIff`, `ItemsFromLines` and `ParseItemsWellFormed` state which lines are tried and that every kept item is well formed |
| ReceiptParser.ParseReceiptText | receipt-scanner/ReceiptParser.swift:79-223 | Store, date, time and items are those characterised above, and all items are well formed |
| ReceiptStorage.ItemsFromColumn | receipt-scanner/ReceiptManager.swift:209 | No more items than pieces |
| ReceiptStorage.ItemsFromOnePiece | receipt-scanner/ReceiptManager.swift:209 | A single piece gives its item when it reads and nothing otherwise |
| ReceiptStorage.ItemsFromColumnAppend | receipt-scanner/ReceiptManager.swift:209 | The items of two runs of pieces are the items of each, in order: a piece that does not read is dropped without affecting the others |
| ReceiptStorage.ParseReceiptFromCsv | receipt-scanner/ReceiptManager.swift:196-219 | A row reads iff it has at least six columns; columns 1 to 5 are the store, date, time, items (split at `;`, unreadable pieces dropped) and image file name; an id that does not parse is replaced by the drawn one |
| ReceiptStorage.ExtraColumnsIgnored | receipt-scanner/ReceiptManager.swift:199-212 | Columns after the sixth are ignored: appending more to a row of six columns reads the same receipt |
| ReceiptStorage.ItemsColumnRoundTrip | receipt-scanner/Models.swift:61 | The items column of plain items reads back as the items, in order |
| ReceiptStorage.RowRoundTrip | receipt-scanner/ReceiptManager.swift:196-219 | A plain receipt's row reads back as the receipt, whatever id would have been drawn |
| ReceiptStorage.RowDecodes | receipt-scanner/ReceiptManager.swift:158-164 | Reading a plain receipt's row as a row of the file gives the receipt |
| ReceiptStorage.DecodeRow | receipt-scanner/ReceiptManager.swift:158-164 | An empty row is skipped; any other row gives exactly the receipt it reads as, or nothing when it does not read |
| ReceiptStorage.DecodeFile | receipt-scanner/ReceiptManager.swift:150-165 | The receipts the file's text decodes to, header line dropped; `DecodeHeaderOnly`, `DecodeAfterLine` and `LoadAfterRewrite` state what it gives |
| ReceiptStorage.DecodeHeaderOnly | receipt-scanner/ReceiptManager.swift:154-157 | A file holding only the header holds no receipts |
| ReceiptStorage.DecodeAfterLine | receipt-scanner/ReceiptManager.swift:154-165 | A line appended to a file ending in a line feed adds what that line decodes to |
| ReceiptStorage.DecodeAfterAppend | receipt-scanner/ReceiptManager.swift:63-100 | Appending a plain receipt's row adds exactly that receipt to what the file loads |
| ReceiptStorage.LoadAfterRewrite | receipt-scanner/ReceiptManager.swift:254-271 | A rewritten receipts file decodes back as the receipts in memory, in order, before the sort |
| ReceiptStorage.LoadSortedAfterRewrite | receipt-scanner/ReceiptManager.swift:150-176 | A rewritten receipts file of receipts already newest first loads, sort included, as those receipts in that order |
| ReceiptStorage.DigitalRowFields | receipt-scanner/ReceiptManager.swift:281-284 | A digital row is one line holding the item's name and price, the store, the date and the image file name, in order, for a plain item and receipt |
| ReceiptStorage.AllDigitalRowsLines | receipt-scanner/ReceiptManager.swift:281-286 | The digital-items file holds one line per item of every plain receipt |
| ReceiptStorage.ItemRows | receipt-scanner/ReceiptManager.swift:122-127 | The loop over a receipt's items builds one digital row per item, in order |
| ReceiptStorage.InsertLatestSorted | receipt-scanner/ReceiptManager.swift:168-176 | Moving a new element in from the right, as an insertion sort does, keeps a newest-first list newest first |
| ReceiptStorage.UndatedStopsInsertion | receipt-scanner/ReceiptManager.swift:168-176 | An element without a key, as a receipt whose date does not read, stops later elements from moving past it: keyed 1, unkeyed, keyed 2 stays in that order |
| ReceiptStorage.SortLatestSorted | receipt-scanner/ReceiptManager.swift:168-176 | When every key exists the sort leaves the latest first |
| ReceiptStorage.SortLatestKeepsSorted | receipt-scanner/ReceiptManager.swift:168-176 | A list already in order is left as it is |
| ReceiptStorage.ReceiptDay | receipt-scanner/ReceiptManager.swift:169-172 | A receipt has a day iff its date reads |
| ReceiptStorage.SortNewestFirst | receipt-scanner/ReceiptManager.swift:167-176 | The newest-first sort; `SortNewestFirstSpec` states that it only reorders, orders, and leaves ordered lists alone |
| ReceiptStorage.SortNewestFirstSpec | receipt-scanner/ReceiptManager.swift:167-176 | The sort is a permutation, newest first when all dates read, and the identity on ordered lists |
| ReceiptStorage.RemoveId | receipt-scanner/ReceiptManager.swift:224 | Removal keeps no more receipts than there were; `RemoveIdCounts`, `RemoveIdAppend` and `RemoveAbsentId` state which ones |
| ReceiptStorage.RemoveIdCounts | receipt-scanner/ReceiptManager.swift:224 | Every receipt carrying the id goes, every copy; the others stay as often as before |
| ReceiptStorage.RemoveIdAppend | receipt-scanner/ReceiptManager.swift:224 | Removal works part by part, so the kept receipts keep their order |
| ReceiptStorage.RemoveAbsentId | receipt-scanner/ReceiptManager.swift:224 | Removing an id no receipt carries changes nothing |
| ReceiptStorage.ReadRows | receipt-scanner/ReceiptManager.swift:153-165 | The row loop computes what the file decodes to |
| ReceiptStorage.ReceiptManager.constructor | receipt-scanner/ReceiptManager.swift:22-24 | Creating the manager ensures both files and loads the receipts, newest first |
| ReceiptStorage.ReceiptManager.EnsureCsvFilesExist | receipt-scanner/ReceiptManager.swift:44-60 | A missing file is created with its header; an existing file and memory are untouched |
| ReceiptStorage.AddNewId | receipt-scanner/ReceiptManager.swift:65-67 | Adding a receipt whose id is not there keeps the ids unique |
| ReceiptStorage.ReceiptManager.SaveReceipt | receipt-scanner/ReceiptManager.swift:63-100 | The receipt joins memory unless its id is there; its row is appended in either case; a file in step with memory stays in step; ids unique in memory stay unique |
| ReceiptStorage.ReceiptManager.SaveDigitalItems | receipt-scanner/ReceiptManager.swift:103-141 | One row per item is appended to the digital file; a digital file in step with memory stays in step with memory plus the receipt |
| ReceiptStorage.ReceiptManager.LoadReceipts | receipt-scanner/ReceiptManager.swift:144-193 | The files are ensured and memory becomes the decoded file sorted newest first, or empty when the file cannot be read |
| ReceiptStorage.ReceiptManager.DeleteReceipt | receipt-scanner/ReceiptManager.swift:222-237 | Every receipt with the id leaves memory and both files are rewritten from memory |
| ReceiptStorage.ReceiptManager.RewriteReceiptsCsv | receipt-scanner/ReceiptManager.swift:254-271 | The receipts file becomes the header and one row per receipt in memory |
| ReceiptStorage.ReceiptManager.RewriteDigitalItemsCsv | receipt-scanner/ReceiptManager.swift:274-294 | The digital file becomes the header and one row per item of every receipt |
| ContentView.Matches | receipt-scanner/ContentView.swift:18-22 | The per-receipt test: lowercased store, some lowercased item name, or the date as written contains the query; `FilterMembership` ties it to what is shown |
| ContentView.Filter | receipt-scanner/ContentView.swift:18-22 | Every receipt shown matches the query |
| ContentView.FilteredReceipts | receipt-scanner/ContentView.swift:13-24 | Empty search text shows everything; otherwise only matching receipts are shown |
| ContentView.FilterMembership | receipt-scanner/ContentView.swift:18-22 | A receipt is shown iff it is in the list and matches |
| ContentView.FilterAppend | receipt-scanner/ContentView.swift:18 | Filtering keeps the list's order |
| ContentView.FilterIdempotent | receipt-scanner/ContentView.swift:18-22 | Searching the result again changes nothing |
| ContentView.StoreSearchIgnoresCase | receipt-scanner/ContentView.swift:17-19 | A receipt whose store name contains the search text in any mix of letter cases (a text equal to it after lowercasing) is shown |
| ContentView.ItemsPreview | receipt-scanner/ContentView.swift:219-227 | The one-line preview; `ItemsPreviewCases` states every case |
| ContentView.ItemsPreviewCases | receipt-scanner/ContentView.swift:219-227 | Zero, one and two items are listed in full; with more, the first two and the number left out, written in decimal without a leading zero |

## Left out

- **OCR.** Vision text recognition (`recognizeText`) and the image preprocessing are not modelled. The text they produce is the input of `ParseReceiptText`.
- **Image files.** `deleteReceiptImage` and the image I/O are not modelled. `DeleteReceipt` models the memory and CSV effects only.
- **Threading.** The `DispatchQueue` hops, the `objectWillChange` notifications and the shared singleton are left out. `loadReceipts` sets `receipts` asynchronously; the model sets it at once.
- **Write and flush failures.** Failures to open, write or flush a file (`FileHandle`, `write(to:)`) are left out, and every write is modelled as succeeding. The one read failure kept is that of `loadReceipts`: it is the parameter `readable`, and a failed read leaves no receipts.
- **Random identifiers.** A `UUID()` drawn for a row whose id does not parse is the parameter `draws(k)`, indexed by the row's line number. Item identifiers (`ReceiptItem.id`) are random and never stored, so they are not modelled.
- **Numbers.** `numericPrice` and `total` are floating point and are not modelled. Prices stay text.
- ReceiptParser.CandidatePriceIsNumeral: `Double(price) != nil` is modelled as "a decimal numeral" (`IsDecimalNumeral`). The two agree on every string that reaches that test, because the price group only ever holds digits with an optional separator and more digits.
- ReceiptParser.MatchAt: the matchers are proved sound (`MatchShape`: what they find has the pattern's shape). That they find every occurrence the engine would find rests on each matcher taking the choices the backtracking engine is forced into, and is not stated as a lemma.
- **Regular expressions.** There is no general regular-expression engine. Each pattern of `ReceiptParser.swift` has its own matcher, written for ASCII input with `\s`, `\d` and `\w` taken as their ASCII classes. Unicode letters, digits and spaces outside ASCII are not modelled.
- **Case mapping.** `uppercased()` and `lowercased()` are modelled as ASCII case mapping only.
- **Newlines.** `.newlines` is modelled as line feed, vertical tab, form feed and carriage return.
- Models.DateComponents, Models.FormatOfDateComponents: `DateFormatter` is modelled as strict `MM/dd/yyyy`, meaning two-digit month and day and a four-digit year from 0 to 9999. The formatter's lenient acceptance of unpadded or out-of-range fields (such as `3/15/2023`) is not modelled, so `FormatOfDateComponents` is a property of the strict reading only. Neither are the calendar and time-zone conversions.
- ReceiptStorage.SortNewestFirstSpec: states the newest-first order only when every date reads. Swift's `sort` with this comparator is not a strict weak ordering once some dates do not read, and its result order is then unspecified. The model follows the insertion sort Swift's standard library runs on short arrays: each element moves in from the right past the elements it sorts before and stops at the first it does not, so an undated receipt stops later ones from moving past it (`UndatedStopsInsertion`). On longer arrays Swift merges sorted runs instead, and the order it then gives when some dates do not read is not modelled. The model proves that the sort only reorders.
- ReceiptStorage.RowRoundTrip, ReceiptStorage.DecodeAfterAppend, ReceiptStorage.LoadAfterRewrite, ReceiptStorage.DigitalRowFields, ReceiptStorage.AllDigitalRowsLines: hold for "plain" receipts only (`PlainReceipt`). The source writes fields without escaping, so a store, date, time or file name holding a comma or line feed, or an item name or price holding `:` or `;`, does not read back.
- **Tests.** `Codable` conformance, the SwiftUI views other than the two computations above, and the test targets are not modelled.

## Notes on the code

- **Quantity pattern.** The quantity item pattern does produce an item. Group 2 of that pattern is the quantity, so the item's price is the quantity (`QuantityIsPrice`). The `numberOfRanges >= 5` branch is never reached, because every match of that pattern already has at least three ranges.
- **Shadowed patterns.** Two patterns never change the outcome.
  - The tab-separated item pattern: wherever it matches, the name-and-price pattern, tried first, matches too (`LineItemWithoutTabSeparated`).
  - The two-digit-year date pattern: wherever it matches, the first date pattern matches too (`ShortDateShadowed`).
- **Deletion.** `deleteReceipt` removes every receipt carrying the id, not only the first.
- **Rewrites.** The two rewrite helpers do not first ensure that the files exist. They create or overwrite them directly.
- **Date search.** The search compares the date as written, not lowercased, against the lowercased search text.
