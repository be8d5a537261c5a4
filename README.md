# task-tracker board: a verified model of the CSV parser and the board's data logic

The task board loads a published spreadsheet as CSV text and parses it into
records, one per data row, keyed by the header names. It shows the records that
have a `Unique_ID`, hiding finished ones unless "show complete" is ticked, and
deals each shown card into the High, Medium or Low column. Finishing or
undoing a card sets that record's `Status` locally. This project models those
parts in Dafny and proves what they do.

- `wrappers.dfy` (`Wrappers`): `Option`. `None` stands for JavaScript's
  `undefined`, the value a record holds for a column its row is too short to
  have.
- `text.dfy` (`Text`): `String.prototype.trim`. It strips the JavaScript
  WhiteSpace and LineTerminator characters from both ends. Lemmas cover
  padding and idempotence.
- `csv.dfy` (`Csv`): `parseCSV`.
  - The scanner loop is specified by the recursive function `Scan`. `Scan`
    takes one `Step` per character, or two for a doubled quote inside quotes.
    The method `ScanRows` keeps the loop's four variables and is proved equal
    to `SplitRows`.
  - The header and record phase is `Records`, built by the nested loops of
    `BuildRecords`.
  - `ParseCsv` chains the two methods. It returns exactly `Parse(text)`.
- `csv_quoting.dfy` (`CsvQuoting`): one scanner law per kind of character. It
  also defines `Quote`, the CSV way of writing a value (wrap it in quotes,
  double inner quotes), and proves that the scanner reads a quoted field back
  as the value. Other lemmas cover text inside quotes and an unterminated quote.
- `csv_unquoted.dfy` (`CsvUnquoted`): a second, independent reading of text
  without quotes, used as a reference.
  - Cut the text at every CR and every LF.
  - Drop the empty lines.
  - Cut each remaining line at every comma and trim each piece.
  - `UnquotedRows` proves the scanner gives exactly these rows.
- `csv_records.dfy` (`CsvRecords`): the header and record phase.
  - A key maps to its cell, with quotes stripped.
  - A later duplicate header wins.
  - A short row gives `undefined`.
  - Extra cells are dropped.
  - A header alone gives no records.
  - The single-field round trip.
- `csv_examples.dfy` (`CsvExamples`): whole parses. They include the input
  `ID,Task,Notes` LF `1,"Fix, bug",` (a comma inside quotes, then an empty
  last cell), the input `ID,Task` LF `1,"He said ""hi"""` (doubled quotes
  inside quotes), and a value that loses its own surrounding quotes.
- `board.dfy` (`Board`): the board.
  - The `renderBoard` filters, as an order-keeping `Filter`.
  - The priority fallback.
  - The `toggleStatus` lookup and update.
  - The page's record list, as the class `RecordStore`. Its `records` field is
    the page's `globalData`. `SetStatus` updates it in place with the same
    effect as the source's find-and-assign, and `Render` deals the shown
    records into the three columns.

How the model reads the source:
- A parsed record is a `map<string, Option<string>>`.
- Reading a missing key (`Get`) gives `None`, just as reading a short row's
  column does.
- Strings are sequences of `char`.

### Quote stripping

The scanner never copies a structural quote into a cell. So the
quote-stripping step at script.js:145 only sees quotes that came from doubled
quotes. It strips them when they stand at both ends of the trimmed cell: the
field `"""hi"""` reads as `hi`. The model keeps this as written, and
`CsvExamples.WrappedValueLosesQuotes` exhibits it.

## Model

| member | source | states |
|---|---|---|
| `Csv.ParseCsv` | script.js:118-150 | The parser returns exactly `Parse(text)`: the rows the scanner produces, with the header consumed and one record per later row. |
| `Csv.ScanRows` | script.js:119-137 | The scanning loop, with its variables `i`, `inQuotes`, `currentCell`, `row` and `rows`, produces `SplitRows(text)`. This includes the final flush of a pending cell or row. |
| `Csv.BuildRecords` | script.js:139-149 | The header-and-map loops produce `Records(rows)`: nothing for no rows, else one record per row after the first. |
| `Csv.Step` | script.js:128-135 | Each step consumes exactly two characters when a quote inside quotes is followed by another quote, and exactly one otherwise. |
| `Csv.Scan` | script.js:124-136 | Scanning the rest of the text never changes or removes the rows already emitted: they stay in front of the final rows. |
| `Csv.ScanQuote` | script.js:128-130 | A quote, unless it starts a doubled quote inside quotes, toggles quoted mode and is not copied into the cell. |
| `Csv.ScanDoubledQuote` | script.js:129 | Inside quotes, `""` adds one literal quote to the cell and both characters are consumed. |
| `Csv.ScanComma` | script.js:131-132 | An unquoted comma closes the cell: the trimmed cell is pushed onto the row and the cell restarts empty. |
| `Csv.ScanLineBreak` | script.js:133-134 | An unquoted CR or LF ends the row (`EndRow`) and leaves quoted mode off. |
| `Csv.ScanContent` | script.js:135 | Any other character, and a comma, CR or LF inside quotes, is appended to the cell. |
| `Csv.EndRow` | script.js:134 | A row is emitted only when the untrimmed cell is non-empty or the row already holds cells. The emitted row has the trimmed cell appended, and row and cell are reset. Otherwise (a blank line, the LF of a CRLF) nothing changes. |
| `Csv.SplitRows` | script.js:137 | After the end-of-input flush, every emitted row has at least one cell. |
| `Csv.ScanKeepsRows` | script.js:134-137 | The scanner only ever appends to the emitted rows, and each appended row is non-empty. |
| `Csv.CellValue` | script.js:144-146 | The value read for column `k` is defined exactly when the row has a cell `k`, and is then that cell with quotes stripped. |
| `Csv.StripQuotes` | script.js:144-145 | A value that starts and ends with a quote loses its first and last character, and a lone quote becomes empty. Any other value, including the empty string, is unchanged. |
| `Csv.FillRecord` | script.js:141-146 | After the first `n` header names are assigned, the record's keys are exactly those names. |
| `Csv.RecordOf` | script.js:141-147 | A record's keys are exactly the header names. |
| `Csv.Records` | script.js:139-140 | The record count is 0 when there are no rows, else one less than the row count. Record `j` is built from header row 0 and row `j + 1`. |
| `Csv.Parse` | script.js:118-150 | Every record `parseCSV` returns is keyed by exactly the names in the first row of the text. |
| `CsvRecords.RecordField` | script.js:142-146 | The key at header index `k` (its last occurrence) maps to cell `k` with quotes stripped. A row too short to have cell `k` gives `undefined`, not `""`. |
| `CsvRecords.FillField` | script.js:142-146 | While the record is filled header by header, a later duplicate header name overwrites the value an earlier one set. |
| `CsvRecords.ExtraCellsDropped` | script.js:142 | Cells beyond the header's length do not affect the record. |
| `CsvRecords.EmptyInput` | script.js:137-140 | Empty text has no rows and so gives no records. |
| `CsvRecords.HeaderOnly` | script.js:139-140 | A header line alone, with or without a trailing LF, gives no records. |
| `CsvRecords.ScanHeaderLine` | script.js:133-134 | A plain first line ended by LF becomes the one-cell trimmed header row. |
| `CsvRecords.RoundTripRows` | script.js:124-137 | A header line then a quoted field gives the rows `[[h], [v]]`. If the quoted field is empty, only `[[h]]`, since an empty cell with an empty row is not pending. |
| `CsvRecords.QuotedValueRoundTrip` | script.js:118-150 | A value written as a quoted field (commas, quotes and line breaks included) parses back to the value, trimmed and quote-stripped. An empty quoted field gives no record. |
| `CsvRecords.QuotedValueExact` | script.js:118-150 | A non-empty value with no surrounding whitespace and no surrounding quote pair comes back exactly. |
| `CsvQuoting.ScanEscaped` | script.js:128-130 | Inside quotes, the escaped form of a value followed by a closing quote adds exactly the value to the cell and leaves quoted mode. |
| `CsvQuoting.EscapedHead` | script.js:128-135 | Inside quotes, the escaped form's first unit (a doubled quote or one other character) adds that character of the value to the cell. |
| `CsvQuoting.QuotedField` | script.js:128-135 | A quoted field followed by anything but another quote adds its value to the cell and leaves the scanner outside quotes. |
| `CsvQuoting.InsideQuotes` | script.js:131-135 | Inside quotes, text without a quote is content, with commas, CR and LF included. |
| `CsvQuoting.UnterminatedQuote` | script.js:137 | For an input that starts with a quote and has no other quote, the rest of the input is one cell. It is flushed at the end, or there is no row when that cell is empty. |
| `CsvQuoting.ScanPlain` | script.js:135 | Outside quotes, text without quotes, commas or line breaks is appended to the cell. |
| `CsvQuoting.EscapeWithoutQuotes` | script.js:129 | Escaping changes nothing in a value without quotes. |
| `CsvQuoting.CellThenComma` | script.js:131-132 | A plain cell followed by a comma adds that cell, trimmed, to the row. |
| `CsvQuoting.CellThenBreak` | script.js:133-134 | A plain cell followed by CR or LF finishes the row with that cell, trimmed, as its last cell. |
| `CsvUnquoted.UnquotedRows` | script.js:124-137 | On text without quotes, the scanner's rows are the reference rows: every CR and LF ends a line, empty lines give no row, a line of spaces gives one empty cell, and the last line is kept without a final break. |
| `CsvUnquoted.ScanUnquoted` | script.js:124-137 | From any scanner state that matches an unquoted line prefix, the rows finally emitted are the reference rows of the prefix and the rest of the text. |
| `CsvUnquoted.BreakAfter` | script.js:133-134 | A line break closes the current line exactly as the reference's line cut does. |
| `CsvUnquoted.CommaAfter` | script.js:131-132 | A comma closes the current field exactly as the reference's comma cut does. |
| `CsvExamples.QuotedCommaLine` | script.js:118-150 | For the header `h1,h2,h3` and the data line `x,"v",`, the comma inside the quotes is content and the final comma leaves an empty last cell. The result is one record. |
| `CsvExamples.QuotedCommaExample` | script.js:118-150 | `ID,Task,Notes` LF `1,"Fix, bug",` parses to `{ID: "1", Task: "Fix, bug", Notes: ""}`. |
| `CsvExamples.QuotedLastLine` | script.js:118-150 | A last quoted cell ending the input without a line break is flushed into the record. |
| `CsvExamples.EscapedQuoteExample` | script.js:118-150 | `ID,Task` LF `1,"He said ""hi"""` parses to `{ID: "1", Task: 'He said "hi"'}`. |
| `CsvExamples.WrappedValueLosesQuotes` | script.js:145 | The field `"""hi"""` parses to `hi`: the quotes that came from doubled quotes are stripped as if they were the field's own. |
| `Text.Trim` | script.js:132 | The trimmed string has no whitespace at either end. It is empty exactly when the input is all whitespace. |
| `Text.TrimStart` | script.js:132 | Only a whitespace prefix is removed, and the result does not start with whitespace. |
| `Text.TrimEnd` | script.js:132 | Only a whitespace suffix is removed, and the result does not end with whitespace. |
| `Text.TrimPadded` | script.js:132 | Trimming recovers a value from any whitespace padding around it. |
| `Text.TrimIdempotent` | script.js:134 | Trimming twice is trimming once. |
| `Board.Get` | script.js:51 | Reading a missing field gives undefined. |
| `Board.HasId` | script.js:51 | A record passes the id filter exactly when its `Unique_ID` is present, defined and not the empty string (a truthy value). |
| `Board.IsComplete` | script.js:52 | A record is complete exactly when its `Status` is present and is the string "Complete". |
| `Board.Matches` | script.js:103 | A record matches an id exactly when its `Unique_ID` is present and equal to that id. |
| `Board.Filter` | script.js:50-52 | The result is no longer than the input. Every kept record passes the test, and a record is kept exactly when it is in the input and passes. |
| `Board.FilterIsSubsequence` | script.js:50-52 | Filtering keeps records in their original order. |
| `Board.Displayed` | script.js:50-52 | The chained filters never give more records than there are, and with "show complete" ticked they give exactly the records with an id. |
| `Board.DisplayedMembers` | script.js:50-52 | A record is shown exactly when it is one of the records, has an id, and is not complete unless finished work is shown. |
| `Board.DisplayedIsSubsequence` | script.js:50-52 | The shown records are a subsequence of all records. |
| `Board.DisplayedAreOpen` | script.js:51-52 | Every shown record has a non-empty `Unique_ID`. With finished work hidden, none has status "Complete". |
| `Board.FilterKeepsAll` | script.js:52 | With "show complete" ticked, the status filter keeps every record. |
| `Board.HideCompleteExample` | script.js:52 | Of records with statuses Complete, Pending and Complete, only the Pending one is shown while finished work is hidden, and all three are shown otherwise. |
| `Board.PriorityColumn` | script.js:63 | A card goes to its `Priority` when that is High, Medium or Low. Otherwise, missing or any other value, it goes to Low. It always goes to one of the three. |
| `Board.Column` | script.js:61-67 | A column holds exactly the shown cards whose priority column it is. A name other than High, Medium or Low holds no cards. |
| `Board.ColumnsPartition` | script.js:61-67 | Every card lands in exactly one of the three columns. |
| `Board.ColumnCount` | script.js:61-67 | The three columns together hold exactly the shown cards. |
| `Board.FilterAppend` | script.js:50-52 | Filtering a list with one more record at the end gives the old result, followed by that record exactly when it passes the test. |
| `Board.DealOne` | script.js:61-67 | Dealing one more card adds it to the end of its own column only. The other two columns do not change. |
| `Board.FirstMatch` | script.js:103 | The lookup finds the first record whose `Unique_ID` is the id, or reports that none matches. |
| `Board.WithStatus` | script.js:103-104 | Only the first matching record changes, and only its `Status` (set to the new status). With no match, the records are unchanged. |
| `Board.MatchKept` | script.js:103-104 | The update leaves ids alone, so the same record still matches first. |
| `Board.StatusIdempotent` | script.js:103-104 | Setting the same status twice is setting it once. |
| `Board.UndoRestores` | script.js:98-104 | Finishing a card and then undoing it back to its previous status restores the records exactly. |
| `Board.UpdatedVisibility` | script.js:104-107 | After the update, with finished work hidden, the updated record is shown exactly when its new status is not "Complete". |
| `Board.RecordStore.constructor` | script.js:6 | The page starts with no records. |
| `Board.RecordStore.Load` | script.js:22 | Loading sheet text sets the records to the parse of that text. |
| `Board.RecordStore.SetStatus` | script.js:103-104 | The in-place update leaves the records equal to `WithStatus` of the old records. |
| `Board.RecordStore.Render` | script.js:50-67 | The column loop puts into each column exactly the shown cards whose priority column it is, in their shown order. |

## Left out

- `loadData` and `fetch` of the CSV URL (script.js:15-39): network I/O. Only the assignment of the parse result is modelled (`RecordStore.Load`). Lines 26-27 of the file do not parse as JavaScript (a `.then` after the statement-ending `;`), so the debug block at 27-37 is not modelled.
- The date sort in `renderBoard` (script.js:53-58) depends on JavaScript `Date` parsing. The model's column order is the shown order before that sort.
- `Board.RecordStore.Render`: does not model the date sort, so the order it promises within a column is the filtered order.
- `createCard` (script.js:70-96): date formatting and HTML. These are DOM and locale work.
- The DOM itself: clearing and appending the column containers, the checkbox and the refresh button.
- The POST to the backend in `toggleStatus` (script.js:110-114): network I/O, fire and forget.
- `Board.Matches`: uses string equality where the source uses loose `==`. The card's `onclick` (script.js:91-92) pastes `Unique_ID` unquoted into inline JavaScript source. Only an id written as a number literal arrives as its value, a number; JavaScript's number-to-string coercion in `==` (for example `"007" == 7`) is not modelled. Any other id, such as `T-1` or `abc`, is run as a JavaScript expression, so the handler throws a ReferenceError or receives some unrelated value; that evaluation is not modelled either. `RecordStore.SetStatus` takes any string id and matches it exactly.
- Characters are Dafny `char`s (Unicode scalar values), while JavaScript indexes UTF-16 code units. Text outside the Basic Multilingual Plane is therefore read per scalar value.
- `Text.IsWhitespace`: fixes the set `trim` removes to the JavaScript WhiteSpace and LineTerminator characters of current Unicode (tab, VT, FF, space, NBSP, BOM, the Zs characters, LF, CR, LS, PS).
- Header names such as `__proto__` that behave specially as JavaScript object keys are treated as ordinary keys.
- `globalData` holds references to record objects. The model holds record values, so an alias of a record held elsewhere does not see the update. Only `globalData` is updated, and it is modelled.
