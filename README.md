# Student budget tracker: a Dafny model of its core

The tracker is a PHP and JavaScript web application. Students use it to record income and expenses in Naira, plan budgets per category and import bank statements. This project models the logic behind those pages and proves properties of it.

- **Reading and writing delimited text.**
  - `CSVParser` splits lines, detects the delimiter and scans quoted fields.
  - The import page has its own simpler comma tokenizer.
  - The exporter escapes fields and builds the per-kind and combined reports. A line it writes reads back through `CSVParser` to the same fields.
- **Import mapping.** Both `ImportManager` classes are modelled as classes. They auto-detect column roles from the header and apply bank templates. They turn the column selects into a mapping, build the preview, parse amounts and dates, and classify descriptions by keyword. `PDFParser` is modelled with its fallback chain of statement formats, its date pivot, its CR/DR amount markers, its table-row splitter and its quality score.
- **Server bulk import.** api/import_transactions.php, `bulkImportTransactions` in api/transactions.php and `processCSVFile` in api/import.php share one duplicate-checking insert loop. The loop runs over a `Database` object holding the income, expense, budget and user tables. Each endpoint's guards and its way of choosing the table are modelled.
- **Collections.** The budget planner upserts by category and deletes by id. The category manager edits, appends and deletes while protecting defaults. The budget form posts add and delete budgets. The suggested-budget page applies a budget.
- **Aggregates and insights.** The dashboard computes totals, the savings rate, the ten latest transactions, the category chart and the six-month trend. dashboard.php picks a savings tier and the top category. budget.php converts periods to monthly figures and computes percent used. The rule-based insights of js/ai-analysis.js are modelled too.
- **Accounts.** The module covers registration through auth/register.php and api/auth.php, token login, and the add-income form.

A method that changes state is proved against a function that computes the new state from the old one. Lemmas about those functions state what the application promises. Money is a Dafny `real`. `parseFloat`, `Date`, the clock, password hashing, random bytes and database failures are parameters of the members that use them.

## Model

| member | source | states |
|---|---|---|
| Amounts.AmountTextSpec | js/csv-parser.js:201-206 | after deleting the noise characters none is left; with both parentheses present the text starts with one minus and holds no parenthesis; otherwise no character is invented |
| Amounts.AmountTextIgnoresNoise | js/import-simple.js:383-388 | noise characters anywhere in the amount text do not change the cleaned text |
| Text.Trim | js/csv-parser.js:45 | `trim()` leaves no whitespace at either end and never lengthens the text |
| Text.TrimOfTrimmed | js/csv-parser.js:45 | trimming text without edge whitespace changes nothing |
| Text.ToLower | js/import.js:422 | `toLowerCase()` on ASCII letters: the length is kept and each character is lowered, non-ASCII characters pass unchanged |
| Text.RemoveCharsSpec | js/csv-parser.js:201 | a global character-class `replace` with "" keeps exactly the characters outside the class, in order |
| Text.FindFirst | js/pdf-parser.js:219 | the first occurrence of a pattern, None exactly when the pattern does not occur |
| Text.LeadingInt | js/categories.js:150 | `Number.parseInt` without a radix reads a number exactly when, after leading whitespace and an optional sign, a hexadecimal digit follows a `0x`/`0X` prefix or, without that prefix, a decimal digit follows |
| Text.LeadingIntOfHex | js/categories.js:150 | after `0x` or `0X` a run of hexadecimal digits reads as its base-16 value |
| Text.SignedReading | js/categories.js:150 | a leading minus negates the reading, a leading plus leaves it alone |
| Text.BareHexPrefixIsNaN | js/categories.js:150 | `0x` with no hexadecimal digit after it reads as NaN, not as 0 |
| Text.HexSample | js/categories.js:159 | `parseInt("0x1A")` is 26 |
| Text.Split | js/pdf-parser.js:169 | `split(d)` yields at least one part and no part contains `d` |
| Text.JoinSplit | js/pdf-parser.js:169 | joining the parts of `split(d)` with `d` gives the text back |
| Text.SplitJoin | js/pdf-parser.js:169 | parts without `d` joined with `d` split back into the same parts |
| CsvParser.SplitLines | js/csv-parser.js:81-84 | splitting at CRLF, CR or LF always yields at least one line |
| CsvParser.SplitLinesShape | js/csv-parser.js:81-84 | no line returned contains a CR or LF, and there is at least one line |
| CsvParser.SplitLinesIsSplit | js/csv-parser.js:81-84 | on text without CR the splitter is exactly `split("\n")` |
| CsvParser.JoinSplitLines | js/csv-parser.js:81-84 | joining the lines of CR-free text with "\n" gives the text back |
| CsvParser.SplitLinesOfJoin | js/csv-parser.js:81-84 | terminator-free lines joined with "\n" split back into the same lines |
| CsvParser.Count | js/csv-parser.js:71 | the match count is at most the line length and is 0 exactly when the character is absent |
| CsvParser.DetectedDelimiter | js/csv-parser.js:65-79 | the delimiter is the first candidate with the largest count; a line with no candidate keeps the comma |
| CsvParser.PickFromLeads | js/csv-parser.js:70-76 | the forEach, from any state it can reach, ends on the first candidate with the largest count |
| CsvParser.Unquote | js/csv-parser.js:121-126 | removing the outer quotes never lengthens a field |
| CsvParser.ScanWithoutQuotes | js/csv-parser.js:92-118 | the character scanner on quote-free text splits at the delimiter |
| CsvParser.NoQuotesIsSplit | js/csv-parser.js:86-127 | a line without quotes parses as `split(delimiter)` with each field trimmed |
| CsvParser.PartUnquoted | js/csv-parser.js:121-126 | a trimmed field of quote-free text is not changed by the unquoting |
| CsvParser.ScanLength | js/csv-parser.js:92-118 | the scanner yields one field more than there are delimiters outside quotes |
| CsvParser.FieldCount | js/csv-parser.js:86-127 | parseLine returns one field more than the delimiters outside quotes |
| CsvParser.KeptRows | js/csv-parser.js:43-56 | the data loop keeps at most one row per line |
| CsvParser.KeptRowsExactly | js/csv-parser.js:43-56 | a row is kept exactly when some non-blank data line parses to it with the header's width |
| CsvParser.KeptRowsWidth | js/csv-parser.js:48-51 | every kept row has as many fields as the header |
| CsvParser.CsvOf | js/csv-parser.js:30-63 | every row of the parse has the header's width |
| CsvParser.EmptyTextHasOneEmptyHeader | js/csv-parser.js:31-34 | an empty file gives one empty header and no rows, so the "Empty CSV file" error never fires |
| CsvParser.CSVParser.constructor | js/csv-parser.js:3-6 | a new parser uses the comma |
| CsvParser.CSVParser.DetectDelimiter | js/csv-parser.js:65-79 | the stored delimiter becomes the detected one |
| CsvParser.CSVParser.ParseLine | js/csv-parser.js:86-128 | the quote-aware scan loop returns the fields of the line (see NoQuotesIsSplit, FieldCount) |
| CsvParser.CSVParser.ParseRows | js/csv-parser.js:43-56 | the row loop returns exactly the kept rows (see KeptRowsExactly) |
| CsvParser.CSVParser.ParseCsv | js/csv-parser.js:30-63 | parseCSV returns the header, the kept rows and the detected delimiter |
| CsvParser.AmountNoiseIsCurrencyCommaSpace | js/csv-parser.js:201 | the removed characters are the currency signs, the comma and whitespace |
| CsvParser.CleanAmountTextSpec | js/csv-parser.js:197-222 | missing or empty input has no text; the cleaned text has no currency sign, comma or space, so the decimal-comma branches never fire; parentheses become one leading minus |
| CsvParser.CleanAmount | js/csv-parser.js:197-224 | missing or empty input reads as 0 |
| CsvParser.CollapseSpacesSpec | js/csv-parser.js:232 | after collapsing, every whitespace is a plain space and no two are adjacent |
| CsvParser.KeepDescriptionCharsSpec | js/csv-parser.js:232 | only word characters, whitespace and `-.,()` remain, and clean text is unchanged |
| CsvParser.KeepDescriptionCharsConcat | js/csv-parser.js:232 | the character filter works piece by piece: the kept characters of a joined text are those of each part, in order |
| CsvParser.KeepDescriptionChar | js/csv-parser.js:232 | a single character is kept exactly when it is a word character, whitespace or one of `-.,()` |
| CsvParser.InkTrimStart | js/csv-parser.js:230 | trimming the start keeps every allowed non-space character, in order |
| CsvParser.InkTrimEnd | js/csv-parser.js:230 | trimming the end keeps every allowed non-space character, in order |
| CsvParser.InkCollapse | js/csv-parser.js:231 | collapsing whitespace runs keeps every allowed non-space character, in order |
| CsvParser.InkKeep | js/csv-parser.js:232 | the character filter keeps every allowed non-space character, in order |
| CsvParser.CleanDescriptionSpec | js/csv-parser.js:226-233 | missing input gives "Unknown Transaction"; otherwise only allowed characters remain, the result is no longer than the input, and every allowed non-space character of the input survives in order |
| CsvParser.CollapseSpacesNoop | js/csv-parser.js:232 | single-spaced text is unchanged by the collapse |
| CsvParser.CleanDescriptionOfCleanText | js/csv-parser.js:226-234 | an already clean description comes back unchanged |
| ImportSimple.Fields | js/import-simple.js:151-171 | the tokenizer always returns at least one field |
| ImportSimple.FieldsCount | js/import-simple.js:156-166 | it returns one field more than the commas seen outside quotes |
| ImportSimple.FieldsQuoteFree | js/import-simple.js:159-160 | no field keeps a quote character, since every quote only toggles the state |
| ImportSimple.FieldsTrimmed | js/import-simple.js:162-169 | every field is pushed trimmed |
| ImportSimple.LineFieldsSpec | js/import-simple.js:151-171 | parseCSVLine: field count is one more than the splitting commas; fields are trimmed and quote-free |
| ImportSimple.NonBlankLines | js/import-simple.js:118 | the filter keeps at most as many lines as it is given |
| ImportSimple.NonBlankLinesMembers | js/import-simple.js:118 | the kept lines are exactly the lines whose trim is non-empty |
| ImportSimple.NonBlankLinesKeepAll | js/import-simple.js:118 | text without blank lines keeps all its lines in order |
| ImportSimple.FieldsOfLines | js/import-simple.js:127 | one parsed row per data line |
| ImportSimple.FieldsOfLinesAt | js/import-simple.js:127 | row k is the parse of line k |
| ImportSimple.FieldsOfLinesSnoc | js/import-simple.js:127 | mapping over one more line appends that line's parse |
| ImportSimple.ImportManager.constructor | js/import-simple.js:3-8 | a new manager holds no data, no parsed transactions and no mapping |
| ImportSimple.ImportManager.ParseCsvLine | js/import-simple.js:151-171 | the character loop returns the fields that LineFieldsSpec describes |
| ImportSimple.ImportManager.UpdateColumnMapping | js/import-simple.js:235-242 | the mapping is rebuilt from the four selects and nothing else changes |
| ImportSimple.ImportManager.AutoDetectColumns | js/import-simple.js:189-210 | each header naming a role writes its index into that role's select, then the mapping is rebuilt |
| ImportSimple.ImportManager.ProcessCsv | js/import-simple.js:114-140 | fewer than two non-blank lines is the error and changes nothing; otherwise the data, the detected selects and the mapping are set, and the deferred preview is rebuilt from every row when detection found date, description and amount, else left as it was |
| ImportSimple.ImportManager.ReadCsv | js/import-simple.js:117-128 | the non-blank lines as a header and rows, or the error for fewer than two lines |
| ImportSimple.ImportManager.ReadTable | js/import-simple.js:126-127 | the header and every data line pass through parseCSVLine |
| ImportSimple.ImportManager.ApplyBankTemplate | js/import-simple.js:212-233 | an unknown template or no data changes nothing; otherwise the template's columns are selected and the mapping refreshed |
| ImportSimple.ImportManager.UpdatePreview | js/import-simple.js:272-309 | without data or with an unset date, description or amount column nothing changes; otherwise the preview is rebuilt from every row |
| ImportSimple.ImportManager.ResetImport | js/import-simple.js:464-470 | data, parsed transactions and mapping are cleared |
| ImportRules.With | js/import.js:220-231 | writing one select sets that role and leaves the other three as they were |
| ImportRules.LastWithRole | js/import.js:217-233 | the last header index whose role is the given one, None when no header has it |
| ImportRules.DetectedLastWins | js/import.js:215-236 | after detection a role points at the last header that mentions it, or keeps its previous value when none does |
| ImportRules.DetectedSnoc | js/import.js:217-233 | one more header either writes its own index into its role or changes nothing |
| ImportRules.ToMappingSpec | js/import.js:253-260 | `parseInt(value) \|\| null` never yields column 0: an empty select and index 0 both become null, every other index passes through |
| ImportRules.WithTemplate | js/import.js:242-244 | applying a template leaves the category select alone |
| ImportRules.TemplatesLeaveDateUnset | js/import.js:7-13 | every built-in template puts the date in column 0, so the resulting mapping never has a date column |
| ImportRules.ParseAmount | js/import.js:402-419 | missing or empty amount text throws |
| ImportRules.ParseAmountText | js/import.js:406-411 | no removed character survives in the text parseFloat reads, and parenthesised input gets one leading minus |
| ImportRules.NairaOnlyStrippedBySimple | js/import-simple.js:383 | the simplified manager deletes the naira sign, the full manager keeps it |
| ImportRules.ParseDate | js/import.js:371-400 | missing or empty date text throws |
| ImportRules.SlashDateParts | js/import.js:385-387 | a month/day/year string builds the date from year, month less one and day |
| ImportRules.DashDateParts | js/import.js:388-390 | a MM-DD-YYYY string builds the date from year, month less one and day |
| ImportRules.IsoDateText | js/import.js:383-384 | a YYYY-MM-DD string goes to the Date parser unchanged |
| ImportRules.FirstRule | js/import.js:425-437 | the index of the first rule whose keyword the description mentions, None when no rule applies |
| ImportRules.CategorizeSpec | js/import.js:421-440 | the category is that of the first matching rule, "other" when none matches, never empty |
| ImportRules.GroceryIsFood | js/import.js:425-426 | a description mentioning "grocery" is food whatever else it says |
| ImportRules.FoodComesFirst | js/import-simple.js:402-403 | a description mentioning "food" is food in both managers |
| ImportRules.Assemble | js/import.js:313-322 | type is "income" exactly when the amount is non-negative, the description is trimmed, the category never empty |
| ImportRules.Attempts | js/import.js:304-327 | the map step yields one attempt per row, row j's with index j |
| ImportRules.Somes | js/import.js:328 | the null filter keeps at most as many items as it gets |
| ImportRules.SomesSpec | js/import.js:328 | the filter keeps exactly the non-null items, all of them when none failed |
| ImportRules.PreviewRows | js/import.js:293-332 | the preview has at most one transaction per row |
| ImportRules.PreviewRowsFrom | js/import.js:304-328 | every previewed transaction is the parse of some row |
| ImportRules.PreviewRowsKeepAll | js/import.js:304-328 | when every row parses, the preview drops none |
| ImportRules.PreviewRowShape | js/import.js:306-322 | a parsed row gets id now plus its index, the income/expense type by sign, a category and a trimmed description |
| ImportRules.PreviewRowsShape | js/import.js:304-328 | every previewed transaction is typed by the sign of its amount, with a category and a trimmed description |
| ImportFull.Stored | js/import.js:471-481 | the stored copy keeps id, date, description and category, with the absolute amount, which is non-negative |
| ImportFull.FiledSpec | js/import.js:471-483 | every previewed transaction lands in exactly one list, the income list gains one per "income" transaction, and the money added is the sum of absolute amounts |
| ImportFull.FiledTotals | js/import.js:468-485 | filing a batch raises the combined totals by its absolute amounts, adds one entry per transaction and leaves the budgets alone |
| ImportFull.ReadCsv | js/csv-parser.js:8-28 | reading the file yields the CSV parser's result for its text |
| ImportFull.ImportManager.constructor | js/import.js:3-6 | no data, no parsed transactions, an empty mapping |
| ImportFull.ImportManager.UpdateColumnMapping | js/import.js:253-260 | the mapping is recomputed from the selects and nothing else changes |
| ImportFull.ImportManager.AutoDetectColumns | js/import.js:215-236 | the selects become the detection result over the headers and the mapping follows them |
| ImportFull.ImportManager.ProcessCsv | js/import.js:148-166 | the parsed header and rows become the current data, the selects are reset and auto-detected, and the deferred preview is rebuilt from the rows when detection found date, description and amount, else left as it was |
| ImportFull.ImportManager.ApplyBankTemplate | js/import.js:238-251 | an unknown template or no data changes nothing; otherwise the template's columns are selected and the mapping follows |
| ImportFull.ImportManager.UpdatePreview | js/import.js:293-332 | without data or a complete mapping the preview stays; otherwise it becomes the parsed rows |
| ImportFull.ImportManager.ImportTransactions | js/import.js:442-497 | an empty preview is an error, a refused batch is an error, an accepted one files every transaction into the stored data |
| ImportFull.ImportManager.ResetImport | js/import.js:519-525 | data, preview and mapping are cleared |
| PdfParser.ParseTransactions | js/pdf-parser.js:44-67 | the first of the four parsers that neither throws nor returns an empty list gives the result, every earlier one failed; when all fail the error "Unable to parse PDF statement format" |
| PdfParser.ParseAmount | js/pdf-parser.js:206-207 | missing or empty amount text throws |
| PdfParser.ReplaceFirstRemoves | js/pdf-parser.js:218-221 | `replace` with a string pattern cuts out the first occurrence and nothing else |
| PdfParser.MarkersSpec | js/pdf-parser.js:217-222 | a CR marker is cut out and the sign kept, even when DR is present too; otherwise a DR marker is cut out and a minus added; without either the text is unchanged |
| PdfParser.FigureIsClean | js/pdf-parser.js:210 | a plain figure passes the noise filter unchanged and holds no marker |
| PdfParser.MarkerAtEnd | js/pdf-parser.js:218-221 | a trailing marker is the first occurrence of that marker |
| PdfParser.CreditFigure | js/pdf-parser.js:218-219 | a figure followed by CR reads as the figure |
| PdfParser.DebitFigure | js/pdf-parser.js:220-221 | a figure followed by DR reads as its negation |
| PdfParser.BracketedFigure | js/pdf-parser.js:213-215 | a figure in parentheses reads as its negation |
| PdfParser.DollarFigure | js/pdf-parser.js:210 | a leading dollar sign is dropped |
| PdfParser.PivotSpec | js/pdf-parser.js:170-171 | two-digit years below 50 land in 2000-2049, the others in 1950-1999, and the last two digits are kept |
| PdfParser.ConvertDate | js/pdf-parser.js:163-164 | missing or empty date text throws |
| PdfParser.LeadingIntOfDigits | js/pdf-parser.js:171 | Number.parseInt reads a run of digits as its decimal value |
| PdfParser.SplitThree | js/pdf-parser.js:169 | splitting three separator-free parts joined by the separator gives them back |
| PdfParser.DigitParts | js/pdf-parser.js:169-176 | three digit strings make the date from year (pivoted for short years), month less one and day |
| PdfParser.AutoShortYear | js/pdf-parser.js:179-182 | in auto mode a slash date whose third part has two characters is read as MM/DD/YY |
| PdfParser.AutoLongYear | js/pdf-parser.js:182-184 | in auto mode a slash date whose third part has another length is read as MM/DD/YYYY |
| PdfParser.SlashVia | js/pdf-parser.js:168-176 | an explicit slash format builds the date its parts give |
| PdfParser.ShortSlashDate | js/pdf-parser.js:168-182 | a digit date with a two-digit year is built from the pivoted year, the month less one and the day |
| PdfParser.LongSlashDate | js/pdf-parser.js:174-184 | a digit date with a year of any other length is built from the year as written |
| PdfParser.IsoDashDate | js/pdf-parser.js:186-189 | a dash date whose first part has four characters goes to the Date parser unchanged |
| PdfParser.DashDate | js/pdf-parser.js:190-193 | any other dash date of digits is read as month-day-year |
| PdfParser.ShortSlashTextThrows | js/pdf-parser.js:179-180 | a slash date with fewer than three parts throws before any Date is built |
| PdfParser.ConvertAll | js/pdf-parser.js:120-129 | a successful conversion has one transaction per match |
| PdfParser.ConvertAllSpec | js/pdf-parser.js:120-129 | the conversion fails exactly when one match throws, otherwise it converts each match in order |
| PdfParser.FirstMatched | js/pdf-parser.js:119-132 | the first pattern with any match, every earlier one matched nothing |
| PdfParser.ParseWellsFargo | js/pdf-parser.js:110-135 | no matching pattern gives an empty list; otherwise the matches of the first matching pattern, converted as MM/DD/YYYY dates |
| PdfParser.ConvertFirstMatched | js/pdf-parser.js:119-132 | the pattern loop stops after the first pattern that matched and returns its converted matches |
| PdfParser.SpaceRun | js/pdf-parser.js:273 | the length of the leading whitespace run, which is followed by a non-space |
| PdfParser.CellsShape | js/pdf-parser.js:270-277 | every cell is non-empty, trimmed and tab-free |
| PdfParser.CellsText | js/pdf-parser.js:272-276 | the cells hold every non-whitespace character of the line in order |
| PdfParser.TableRowSpec | js/pdf-parser.js:270-277 | parseTableRow's cells are non-empty, trimmed, tab-free and together keep every non-blank character; where it splits is stated by NoSplitInside, OneCell and TableRowOfJoin |
| PdfParser.NoSplitInside | js/pdf-parser.js:272-273 | text with no tab and no two adjacent whitespace characters is never split: it all goes into the current cell |
| PdfParser.OneCell | js/pdf-parser.js:270-277 | such a line with non-blank text is exactly one cell, the trimmed line |
| PdfParser.TableRowOfJoin | js/pdf-parser.js:270-277 | non-empty, trimmed, single-spaced, tab-free cells joined by two or more whitespace characters or by a tab read back as the same cells |
| PdfParser.Score | js/pdf-parser.js:303-308 | the rounded score lies in 0..100, 100 when every check passed and 0 when none did |
| PdfParser.AssessParsingQuality | js/pdf-parser.js:279-313 | each counter counts the transactions with that valid field, none exceeds the total, an empty list scores 0 and the score is at most 100 |
| Export.EscapeAll | js/export.js:195-201 | one escaped field per cell, each escaped on its own |
| Export.RowLines | js/export.js:193-203 | one line per row, each written on its own |
| Export.ScanQuotedBody | js/export.js:198 | the CSV reader turns a doubled-quote body and its closing quote back into the field |
| Export.ScanEscaped | js/export.js:196-200 | reading one field written by arrayToCSV gives the field back |
| Export.ScanRow | js/export.js:195-201 | the CSV reader's scanner splits a written row back into its fields |
| Export.RowRoundTrip | js/export.js:192-205 | a row of trimmed, line-break-free fields written by arrayToCSV reads back through the CSV parser's line reader as the same fields |
| Export.EscapeNoBreak | js/export.js:197-200 | an escaped field holds a line break only when the field did |
| Export.CsvLines | js/export.js:192-205 | without line breaks in fields the CSV text splits into exactly one line per row |
| Export.TransactionRows | js/export.js:54 | one row per transaction, each built from its own item |
| Export.BudgetRows | js/export.js:68 | one row per budget, each built from its own item |
| Export.TransactionsCsvLines | js/export.js:52-64 | the income and expense tables are the header line followed by one line per transaction, in order |
| Export.BudgetsCsvLines | js/export.js:66-71 | the budget table is the header line followed by one line per budget, in order |
| Export.ReportSteps | js/export.js:73-83 | the report is the heading followed by three "blank line, title, table" steps |
| Export.ReportLines | js/export.js:73-83 | the report's lines are the title, a blank line, each section title followed by its table's lines, with a blank line between sections |
| Export.AllDataCsvLines | js/export.js:73-83 | the combined export reads line by line as the three titled tables |
| Export.ExportFileName | js/export.js:12-35 | every kind, unknown ones included, is saved under a "crawford_student_…_export.csv" name |
| BulkImport.DuplicateSpec | api/import_transactions.php:51-59 | the duplicate query's count is positive exactly when some scanned row has the same user, date and description and an amount within 0.01 |
| BulkImport.Classify | api/import_transactions.php:43-79 | a plan is imported exactly when it is valid, unmatched and the insert succeeds; it is a duplicate exactly when valid and matched |
| BulkImport.RunCounts | api/import_transactions.php:40-80 | every plan is counted exactly once: imported plus duplicates plus errors grows by the number of plans |
| BulkImport.RunAppends | api/import_transactions.php:40-80 | the loop only appends rows of the session user, one per imported plan, and never changes a stored row |
| BulkImport.RunKeepsNonNegative | api/import_transactions.php:65-68 | with `abs` amounts, tables without negative amounts stay so |
| BulkImport.FoundAfterRun | api/import_transactions.php:40-80 | a row some duplicate query finds is still found after the loop |
| BulkImport.FoundAfterOwnApply | api/import_transactions.php:65-72 | after a settled plan is inserted its own duplicate query finds it |
| BulkImport.RunLeavesFound | api/import_transactions.php:40-80 | after the loop every settled, unrefused insert is found by its own duplicate query |
| BulkImport.RunImportsNothing | api/import_transactions.php:40-80 | when every plan's query already finds a row, the loop imports nothing and leaves the tables alone |
| BulkImport.Resubmission | api/import_transactions.php:40-80 | running the same settled batch a second time imports nothing and leaves the tables as the first run left them |
| BulkImport.ImportedWasNew | api/import_transactions.php:59-74 | a plan changes the tables only when it was valid, unrefused and had no match |
| BulkImport.RunPlans | api/import_transactions.php:40-80 | the loop over the live tables ends in the tables and counters the specification gives |
| BulkImport.ImportOne | api/import_transactions.php:41-79 | one plan's query and insert change the tables and counters as Apply and Tally say |
| ImportApi.Guard | api/import_transactions.php:8-29 | the request reaches the loop exactly when it is a POST with action bulk_import and a non-empty decoded array |
| ImportApi.Plans | api/import_transactions.php:40-48 | one plan per element, each read from its own element |
| ImportApi.ImportBatch | api/import_transactions.php:1-97 | the reply and the tables after the call are those of the endpoint's specification |
| ImportApi.FailureChangesNothing | api/import_transactions.php:8-29 | a guard exit or a rolled-back batch fails and leaves both tables as they were |
| ImportApi.CountsAddUp | api/import_transactions.php:36-89 | a committed batch reports imported plus duplicates plus errors equal to the number of elements |
| ImportApi.MissingFieldIsError | api/import_transactions.php:43-46 | an element lacking date, description, amount or type counts as an error and inserts nothing |
| ImportApi.CompleteElement | api/import_transactions.php:48-62 | a complete element targets income exactly when its type is "income", and is a duplicate exactly when that table holds a row of the user with the same date and description and an amount within 0.01 of its absolute amount |
| ImportApi.AppendsOwnRows | api/import_transactions.php:40-82 | a committed import only appends the session user's rows, one per imported element, keeping amounts non-negative |
| ImportApi.ResubmitImportsNothing | api/import_transactions.php:40-89 | posting the same batch again after it was committed imports nothing and leaves the tables unchanged |
| TransactionsApi.DropAll | api/transactions.php:22 | removing a pattern never lengthens the text |
| TransactionsApi.DropAllNoOccurrence | api/transactions.php:22 | text without the pattern passes through `str_replace` unchanged |
| TransactionsApi.BearerHeader | api/transactions.php:20-25 | a header "Bearer t" authenticates with t itself when t holds no further "Bearer " |
| TransactionsApi.Plans | api/transactions.php:141-161 | one plan per submitted element, as the loop runs it: table by type, duplicate query with the signed amount, insert of the absolute amount |
| TransactionsApi.CorrectedPlans | api/import_transactions.php:51-56 | one plan per element with the duplicate query on the absolute amount, the probe the other import paths use |
| TransactionsApi.PlansAgree | api/transactions.php:145-161 | the as-written and corrected plans coincide exactly when no element has a negative amount |
| TransactionsApi.SignedProbeReimports | api/transactions.php:145-161 | as written, a bulk import of one expense of -10, posted a second time, imports it again, because the probe compares the signed amount with the stored absolute value |
| TransactionsApi.ResubmitImportsNothing | api/transactions.php:141-171 | with the probe on `abs(amount)`, posting a committed batch again imports nothing and leaves the tables unchanged |
| TransactionsApi.ResubmitNonNegativeImportsNothing | api/transactions.php:133-171 | as written, a committed batch without negative amounts posted again imports nothing and leaves the tables unchanged |
| TransactionsApi.Updated | api/transactions.php:186-197 | the update keeps the number of rows and the next id |
| TransactionsApi.Deleted | api/transactions.php:205-209 | the delete never adds rows |
| TransactionsApi.UpdateScoped | api/transactions.php:188-197 | exactly the row with that id and owner gets the new amount, description, category and date, keeping its id and owner; every other row is untouched |
| TransactionsApi.DeleteScoped | api/transactions.php:207-209 | exactly the rows with that id and owner disappear; every row of another user stays |
| TransactionsApi.UnauthenticatedChangesNothing | api/transactions.php:19-40 | a request with an empty or unknown token fails and changes nothing |
| TransactionsApi.UnknownActionChangesNothing | api/transactions.php:48-62 | an authenticated POST with an unknown action answers "Invalid action" and changes nothing |
| TransactionsApi.BulkCounts | api/transactions.php:133-183 | the bulk import as written counts every element once when it commits; a failed commit rolls the tables back |
| TransactionsApi.Bulk | api/transactions.php:133-184 | the reply and tables after the bulk import are those of the as-written loop with the signed probe |
| TransactionsApi.Post | api/transactions.php:48-63 | a POST dispatches on its action to the add or bulk path and ends as that path's specification says |
| TransactionsApi.Handle | api/transactions.php:9-73 | the whole endpoint ends in the reply and tables its specification gives |
| UploadApi.Extension | api/import.php:44 | the extension holds no dot or slash, and a non-empty one is what the name ends with after a dot |
| UploadApi.ExtensionOf | api/import.php:44 | a name ending in a dot and a dot-free, slash-free segment has that segment as its extension |
| UploadApi.AcceptDate | api/import.php:83-91 | a date 'Y-m-d' accepts is kept, otherwise the 'm/d/Y' reading is used, otherwise the row fails |
| UploadApi.Plans | api/import.php:74-102 | one plan per data row, each read from its own row |
| UploadApi.OnlyCsvInserts | api/import.php:16-55 | only an authenticated POST of a correctly uploaded file with a "csv" extension, in any case, can change the tables |
| UploadApi.CsvCountsAddUp | api/import.php:68-133 | every data row after the header line is counted once as imported, duplicate or error |
| UploadApi.RowFiling | api/import.php:77-118 | a row with an unreadable date is an error; otherwise it is filed as income exactly when its amount is non-negative, stored as the absolute amount, and is a duplicate exactly when either table holds a matching row of the user |
| UploadApi.ReuploadImportsNothing | api/import.php:74-124 | uploading the same file again imports nothing and leaves the tables unchanged |
| UploadApi.ProcessCsvFile | api/import.php:61-140 | the reply and tables after reading the file are those its specification gives |
| UploadApi.HandleUpload | api/import.php:9-59 | the whole endpoint ends in the reply and tables its specification gives |
| Server.Authenticate | api/transactions.php:27-42 | a token authenticates exactly when it is non-empty and some user holds it, and then as that user; an empty token fails with "Authentication required", an unknown one with "Invalid authentication" |
| Server.Owned | api/transactions.php:75-85 | the listing holds exactly the user's rows, and only rows of the table |
| Store.KindOf | api/transactions.php:144 | only the exact type "income" selects the income table |
| Store.TokenOwner | api/auth.php:139-147 | no owner exactly when no user holds the token; otherwise a user holding it |
| Store.PhpTrimStart | auth/register.php:6-8 | drops a prefix made only of PHP whitespace and stops at the first other character |
| Store.PhpTrimEnd | auth/register.php:6-8 | drops a suffix made only of PHP whitespace and stops at the last other character |
| Store.PhpTrim | auth/register.php:6-8 | the result neither starts nor ends with PHP whitespace and is no longer than the input |
| Store.Database.constructor | api/import.php:13-14 | a connection to empty tables whose ids start at 1 |
| Store.Database.SetLedger | api/transactions.php:171-181 | a commit or rollback leaves exactly the given transaction tables |
| Store.Database.InsertRow | api/transactions.php:154-161 | one insert appends a row with the next id to the chosen table |
| BudgetForms.AddBudget | api/add_budget.php:6-42 | the redirect and budgets table after the post are those of the endpoint's specification |
| BudgetForms.AddBudgetChanges | api/add_budget.php:6-33 | the table changes exactly for a valid POST with no existing budget for the category and no database error, and then gains exactly the new row with the next id and a success redirect |
| BudgetForms.InvalidBudgetRefused | api/add_budget.php:11-14 | an empty category or period or a non-positive amount is refused, whatever the table holds |
| BudgetForms.ExistingBudgetRefused | api/add_budget.php:20-27 | a valid post for a category the user already budgets is refused and changes nothing |
| BudgetForms.AddBudgetKeepsUnique | api/add_budget.php:20-30 | the table keeps at most one budget per user and category |
| BudgetForms.Kept | api/delete_budget.php:13-14 | the rows kept are exactly those not matching both the id and the session user |
| BudgetForms.BudgetsOf | api/delete_budget.php:13 | exactly the budgets of the user |
| BudgetForms.DeleteBudget | api/delete_budget.php:6-26 | the redirect and budgets table after the delete link are those of the endpoint's specification |
| BudgetForms.DeleteScoped | api/delete_budget.php:13-14 | every other user's budgets stay exactly as they were, in order |
| BudgetForms.DeleteBudgetChanges | api/delete_budget.php:6-22 | without an id or on a database error nothing is deleted; otherwise exactly the matching row goes and the id counter stays |
| IncomeForm.AddIncome | api/add_income.php:6-34 | the redirect and income table after the post are those of the endpoint's specification |
| IncomeForm.AddIncomeChanges | api/add_income.php:6-25 | the table changes exactly for a valid POST the database accepts, and then gains one row of the user with the positive amount, the category, the date and the trimmed, non-empty description |
| IncomeForm.BlankDescriptionRefused | api/add_income.php:8-14 | a description of only whitespace is refused whatever else was posted |
| Registration.Register | auth/register.php:5-59 | the redirect and users table after the post are those of the endpoint's specification |
| Registration.CheckOrder | auth/register.php:15-41 | the first failing check names the redirect: empty field, then mismatched confirmation, then a password under 6 characters, then an email or student id already registered |
| Registration.RegisterChanges | auth/register.php:15-50 | a user is inserted exactly when every check passes and the database raises nothing, with the next id, trimmed name, student id and email, and the hashed password |
| Registration.RegisterKeepsUnique | auth/register.php:34-47 | emails and student ids stay unique |
| AuthApi.HexDigit | api/auth.php:136 | each nibble becomes a lower-case hexadecimal digit |
| AuthApi.DigitValue | api/auth.php:136 | reading a digit gives a nibble that writes back as the same digit |
| AuthApi.Bin2Hex | api/auth.php:136 | two hexadecimal digits per byte |
| AuthApi.HexRoundTrip | api/auth.php:136 | decoding a token gives back its bytes, so distinct random bytes give distinct tokens |
| AuthApi.GenerateToken | api/auth.php:135-137 | 32 random bytes give 64 lower-case hexadecimal characters |
| AuthApi.FirstByEmail | api/auth.php:55-57 | no user exactly when no row has the email; otherwise a stored user with it |
| AuthApi.Login | api/auth.php:45-81 | the reply and users table after a login are those of its specification |
| AuthApi.SignUp | api/auth.php:83-129 | the reply and users table after a registration are those of its specification |
| AuthApi.HandleAuth | api/auth.php:13-43 | the whole endpoint ends in the reply and users table its specification gives |
| AuthApi.DispatchChangesNothing | api/auth.php:23-43 | a non-POST, an unknown action or a logout leaves the users table alone; "Method not allowed" and "Invalid action" answer the first two |
| AuthApi.LoginTokenUpdate | api/auth.php:46-77 | a login stores a token exactly when both fields are given, the email's first user exists and the password verifies; then only that user's token changes, to a 64-character one |
| AuthApi.SignUpChanges | api/auth.php:84-113 | a user is inserted exactly when name, email and a password of at least 6 characters are given, the email is new and the database accepts, with the next id, the hashed password and the new token |
| AuthApi.SignUpKeepsUnique | api/auth.php:99-113 | emails and student ids stay unique |
| AuthApi.LoginKeepsUnique | api/auth.php:63-64 | a login only rewrites tokens, so emails and student ids stay unique |
| SuggestedBudget.MonthlyIncome | suggested-budget.php:19-26 | a missing or zero average becomes the default 50000, any other average is used as it is |
| SuggestedBudget.PhpRound | suggested-budget.php:30 | the rounded integer lies within one half of the value and is non-negative for non-negative values |
| SuggestedBudget.Rounded | suggested-budget.php:29-39 | one line per share, in order, with the share's category |
| SuggestedBudget.RoundedNear | suggested-budget.php:29-39 | rounding moves the total by at most one half per share |
| SuggestedBudget.AsWrittenPercents | suggested-budget.php:30-38 | the nine percentages add up to 110 |
| SuggestedBudget.AsWrittenOverspends | suggested-budget.php:29-39 | as written, every income of at least 50 is shown a suggestion above it and a negative "Remaining" |
| SuggestedBudget.DefaultOverspends | suggested-budget.php:24-39 | the default 50000 is shown a total of at least 54995.5, overspent by at least 4995.5 |
| SuggestedBudget.Suggested | suggested-budget.php:170-186 | the method's six spending lines and a savings line last |
| SuggestedBudget.MethodPercents | suggested-budget.php:170-186 | the method's spending shares add up to 85, and with savings to 100 |
| SuggestedBudget.SuggestedFits | suggested-budget.php:29-39 | the corrected allocation adds up exactly to the income, leaves nothing over, keeps the table's food, transport, textbook, accommodation and entertainment lines, and saves within 3 of 15% of the income |
| SuggestedBudget.SavingsNonNegative | suggested-budget.php:38 | from an income of 20 the corrected savings line is never negative |
| SuggestedBudget.Dropped | suggested-budget.php:54-57 | exactly the other users' budgets are kept |
| SuggestedBudget.ApplyBudget | suggested-budget.php:49-75 | the page and budgets table after the post are those of the handler's specification |
| SuggestedBudget.UpsertSpec | suggested-budget.php:60-64 | an existing budget for the category only changes amount; otherwise one monthly row with the next id is appended |
| SuggestedBudget.ApplyKeepsUnique | suggested-budget.php:49-75 | applying keeps at most one budget per user and category |
| SuggestedBudget.ApplyLeavesOthers | suggested-budget.php:49-75 | whatever is posted, every other user's budgets stay exactly as they were, in order |
| SuggestedBudget.ApplyWritesPositive | suggested-budget.php:62-66 | after a committed apply, every category posted once with an amount above 0 has a budget of exactly that amount |
| SuggestedBudget.ReplaceLeavesOnlyEntries | suggested-budget.php:54-66 | with replace_existing every budget of the user afterwards is monthly and comes from a posted entry above 0 |
| SuggestedBudget.NoApplyChangesNothing | suggested-budget.php:49-74 | anything but the apply POST, or a rolled-back one, leaves the budgets and shows the page again |
| BudgetPage.TotalBudget | budget.php:15-25 | the loop's total is the sum of every budget's monthly contribution |
| BudgetPage.Percentage | budget.php:174 | 0 without a positive monthly figure, never above 100 |
| BudgetPage.PercentageRange | budget.php:174 | with a positive monthly figure: 100 once spending reaches the budget, the exact share below that, never negative |
| BudgetPage.CardOf | budget.php:166-175 | over budget exactly when spending exceeds the monthly figure, exactly when the remainder is negative |
| BudgetPage.OverviewOf | budget.php:15-33 | what remains is the total budget minus the month's spending |
| BudgetPage.PeriodConversions | budget.php:18-23 | weekly is times 4.33, semester over 6, monthly as is; an unknown period adds nothing to the total but shows its raw amount on its card |
| BudgetPage.TotalIsCardSum | budget.php:16-25 | for the known periods the total equals the sum of the cards' monthly figures |
| BudgetPage.TotalNonNegative | budget.php:16-25 | with non-negative amounts the total budget is never negative |
| BudgetManagement.CategoryIndex | js/budget.js:77 | the index of the first budget of the category; None exactly when no budget has it |
| BudgetManagement.WithoutId | js/budget.js:220 | exactly the budgets with another id are kept |
| BudgetManagement.BudgetWithId | js/budget.js:206 | the earliest stored budget with the id, as `find` returns it; None exactly when no budget has it |
| BudgetManagement.CardFor | js/budget.js:143-151 | the card's monthly figure, month spending of its category, remainder, over flag, and a bar of 0 without a positive figure and never above 100 |
| BudgetManagement.BudgetManager.constructor | js/budget.js:3-32 | the stored budgets and expenses, or empty lists when nothing is stored |
| BudgetManagement.BudgetManager.HandleBudgetSubmit | js/budget.js:69-93 | the budgets become the submit's upsert by category |
| BudgetManagement.BudgetManager.DeleteBudget | js/budget.js:218-224 | a confirmed delete removes the budgets with the id, otherwise nothing changes |
| BudgetManagement.BudgetManager.EditBudget | js/budget.js:205-216 | the form gets the category, amount and period of the earliest budget with the id; nothing for an unknown id |
| BudgetManagement.BudgetManager.OverviewFor | js/budget.js:106-125 | the total budget, the month's spending and their difference |
| BudgetManagement.BudgetManager.CardsFor | js/budget.js:142-190 | one card per budget, in list order |
| BudgetManagement.SubmitKeepsUnique | js/budget.js:76-91 | a submit keeps at most one budget per category |
| BudgetManagement.SubmitChanges | js/budget.js:76-91 | a present category rewrites its first budget in place, keeping id and creation date; a new one is appended with the clock as id; the length grows exactly for a new category |
| BudgetManagement.SubmitStores | js/budget.js:79-91 | afterwards a budget of the submitted category holds the submitted amount and period |
| BudgetManagement.WithoutIdAbsent | js/budget.js:220 | deleting an id no budget carries changes nothing |
| BudgetManagement.WithoutIdRemovesOne | js/budget.js:220 | with unique ids a delete removes exactly that one budget and keeps the order |
| BudgetManagement.ConversionsCompared | js/budget.js:193-203 | weekly times 4.33, yearly over 12, anything else as is; the page agrees except on semester and yearly budgets |
| BudgetManagement.CategoryWithinMonth | js/budget.js:145-147 | with non-negative amounts a category's month spending lies between 0 and the month's spending |
| BudgetManagement.CardRange | js/budget.js:150 | the bar lies in 0..100 and is full exactly once spending reaches a positive budget |
| BudgetManagement.SubmitTotal | js/budget.js:76-109 | a new category adds its monthly figure to the total; a replaced one swaps its old figure for the new |
| Categories.CategorySet.With | js/categories.js:161-165 | only the list of the given kind is replaced |
| Categories.DefaultStudentCategories | js/categories.js:35-59 | eleven expense and six income categories, all default, numbered from 1 |
| Categories.IdIndex | js/categories.js:159 | the index of the first category with the id; None exactly when none has it |
| Categories.WithoutId | js/categories.js:318 | exactly the categories with another id are kept |
| Categories.Matching | js/categories.js:266-269 | exactly the transactions whose key is the name lower-cased without whitespace, with or without `&` |
| Categories.CategoryManager.constructor | js/categories.js:25-33 | saved categories replace the defaults wholesale; stored transactions or empty lists |
| Categories.CategoryManager.HandleCategorySubmit | js/categories.js:140-172 | only the list of the submitted kind changes, as the submit rule says |
| Categories.CategoryManager.DeleteCategory | js/categories.js:314-324 | only the list of the given kind changes, as the delete rule says |
| Categories.CategoryManager.EditCategory | js/categories.js:307-312 | the earliest category of that list with the id, as `find` returns it; nothing exactly when no category has it |
| Categories.CategoryManager.CalculateCategoryStats | js/categories.js:261-305 | the expense cards then the income cards, sorted by total, largest first |
| Categories.SubmitChanges | js/categories.js:149-166 | editing replaces the first category with the parsed id, an unknown id changes nothing, and a new category is appended with the clock as id |
| Categories.SubmitNeverDefault | js/categories.js:154 | every category a submit writes is custom |
| Categories.SubmitEditKeepsIds | js/categories.js:157-162 | editing keeps ids unique |
| Categories.DeleteProtectsDefaults | js/categories.js:314-318 | with unique ids a delete never removes a default category and removes exactly the confirmed custom one |
| Categories.DeleteSharedIdRemovesDefault | js/categories.js:315-318 | without unique ids a custom category listed first takes a default with the same id down with it |
| Categories.CollectedSpec | js/categories.js:265-282 | each card has a positive total, comes from a category of the list, and every category with a positive total has its card |
| Categories.PositiveTotalCounted | js/categories.js:270-278 | a card with a positive total counts at least one transaction |
| Categories.StatsRanked | js/categories.js:261-305 | the statistics are in descending total order and are exactly the expense and income cards |
| Grouping.BumpKeys | js/ai-analysis.js:159 | a bump adds its key to the keys, and one entry only when the key is new |
| Grouping.BumpDistinct | js/ai-analysis.js:159 | a bump keeps the keys distinct |
| Grouping.BumpSum | js/ai-analysis.js:159 | a bump raises the sum of the values by its amount |
| Grouping.BumpValue | js/ai-analysis.js:159 | a bump raises its key's value by its amount and leaves every other key's value |
| Grouping.ByCategorySpec | js/ai-analysis.js:157-162 | one entry per distinct category, each holding the total of that category's transactions; the values add up to the overall total |
| Grouping.CategoryWithinTotal | js/ai-analysis.js:158-162 | with non-negative amounts every category total lies between 0 and the overall total |
| Grouping.ValueAt | js/ai-analysis.js:163 | an entry's key is present and its value is the value looked up by that key |
| Insights.PercentCompare | js/ai-analysis.js:168-170 | a percentage with a positive divisor exceeds, or falls below, a threshold exactly when the dividend exceeds, or falls below, that share of the divisor |
| Insights.Where | js/ai-analysis.js:59-67 | exactly the transactions the test accepts, and no more than the input holds |
| Insights.AIAnalysis.constructor | js/ai-analysis.js:3-6 | the analysis keeps the data and starts with no insights |
| Insights.AIAnalysis.GenerateInsights | js/ai-analysis.js:8-19 | the list is cleared and then holds the six analyzers' insights in order, and is returned |
| Insights.AIAnalysis.AnalyzeStudentSpendingPatterns | js/ai-analysis.js:21-53 | appends the spending insights: the starter tip alone with no spending, else the ratio rule and the trend rule |
| Insights.AIAnalysis.AnalyzeRecentTrends | js/ai-analysis.js:55-89 | appends the trend insight of the two 30-day windows |
| Insights.AIAnalysis.AnalyzeSavingsRate | js/ai-analysis.js:91-118 | appends the savings-rate insight |
| Insights.AIAnalysis.AnalyzeAllowanceManagement | js/ai-analysis.js:120-135 | appends the allowance insight |
| Insights.AIAnalysis.AnalyzeStudentBudgetRecommendations | js/ai-analysis.js:137-152 | appends the budget guide |
| Insights.AIAnalysis.AnalyzeExpenseCategories | js/ai-analysis.js:154-181 | appends the top-category warning and the pattern checks |
| Insights.AIAnalysis.AnalyzeAcademicExpenses | js/ai-analysis.js:233-263 | appends the academic insight |
| Insights.NoExpensesStarterTip | js/ai-analysis.js:25-32 | with no spending the analysis gives its one starter tip and skips the trend rule |
| Insights.NoIncomeWarns | js/ai-analysis.js:35-42 | with no income any positive spending is an infinite ratio and draws the overspending warning |
| Insights.SavingsTiers | js/ai-analysis.js:95-117 | with income exactly one savings insight: a warning exactly when spending exceeds 95% of income, a success exactly when it is at most 85% |
| Insights.RatioRule | js/ai-analysis.js:34-49 | with income at most one ratio insight: a warning exactly when spending is above 95% of income, a success exactly when it is below 60% |
| Insights.TrendRule | js/ai-analysis.js:69-88 | with spending in both windows and a positive earlier total: a warning exactly when recent spending is more than 25% above the earlier window's, a success exactly when it is more than 15% below |
| Insights.AcademicRule | js/ai-analysis.js:237-255 | with academic spending and positive spending: the "book" note exactly below 10% of all spending, the "book-open" note exactly above 25% |
| Insights.WarningsAgree | js/ai-analysis.js:35-103 | with income and spending, the spending-ratio warning and the savings-rate warning fire together |
| Insights.GuideSplitsIncome | js/ai-analysis.js:143-145 | the guide's three parts add up to the income |
| Insights.TrendNeedsBothWindows | js/ai-analysis.js:69 | without spending in both windows no trend insight appears |
| Insights.TopIsLargest | js/ai-analysis.js:157-167 | the first sorted entry is a category of the expenses with the largest total, and the totals add up to all spending |
| Insights.TopWarning | js/ai-analysis.js:154-177 | with positive spending the top-category warning appears exactly when some category takes more than 40% of it |
| Insights.TopRule | js/ai-analysis.js:166-176 | on sorted totals the rule fires exactly when the first total is above 40% of the sum |
| Insights.AnalyzerBounds | js/ai-analysis.js:21-262 | how many insights each analyzer can add: trends 1, spending 2, savings, allowance, guide and academic 1, categories 5 |
| Insights.InsightCount | js/ai-analysis.js:8-19 | generating insights always yields between 1 and 11 |
| Insights.NoExpensesCategories | js/ai-analysis.js:155 | with no expenses no category insight, and the academic reminder |
| Insights.AcademicAtMostOne | js/ai-analysis.js:233-262 | at most one academic insight, exactly the reminder when no academic expense exists |
| Dashboard.SavingsRate | js/dashboard.js:154 | 0 without income; otherwise the rate times the income is the net balance times 100 |
| Dashboard.RateOf | js/dashboard.js:154 | the rate times the positive income is the net times 100 |
| Dashboard.StatsOf | js/dashboard.js:150-154 | income and expenses are the list totals, the net their difference, and the rate relates them |
| Dashboard.RateCompare | js/dashboard.js:154 | with income, the rate reaches c exactly when the net reaches c percent of the income |
| Dashboard.Tagged | js/dashboard.js:169 | each transaction of a list tagged with that list, in order |
| Dashboard.RecentSpec | js/dashboard.js:168-171 | the list holds min(10, all) entries, newest first, each drawn from the merged list |
| Dashboard.RecentTags | js/dashboard.js:168-171 | every entry shown comes from the list its tag names |
| Dashboard.RecentNewest | js/dashboard.js:168-171 | every entry left out is no newer than any entry shown |
| Dashboard.Values | js/dashboard.js:275 | the values in key order |
| Dashboard.ShownKeys | js/dashboard.js:274-277 | the display name of each key, in order |
| Dashboard.SumOfValues | js/dashboard.js:275 | the values add up to the grouping's sum |
| Dashboard.CategoryChart | js/dashboard.js:267-280 | one label per value |
| Dashboard.CategoryChartSpec | js/dashboard.js:267-280 | one slice per category that occurs, labelled with its display name and valued at its total; the slices add up to all spending |
| Dashboard.MonthTotalAppend | js/dashboard.js:298-300 | an added transaction counts in the month its date starts with and in no other |
| Dashboard.MonthWithinTotal | js/dashboard.js:298-304 | with non-negative amounts a month's total lies between 0 and the list's total |
| Dashboard.FinancialTracker.constructor | js/dashboard.js:26-35 | the saved record, or empty lists |
| Dashboard.FinancialTracker.HandleIncomeSubmit | js/dashboard.js:99-119 | one income with the clock as id is appended; expenses and budgets stay |
| Dashboard.FinancialTracker.HandleExpenseSubmit | js/dashboard.js:121-141 | one expense with the clock as id is appended; income and budgets stay |
| Dashboard.FinancialTracker.TrendChart | js/dashboard.js:282-311 | six months, oldest first, each with its name and the income and expense totals of its month |
| Dashboard.IncomeSubmitEffect | js/dashboard.js:99-154 | a new income raises the income total and the net, and its month's trend figure, by its amount, and is listed among all transactions |
| Dashboard.ExpenseSubmitEffect | js/dashboard.js:121-154 | a new expense raises the expense total and lowers the net by its amount, adds it to the chart's sum, and is listed among all transactions |
| DashboardPage.UserTotalOwnRows | dashboard.php:10-18 | rows of other users never change a user's total |
| DashboardPage.Best | dashboard.php:278-285 | the taken index is a group's |
| DashboardPage.BestSpec | dashboard.php:276-285 | nothing is taken exactly when every total is at most 0; otherwise the group taken has the largest total and every earlier group's total is strictly smaller |
| DashboardPage.TopCategory | dashboard.php:276-285 | the loop ends with the category and amount the fold gives |
| DashboardPage.Highlight | dashboard.php:286-290 | a highlighted category is the one taken, is truthy, and carries the amount taken |
| DashboardPage.TierByTotals | dashboard.php:228-261 | with income: excellent exactly when expenses are at most 85% of it, low exactly when above 95%; with no income the advice is low |
| DashboardPage.PanelSpec | dashboard.php:219-290 | the empty state exactly when both totals are 0; otherwise the tier of the rate, and a highlighted category needs spending, is a truthy group name and carries the largest total |
| DashboardPage.Render | dashboard.php:10-22 | the page's totals are the user's sums, the net their difference, the rate and panel follow from them |
| Labels.UpperChar | js/dashboard.js:368 | a lower-case ASCII letter becomes upper case; every other character is unchanged |
| Labels.FormatUnknown | js/dashboard.js:349-370 | an unknown key keeps its first character upper-cased and gains one space per later capital; removing those spaces gives the rest of the key back when it had none of its own |
| Labels.SpaceCapitalsLength | js/dashboard.js:368 | the capital-spacing replace adds exactly one character per capital |
| Labels.UnspacedSpaceCapitals | js/dashboard.js:368 | dropping the spaces undoes the capital-spacing replace on text without spaces |
| Labels.KnownLabels | js/dashboard.js:350-367 | known keys show their table name |
| Labels.CamelCaseKey | js/dashboard.js:368 | an unknown camel-case key is split at its capital and capitalised |
| Ranking.InsertDescPerm | js/ai-analysis.js:163 | inserting adds exactly the one element |
| Ranking.InsertDescSorted | js/ai-analysis.js:163 | inserting into a descending sequence keeps it descending |
| Ranking.SortDescSpec | js/categories.js:304 | the descending sort yields a descending permutation of its input |
| Finance.Abs | api/import_transactions.php:56 | the absolute value is non-negative and is the number or its negation |
| Finance.TotalConcat | js/dashboard.js:151-152 | the sum of two lists joined is the sum of their sums |
| Finance.TotalNonNegative | js/dashboard.js:151-152 | a list of non-negative amounts sums to at least 0 |

## Left out

- DOM, modals, notifications, Chart.js, HTML templates and redirects' page output are not modelled. Redirects and JSON replies are result values.
- `fetch`, `FileReader`, localStorage, `Blob` downloads and pdf.js text extraction are not modelled. File contents, request payloads and the stored record are inputs.
- Message texts, `toFixed`, `number_format`, `toLocaleString` and `ucwords` are not modelled. Insights carry a tone, an icon and the figures their message shows.
- `Number.parseInt` is modelled by Text.LeadingInt. The category form calls it directly. The PDF date conversion takes a `parseInt` parameter, which Text.LeadingInt satisfies (PdfParser.LeadingIntReadsDigits). Other number parsing (`parseFloat`, `floatval`, `intval`), `Date` and `DateTime::createFromFormat` are parameters. IEEE rounding, −0 and NaN from parsing are not modelled. Division by zero in the insight rules is modelled with infinities and NaN.
- Whitespace is a fixed set: the ASCII whitespace characters, no-break space, the byte-order mark, and the line and paragraph separators. Other Unicode space separators are not included.
- The Chase, Bank of America and generic PDF statement parsers are parameters: their whole behaviour is left out, matching and conversion alike (`convertDate`, `parseAmount` and `trim` on each match, and the generic parser's per-line skip of lines that throw). Only the fallback chain over them is modelled. The Wells Fargo patterns' regular-expression matching is not modelled either: its matches are inputs, and their conversion is modelled. `extractText` and `extractTabularData` read the PDF and are not part of this model.
- JavaScript object lookups ignore prototype keys (`templates["constructor"]`). Object key order is insertion order, ignoring the integer-key reordering of `Object.entries`.
- The SQL engine is not modelled. `SUM`, `AVG` over the last three months, `GROUP BY` and `DATE_FORMAT` results are inputs. `ORDER BY … LIMIT` listings are not modelled. Collation and case-insensitive comparison in `WHERE` clauses are not modelled, and string equality is exact.
- Auto-increment ids are modelled as a counter that only grows. Gaps left by rolled-back inserts are not distinguished.
- The `type` column of a transaction is represented by the table it is stored in.
- PHP loose comparison and `strlen` byte counts are not modelled. Lengths count characters.
- Concurrency, including the race between two simultaneous imports, is not modelled. Every request runs alone.
- Sessions and `session_start` are not modelled. The session user is a parameter of the form posts.
- auth/login.php, export.php, js/auth.js and the HTML-only pages are not part of this model.
- Text.ToLower, Labels.UpperChar: case mapping is ASCII-only. JavaScript's `toLowerCase` and `toUpperCase` map all of Unicode and can change the length (`'İ'`, `'ß'`), so keys with accented capitals such as "Épicerie" are compared, and shown, as if they had no case.
- UploadApi.Plans, UploadApi.PlanOf: a data row with fewer than two cells is treated as an error. PHP reads the missing description as NULL, with a warning, and the missing amount as 0. A one-cell row whose date is accepted therefore reaches the duplicate query, where `description = NULL` never matches, and an insert with a NULL description, whose outcome depends on the table schema, which is not part of this model. A blank line is an error either way, because its date is rejected.
- TransactionsApi.Entry, TransactionsApi.Input: bulk elements and the single-transaction bodies of add_income, add_expense and PUT are assumed to carry date, description and amount. A missing key reaches the SQL statements as NULL: the bulk path's duplicate query and INSERT, or the single INSERT or UPDATE. Whether the statement then fails depends on the table schema, which is not part of this model.
- SuggestedBudget.Upsert: (user_id, category) is assumed to be a unique key of the budgets table. Without that key, `ON DUPLICATE KEY UPDATE` never fires and every execution appends a row, so ApplyKeepsUnique would not hold. The table schema is not part of this model.
- ImportFull.Stored, ImportRules.PreviewRowShape: the `source: "import"` field that a previewed transaction carries, and that the stored copy keeps through the object spread, is not modelled. Stored records hold id, date, description, category and amount.
- ImportSimple.ImportManager.ProcessCsv, ImportFull.ImportManager.ProcessCsv: the preview that `setTimeout` shows 500 ms later is modelled as the last step of the call; anything the user does in between is not interleaved.
- Ranking.SortDescSpec: the sort is modelled as a stable insertion sort. The model proves order and permutation, not that it matches the engine's sort on ties.

## Findings

| source | as written | input that shows it | evidently intended | confidence | as-written member | corrected member |
|---|---|---|---|---|---|---|
| api/transactions.php:145-161 | the duplicate query compares the stored amount, which is always `abs(amount)`, with the signed submitted amount | a batch holding one expense of −10, posted a second time, stores that expense again | the query compares `abs(amount)`, as api/import_transactions.php does | not executed | TransactionsApi.SignedProbeReimports | TransactionsApi.ResubmitImportsNothing |
| suggested-budget.php:29-39 | the nine allocation percentages sum to 110% of the income | with no income history the default income of 50000 gives a suggested total of at least 54995.5 and a "Remaining" of at most −4995.5 | the allocation follows the page's stated method (lines 170-186: essentials 65%, academic and personal 20% with 2% other expenses, savings 15%) and adds up to the income | not executed | SuggestedBudget.DefaultOverspends | SuggestedBudget.SuggestedFits |
