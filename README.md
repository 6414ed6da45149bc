# Taiwanway sales tooling, modelled in Dafny

This project models the small pieces of sequential logic inside a shop's sales tooling. That tooling downloads Square payments into SQLite, imports exported CSV files, produces weekly sales reports and checks the SQL produced for natural-language questions. The model covers five parts:

- **SQL safety gate** (`SqlValidator`). `validate_sql` runs an ordered chain of checks, and the first failure decides:
  - something was parsed;
  - the first statement is a SELECT;
  - no mutating keyword stands between spaces in the padded, upper-cased text;
  - the FROM clause yields tables;
  - every table is in the allow-list, compared case-insensitively.

  `extract_tables` and `extract_columns` walk the tokenizer's tree. The tokenizer itself is not modelled: its statements, their types and their token trees are inputs.
- **Download script** (`DownloadTransactions`, over the API datatypes of `Square`):
  - the cursor-following paginator;
  - the first-match product classifier;
  - the expansion of payments into sales lines;
  - the upsert into the transactions table and the append into the sales table, as a class `SalesDatabase` with a `map` field and a `seq` field;
  - the choice of the start time, in integer seconds.
- **CSV import** (`CsvToSqlite`):
  - currency and date cleaning;
  - REAL/TEXT column-type inference and the CREATE TABLE text;
  - per-file de-duplication, cleaning and appending into a class `SalesTable`.
- **Weekly reports** (`WeeklyFetch`, `BusinessAnalysis`, `AnalyzeSales`, over the group-by library `Frames`):
  - the seven-day fetch-and-expand loop shared by both scripts;
  - the figures each script prints or plots.
- **Item report** (`QueryItems`): the Markdown file built from the three query results, as the text accumulated by the successive writes.

Money arrives in integer minor units. Major units are the exact `real` value `amount / 100`. Times arrive already parsed: a parameter of type `ParseTime` turns a `created_at` text into a local date, time, hour and epoch second, or fails.

## Model

| member | source | states |
|---|---|---|
| SqlValidator.ValidateSql | sql_validator.py:16-58 | accepted iff something parsed, the first statement is a SELECT, no dangerous keyword is hit, the FROM table list is non-empty and every table lower-cases into {'sales'}; the message (the texts of `Message`) is "SQL 查詢有效" on acceptance and otherwise that of the first failing check: the raised error, "無效的 SQL 查詢", "只允許 SELECT 查詢", "不允許使用 K 關鍵字" for the first hit keyword K in list order, "無法識別查詢的表格", and at the first rejected table the `None.lower()` error for an unnamed one or "不允許查詢表格: T" for a named one |
| SqlValidator.FirstKeywordHitUnique | sql_validator.py:41-43 | whichever keyword is hit with no earlier keyword hit is the one the loop reports |
| SqlValidator.ErrorsBecomeRejections | sql_validator.py:28-30 | an empty parse and a raised exception both give (False, message) and never escape |
| SqlValidator.NotSelectRejectedFirst | sql_validator.py:35-36 | a non-SELECT is rejected with "只允許 SELECT 查詢", whatever the text and the tokens |
| SqlValidator.OnlyFirstStatementInspected | sql_validator.py:32 | statements after the first never change the verdict |
| SqlValidator.FirstForbidden | sql_validator.py:39-43 | None iff no keyword of the list is hit; otherwise the first hit keyword in list order |
| SqlValidator.ForbiddenNamesFirstKeyword | sql_validator.py:39-43 | a keyword rejection happens only for a SELECT, names the first hit keyword in list order, and has the message "不允許使用 K 關鍵字" |
| SqlValidator.KeywordHitIff | sql_validator.py:42 | the padded substring test holds iff the keyword occurs with a space or a text edge on each side |
| SqlValidator.KeywordAtEdgesCounts | sql_validator.py:42 | a keyword at the very start or end of the text, or equal to the whole text, is hit |
| SqlValidator.NoSpaceNoHit | sql_validator.py:42 | in text without spaces a keyword is hit only when it is the whole text, so keywords glued to punctuation or separated by tabs or newlines go unseen |
| SqlValidator.KeywordHitWords | sql_validator.py:42 | for a space-free keyword, a hit holds iff the keyword is one of the pieces of the text split at spaces |
| SqlValidator.KeywordHitJoined | sql_validator.py:40-42 | for space-free words joined by spaces, a keyword is hit iff it is one of the upper-cased words |
| SqlValidator.NoKeywordAmong | sql_validator.py:39-43 | space-free words unlike every keyword trigger no keyword rejection |
| SqlValidator.SpacedDropHit | sql_validator.py:42 | "SELECT * FROM sales; DROP" hits DROP |
| SqlValidator.SpacedKeywordSeen | sql_validator.py:39-43 | "SELECT * FROM sales; DROP" is rejected for DROP |
| SqlValidator.GluedQueryPasses | sql_validator.py:42 | "SELECT * FROM sales;DROP TABLE sales" hits no keyword: ";DROP" is glued |
| SqlValidator.GluedKeywordUnseen | sql_validator.py:39-55 | that glued query is accepted when its first FROM token is the table sales |
| SqlValidator.AliasQueryPasses | sql_validator.py:39-43 | "SELECT * FROM users AS sales" hits no keyword |
| SqlValidator.AliasPassesAllowList | sql_validator.py:46-55 | "users AS sales" is accepted: the alias is the checked table name |
| SqlValidator.ShortAliasQueryPasses | sql_validator.py:39-43 | "SELECT * FROM sales AS s" hits no keyword |
| SqlValidator.AliasFailsAllowList | sql_validator.py:46-52 | "sales AS s" is rejected, naming table "s" |
| SqlValidator.SalesAllowed | sql_validator.py:5 | the table list [sales] passes the allow-list |
| SqlValidator.ShortNameRejected | sql_validator.py:50-52 | the table list [s] is rejected, naming s |
| SqlValidator.SelectStarVerdict | sql_validator.py:35-55 | for "SELECT * FROM t …" with no keyword hit, the verdict is the allow-list verdict of [t] |
| SqlValidator.CheckTablesAccepts | sql_validator.py:50-55 | the table loop accepts iff every table is named and lower-cases into the allow-list |
| SqlValidator.CheckTablesOutcomes | sql_validator.py:50-58 | the table loop only accepts, names a table, or raises the `None.lower()` error |
| SqlValidator.CheckTablesNamesFirstOffender | sql_validator.py:50-52 | a table rejection names a table iff that table is the first one not allowed, all earlier ones being allowed |
| SqlValidator.CheckTablesFirstRejected | sql_validator.py:50-58 | the table loop stops at the first table that is unnamed or not allowed: an unnamed one raises the `None.lower()` error, a named one is reported |
| SqlValidator.TableRejectionNamesFirstOffender | sql_validator.py:46-52 | a table rejection carries "不允許查詢表格: t" for a FROM table t that is not allowed |
| SqlValidator.FirstWhere | sql_validator.py:75-85 | the first position from `lo` whose token satisfies the test, or None when there is none |
| SqlValidator.SelectStarFromTables | sql_validator.py:75-85 | after "SELECT * FROM t" the table list is exactly [name of t], whatever follows |
| SqlValidator.CollectTables | sql_validator.py:67-72 | appends the names from recursive descent: an identifier is taken whole, every token list is entered |
| SqlValidator.CollectChildTables | sql_validator.py:70-72 | appends the names of all children, in order |
| SqlValidator.ExtractTables | sql_validator.py:60-87 | returns the names inside the first non-whitespace token after the first FROM, or [] when that token is no identifier or list |
| SqlValidator.CollectColumns | sql_validator.py:96-108 | appends alias-or-name of identifiers; function calls add nothing; other lists are entered |
| SqlValidator.SelectListEnd | sql_validator.py:111-121 | the end of the SELECT list lies after its start and within the statement |
| SqlValidator.SelectColumnsAt | sql_validator.py:111-121 | the columns are those of the tokens between the first SELECT and the first FROM/WHERE/GROUP/ORDER after it |
| SqlValidator.ExtractColumns | sql_validator.py:89-123 | returns the names in the SELECT list, up to the first FROM/WHERE/GROUP/ORDER |
| Square.StopIndex | download_transactions.py:25-34 | the first response that stops the loop: no earlier response stops it |
| Square.PagesBeforeStep | download_transactions.py:27 | the accumulated payments grow by each page's payments, in order |
| Square.PagesBeforePrefix | download_transactions.py:27 | the payments accumulated earlier are a prefix of those accumulated later |
| Square.Listed | download_transactions.py:16-39 | None exactly when the stopping call raises |
| Square.ListedUnfold | download_transactions.py:16-34 | a stopping first response ends the listing; otherwise its payments come first, followed by the listing of the rest |
| Square.FailureKeepsEarlierPages | download_transactions.py:32-36 | a failure envelope keeps the payments of all earlier pages |
| Square.PaymentCountLength | business_analysis.py:56 | the running payment count is the number of payments accumulated |
| Square.Calls | download_transactions.py:17-23 | one call per response up to the stop; the first has no cursor, each later one the previous response's cursor, and all use limit 200 |
| DownloadTransactions.DownloadPayments | download_transactions.py:8-39 | returns the listed payments, or [] when a call raised, and makes exactly the calls `Calls` describes |
| DownloadTransactions.ProductCategory | download_transactions.py:127-147 | the result is always one of the six labels |
| DownloadTransactions.FirstMatch | download_transactions.py:132-147 | the category of the first matching rule, or None iff no rule matches |
| DownloadTransactions.FirstMatchAt | download_transactions.py:132-147 | rules are tried in order: a match at a position wins over all later rules |
| DownloadTransactions.ProductCategoryFollowsRules | download_transactions.py:131-147 | the classifier is the first match of the lower-cased name in the rule table, or "其他" |
| DownloadTransactions.OtherIffNoRuleMatches | download_transactions.py:146-147 | "其他" exactly when no rule matches |
| DownloadTransactions.RiceExample | download_transactions.py:134-135 | "tea rice" is 主食: the rice rule comes before the tea rule |
| DownloadTransactions.CupExample | download_transactions.py:136-137 | "茶杯" is 飲品: the tea rule comes before the cup rule |
| DownloadTransactions.IcedTeaExample | download_transactions.py:131-137 | "Iced TEA" is 飲品 after lower-casing |
| DownloadTransactions.LastWithId | download_transactions.py:81-99 | the last position of the batch with a given id |
| DownloadTransactions.UpsertLastWins | download_transactions.py:81-99 | after the upsert an id is present iff it was before or is in the batch; it maps to the last batch row with that id; other ids are unchanged |
| DownloadTransactions.UpsertIdempotent | download_transactions.py:92-99 | re-inserting the same batch changes nothing |
| DownloadTransactions.SalesDatabase.constructor | download_transactions.py:41-74 | both tables start out empty |
| DownloadTransactions.SalesDatabase.InsertTransactions | download_transactions.py:76-100 | the transactions table becomes the upsert of the batch; the sales table is untouched |
| DownloadTransactions.SalesDatabase.InsertSalesData | download_transactions.py:102-125 | the sales table grows by exactly the records, in order, duplicates kept; the transactions table is untouched |
| DownloadTransactions.ItemLines | download_transactions.py:239-255 | one line per item, in order; line k carries the payment id, the location, the payment's date and time, item k's name (未知商品 when absent) and that name's category, its quantity (0 when absent), its base price/100 and its total/100 (missing amounts as 0) |
| DownloadTransactions.LineCount | download_transactions.py:223-294 | a payment time that fails to parse gives no line; a successful lookup with items gives one line per item; all other cases give exactly one fallback line |
| DownloadTransactions.LinesCarryPayment | download_transactions.py:223-255 | every line carries the payment id, the location, the date, the time and a known category; for a found order with items, line k has item k's name (未知商品 when absent), that name's category, item k's quantity (0 when absent), its base price/100 and its total/100 (missing amounts as 0) |
| DownloadTransactions.FallbackLineFields | download_transactions.py:257-294 | the fallback line is 未知商品, 其他, quantity 1, with unit price = total = amount_money/100 |
| DownloadTransactions.AllLines | download_transactions.py:219-294 | None (the script crashes) iff some payment's order lookup raises |
| DownloadTransactions.AppendItemLines | download_transactions.py:239-255 | appends the item lines in order |
| DownloadTransactions.ExpandPayments | download_transactions.py:219-294 | the loop builds exactly the lines `AllLines` describes |
| DownloadTransactions.CollectPrefixNone | download_transactions.py:234 | once a lookup has raised, no later payment brings the lines back |
| DownloadTransactions.BeginTime | download_transactions.py:174-204 | the start is the default unless mode is "2" and a stored maximum parses |
| DownloadTransactions.ResumeStartsAfterLatest | download_transactions.py:178-193 | mode "2" with a stored maximum starts one second after it, strictly later |
| DownloadTransactions.OtherwiseDefaultBegin | download_transactions.py:174-204 | every other mode, a missing database, no rows, a read error or an unparsable maximum gives the default start |
| DownloadTransactions.DefaultBeginIsLocalMeanMidnight | download_transactions.py:160-176 | the default start is 2024-04-01 00:00 at the zone's local-mean-time offset +08:06, six minutes before 00:00 at +08:00 |
| DownloadTransactions.StoreDownload | download_transactions.py:211-303 | no table changes when nothing was downloaded; otherwise the payments are upserted, and the lines are appended unless a lookup raised |
| CsvToSqlite.Strip | database/csv_to_sqlite.py:16 | the removed character no longer occurs |
| CsvToSqlite.StripMembers | database/csv_to_sqlite.py:16 | removal keeps exactly the other characters |
| CsvToSqlite.StripAppend | database/csv_to_sqlite.py:16 | removal works piecewise, so every occurrence anywhere is removed |
| CsvToSqlite.StripAbsent | database/csv_to_sqlite.py:16 | removing an absent character changes nothing |
| CsvToSqlite.CleanCurrency | database/csv_to_sqlite.py:7-19 | a string always becomes a number; any other value is returned unchanged |
| CsvToSqlite.CleanCurrencyIgnoresSigns | database/csv_to_sqlite.py:16 | strings equal after removing every `$` and `,` clean to the same number |
| CsvToSqlite.CleanCurrencyIdempotent | database/csv_to_sqlite.py:13-19 | cleaning twice is cleaning once |
| CsvToSqlite.CleanCurrencyUnparsable | database/csv_to_sqlite.py:17-18 | a string that does not parse after stripping becomes 0.0 |
| CsvToSqlite.CleanCurrencyOfStripped | database/csv_to_sqlite.py:16-18 | a string cleans to the parse of its stripped form, or 0.0 |
| CsvToSqlite.CleanCurrencyOfRendered | database/csv_to_sqlite.py:16 | "$units.cc" cleans to units + cc/100 |
| CsvToSqlite.CleanCurrencyThousands | database/csv_to_sqlite.py:16 | "$a,b.c" cleans to the number with digits a b and fraction c: the comma is dropped, not treated as a separator of values |
| CsvToSqlite.CleanCurrencyExample | database/csv_to_sqlite.py:15-16 | "$1,234.56" cleans to 1234.56 |
| CsvToSqlite.DecimalOfParts | database/csv_to_sqlite.py:16 | a digits-dot-digits string parses to its decimal value |
| CsvToSqlite.CleanDate | database/csv_to_sqlite.py:21-30 | a null marker gives None; anything else gives the conversion's result, which is None when it fails |
| CsvToSqlite.NullMarkerIgnoresCase | database/csv_to_sqlite.py:23 | the null-marker test does not depend on letter case |
| CsvToSqlite.CleanDateMarkers | database/csv_to_sqlite.py:23-24 | "NaN", "NULL", "None" and the missing value give None |
| CsvToSqlite.CleanDateParses | database/csv_to_sqlite.py:25-30 | a value that is no null marker gives the conversion's result |
| CsvToSqlite.AnyContained | database/csv_to_sqlite.py:53 | true iff some keyword occurs in the text |
| CsvToSqlite.ColumnType | database/csv_to_sqlite.py:50-56 | REAL iff the lower-cased name contains price, sales, tax, amount or qty; TEXT otherwise, date columns included |
| CsvToSqlite.NumericColumnTypes | database/csv_to_sqlite.py:53-54 | "Gross Sales" and "Qty" are REAL |
| CsvToSqlite.DateColumnTypes | database/csv_to_sqlite.py:53-56 | "Date" is TEXT, while "Sales Date" is REAL because the keyword test comes first |
| CsvToSqlite.TextColumnType | database/csv_to_sqlite.py:52 | "Item" is TEXT |
| CsvToSqlite.ColumnDefinitionReadsBack | database/csv_to_sqlite.py:50-57 | the entry reads back as "[", the column name, "] " and a four-letter type, which is REAL iff the lower-cased name contains one of the numeric keywords and TEXT otherwise |
| CsvToSqlite.ColumnDefinitions | database/csv_to_sqlite.py:49-57 | one entry per header column, in header order |
| CsvToSqlite.BuildColumns | database/csv_to_sqlite.py:49-57 | the loop builds exactly those entries |
| CsvToSqlite.CreateTableShape | database/csv_to_sqlite.py:59-64 | the statement opens table sales, lists the id key column first, then the entries joined by ", " |
| CsvToSqlite.CurrencyStep | database/csv_to_sqlite.py:86-88 | cleaning one more currency column rewrites it when present and leaves the frame unchanged when absent |
| CsvToSqlite.DateStep | database/csv_to_sqlite.py:81-82 | the Date column is rewritten only when present |
| CsvToSqlite.CleanFrame | database/csv_to_sqlite.py:80-88 | the frame after the Date step and the four currency steps |
| CsvToSqlite.CleaningTouchesNamedColumns | database/csv_to_sqlite.py:81-88 | only Date and the four currency columns change; every other cell is kept |
| CsvToSqlite.RowMap | database/csv_to_sqlite.py:91 | a stored row has exactly the header's columns |
| CsvToSqlite.FileRows | database/csv_to_sqlite.py:74-96 | an accepted file adds as many rows as it has distinct rows; a failing file adds none |
| CsvToSqlite.FileRowsAreDistinctRows | database/csv_to_sqlite.py:77 | a file's rows are its distinct rows, each once, cleaned, in order of first occurrence |
| CsvToSqlite.ImportedStep | database/csv_to_sqlite.py:72-96 | each file's rows follow the earlier files' rows |
| CsvToSqlite.ImportedCount | database/csv_to_sqlite.py:72-91 | the table grows by the sum of the per-file distinct-row counts, with no de-duplication across files |
| CsvToSqlite.ImportFile | database/csv_to_sqlite.py:74-96 | one file's try block adds exactly `FileRows` |
| CsvToSqlite.AppendFiles | database/csv_to_sqlite.py:72-96 | all files are processed in order, a failing one is skipped, and the table's existence and columns are unchanged |
| CsvToSqlite.SalesTable.constructor | database/csv_to_sqlite.py:37 | a new database has no sales table |
| CsvToSqlite.ImportCsvToDb | database/csv_to_sqlite.py:32-99 | no CSV file, an unreadable first file, or a CREATE TABLE that SQLite refuses (CreateRejected: a name holding ], or for a new table a name equal to id or two names equal up to case) changes nothing and imports no file; otherwise the table exists, with id plus the first header when it was created now, and holds the imported rows |
| CsvToSqlite.CreateRejectedExamples | database/csv_to_sqlite.py:59-65 | a header ID, or Tax with tax, is refused only when the table is new; a name a] is refused even when the table exists; Tax with Qty is accepted |
| Seqs.DedupMembers | database/csv_to_sqlite.py:77 | de-duplication keeps exactly the rows present |
| Seqs.DedupNoDuplicates | database/csv_to_sqlite.py:77 | no row is left twice |
| Seqs.DedupKeepsFirstOrder | database/csv_to_sqlite.py:77 | rows keep the order of their first occurrences |
| Seqs.DedupOfDistinct | database/csv_to_sqlite.py:77 | a frame without duplicates is unchanged |
| Seqs.DedupCardinality | database/csv_to_sqlite.py:77 | the de-duplicated count is the number of distinct rows |
| Seqs.Collect | download_transactions.py:219-294 | None iff some part is None |
| Seqs.CollectAllPresent | download_transactions.py:219-294 | with every part present, the result is their in-order concatenation |
| WeeklyFetch.ExpandAll | business_analysis.py:59-105 | None iff some payment's expansion raises |
| WeeklyFetch.ExpandAllNonePrefix | business_analysis.py:36-120 | once an expansion has raised, no later payment brings data back |
| WeeklyFetch.ExpandPage | business_analysis.py:59-105 | one page's loop extends the rows by each payment's rows in order |
| WeeklyFetch.StopsAt | business_analysis.py:107-112 | a stopping response inside the listing is the stop, and the listing is determined there |
| WeeklyFetch.FetchSales | business_analysis.py:45-112 | returns the rows of every listed payment, in order (None when a call or an expansion raised), counts the payments, and makes the calls `Calls` describes |
| BusinessAnalysis.ProductCategory | business_analysis.py:122-140 | always one of the six labels |
| BusinessAnalysis.SameClassifierAsDownload | business_analysis.py:122-140 | the copy classifies every name as the download script does, by the same ordered rules |
| BusinessAnalysis.PaymentRowsShape | business_analysis.py:59-105 | one row per item when the order has items; otherwise one 未知商品/其他 row of quantity 1 whose price and total are total_money/100; every row has the payment's id, date, time and hour |
| BusinessAnalysis.GetSalesData | business_analysis.py:25-120 | the fetched rows, or None on any exception, with the payment count |
| BusinessAnalysis.DailySales | business_analysis.py:153 | per date present, the sum of 總金額 |
| BusinessAnalysis.CategoryAnalysis | business_analysis.py:193-198 | per category present, the sums of 總金額 and 數量 and the number of distinct transactions |
| BusinessAnalysis.HourlyTraffic | business_analysis.py:169 | per hour present, the number of distinct transactions |
| BusinessAnalysis.PeakHour | business_analysis.py:202 | an hour present whose traffic no hour exceeds; the smallest such hour on a tie |
| BusinessAnalysis.HourlyAverageDefined | business_analysis.py:206-210 | an hour present has a transaction, so its average is its sales over its distinct transactions |
| BusinessAnalysis.BestAverageHour | business_analysis.py:211-212 | an hour present whose average no hour exceeds; the smallest on a tie |
| BusinessAnalysis.ProductSales | business_analysis.py:177 | the product names are distinct and are exactly the names that occur in the rows; each carries the sum of 總金額 over the rows of that name |
| BusinessAnalysis.TopProducts | business_analysis.py:177 | at most ten products (all when fewer), ascending by sales, taken from the product sums, and no product left out sold more than one shown |
| BusinessAnalysis.AverageOrderValue | business_analysis.py:189-190 | the mean of the per-transaction sums is the total sales over the number of distinct transactions |
| BusinessAnalysis.Analyze | business_analysis.py:142-212 | no analysis for a missing or empty frame; otherwise the total, the distinct order count and the average order value |
| AnalyzeSales.PaymentRowsShape | analyze_sales.py:58-98 | one row per item when items exist; otherwise one 未知商品 row of quantity 1 with unit price = total = total_money/100; every row has the location, id, date and time |
| AnalyzeSales.SalesData | analyze_sales.py:109-150 | None iff the fetch raised or found no row; otherwise the rows |
| AnalyzeSales.GetSalesData | analyze_sales.py:17-150 | returns `SalesData` and the payment count |
| AnalyzeSales.DailyTotals | analyze_sales.py:115 | per (location, date) pair present, the sum of 總金額 |
| AnalyzeSales.ProductLines | analyze_sales.py:122-124 | the (location, product) pairs of the lines are distinct and are exactly the pairs that occur in the rows; each line carries the sums of 數量 and 總金額 over the rows of its pair |
| AnalyzeSales.ProductSummary | analyze_sales.py:122-125 | a permutation of the product lines, by non-increasing amount |
| AnalyzeSales.ProductSummaryCoversPairs | analyze_sales.py:122-125 | every pair of a row has its line, with its amount |
| AnalyzeSales.LocationStats | analyze_sales.py:133-139 | None iff the location has no row; otherwise the distinct transaction count, and the mean, largest and smallest of the per-transaction sums of 總金額 (the largest and smallest are the sums of some transaction and bound every transaction's sum); the mean is the location's total over the count and lies between smallest and largest |
| Frames.KeysMembers | business_analysis.py:153 | the group keys are the keys present, each once |
| Frames.Where | analyze_sales.py:133 | the selected rows are rows with the key, and every row with the key is selected |
| Frames.WhereEmpty | analyze_sales.py:134 | the selection is empty iff no row has the key |
| Frames.GroupSum | business_analysis.py:153 | a key is present iff some row has it, and maps to its rows' sum |
| Frames.GroupTotals | business_analysis.py:190 | one sum per listed key |
| Frames.GroupTotalsConserve | business_analysis.py:190 | the per-group sums add up to the total |
| Frames.SumWhereAbsent | business_analysis.py:153 | a key with no rows sums to 0 |
| Frames.IdsWhereMembers | business_analysis.py:169 | the distinct ids of a key are exactly the ids of its rows |
| Frames.GroupIds | business_analysis.py:169 | a key is present iff some row has it, and maps to its distinct ids |
| Frames.GroupIdsNonEmpty | business_analysis.py:169 | a present key has at least one id |
| Frames.DistinctIsGroupCount | business_analysis.py:189 | the number of group keys is the number of distinct values |
| Frames.GroupExtremes | analyze_sales.py:133-139 | the largest and smallest group totals are the totals of some group and bound every group's total |
| Frames.KeysCoverRows | business_analysis.py:153 | every row's key is one of the groups |
| Frames.KeysFromRows | business_analysis.py:153 | every group is the key of some row |
| Frames.LabelsAreKeys | business_analysis.py:177 | entries that carry the groups in order are about exactly the keys of the rows |
| Frames.MaxOf | analyze_sales.py:138 | an element of the list that no element exceeds |
| Frames.MinOf | analyze_sales.py:139 | an element of the list that exceeds no element |
| Frames.MinMeanMax | analyze_sales.py:137-139 | min ≤ mean ≤ max |
| Frames.ArgMax | business_analysis.py:202 | a key of maximal score; the smallest such key on a tie |
| Frames.Insert | business_analysis.py:177 | inserting into a sorted list keeps it sorted and adds exactly that element |
| Frames.SortBy | business_analysis.py:177 | a sorted permutation |
| Frames.TopDominates | business_analysis.py:177 | the top n: min(n, size) elements, sorted, drawn from the list, none below an excluded one |
| QueryItems.WriteReport | query_items.py:30-39 | the successive writes produce exactly `Report` |
| QueryItems.ReportSplitsIntoLines | query_items.py:32-39 | the text splits into the title, the summary with total before distinct, the table heading, then one table row per item in order, with nothing after the last break |
| QueryItems.ReportNewlineCount | query_items.py:32-39 | with one-line items, the text has exactly 9 + (number of items) line breaks |
| QueryItems.CountsReadBack | query_items.py:33-34 | the summary lines read back exactly the counts passed in |
| QueryItems.ItemsReadBack | query_items.py:38-39 | row k of the table reads back item k |
| QueryItems.ItemLinesTerminated | query_items.py:38-39 | the item writes are the table rows, each ended by a line break |
| Text.NatToStringRoundTrip | query_items.py:33-34 | a count rendered in decimal reads back as itself |
| Text.SplitJoin | sql_validator.py:42 | splitting separator-free words joined by the separator gives them back |

## Left out

- The Square SDK, the network and the `.env` credentials. The "list payments" responses are a finite sequence of pages, which must contain a response that stops the loop. The order lookup is a function from order id to result.
- The sqlparse tokenizer and `get_type()`. Its statements, their types and their token trees are inputs. The SQL text is an input beside them, because the keyword test reads it directly.
- The `extract_tables` re-parse of the text: the model reads the first statement's tokens, which are the same tokens.
- `ALLOWED_COLUMNS` is defined but never used by the gate, so it is not modelled.
- Letter case follows ASCII only; Python's full Unicode `upper`/`lower` is not modelled. The Chinese keywords of the classifier are unaffected.
- Time zones and ISO parsing. `created_at` is turned into date, time, hour and epoch seconds by a parameter, and `datetime.now` is the caller's end time. The stored maximum is the text that `MAX(created_at)` returns, taken as an input and parsed by the same parameter.
- The `input()` prompt and its `.strip()`: the mode is a parameter, already stripped.
- SQLite itself: connections, files, commits, type affinity and AUTOINCREMENT ids. Tables are a map keyed by payment id or a sequence of rows.
- pandas CSV reading, with separator sniffing, `nrows=1` and duplicate-header mangling: a file is its header and rows, or unreadable.
- `pd.to_datetime` is a parameter. `glob` order and the `is_file`/suffix filter are not modelled: the files are given in order.
- `float()` is modelled for optionally signed digits with an optional fraction. Exponents, `inf`, `nan`, underscores and surrounding whitespace are not accepted.
- IEEE rounding is not modelled (amounts are exact `real` values), and neither are `.round(2)` or the `:.2f` renderings.
- `to_sql` is modelled only as "append when every column exists in the table (ASCII case-insensitively), fail otherwise". Other write errors are not modelled.
- Plots, printed text, `visualize_schema`, `show_top_10_records` and `print_items` produce output only.
- `query_items`' three SQL queries are not modelled: their results are inputs. `COUNT(DISTINCT Item)` excludes NULL while the DISTINCT list includes it, so the model does not tie the distinct count to the item list. The file is the text the writes accumulate.
- CsvToSqlite.ImportCsvToDb: the CREATE TABLE statement is returned as text and its effect is modelled on `SalesTable` (created with `id` plus the first header's columns unless it already exists). Its failure is decided by `CreateRejected`, not by interpreting the SQL text: every `]` inside a name counts as a refusal, although SQLite might read some such names (`a][b`) as other valid tokens, and other SQLite errors (a locked or unwritable database file) are not modelled.
- Payment ids are always present: `Payment.id` is a string, although the script reads it with `txn.get("id")`, which can give None. A missing id is not modelled: it would be stored under a NULL key and carried into the payment's sales lines.
- Item quantities arrive already decoded: `LineItem.quantity` is an optional number. The script converts the API's text with `float(...)`, which raises on a malformed quantity. That would stop the download script after the transactions upsert and before the sales append, and would make `get_sales_data` of both report scripts return None. Neither path is modelled.
