# Sales system core, modelled in Dafny

A model of the decision logic in the console sales system "sistema-venta-go". The system is a Go program that records products, sales and cash deliveries in SQLite and prints daily, weekly and monthly sales reports. The model covers three handlers:

- **Reports** (`internal/handlers/report_handler.go`):
  - the menu choice selects a reporting period (daily, weekly, monthly, or none for an invalid choice);
  - the sales and cash deliveries of that period are summed;
  - the net is sales minus deliveries;
  - each sale becomes a report line carrying its product's name, or "N/A" when the product cannot be found;
  - the same data goes into the PDF export when the user confirms.
- **Sales** (`internal/handlers/sale_handler.go`):
  - how a new sale is validated and built;
  - the "N/A" fallback in the detail view;
  - how the edit prompts update a fetched sale in place, field by field;
  - when a deletion goes ahead.
- **Products** (`internal/handlers/product_handler.go`):
  - the defaults when registering a product;
  - the in-place field updates of an edit;
  - the deletion confirmation.

How the model represents the program:

- **Instants:** whole seconds since 1970-01-01 00:00:00 UTC.
- **Calendar:** the proleptic Gregorian calendar, with a day-number/civil-date conversion proved in both directions (`Calendar`).
- **Money:** exact `real`.
- **Input:** the console input arrives as the outcome of the library parsers:
  - `Option` for the registration prompts, where an unparseable line is `None`;
  - `FieldInput` (`Blank`, `Invalid` or `Parsed`) for the edit prompts.
- **Repository:** each repository call is a function parameter, and a failing query or a missing record is `None`.
- **Edits:** the fetched record that `EditSale` and `EditProduct` mutate is a class (`SaleRecord`, `ProductRecord`). Its `ApplyEdit` method is specified by a pure function on record values (`EditedSale`, `EditedProduct`).
- **Loops:** the accumulator loops of the report are methods whose loop invariants tie them to recursive sum functions.

Modules:

| module | file | models |
|---|---|---|
| `Wrappers` | wrappers.dfy | `Option`, `Result` |
| `Calendar` | calendar.dfy | Gregorian dates, day numbers, weekdays |
| `Text` | text.dfy | `strings.TrimSpace`, `strings.ToLower` (ASCII), the "(s/n)" confirmation |
| `Models` | models.dfy | `models.Product`, `models.Sale`, `models.CashDelivery`, status constants |
| `Periods` | periods.dfy | the period switch of `GenerateReport` |
| `Reports` | reports.dfy | sums, net, report lines, `GenerateReport`, `ExportReportToPDF` |
| `Sales` | sales.dfy | `RegisterSale`, `ShowSales` details, `EditSale`, `DeleteSale` |
| `Products` | products.dfy | `RegisterProduct`, `EditProduct`, `DeleteProduct` |

## Model

| member | source | states |
|---|---|---|
| Models.Amount | internal/handlers/sale_handler.go:75 | `float64(quantity) * price`, taken exactly: 0 when either factor is 0, never negative for non-negative factors, and the price itself for one unit |
| Calendar.DaysInMonth | internal/handlers/report_handler.go:46-47 | a month has 28 to 31 days: 29 exactly for February of a Gregorian leap year, 28 exactly for February otherwise, 30 exactly for April, June, September and November |
| Calendar.StartOfDate | internal/handlers/report_handler.go:46 | midnight of a civil date is a whole day and falls on that date's day number |
| Calendar.Weekday | internal/handlers/report_handler.go:41 | `now.Weekday()` is in 0..6, Sunday being 0 |
| Calendar.CivilFromDays | internal/handlers/report_handler.go:46 | every day number has a valid civil date (year, month, day) that maps back to it |
| Calendar.DaysFromCivilInjective | internal/handlers/report_handler.go:46 | two valid dates with the same day number are equal |
| Calendar.CivilRoundTrip | internal/handlers/report_handler.go:46 | a valid date converted to its day number and back is unchanged |
| Calendar.NextMonthStart | internal/handlers/report_handler.go:47 | `AddDate(0, 1, 0)` from the first of a month lands as many days later as the month has, December rolling over to January of the next year |
| Periods.Title | internal/handlers/report_handler.go:35-45 | every report title begins with "Reporte de Ventas " |
| Periods.TitlesDistinct | internal/handlers/report_handler.go:35-45 | the daily, weekly and monthly reports have three different titles |
| Periods.KindOfChoice | internal/handlers/report_handler.go:34-50 | choice 1 is daily, 2 weekly, 3 monthly; every other choice selects nothing (both directions) |
| Periods.Truncate | internal/handlers/report_handler.go:37 | `Truncate(24 * time.Hour)` gives the midnight at or before `t`, on the same day |
| Periods.DailyPeriod | internal/handlers/report_handler.go:35-38 | the daily period starts at midnight of `now`'s day, contains `now` and lasts 86400 seconds less one |
| Periods.WeeklyPeriod | internal/handlers/report_handler.go:39-43 | the weekly period starts at midnight of a Sunday, contains `now`, and lasts 7 · 86400 seconds less one |
| Periods.MonthlyPeriod | internal/handlers/report_handler.go:44-47 | the monthly period starts and ends on day boundaries and contains `now` |
| Periods.MonthlyPeriodIsMonth | internal/handlers/report_handler.go:46-47 | the monthly period starts on day 1 of `now`'s month at 00:00:00 and ends on that month's last day at 23:59:59 |
| Periods.MonthlyPeriodLength | internal/handlers/report_handler.go:46-47 | `end + 1 - start` is the number of days in the month times 86400, and `end + 1` is day 1 of the following month, January of the next year after December |
| Periods.ComputePeriod | internal/handlers/report_handler.go:34-47 | each period kind gives a range of whole days that contains `now` |
| Periods.PeriodOfChoice | internal/handlers/report_handler.go:34-51 | there is no period exactly when the choice is not 1, 2 or 3; any period found contains `now` |
| Periods.DailyPeriodOfDate | internal/handlers/report_handler.go:37-38 | any instant of a civil day gives that whole day, 00:00:00 to 23:59:59 |
| Periods.MonthlyPeriodOfDate | internal/handlers/report_handler.go:46-47 | any instant of a month gives the first of that month at 00:00:00 through its last day at 23:59:59 |
| Periods.WeeklyExample | internal/handlers/report_handler.go:41-43 | 2024-03-15 is a Friday, and its week is 2024-03-10 00:00:00 to 2024-03-16 23:59:59 |
| Periods.LeapFebruaryExample | internal/handlers/report_handler.go:46-47 | the monthly report of February 2024 ends on 2024-02-29 at 23:59:59 |
| Periods.MonthLengthExamples | internal/handlers/report_handler.go:46-47 | the monthly reports of February 2023, April 2024 and December 2024 end on their 28th, 30th and 31st |
| Reports.SumReal | internal/handlers/report_handler.go:66-75 | a real sum over no records is 0 |
| Reports.SumInt | internal/handlers/report_handler.go:67-70 | an integer sum over no records is 0 |
| Reports.SumRealAppend | internal/handlers/report_handler.go:66-75 | a sum over a concatenation is the sum of the parts' sums |
| Reports.SumRealRemove | internal/handlers/report_handler.go:66-75 | taking one record out of a sequence takes its value out of the sum |
| Reports.MultisetRemove | internal/handlers/report_handler.go:66-75 | taking one record out of a sequence takes exactly it out of the sequence's multiset |
| Reports.SumRealPermutation | internal/handlers/report_handler.go:66-75 | sequences holding the same records, in any order, have the same sum |
| Reports.SumIntAsReal | internal/handlers/report_handler.go:67-70 | an integer sum, taken as a real, is the real sum of the same values |
| Reports.TotalsAppend | internal/handlers/report_handler.go:66-75 | total sales amount, products sold and cash delivered are each additive over concatenation |
| Reports.TotalsPermutation | internal/handlers/report_handler.go:66-75 | the three totals do not depend on the order the repository returns the records in |
| Reports.SumSales | internal/handlers/report_handler.go:66-71 | the loop gives the sum of `Total` and the sum of `Quantity` over the sales |
| Reports.SumDeliveries | internal/handlers/report_handler.go:72-75 | the loop gives the sum of `Amount` over the deliveries |
| Reports.ResolveProductName | internal/handlers/report_handler.go:86-90 | the product's name when the lookup finds it, "N/A" when it does not |
| Reports.ReportLines | internal/handlers/report_handler.go:85-92 | one line per sale, in the sales' order, each with the sale's fields and its resolved product name |
| Reports.ReportLinesAppend | internal/handlers/report_handler.go:85-92 | the lines of a concatenation are the lines of its parts, so a missing product affects only its own line |
| Reports.BuildLines | internal/handlers/report_handler.go:137-151 | the loop over the sales produces exactly the report lines, with "N/A" for products not found |
| Reports.BuildReport | internal/handlers/report_handler.go:34-101 | the report carries the kind's title and period (which contains `now`), the lines, the three totals, and net = total sales − total delivered |
| Reports.EmptyReport | internal/handlers/report_handler.go:66-75 | with no sales and no deliveries, every total and the net are 0 and there are no lines |
| Reports.ReportExample | internal/handlers/report_handler.go:66-100 | sales of 3 × 10.0 and 2 × 5.0 with one delivery of 15.0 give 40.0, 5, 15.0 and net 25.0 |
| Reports.ExportReportToPDF | internal/handlers/report_handler.go:112-166 | the exported document holds the title, period and totals it is given, the lines for the sales, and net = total sales − total delivered |
| Reports.GenerateReport | internal/handlers/report_handler.go:16-109 | no report for an invalid choice or a failing range query; otherwise the report of the chosen period's records; it is exported exactly when the answer, trimmed and lower-cased, is "s" |
| Sales.RegisterSale | internal/handlers/sale_handler.go:40-97 | no sale exactly when the product ID fails to parse, the product is missing, or the quantity fails to parse, each with its own error; otherwise price = the product's price, total = quantity × that price, the client trimmed, the date falling back to `now`, and status "Pagado" exactly for choice 1 |
| Sales.ShowSaleDetails | internal/handlers/sale_handler.go:112-157 | details are shown exactly when the sale list could be read and a non-blank ID parses and is found; the product name is "N/A" when the product is missing |
| Sales.EditedSale | internal/handlers/sale_handler.go:182-231 | an edit never changes the ID or the product, and leaves total = quantity × price |
| Sales.SaleRecord.ApplyEdit | internal/handlers/sale_handler.go:184-231 | updating the fetched sale field by field leaves it equal to `EditedSale` of its old value |
| Sales.EditSale | internal/handlers/sale_handler.go:168-233 | a sale is written exactly when the ID parses and the sale is found, and the sale written is `EditedSale` of it |
| Sales.EditFieldRules | internal/handlers/sale_handler.go:184-231 | date, client, quantity and price are replaced only by non-blank input that parses, and kept otherwise; the status changes only for choice 1 (Pagado) or 2 (Pendiente) |
| Sales.EditKeepsConsistent | internal/handlers/sale_handler.go:217-231 | an edit keeps a sale consistent: total = quantity × price and a valid status |
| Sales.EditsKeepConsistent | internal/handlers/sale_handler.go:182-233 | a consistent sale stays consistent through any series of edits |
| Sales.RegisteredSaleStaysConsistent | internal/handlers/sale_handler.go:75-231 | a sale as registered, then edited any number of times, keeps total = quantity × price and status "Pagado" or "Pendiente" |
| Sales.BlankEdit | internal/handlers/sale_handler.go:182-231 | all-blank answers only recompute the total, so a consistent sale is unchanged |
| Sales.EditIdempotent | internal/handlers/sale_handler.go:182-231 | repeating the same answers has no further effect |
| Sales.EditsKeepIdentity | internal/handlers/sale_handler.go:182-233 | no series of edits changes a sale's ID or product, and after one or more edits total = quantity × price |
| Sales.DeleteSale | internal/handlers/sale_handler.go:242-273 | the deletion goes ahead exactly when the sale list was read, the ID parses, and the confirmation is "s" once trimmed and lower-cased; it deletes that ID |
| Products.RegisterProduct | internal/handlers/product_handler.go:20-53 | the name is trimmed; an unparseable date becomes `now`, an unparseable quantity 0 and an unparseable price 0.0; parsed values are kept |
| Products.EditedProduct | internal/handlers/product_handler.go:101-128 | an edit never changes the name or the ID; date, quantity and price are replaced only by non-blank input that parses |
| Products.ProductRecord.ApplyEdit | internal/handlers/product_handler.go:103-128 | updating the fetched product field by field leaves it equal to `EditedProduct` of its old value |
| Products.EditProduct | internal/handlers/product_handler.go:87-130 | a product is written exactly when the ID parses and the product is found, and the product written is `EditedProduct` of it |
| Products.BlankProductEdit | internal/handlers/product_handler.go:101-128 | blank or unparseable answers to every prompt leave the product unchanged |
| Products.ProductEditIdempotent | internal/handlers/product_handler.go:101-128 | repeating the same answers has no further effect |
| Products.EditsKeepName | internal/handlers/product_handler.go:101-130 | no series of edits changes a product's name or ID; when the last edit's price parses, it is the final price |
| Products.DeleteProduct | internal/handlers/product_handler.go:145-160 | the deletion goes ahead exactly when the ID parses and the confirmation is "s" once trimmed and lower-cased; it deletes that ID |
| Text.TrimLeftDrops | internal/handlers/sale_handler.go:50 | trimming the left drops a white-space prefix and stops at the first other character |
| Text.TrimRightDrops | internal/handlers/sale_handler.go:50 | trimming the right drops a white-space suffix and stops at the last other character |
| Text.TrimSpace | internal/handlers/sale_handler.go:50 | `strings.TrimSpace` never lengthens its input, and a non-empty result neither starts nor ends with white space |
| Text.TrimSpaceIsSlice | internal/handlers/sale_handler.go:50 | `strings.TrimSpace` gives the slice between the leading and the trailing white space, which neither starts nor ends with white space |
| Text.TrimSpaceIdempotent | internal/handlers/sale_handler.go:195-196 | trimming a trimmed line changes nothing |
| Text.ToLower | internal/handlers/sale_handler.go:268 | lower-casing keeps the length and maps each character on its own |
| Text.Confirmed | internal/handlers/report_handler.go:105 | a confirming answer is a single character once trimmed, and "s" with any surrounding white space confirms |
| Text.ConfirmedIff | internal/handlers/sale_handler.go:268 | an answer confirms exactly when it is "s" or "S" surrounded by white space |

## Left out

- Console I/O and menus are not modelled. This covers reading stdin, printing, the menu loops of `cmd/main.go` and `ClearScreen` in `internal/utils/utils.go`: they only dispatch and display.
- `ShowProducts`, `PreviewProducts` and the printing of the sale list in `ShowSales` are not modelled. They print the records and change nothing. A listing error in `ShowProducts` only prints, so `EditProduct` and `DeleteProduct` have no listing-error branch. A listing error in `ShowSales` and `DeleteSale` ends the operation, so `ShowSaleDetails` and `DeleteSale` take the listing outcome as a parameter. When `EditSale` calls `ShowSales`, that error only ends the listing, and the edit goes on.
- SQLite persistence is not modelled: `internal/database/sqlite.go` and `internal/repository/*.go`, the `BETWEEN` comparison on RFC 3339 text, the ID assignment and the `UPDATE` column lists. Queries are function parameters, and `None` stands for an error or a missing row. New records carry ID 0 until the repository assigns one. The `UPDATE products` statement omits the name, which agrees with `EditedProduct` never changing it.
- A failing `CreateSale`, `UpdateSale`, `UpdateProduct`, `DeleteSale` or `DeleteProduct` call is not modelled. The model stops at the value handed to the repository.
- PDF rendering and file naming through `gofpdf` are not modelled. `ExportReportToPDF` returns the data the document would show.
- Floating point is not modelled. Money is exact `real`, so the sums and the net are exact, where the program's float64 arithmetic rounds and its output is formatted with `%.2f`.
- Time zones and daylight saving are not modelled. One zone, UTC, is fixed. `Truncate(24 * time.Hour)` is UTC-based while the monthly period uses the local zone, and the two agree only in UTC.
- The library parsers `time.Parse`, `strconv.Atoi` and `strconv.ParseFloat` are not modelled. Their outcomes are inputs: a parsed date is the instant of 00:00:00 UTC of that day.
- The report menu choice is an integer input. `strconv.Atoi` errors are discarded in the source. The value then left is 0, or the clamped 64-bit bound for an out-of-range number: a value other than 1-3, which reaches the invalid-option branch.
- Periods.DailyPeriod, Periods.WeeklyPeriod, Periods.MonthlyPeriod, Periods.ComputePeriod, Periods.PeriodOfChoice, Reports.BuildReport: `now` is a whole number of seconds. `time.Now()` carries nanoseconds, and `end` is one second before the next period starts. So when `now` falls in the last second of a period, for example 23:59:59.5 on its last day, the program has `end < now`, while the model rounds `now` down and proves `start <= now <= end`. The sub-second part of `now` changes no period boundary, because `start` is truncated to a whole day either way.
- `time.Now()` is the parameter `now`.
- `strings.TrimSpace` and `strings.ToLower` are modelled over ASCII: white space is space, tab, newline, carriage return, vertical tab and form feed. Unicode white space and case mapping are not modelled.
- Registering and listing cash deliveries (`internal/handlers/cash_delivery_handler.go`) is not part of this model. Deliveries enter only as the records of a report period.
- Integer widths are not modelled. Quantities, IDs and instants are unbounded integers, while Go's `int` is 64-bit; no realistic input reaches that bound.
