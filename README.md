# Point-of-sale back end: a verified model

This project models the core of a Laravel point-of-sale and inventory back end in Dafny.
It covers the seven controllers that place orders, maintain products and categories,
hand products to branches and report on sales:

- **Order placement** (`Orders`, `OrderController::store`). A cart is validated. Then, in
  one transaction, the order row, one item row per cart line and each product's
  decremented stock are written. Any storage failure rolls all of it back.
- **Products** (`Products`, `ProductController`). The paginated newest-first listing, and
  creating and updating a product behind its validation rules (unique barcode, existing
  category and branch, price of at least 0.01, an image on creation).
- **Categories** (`Categories`, `CategoryController`). Creating and renaming under a unique
  name, and deleting a category that no product uses.
- **Branch products** (`Branches`, `BranchController::getBranchProducts`). A branch that owns
  no products adopts every unassigned product, one save at a time, then lists what it owns.
- **Sales listing** (`Sales`, `SalesController`). Completed and confirmed orders filtered by
  branch and dates, newest first, with a summary, and the same summary per branch.
- **Sales report** (`Reports`, `SalesReportController`). Completed orders filtered by branch,
  category and a named or custom time range, with a summary, the previous period's total,
  the percentage change, and the export's data. As in the source, the previous period's
  total covers every branch and category, whatever the report's filters. The named ranges
  use the corrected "lastMonth" (see Findings).
- **Dashboard** (`Dashboard`, `SalesDashboardController`). The `dashboard` action as written answers 500 on every request (see Findings); the model also gives the figures it is evidently meant to answer. Today's takings, takings per day,
  week, month and year, and the branch's top products.

Shared modules:

- `Schema`: the rows and the `Database` class, with one `seq` field per table and the
  auto-increment counters. Its `Valid()` invariant says primary keys are unique and below
  their counters.
- `Calendar`: timestamps in seconds, day numbers from 1970-01-01, proleptic Gregorian
  month and year boundaries, and Monday-based weeks.
- `Seqs`: the query builder and collection operations as functions on sequences: `where`
  (`Filter`), `sum` (`SumOf`), `orderBy` (`SortDesc`) and `limit` (`Take`).

State-changing actions are methods on `Database`. Each is specified by what it leaves in
every table, and lemmas show what those tables then satisfy. Queries are functions, with
lemmas relating them to each other.

Inputs the code reads from its surroundings become parameters:

- the current instant is a `Clock`: the instant and its calendar date;
- the stored image's path is a string argument;
- a storage failure is a `fault` argument: a flag, or the position of the write that fails;
- route model binding of an unknown id is the NotFound outcome, decided before the action runs.

Money is held in integer cents. Averages, margins and percentages are exact `Ratio`s.

## Model

| member | source | states |
|---|---|---|
| Orders.ValidateLines | app/Http/Controllers/OrderController.php:18-20 | The lines are accepted exactly when every line names an existing product, a quantity of at least 1 and a price of at least 0. The accepted lines are then the submitted ones, field for field and in order. |
| Orders.Validate | app/Http/Controllers/OrderController.php:15-24 | The request is accepted exactly when the branch exists, `items` is a non-empty array, every line passes, and subtotal, tax and total are at least 0. An accepted cart carries the request's branch, subtotal, tax and total, and its lines are the validated request lines; it names an existing branch and has at least one line. |
| Orders.StockAfterSaleEffect | app/Http/Controllers/OrderController.php:39-51 | After the loop, every product's stock is lower by exactly the units that all cart lines naming it ask for (repeated lines add up). Every other column and every other row is unchanged. |
| Orders.UnnamedProductUnchanged | app/Http/Controllers/OrderController.php:47-50 | A product that no cart line names keeps its row exactly. |
| Orders.NamedProductDecreases | app/Http/Controllers/OrderController.php:47-50 | A product a cart line names ends with strictly less stock, lower by at least that line's quantity. |
| Orders.Oversell | app/Http/Controllers/OrderController.php:47-50 | Stock is never checked: a cart asking for more units than are on hand leaves the product with negative stock. |
| Orders.ItemsForShape | app/Http/Controllers/OrderController.php:39-45 | One order item per cart line, in cart order, each carrying the new order's id and the line's product, quantity and price. |
| Orders.NewOrderItems | app/Http/Controllers/OrderController.php:39-45 | Read back through the new order's id, the item table yields exactly the cart's lines in cart order; no older item carries the fresh id. |
| Orders.PlacementKeepsKeys | app/Http/Controllers/OrderController.php:30-50 | The rows a successful placement writes keep order ids unique and below the counter, and items pointing at handed-out order ids. |
| Orders.PlaceCart | app/Http/Controllers/OrderController.php:26-66 | With no failure: one new `completed` order with the next id, its items in cart order, stock decremented line by line, result `Ok(id)`. On a failure at any write: every table as before the transaction, result ServerError. The database invariant is kept. |
| Orders.PlaceOrder | app/Http/Controllers/OrderController.php:13-67 | A request that fails validation changes nothing. A valid one has the transaction's effect on orders, items and stock. Branches and categories never change. |
| Products.OwnBarcodeAllowed | app/Http/Controllers/ProductController.php:83 | With unique barcodes, a product passes the update's barcode rule with its own barcode, and creating another product with that barcode is refused. |
| Products.StoreKeepsInvariants | app/Http/Controllers/ProductController.php:39-54 | Inserting an accepted product keeps barcodes unique and every product's category existing. |
| Products.UpdateKeepsInvariants | app/Http/Controllers/ProductController.php:79-101 | Updating with an accepted request keeps barcodes unique and every product's category existing. |
| Products.RevisedAt | app/Http/Controllers/ProductController.php:77-101 | With unique ids, updating the row with a given id is replacing exactly that one position. |
| Products.StoreProduct | app/Http/Controllers/ProductController.php:34-70 | A rejected request or a failed insert leaves every table as it was. An accepted one appends exactly the new row: the validated fields, the stored image path and the next id. |
| Products.UpdateProduct | app/Http/Controllers/ProductController.php:72-120 | An unknown id, a rejected request or a failed write changes nothing. Otherwise only the row with that id changes: the validated fields, and the image only when a new one was uploaded. |
| Products.PageSize | app/Http/Controllers/ProductController.php:17-21 | Whatever `per_page` is sent (absent: 10; 0: the model's 15), the page size is positive, so every listing position lies on some page. |
| Products.PageNumber | app/Http/Controllers/ProductController.php:21 | The page served is at least 1, whatever `page` is sent. |
| Products.NewestMembers | app/Http/Controllers/ProductController.php:19-20 | The newest-first listing has exactly as many rows as the catalog, and every row is a catalog product. |
| Products.ProductPage | app/Http/Controllers/ProductController.php:15-24 | A page holds at most `per_page` products, newest first. Entry i is the product at position start + i of the newest-first listing. |
| Products.PageOfProduct | app/Http/Controllers/ProductController.php:19-21 | Every product appears on some page: the k-th newest is entry k mod size of page k / size + 1. |
| Categories.StoreKeepsNamesUnique | app/Http/Controllers/CategoryController.php:15-20 | Creating an accepted category keeps category names unique. |
| Categories.UpdateKeepsNamesUnique | app/Http/Controllers/CategoryController.php:32-37 | Renaming a category under an accepted name keeps category names unique. |
| Categories.OwnNameAllowed | app/Http/Controllers/CategoryController.php:33 | A category may keep its own name on update, while a new category with that name is refused. |
| Categories.DestroyKeepsIntegrity | app/Http/Controllers/CategoryController.php:49-57 | Deleting a category that no product uses leaves every product's category in place. Exactly that category disappears. |
| Categories.WithoutAt | app/Http/Controllers/CategoryController.php:57 | With unique ids, deleting the row with a position's id is cutting out exactly that position. |
| Categories.StoreCategory | app/Http/Controllers/CategoryController.php:12-27 | A rejected request or a failed insert changes nothing. Otherwise the new category is appended with the next id, and a description not sent is stored as null. |
| Categories.UpdateCategory | app/Http/Controllers/CategoryController.php:29-44 | An unknown category, a rejected request or a failed write changes nothing. Otherwise only that row changes: the new name, and the description only when one was sent. |
| Categories.DestroyCategory | app/Http/Controllers/CategoryController.php:46-70 | An unknown category is not found. A category some product uses is refused and kept. Otherwise exactly that category is deleted and no other table changes. |
| Branches.AdoptionClaimsUnassigned | app/Http/Controllers/BranchController.php:38-46 | For a branch that owned nothing, adoption gives it exactly the products that had no branch. Their other columns are kept, and products of other branches are untouched. |
| Branches.AdoptionIsFinal | app/Http/Controllers/BranchController.php:38-46 | After adoption no product is unassigned, so a later adoption by any branch changes nothing. |
| Branches.AdoptedList | app/Http/Controllers/BranchController.php:48-51 | The list returned after adoption is the previously unassigned products, in table order, each now the branch's. |
| Branches.GetBranchProducts | app/Http/Controllers/BranchController.php:24-68 | An unknown branch is not found. A branch owning products gets them and nothing changes. Otherwise every unassigned product becomes the branch's and the branch's products are returned. A failed save ends the request, with the products before it already reassigned. |
| Sales.Summarize | app/Http/Controllers/SalesController.php:54-61 | The order count is the number of rows. The average's denominator is positive. An empty selection has total, average and items all 0. |
| Sales.AverageWithinTotals | app/Http/Controllers/SalesController.php:57 | The average order value lies between the smallest and the largest order total. |
| Sales.SummaryOfPermutation | app/Http/Controllers/SalesController.php:54-61 | The summary does not depend on the order of the rows. |
| Sales.Narrow | app/Http/Controllers/SalesController.php:20-31 | Each conditional `where` adds its clause when the parameter was sent and leaves the selection alone otherwise. Either way the result is the selection by one more clause. |
| Sales.Select | app/Http/Controllers/SalesController.php:17-31 | The built query selects exactly the completed or confirmed orders of the branch and dates sent, in table order. |
| Sales.Index | app/Http/Controllers/SalesController.php:14-79 | The listing holds exactly the matching orders, each as often as in the table, newest first. Its summary is the summary of those orders. |
| Sales.BranchStats | app/Http/Controllers/SalesController.php:81-111 | One entry per branch, in table order, with that branch's id and name. |
| Sales.BranchStatsAgreeWithIndex | app/Http/Controllers/SalesController.php:83-105 | Each branch's entry equals the summary the listing reports for that branch and the same dates. |
| Reports.LastMonthAsWritten | app/Http/Controllers/SalesReportController.php:23 | As written, the "lastMonth" range is the previous month or, with month overflow, the current month. |
| Reports.LastMonthAsWrittenOverflows | app/Http/Controllers/SalesReportController.php:23 | On a day the previous month does not have, "lastMonth" as written is the current month and contains the current instant. |
| Reports.LastMonthOnMarch31 | app/Http/Controllers/SalesReportController.php:23 | On 2025-03-31 the range as written is March 2025, while the previous month is February 2025. |
| Reports.LastMonth | app/Http/Controllers/SalesReportController.php:23 | The corrected "lastMonth" is the month right before the current one. |
| Reports.LastMonthPrecedesThisMonth | app/Http/Controllers/SalesReportController.php:23 | The corrected range is a whole month (at least 28 days) ending the second before the current month starts. It agrees with the code as written on every day the previous month has. |
| Reports.NamedRange | app/Http/Controllers/SalesReportController.php:18-25 | A window is defined exactly for the six range keys. |
| Reports.CurrentRangesContainNow | app/Http/Controllers/SalesReportController.php:19-24 | "today", "last7days", "thisMonth" and "thisYear" contain the current instant. |
| Reports.PastRangesEndBeforeToday | app/Http/Controllers/SalesReportController.php:20-23 | "yesterday" and the corrected "lastMonth" end before today starts. |
| Reports.CustomWindow | app/Http/Controllers/SalesReportController.php:43-47 | An instant is in the custom range exactly when it is no earlier than the parsed start and falls on or before the parsed end's date. A missing date parses as now. |
| Reports.Avg | app/Http/Controllers/SalesReportController.php:56 | `avg('total')` is null exactly for an empty selection. Otherwise it is the sum of totals over the count. |
| Reports.CalculateSummary | app/Http/Controllers/SalesReportController.php:174-184 | The report's summary, built from `avg ?? 0`, equals the sales listing's summary of the same orders. |
| Reports.PreviousWindowPrecedes | app/Http/Controllers/SalesReportController.php:66-74 | The previous period is as long as the current one and ends before it starts, by at most one day. The two never overlap. |
| Reports.PreviousPeriodSales | app/Http/Controllers/SalesReportController.php:63-77 | The previous-period total is the sum of totals of exactly the completed orders, of any branch and category, that lie in the named range's window shifted back by `diffInDays + 1` days; all completed orders when no known range is chosen. |
| Reports.NamedRangeOrdered | app/Http/Controllers/SalesReportController.php:18-25 | Every named range starts no later than it ends. |
| Reports.PercentageChange | app/Http/Controllers/SalesReportController.php:79-84 | The change has a positive denominator and is 0 when the previous period's total is not positive. |
| Reports.PercentageChangeMeaning | app/Http/Controllers/SalesReportController.php:81-83 | The change is positive exactly when sales grew and zero exactly when they stayed level. It is never below -100% for non-negative sales. |
| Reports.ReportIndex | app/Http/Controllers/SalesReportController.php:16-97 | The report holds exactly the completed orders matching branch, category, known named range and custom range. Its summary (total, count, average, items sold) is those orders' summary; `previous_period` is the previous-period total for the request's range key, and the percentage change compares the report's total with it. |
| Reports.PreviousPeriodIgnoresFilters | app/Http/Controllers/SalesReportController.php:63-77 | Two requests with the same range key get the same `previous_period`, whatever their branch, category or custom dates. |
| Reports.PreviousPeriodDisjoint | app/Http/Controllers/SalesReportController.php:38-77 | With a known range key, no order is counted both in the report and in the previous period. |
| Reports.UnknownRangeIgnored | app/Http/Controllers/SalesReportController.php:38-42 | An unknown range key gives the same report as no range. |
| Reports.SalesData | app/Http/Controllers/SalesReportController.php:153-172 | The export holds exactly the completed orders matching branch and category and, when both dates are filled, the custom range. |
| Reports.ExportMatchesReport | app/Http/Controllers/SalesReportController.php:153-172 | With no named range, the export's orders are exactly the on-screen report's when the report's custom range is on exactly when both dates are filled. |
| Dashboard.EmptyWindowTotalsZero | app/Http/Controllers/SalesDashboardController.php:68-76 | A window with no counted order of the branch totals 0, so its bucket still appears. |
| Dashboard.TodayByWindow | app/Http/Controllers/SalesDashboardController.php:22-36 | The count is 0 exactly when no counted order of the branch lies between the start and the end of today, and then the takings are 0. |
| Dashboard.TodayByDate | app/Http/Controllers/SalesDashboardController.php:212-224 | The count is 0 exactly when no counted order of the branch is dated today, and then the takings are 0. |
| Dashboard.RealtimeAgreesWithDashboard | app/Http/Controllers/SalesDashboardController.php:205-235 | The realtime endpoint (`whereDate` today) and the dashboard (between start and end of today) report the same takings and count. |
| Dashboard.GroupDays | app/Http/Controllers/SalesDashboardController.php:41-50 | The grouped days lie in the requested span and are strictly ascending: one entry per date. |
| Dashboard.GroupDaysEntries | app/Http/Controllers/SalesDashboardController.php:44-48 | Each entry's date has rows, and its total is the sum of those rows' totals. |
| Dashboard.GroupDaysComplete | app/Http/Controllers/SalesDashboardController.php:48 | Every date in the span that has rows has an entry. |
| Dashboard.DailySales | app/Http/Controllers/SalesDashboardController.php:41-56 | Dates ascend strictly and none is before seven days ago. Each entry is that date's takings, and every date with a counted order of the branch since then has an entry. |
| Dashboard.WeeklySales | app/Http/Controllers/SalesDashboardController.php:61-77 | Four buckets; the i-th is the week starting i weeks after the Monday four weeks before this week's, with that week's takings. |
| Dashboard.WeeksBeforeCurrentWeek | app/Http/Controllers/SalesDashboardController.php:61-66 | The four weeks start on Mondays and follow each other without gap or overlap. The last ends the second before the current week starts. |
| Dashboard.MonthlySales | app/Http/Controllers/SalesDashboardController.php:82-98 | Twelve buckets; the i-th is the whole month i months after the month eleven months ago, with its takings. |
| Dashboard.MonthsEndWithCurrent | app/Http/Controllers/SalesDashboardController.php:82-87 | The twelve months follow each other without gap or overlap. The last is the current month and contains now. |
| Dashboard.YearlySales | app/Http/Controllers/SalesDashboardController.php:103-119 | Five buckets; the i-th is the whole year i years after the year four years ago, with its takings. |
| Dashboard.YearsEndWithCurrent | app/Http/Controllers/SalesDashboardController.php:103-108 | The five years follow each other without gap or overlap. The last is the current year and contains now. |
| Dashboard.Margin | app/Http/Controllers/SalesDashboardController.php:151-155 | The margin has a positive denominator and is 0 when revenue is not positive. |
| Dashboard.MarginSign | app/Http/Controllers/SalesDashboardController.php:151-155 | With positive revenue, the margin is positive exactly when the product sold above its current price. |
| Dashboard.Stats | app/Http/Controllers/SalesDashboardController.php:126-155 | A product's entry carries the product and the margin of its figures. Its quantity sold and revenue are 0 when none of its items is in a completed or confirmed order, and never negative when no item has a negative quantity or price. |
| Dashboard.BranchProductSales | app/Http/Controllers/SalesDashboardController.php:126-139 | Every entry is a product of the table owned by the requested branch, with that product's own figures. |
| Dashboard.Ranked | app/Http/Controllers/SalesDashboardController.php:140-145 | The ordered list is a permutation of the branch's products. It is sorted by the named column in the requested direction, or in table order when `sort_by` names no column. |
| Dashboard.TopProducts | app/Http/Controllers/SalesDashboardController.php:123-157 | The intended top-products query, for a `Product` model that has its `orderItems` relation (see Findings). An error exactly when a column is named with a direction other than asc or desc. Otherwise as many entries as the branch has products, at most ten, each drawn from the branch's products no more often than it occurs there, and sorted by the named column in the requested direction when a column is named. |
| Dashboard.RankedTop | app/Http/Controllers/SalesDashboardController.php:140-148 | For any list of product figures, an entry left off the first ten of its ranking by a named column comes no earlier in that order than any of the ten, and the ten are all there. |
| Dashboard.TopProductsFor | app/Http/Controllers/SalesDashboardController.php:123-125 | Each parameter sent is used as given, and one not sent takes its default (`quantity_sold`, `desc`), in all four combinations. Without `sort_order` the query never fails, and a named column alone orders by that column, largest first; with neither sent, by quantity sold. Without `sort_by`, it fails exactly when the direction sent is neither asc nor desc. |
| Dashboard.OrderItemsUndeclared | app/Models/Product.php:8-35 | The `Product` model declares no relation named `orderItems`. |
| Dashboard.TopProductsWith | app/Http/Controllers/SalesDashboardController.php:126-139 | When the `Product` model lacks an `orderItems` relation, `withCount`/`withSum` fail and the result is a server error. When it has one, the result is the intended query's. |
| Dashboard.FetchDashboard | app/Http/Controllers/SalesDashboardController.php:14-203 | The action answers either the figures or a 500. It answers a 500 exactly when the top-products query fails, which with the relations `Product` declares is every request. Otherwise it answers today's figures, the daily series, four weekly, twelve monthly and five yearly buckets as their own members define them, and the top products. |
| Dashboard.BranchProductListed | app/Http/Controllers/SalesDashboardController.php:126-139 | Every product of the branch appears in its list with its own sold quantity, revenue and margin. |
| Dashboard.TopProductsFromBranch | app/Http/Controllers/SalesDashboardController.php:126-148 | Every listed entry is one of the branch's products with its figures. |
| Dashboard.TopProductsAreTop | app/Http/Controllers/SalesDashboardController.php:140-148 | Sorted by quantity sold or revenue, in either direction: a branch product left off the list comes no earlier in that order than any listed one, and the list is full. |
| Calendar.DayOfWithin | app/Http/Controllers/SalesDashboardController.php:22-27 | An instant falls on a day exactly when it lies between that day's start and its end. |
| Calendar.StartOfWeek | app/Http/Controllers/SalesDashboardController.php:61 | `startOfWeek()` is the Monday on or before the day, less than seven days before it. |
| Calendar.NowInCurrentMonth | app/Http/Controllers/SalesReportController.php:22 | A consistent clock's instant lies in its own month's window. |
| Calendar.NowInCurrentYear | app/Http/Controllers/SalesReportController.php:24 | A consistent clock's instant lies in its own year's window. |
| Calendar.MonthWindowsAdjacent | app/Http/Controllers/SalesDashboardController.php:85-87 | A month's window ends the second before the next one's starts and spans at least 28 days. |
| Calendar.YearWindowsAdjacent | app/Http/Controllers/SalesDashboardController.php:106-108 | A year's window ends the second before the next one's starts and spans at least 365 days. |

## Left out

- Logging, JSON and redirect rendering, flash messages, CORS headers, the targets table, and labels such as `format('M d')` are not modelled.
- Eager loading (`with(...)`) and the column projection in `getBranchProducts` are not modelled; results are whole rows.
- Image storage and deleting the old image are left out. The stored path is a parameter, and an upload is reduced to whether it is an image and its size.
- Concurrency: requests run one at a time. Unique-index races and interleaved adoption of unassigned products are not modelled.
- Time zones and daylight saving are left out. Day numbers are in the application's zone, `DATE(created_at)` is taken to agree with it, and time has whole-second resolution.
- Floating point is left out. Decimal columns are integer cents. Averages, margins and percentages are exact ratios without PHP float division or `round(..., 2)`.
- Failure responses: in `ProductController` and `CategoryController`, validation failures, missing models (`findOrFail`) and storage failures are caught by the same `catch (\Exception)`, so those controllers answer them alike (a redirect with an error, or one 422/500 response). `OrderController` is the exception: its `validate()` runs before the `try`, so a failed validation gets the framework's 422 with field errors and only a storage failure reaches the `catch` and its 500. The model keeps them apart as ValidationError, NotFound and ServerError; the state they leave is the same.
- Laravel's TrimStrings and ConvertEmptyStringsToNull middleware are left out; a parameter is either sent with a value or not sent.
- Name and barcode uniqueness compare exactly; a case-insensitive database collation is left out.
- The orders table's migration is not part of this model. Every order is taken to have a branch, as order placement requires one, so a dashboard query with no `branch_id` matches no order.
- `Database` validity covers key uniqueness and counters. Foreign keys other than product categories, and cascading deletes, are left out.
- The `Order` and `OrderItem` models are not part of this model. The relations the controllers use on them (`items`, `order`, `product`, `branch`) are taken to exist as used.
- Products.PageSize: a negative `per_page` is not modelled; the parameter is a natural number.
- Dashboard.TopProducts: it assumes a `Product` has-many `OrderItem` relation named `orderItems`, which the `Product` model (app/Models/Product.php:8-35) does not declare; without it the query fails, which only Dashboard.TopProductsWith and Dashboard.FetchDashboard model (see Findings). The `margin` sort (`orderByRaw` with SQL NULL ordering for zero revenue) is not modelled; that case is in table order. Directions are compared case-sensitively, while the query builder also accepts `ASC`/`DESC`. Rows with equal keys keep their table order (the model's insertion sort is stable), where SQL leaves their order unspecified.
- Sales.Index: orders with equal `created_at` keep their table order under the model's stable sort; SQL leaves their order unspecified.
- Reports.NamedRange: the "lastMonth" window is the corrected previous month (Reports.LastMonth), and Reports.ReportIndex, Reports.PreviousPeriodSales and the lemmas about them use it. On a day the previous month lacks (2025-03-31, say), the code as written reports on the current month instead; that behaviour is modelled only by Reports.LastMonthAsWritten and the lemmas beside it (see Findings), and on every other day the two agree (Reports.LastMonthPrecedesThisMonth).
- Reports.DiffInDays: whole days, rounded down, as the calendar library's integer `diffInDays` returns. Versions returning a fractional count shift the previous period by a fraction of a day, which is not modelled.
- Orders.PlaceCart: a failing write is chosen by the `fault` argument; why a write fails (constraint, connection) is not modelled.

## Findings

| source | as written | input that shows it | evidently intended | confidence | as-written member | corrected member |
|---|---|---|---|---|---|---|
| app/Http/Controllers/SalesDashboardController.php:129 | `withCount(['orderItems as quantity_sold' => ...])` and `withSum(['orderItems as revenue' => ...])` name a relation that the `Product` model (app/Models/Product.php:8-35) does not declare; resolving it throws, and the `catch` at line 195 answers 500 | any request to the dashboard, e.g. any branch with no sort parameters: the action fails before responding, so no figure is ever returned | a `Product` has-many `OrderItem` relation named `orderItems`, giving each branch product its sold quantity and revenue | medium; not executed | Dashboard.FetchDashboard | Dashboard.TopProducts |
| app/Http/Controllers/SalesReportController.php:23 | "lastMonth" takes `now()->subMonth()`, which overflows, then its start and end of month | now = 2025-03-31: one month back is 2025-02-31, which overflows to 2025-03-03, so the range is March 2025 and includes today | the whole previous month, February 2025 | high; not executed | Reports.LastMonthAsWritten | Reports.LastMonth |
