/** The sales report (`SalesReportController`): completed orders narrowed by branch,
    by product category and by a named or custom range of time; their summary; the
    total of the period before; and the data the export uses. */
module Reports {
  import opened Calendar
  import opened Schema
  import opened Seqs
  import opened Sales

  /** The report's query parameters; a parameter not filled is `None` (or `false`). */
  datatype ReportRequest = ReportRequest(
    branchId: Option<Id>,
    categoryId: Option<Id>,
    dateRange: Option<string>,
    customRange: bool,
    startDate: Option<Timestamp>,
    endDate: Option<Timestamp>)

  datatype Report = Report(sales: seq<Order>, summary: Summary, previousPeriod: Cents, percentageChange: Ratio)

  /** The keys of the named date ranges. */
  const RangeKeys: seq<string> := ["today", "yesterday", "last7days", "thisMonth", "lastMonth", "thisYear"]

  /** `Carbon::now()->subMonth()` as written: with month overflow, a day that the previous month
      does not have rolls over into the current month, so "last month" is then this month. */
  function LastMonthAsWritten(c: Clock): (mn: MonthNumber)
    requires 1 <= c.month <= 12
    ensures mn == c.CurrentMonth() - 1 || mn == c.CurrentMonth()
  {
    var prev := c.CurrentMonth() - 1;
    if c.day <= DaysInMonth(YearOfMonth(prev), MonthOfYear(prev)) then prev else c.CurrentMonth()
  }

  /** The month before the current one, whatever today's day of the month. */
  function LastMonth(c: Clock): (mn: MonthNumber)
    ensures mn + 1 == c.CurrentMonth()
  {
    c.CurrentMonth() - 1
  }

  /** On a day the previous month lacks, the "lastMonth" range as written is the current month,
      and it contains the current instant. */
  lemma LastMonthAsWrittenOverflows(c: Clock)
    requires c.Consistent()
    requires c.day > DaysInMonth(YearOfMonth(c.CurrentMonth() - 1), MonthOfYear(c.CurrentMonth() - 1))
    ensures MonthWindow(LastMonthAsWritten(c)) == MonthWindow(c.CurrentMonth())
    ensures MonthWindow(LastMonthAsWritten(c)).Contains(c.now)
  {
    assert LastMonthAsWritten(c) == c.CurrentMonth();
    NowInCurrentMonth(c);
  }

  /** 2025-03-31 (day 20178) is such a day: its "lastMonth" report covers March, not February. */
  lemma LastMonthOnMarch31()
    ensures var c := Clock(20178 * SecondsPerDay + 43200, 2025, 3, 31);
      c.Consistent() && LastMonthAsWritten(c) == c.CurrentMonth() && LastMonth(c) == MonthNumberOf(2025, 2)
  {
    var c := Clock(20178 * SecondsPerDay + 43200, 2025, 3, 31);
    MonthNumberParts(2025, 3);
    MonthNumberParts(2025, 2);
    assert YearStartDay(2025) == 20089;
    assert MonthStartDay(MonthNumberOf(2025, 3)) == 20148;
  }

  /** The corrected range is the whole month that ends the second before the current month
      starts, and it agrees with the code as written on every day the previous month has. */
  lemma LastMonthPrecedesThisMonth(c: Clock)
    requires 1 <= c.month <= 12
    ensures MonthWindow(LastMonth(c)).end + 1 == MonthWindow(c.CurrentMonth()).start
    ensures MonthWindow(LastMonth(c)).start + 28 * SecondsPerDay <= MonthWindow(LastMonth(c)).end + 1
    ensures c.day <= DaysInMonth(YearOfMonth(c.CurrentMonth() - 1), MonthOfYear(c.CurrentMonth() - 1)) ==>
      LastMonthAsWritten(c) == LastMonth(c)
  {
    MonthWindowsAdjacent(LastMonth(c));
  }

  /** `$dateRanges[$key]`: the window of a named range, or `None` for an unknown key. */
  function NamedRange(key: string, c: Clock): (w: Option<Window>)
    ensures w.Some? <==> key in RangeKeys
  {
    var today := c.Today();
    if key == "today" then Some(DayWindow(today))
    else if key == "yesterday" then Some(DayWindow(today - 1))
    else if key == "last7days" then Some(Window(c.now - 7 * SecondsPerDay, c.now))
    else if key == "thisMonth" then Some(MonthWindow(c.CurrentMonth()))
    else if key == "lastMonth" then Some(MonthWindow(LastMonth(c)))
    else if key == "thisYear" then Some(YearWindow(c.year))
    else None
  }

  /** The ranges "today", "last7days", "thisMonth" and "thisYear" contain the current instant. */
  lemma CurrentRangesContainNow(c: Clock)
    requires c.Consistent()
    ensures forall key :: key in ["today", "last7days", "thisMonth", "thisYear"] ==>
      NamedRange(key, c).Some? && NamedRange(key, c).value.Contains(c.now)
  {
    NowInCurrentMonth(c);
    NowInCurrentYear(c);
    DayOfWithin(c.now, c.Today());
  }

  /** The ranges "yesterday" and "lastMonth" end before today starts. */
  lemma PastRangesEndBeforeToday(c: Clock)
    requires c.Consistent()
    ensures forall key :: key in ["yesterday", "lastMonth"] ==>
      NamedRange(key, c).Some? && NamedRange(key, c).value.end < StartOfDay(c.Today())
  {
    LastMonthPrecedesThisMonth(c);
    NowInCurrentMonth(c);
    DayOfWithin(c.now, c.Today());
  }

  /** `Carbon::parse($date)`; an absent date parses as the current instant. */
  function Parse(date: Option<Timestamp>, c: Clock): Timestamp
  {
    if date.Some? then date.value else c.now
  }

  /** The custom range: from the parsed start to the end of the parsed end's day. */
  function CustomWindow(startDate: Option<Timestamp>, endDate: Option<Timestamp>, c: Clock): (w: Window)
    ensures forall t :: w.Contains(t) <==> Parse(startDate, c) <= t && DayOf(t) <= DayOf(Parse(endDate, c))
  {
    var w := Window(Parse(startDate, c), EndOfDay(DayOf(Parse(endDate, c))));
    forall t ensures w.Contains(t) <==> Parse(startDate, c) <= t && DayOf(t) <= DayOf(Parse(endDate, c)) {
      DayOfWithin(t, DayOf(t));
    }
    w
  }

  /** Some item of order `o` is of a product in category `cat` (`whereHas('items.product', ...)`). */
  predicate HasItemInCategory(o: Order, items: seq<OrderItem>, products: seq<Product>, cat: Id)
  {
    exists i, j :: 0 <= i < |items| && 0 <= j < |products| &&
      items[i].orderId == o.id && products[j].id == items[i].productId && products[j].categoryId == cat
  }

  /** The clauses the report and the export share: status exactly completed, then the branch and
      category clauses when filled. */
  predicate Narrowed(o: Order, branchId: Option<Id>, categoryId: Option<Id>, items: seq<OrderItem>, products: seq<Product>)
  {
    o.status == Completed &&
    (branchId.Some? ==> o.branchId == branchId.value) &&
    (categoryId.Some? ==> HasItemInCategory(o, items, products, categoryId.value))
  }

  /** The named window of the request, if its key is known. */
  function RangeWindow(req: ReportRequest, c: Clock): Option<Window>
  {
    if req.dateRange.Some? then NamedRange(req.dateRange.value, c) else None
  }

  /** An order the report for `req` includes. */
  predicate InReport(o: Order, req: ReportRequest, c: Clock, items: seq<OrderItem>, products: seq<Product>)
  {
    Narrowed(o, req.branchId, req.categoryId, items, products) &&
    (RangeWindow(req, c).Some? ==> RangeWindow(req, c).value.Contains(o.createdAt)) &&
    (req.customRange ==> CustomWindow(req.startDate, req.endDate, c).Contains(o.createdAt))
  }

  /** `$sales->avg('total')`: `None` (null) for an empty selection. */
  function Avg(sales: seq<Order>): (a: Option<Ratio>)
    ensures a.Some? <==> |sales| > 0
    ensures a.Some? ==> a.value.den == |sales| && a.value.num == SumOf(sales, (o: Order) => o.total)
  {
    if |sales| == 0 then None else Some(Ratio(SumOf(sales, (o: Order) => o.total), |sales|))
  }

  /** `calculateSummary`, and the inline summary of `index`: the average is `avg ?? 0`. */
  function CalculateSummary(sales: seq<Order>, items: seq<OrderItem>): (s: Summary)
    ensures s == Summarize(sales, items)
  {
    Summary(SumOf(sales, (o: Order) => o.total), |sales|,
            match Avg(sales) case None => Ratio(0, 1) case Some(a) => a,
            SumOf(sales, (o: Order) => ItemCount(items, o)))
  }

  /** `diffInDays`: whole days between the two ends, rounded down. */
  function DiffInDays(w: Window): nat
  {
    (if w.start <= w.end then w.end - w.start else w.start - w.end) / SecondsPerDay
  }

  /** The window of the period before: the current one shifted back by `diffInDays + 1` days. */
  function PreviousWindow(w: Window): Window
  {
    var shift := (DiffInDays(w) + 1) * SecondsPerDay;
    Window(w.start - shift, w.end - shift)
  }

  /** The previous window is as long as the current one and ends before it starts, by at most
      one day: the two periods never overlap. */
  lemma PreviousWindowPrecedes(w: Window)
    requires w.start <= w.end
    ensures PreviousWindow(w).end - PreviousWindow(w).start == w.end - w.start
    ensures PreviousWindow(w).end < w.start <= PreviousWindow(w).end + SecondsPerDay
    ensures forall t :: !(PreviousWindow(w).Contains(t) && w.Contains(t))
  {
    var d := w.end - w.start;
    assert d / SecondsPerDay * SecondsPerDay <= d < (d / SecondsPerDay + 1) * SecondsPerDay;
  }

  /** An order `previous_period` sums: completed, of any branch and category, and inside the
      previous window of the named range when the range key is known. */
  predicate InPreviousPeriod(o: Order, dateRange: Option<string>, c: Clock)
  {
    o.status == Completed &&
    (dateRange.Some? && NamedRange(dateRange.value, c).Some? ==>
      PreviousWindow(NamedRange(dateRange.value, c).value).Contains(o.createdAt))
  }

  /** `previous_period`: completed orders, then the previous window of the named range when the
      key is known; the branch and category filters of the report are not applied. */
  function PreviousPeriodSales(orders: seq<Order>, dateRange: Option<string>, c: Clock): (r: Cents)
    ensures r == SumOf(Filter(orders, (o: Order) => InPreviousPeriod(o, dateRange, c)), (o: Order) => o.total)
  {
    var completed := Filter(orders, (o: Order) => o.status == Completed);
    var w := if dateRange.Some? then NamedRange(dateRange.value, c) else None;
    if w.Some? then
      FilterFilter(orders, (o: Order) => o.status == Completed, (o: Order) => PreviousWindow(w.value).Contains(o.createdAt),
                   (o: Order) => InPreviousPeriod(o, dateRange, c));
      SumOf(Filter(completed, (o: Order) => PreviousWindow(w.value).Contains(o.createdAt)), (o: Order) => o.total)
    else
      FilterCongruent(orders, (o: Order) => o.status == Completed, (o: Order) => InPreviousPeriod(o, dateRange, c));
      SumOf(completed, (o: Order) => o.total)
  }

  /** Every named range starts no later than it ends. */
  lemma NamedRangeOrdered(key: string, c: Clock)
    requires NamedRange(key, c).Some?
    ensures NamedRange(key, c).value.start <= NamedRange(key, c).value.end
  {
    MonthWindowsAdjacent(c.CurrentMonth());
    MonthWindowsAdjacent(LastMonth(c));
    YearWindowsAdjacent(c.year);
  }

  /** With a known named range, no order is both in the report and in the previous period. */
  lemma PreviousPeriodDisjoint(o: Order, items: seq<OrderItem>, products: seq<Product>,
                              req: ReportRequest, c: Clock)
    requires req.dateRange.Some? && req.dateRange.value in RangeKeys
    ensures !(InReport(o, req, c, items, products) && InPreviousPeriod(o, req.dateRange, c))
  {
    NamedRangeOrdered(req.dateRange.value, c);
    PreviousWindowPrecedes(NamedRange(req.dateRange.value, c).value);
  }

  /** `percentage_change`: (current - previous) / previous * 100, or 0 when previous <= 0. */
  function PercentageChange(current: Cents, previous: Cents): (r: Ratio)
    ensures r.den > 0
    ensures previous <= 0 ==> r.num == 0
  {
    if previous > 0 then Ratio((current - previous) * 100, previous) else Ratio(0, 1)
  }

  /** The change is positive exactly when sales grew, zero when they stayed level, and never
      below -100% when current sales are not negative. */
  lemma PercentageChangeMeaning(current: Cents, previous: Cents)
    requires previous > 0
    ensures PercentageChange(current, previous).num > 0 <==> current > previous
    ensures PercentageChange(current, previous).num == 0 <==> current == previous
    ensures current >= 0 ==> PercentageChange(current, previous).num >= -100 * PercentageChange(current, previous).den
  {
  }

  /** `SalesReportController::index`. */
  function ReportIndex(orders: seq<Order>, items: seq<OrderItem>, products: seq<Product>,
                       req: ReportRequest, c: Clock): (r: Report)
    ensures forall o :: o in r.sales <==> o in orders && InReport(o, req, c, items, products)
    ensures r.summary.totalSales == SumOf(r.sales, (o: Order) => o.total)
    ensures r.summary.totalOrders == |r.sales|
    ensures r.summary == Summarize(r.sales, items)
    ensures r.previousPeriod == PreviousPeriodSales(orders, req.dateRange, c)
    ensures r.percentageChange == PercentageChange(r.summary.totalSales, r.previousPeriod)
  {
    var sales := Filter(orders, (o: Order) => InReport(o, req, c, items, products));
    var summary := CalculateSummary(sales, items);
    var previous := PreviousPeriodSales(orders, req.dateRange, c);
    Report(sales, summary, previous, PercentageChange(summary.totalSales, previous))
  }

  /** An unknown range key filters nothing: the report is the one without a range. */
  lemma UnknownRangeIgnored(orders: seq<Order>, items: seq<OrderItem>, products: seq<Product>,
                            req: ReportRequest, c: Clock)
    requires req.dateRange.Some? && req.dateRange.value !in RangeKeys
    ensures ReportIndex(orders, items, products, req, c) == ReportIndex(orders, items, products, req.(dateRange := None), c)
  {
    var req' := req.(dateRange := None);
    FilterCongruent(orders, (o: Order) => InReport(o, req, c, items, products), (o: Order) => InReport(o, req', c, items, products));
  }

  /** The previous period depends on the range key alone: requests differing in branch, category
      or custom dates, and any item or product tables, give the same `previous_period`. */
  lemma PreviousPeriodIgnoresFilters(orders: seq<Order>, items: seq<OrderItem>, products: seq<Product>,
                                     items': seq<OrderItem>, products': seq<Product>,
                                     req: ReportRequest, req': ReportRequest, c: Clock)
    requires req.dateRange == req'.dateRange
    ensures ReportIndex(orders, items, products, req, c).previousPeriod ==
            ReportIndex(orders, items', products', req', c).previousPeriod
  {
  }

  /** `getSalesData`: the export's orders. The custom range applies only when both dates are filled. */
  function SalesData(orders: seq<Order>, items: seq<OrderItem>, products: seq<Product>,
                     branchId: Option<Id>, categoryId: Option<Id>,
                     startDate: Option<Timestamp>, endDate: Option<Timestamp>, c: Clock): (r: seq<Order>)
    ensures forall o :: o in r <==>
      (o in orders && Narrowed(o, branchId, categoryId, items, products) &&
       (startDate.Some? && endDate.Some? ==> CustomWindow(startDate, endDate, c).Contains(o.createdAt)))
  {
    Filter(orders, (o: Order) => Narrowed(o, branchId, categoryId, items, products) &&
      (startDate.Some? && endDate.Some? ==> CustomWindow(startDate, endDate, c).Contains(o.createdAt)))
  }

  /** The export holds exactly the orders of the on-screen report when the report uses a custom
      range with both dates and no named range, or no range at all and the export no dates. */
  lemma ExportMatchesReport(orders: seq<Order>, items: seq<OrderItem>, products: seq<Product>,
                            req: ReportRequest, c: Clock)
    requires req.dateRange.None?
    requires req.customRange <==> req.startDate.Some? && req.endDate.Some?
    ensures SalesData(orders, items, products, req.branchId, req.categoryId, req.startDate, req.endDate, c) ==
            ReportIndex(orders, items, products, req, c).sales
  {
    FilterCongruent(orders,
      (o: Order) => Narrowed(o, req.branchId, req.categoryId, items, products) &&
        (req.startDate.Some? && req.endDate.Some? ==> CustomWindow(req.startDate, req.endDate, c).Contains(o.createdAt)),
      (o: Order) => InReport(o, req, c, items, products));
  }
}
