/** The sales dashboard of one branch (`SalesDashboardController`): today's takings,
    the takings per day since a week ago, per week, per month and per year, and the
    branch's best-selling products. Every figure counts only completed and confirmed
    orders of the requested branch. */
module Dashboard {
  import opened Calendar
  import opened Schema
  import opened Seqs
  import Sales

  /** An order the dashboard counts for the requested branch. The request's `branch_id` may be
      missing, and `where('branch_id', null)` matches no order, since every order has a branch. */
  predicate Qualifies(o: Order, branchId: Option<Id>)
  {
    branchId == Some(o.branchId) && Sales.Counted(o)
  }

  /** The orders the dashboard counts within window `w`. */
  function InWindow(orders: seq<Order>, branchId: Option<Id>, w: Window): seq<Order>
  {
    Filter(orders, (o: Order) => Qualifies(o, branchId) && w.Contains(o.createdAt))
  }

  /** `sum('total')` over the counted orders within `w`. */
  function WindowTotal(orders: seq<Order>, branchId: Option<Id>, w: Window): Cents
  {
    SumOf(InWindow(orders, branchId, w), (o: Order) => o.total)
  }

  /** A window without a counted order totals 0, so its bucket still appears, with 0. */
  lemma EmptyWindowTotalsZero(orders: seq<Order>, branchId: Option<Id>, w: Window)
    requires forall i :: 0 <= i < |orders| && Qualifies(orders[i], branchId) ==> !w.Contains(orders[i].createdAt)
    ensures WindowTotal(orders, branchId, w) == 0
  {
    FilterNone(orders, (o: Order) => Qualifies(o, branchId) && w.Contains(o.createdAt));
  }

  /** `todaySales` and `todayCount`. */
  datatype TodayFigures = TodayFigures(sales: Cents, count: nat)

  /** The dashboard's figures: orders between the start and the end of today. */
  function TodayByWindow(orders: seq<Order>, branchId: Option<Id>, c: Clock): (r: TodayFigures)
    ensures r.count <= |orders|
    ensures r.count == 0 <==> forall i :: 0 <= i < |orders| && Qualifies(orders[i], branchId) ==>
      !DayWindow(c.Today()).Contains(orders[i].createdAt)
    ensures r.count == 0 ==> r.sales == 0
  {
    var rows := InWindow(orders, branchId, DayWindow(c.Today()));
    FilterEmpty(orders, (o: Order) => Qualifies(o, branchId) && DayWindow(c.Today()).Contains(o.createdAt));
    TodayFigures(SumOf(rows, (o: Order) => o.total), |rows|)
  }

  /** `realtime`'s figures: orders whose date is today (`whereDate`). */
  function TodayByDate(orders: seq<Order>, branchId: Option<Id>, c: Clock): (r: TodayFigures)
    ensures r.count <= |orders|
    ensures r.count == 0 <==> forall i :: 0 <= i < |orders| && Qualifies(orders[i], branchId) ==>
      DayOf(orders[i].createdAt) != c.Today()
    ensures r.count == 0 ==> r.sales == 0
  {
    var rows := Filter(orders, (o: Order) => Qualifies(o, branchId) && DayOf(o.createdAt) == c.Today());
    FilterEmpty(orders, (o: Order) => Qualifies(o, branchId) && DayOf(o.createdAt) == c.Today());
    TodayFigures(SumOf(rows, (o: Order) => o.total), |rows|)
  }

  /** The dashboard and the realtime endpoint report the same figures for today. */
  lemma RealtimeAgreesWithDashboard(orders: seq<Order>, branchId: Option<Id>, c: Clock)
    ensures TodayByDate(orders, branchId, c) == TodayByWindow(orders, branchId, c)
  {
    forall o: Order ensures DayOf(o.createdAt) == c.Today() <==> DayWindow(c.Today()).Contains(o.createdAt) {
      DayOfWithin(o.createdAt, c.Today());
    }
    FilterCongruent(orders, (o: Order) => Qualifies(o, branchId) && DayOf(o.createdAt) == c.Today(),
                    (o: Order) => Qualifies(o, branchId) && DayWindow(c.Today()).Contains(o.createdAt));
  }

  /** One entry of `dailySales`. */
  datatype DayTotal = DayTotal(day: Day, total: Cents)

  /** The orders `dailySales` groups: counted ones dated no earlier than seven days ago. */
  function RecentRows(orders: seq<Order>, branchId: Option<Id>, c: Clock): seq<Order>
  {
    Filter(orders, (o: Order) => Qualifies(o, branchId) && DayOf(o.createdAt) >= c.Today() - 7)
  }

  predicate HasDay(rows: seq<Order>, d: Day)
  {
    exists i :: 0 <= i < |rows| && DayOf(rows[i].createdAt) == d
  }

  /** `SUM(total)` of the rows dated `d`. */
  function DayTotalOf(rows: seq<Order>, d: Day): Cents
  {
    SumOf(Filter(rows, (o: Order) => DayOf(o.createdAt) == d), (o: Order) => o.total)
  }

  /** The latest date among the rows. */
  function LastDay(rows: seq<Order>): (d: Day)
    requires rows != []
    ensures HasDay(rows, d)
    ensures forall i :: 0 <= i < |rows| ==> DayOf(rows[i].createdAt) <= d
  {
    if |rows| == 1 then DayOf(rows[0].createdAt)
    else
      var rest := LastDay(rows[1..]);
      assert forall i :: 1 <= i < |rows| ==> rows[i] == rows[1..][i - 1];
      if DayOf(rows[0].createdAt) >= rest then DayOf(rows[0].createdAt) else rest
  }

  /** `groupBy(DATE(created_at))->orderBy('date')` over the dates from `d` to `hi`: one entry per
      date that has rows, in ascending order, each with that date's takings. */
  function GroupDays(rows: seq<Order>, d: Day, hi: Day): (r: seq<DayTotal>)
    ensures forall i :: 0 <= i < |r| ==> d <= r[i].day <= hi
    ensures forall i, j :: 0 <= i < j < |r| ==> r[i].day < r[j].day
    decreases hi - d
  {
    if d > hi then []
    else if HasDay(rows, d) then [DayTotal(d, DayTotalOf(rows, d))] + GroupDays(rows, d + 1, hi)
    else GroupDays(rows, d + 1, hi)
  }

  /** Each entry is a date that has rows, with the takings of that date. */
  lemma {:induction false} GroupDaysEntries(rows: seq<Order>, d: Day, hi: Day)
    ensures forall i :: 0 <= i < |GroupDays(rows, d, hi)| ==>
      HasDay(rows, GroupDays(rows, d, hi)[i].day) &&
      GroupDays(rows, d, hi)[i].total == DayTotalOf(rows, GroupDays(rows, d, hi)[i].day)
    decreases hi - d
  {
    if d <= hi {
      GroupDaysEntries(rows, d + 1, hi);
      var r := GroupDays(rows, d, hi);
      var rest := GroupDays(rows, d + 1, hi);
      if HasDay(rows, d) {
        assert r == [DayTotal(d, DayTotalOf(rows, d))] + rest;
        assert forall i :: 1 <= i < |r| ==> r[i] == rest[i - 1];
      } else {
        assert r == rest;
      }
    }
  }

  /** Every date from `d` to `hi` that has rows has its entry, at the position returned. */
  lemma {:induction false} GroupDaysComplete(rows: seq<Order>, d: Day, hi: Day, e: Day) returns (i: nat)
    requires d <= e <= hi && HasDay(rows, e)
    ensures i < |GroupDays(rows, d, hi)| && GroupDays(rows, d, hi)[i].day == e
    decreases hi - d
  {
    var r := GroupDays(rows, d, hi);
    var rest := GroupDays(rows, d + 1, hi);
    if e == d {
      assert r == [DayTotal(d, DayTotalOf(rows, d))] + rest;
      i := 0;
    } else {
      var j := GroupDaysComplete(rows, d + 1, hi, e);
      if HasDay(rows, d) {
        assert r == [DayTotal(d, DayTotalOf(rows, d))] + rest;
        i := j + 1;
      } else {
        assert r == rest;
        i := j;
      }
    }
  }

  /** `dailySales`: one entry per date, from seven days ago on, that has a counted order, in
      ascending order of date, each with that date's takings. */
  function DailySales(orders: seq<Order>, branchId: Option<Id>, c: Clock): (r: seq<DayTotal>)
    ensures forall i, j :: 0 <= i < j < |r| ==> r[i].day < r[j].day
    ensures forall i :: 0 <= i < |r| ==>
      c.Today() - 7 <= r[i].day && HasDay(RecentRows(orders, branchId, c), r[i].day) &&
      r[i].total == DayTotalOf(RecentRows(orders, branchId, c), r[i].day)
    ensures forall k :: 0 <= k < |orders| && Qualifies(orders[k], branchId) && DayOf(orders[k].createdAt) >= c.Today() - 7 ==>
      exists i :: 0 <= i < |r| && r[i].day == DayOf(orders[k].createdAt)
  {
    var rows := RecentRows(orders, branchId, c);
    if rows == [] then
      assert forall k :: 0 <= k < |orders| ==> orders[k] in orders;
      []
    else
      var r := GroupDays(rows, c.Today() - 7, LastDay(rows));
      GroupDaysEntries(rows, c.Today() - 7, LastDay(rows));
      forall k | 0 <= k < |orders| && Qualifies(orders[k], branchId) && DayOf(orders[k].createdAt) >= c.Today() - 7
        ensures exists i :: 0 <= i < |r| && r[i].day == DayOf(orders[k].createdAt)
      {
        assert orders[k] in rows;
        var j :| 0 <= j < |rows| && rows[j] == orders[k];
        assert HasDay(rows, DayOf(orders[k].createdAt));
        var i := GroupDaysComplete(rows, c.Today() - 7, LastDay(rows), DayOf(orders[k].createdAt));
        assert r[i].day == DayOf(orders[k].createdAt);
      }
      r
  }

  /** One entry of the weekly, monthly or yearly series: the window and its takings. */
  datatype Bucket = Bucket(window: Window, total: Cents)

  /** `Carbon::now()->startOfWeek()->subWeeks(4)`: the Monday four weeks before this week's. */
  function FirstWeek(c: Clock): Day
  {
    StartOfWeek(c.Today()) - 28
  }

  /** `weeklySales`: four buckets, the i-th the week starting i weeks after `FirstWeek`. */
  method WeeklySales(orders: seq<Order>, branchId: Option<Id>, c: Clock) returns (weeks: seq<Bucket>)
    ensures |weeks| == 4
    ensures forall i :: 0 <= i < 4 ==>
      weeks[i] == Bucket(WeekWindow(FirstWeek(c) + 7 * i), WindowTotal(orders, branchId, WeekWindow(FirstWeek(c) + 7 * i)))
  {
    var first := FirstWeek(c);
    weeks := [];
    for i := 0 to 4
      invariant |weeks| == i
      invariant forall k :: 0 <= k < i ==>
        weeks[k] == Bucket(WeekWindow(first + 7 * k), WindowTotal(orders, branchId, WeekWindow(first + 7 * k)))
    {
      var w := WeekWindow(first + 7 * i);
      weeks := weeks + [Bucket(w, WindowTotal(orders, branchId, w))];
    }
  }

  /** The four weeks start on Mondays, follow each other without gap or overlap, and the last
      ends the second before the current week starts: the current week is not among them. */
  lemma WeeksBeforeCurrentWeek(c: Clock)
    ensures forall i :: 0 <= i < 4 ==> (FirstWeek(c) + 7 * i + 3) % 7 == 0
    ensures forall i :: 0 <= i < 3 ==> WeekWindow(FirstWeek(c) + 7 * i).end + 1 == WeekWindow(FirstWeek(c) + 7 * (i + 1)).start
    ensures WeekWindow(FirstWeek(c) + 21).end + 1 == StartOfDay(StartOfWeek(c.Today()))
    ensures StartOfDay(StartOfWeek(c.Today())) <= c.now
  {
    DayOfWithin(c.now, c.Today());
  }

  /** `Carbon::now()->startOfMonth()->subMonths(11)`: the month eleven months before this one. */
  function FirstMonth(c: Clock): MonthNumber
  {
    c.CurrentMonth() - 11
  }

  /** The bucket of month `mn`. */
  function MonthBucket(orders: seq<Order>, branchId: Option<Id>, mn: MonthNumber): Bucket
  {
    Bucket(MonthWindow(mn), WindowTotal(orders, branchId, MonthWindow(mn)))
  }

  /** `monthlySales`: twelve buckets, the i-th the month i months after `FirstMonth`. */
  method MonthlySales(orders: seq<Order>, branchId: Option<Id>, c: Clock) returns (months: seq<Bucket>)
    ensures |months| == 12
    ensures forall i :: 0 <= i < 12 ==> months[i] == MonthBucket(orders, branchId, FirstMonth(c) + i)
  {
    var first := FirstMonth(c);
    months := [];
    for i := 0 to 12
      invariant |months| == i
      invariant forall k :: 0 <= k < i ==> months[k] == MonthBucket(orders, branchId, first + k)
    {
      var bucket := MonthBucket(orders, branchId, first + i);
      assert (months + [bucket])[i] == bucket;
      months := months + [bucket];
    }
  }

  /** The twelve months follow each other without gap or overlap and the last is the current
      month, which contains the current instant. */
  lemma MonthsEndWithCurrent(c: Clock)
    requires c.Consistent()
    ensures forall mn :: FirstMonth(c) <= mn < FirstMonth(c) + 11 ==> MonthWindow(mn).end + 1 == MonthWindow(mn + 1).start
    ensures FirstMonth(c) + 11 == c.CurrentMonth() && MonthWindow(FirstMonth(c) + 11).Contains(c.now)
  {
    forall mn | FirstMonth(c) <= mn < FirstMonth(c) + 11 ensures MonthWindow(mn).end + 1 == MonthWindow(mn + 1).start {
      MonthWindowsAdjacent(mn);
    }
    NowInCurrentMonth(c);
  }

  /** `Carbon::now()->startOfYear()->subYears(4)`: the year four years before this one. */
  function FirstYear(c: Clock): int
  {
    c.year - 4
  }

  /** `yearlySales`: five buckets, the i-th the year i years after `FirstYear`. */
  method YearlySales(orders: seq<Order>, branchId: Option<Id>, c: Clock) returns (years: seq<Bucket>)
    ensures |years| == 5
    ensures forall i :: 0 <= i < 5 ==>
      years[i] == Bucket(YearWindow(FirstYear(c) + i), WindowTotal(orders, branchId, YearWindow(FirstYear(c) + i)))
  {
    var first := FirstYear(c);
    years := [];
    for i := 0 to 5
      invariant |years| == i
      invariant forall k :: 0 <= k < i ==>
        years[k] == Bucket(YearWindow(first + k), WindowTotal(orders, branchId, YearWindow(first + k)))
    {
      var w := YearWindow(first + i);
      years := years + [Bucket(w, WindowTotal(orders, branchId, w))];
    }
  }

  /** The five years follow each other without gap or overlap and the last is the current
      year, which contains the current instant. */
  lemma YearsEndWithCurrent(c: Clock)
    requires c.Consistent()
    ensures forall y :: FirstYear(c) <= y < c.year ==> YearWindow(y).end + 1 == YearWindow(y + 1).start
    ensures FirstYear(c) + 4 == c.year && YearWindow(FirstYear(c) + 4).Contains(c.now)
  {
    forall y | FirstYear(c) <= y < c.year ensures YearWindow(y).end + 1 == YearWindow(y + 1).start {
      YearWindowsAdjacent(y);
    }
    NowInCurrentYear(c);
  }

  /** A branch product with the figures `withCount`/`withSum` attach, and its margin. */
  datatype ProductSales = ProductSales(product: Product, quantitySold: int, revenue: Cents, margin: Ratio)

  /** The order with id `oid` exists and is completed or confirmed (`whereHas('order', ...)`). */
  predicate OrderCounted(orders: seq<Order>, oid: Id)
  {
    exists i :: 0 <= i < |orders| && orders[i].id == oid && Sales.Counted(orders[i])
  }

  /** The items of `p` sold in counted orders of any branch. */
  function SoldItems(orders: seq<Order>, items: seq<OrderItem>, p: Product): seq<OrderItem>
  {
    Filter(items, (it: OrderItem) => it.productId == p.id && OrderCounted(orders, it.orderId))
  }

  /** `(revenue - price * quantity_sold) / revenue * 100`, or 0 when revenue is not positive. */
  function Margin(price: Cents, quantitySold: int, revenue: Cents): (m: Ratio)
    ensures m.den > 0
    ensures revenue <= 0 ==> m.num == 0
  {
    if revenue > 0 then Ratio((revenue - price * quantitySold) * 100, revenue) else Ratio(0, 1)
  }

  /** A product that sold at or below its current price has a margin of at most 0%, and one
      that sold above it a positive margin. */
  lemma MarginSign(price: Cents, quantitySold: int, revenue: Cents)
    requires revenue > 0
    ensures Margin(price, quantitySold, revenue).num > 0 <==> revenue > price * quantitySold
  {
  }

  /** Items drawn from a table with no negative quantity or price sum to no negative figure. */
  lemma SoldFiguresNonNegative(sold: seq<OrderItem>, items: seq<OrderItem>)
    requires forall x :: x in sold ==> x in items
    ensures (forall i :: 0 <= i < |items| ==> items[i].quantity >= 0 && items[i].price >= 0) ==>
      SumOf(sold, (it: OrderItem) => it.quantity) >= 0 && SumOf(sold, (it: OrderItem) => it.quantity * it.price) >= 0
  {
    if forall i :: 0 <= i < |items| ==> items[i].quantity >= 0 && items[i].price >= 0 {
      forall k | 0 <= k < |sold| ensures sold[k].quantity >= 0 && sold[k].price >= 0 {
        assert sold[k] in items;
      }
      SumOfNonNegative(sold, (it: OrderItem) => it.quantity);
      SumOfNonNegative(sold, (it: OrderItem) => it.quantity * it.price);
    }
  }

  /** `p` with its `quantity_sold` and `revenue` over the items sold in counted orders
      (`COALESCE(SUM(...), 0)`: 0 when there are none), and the margin they give. */
  function Stats(orders: seq<Order>, items: seq<OrderItem>, p: Product): (r: ProductSales)
    ensures r.product == p && r.margin == Margin(p.price, r.quantitySold, r.revenue)
    ensures (forall i :: 0 <= i < |items| && items[i].productId == p.id ==> !OrderCounted(orders, items[i].orderId)) ==>
      r.quantitySold == 0 && r.revenue == 0
    ensures (forall i :: 0 <= i < |items| ==> items[i].quantity >= 0 && items[i].price >= 0) ==>
      r.quantitySold >= 0 && r.revenue >= 0
  {
    var sold := SoldItems(orders, items, p);
    FilterEmpty(items, (it: OrderItem) => it.productId == p.id && OrderCounted(orders, it.orderId));
    SoldFiguresNonNegative(sold, items);
    var quantity := SumOf(sold, (it: OrderItem) => it.quantity);
    var revenue := SumOf(sold, (it: OrderItem) => it.quantity * it.price);
    ProductSales(p, quantity, revenue, Margin(p.price, quantity, revenue))
  }

  /** The branch's products with their figures, in table order. `where('branch_id', null)`
      selects the products no branch owns. */
  function BranchProductSales(products: seq<Product>, orders: seq<Order>, items: seq<OrderItem>,
                              branchId: Option<Id>): (r: seq<ProductSales>)
    ensures forall i :: 0 <= i < |r| ==>
      r[i].product in products && r[i].product.branchId == branchId && r[i] == Stats(orders, items, r[i].product)
  {
    Map(Filter(products, (p: Product) => p.branchId == branchId), (p: Product) => Stats(orders, items, p))
  }

  const TopLimit: nat := 10

  /** `sort_by` names a column the query orders by (`quantity_sold` or `revenue`). */
  predicate SortsByColumn(sortBy: string)
  {
    sortBy == "quantity_sold" || sortBy == "revenue"
  }

  /** `sort_order` is a direction the query builder accepts. */
  predicate KnownDirection(sortOrder: string)
  {
    sortOrder == "asc" || sortOrder == "desc"
  }

  /** The column `sort_by` names: quantity sold, or else revenue. */
  function Column(sortBy: string, e: ProductSales): int
  {
    if sortBy == "quantity_sold" then e.quantitySold else e.revenue
  }

  /** The sort key `sort_by` names, negated for ascending order. */
  function SortKey(sortBy: string, ascending: bool): ProductSales -> int
  {
    (e: ProductSales) => if ascending then -Column(sortBy, e) else Column(sortBy, e)
  }

  /** The branch's figures in the order the query asks for: sorted by the named column, or in
      table order when `sort_by` names no column. */
  function Ranked(all: seq<ProductSales>, sortBy: string, ascending: bool): (r: seq<ProductSales>)
    ensures multiset(r) == multiset(all) && |r| == |all|
    ensures SortsByColumn(sortBy) ==> Descending(r, SortKey(sortBy, ascending))
    ensures !SortsByColumn(sortBy) ==> r == all
  {
    if SortsByColumn(sortBy) then SortDesc(all, SortKey(sortBy, ascending)) else all
  }

  /** `topProducts`: the branch's products, ordered by quantity sold or revenue when `sort_by`
      names one (an order direction other than asc or desc is an error), limited to ten. */
  function TopProducts(products: seq<Product>, orders: seq<Order>, items: seq<OrderItem>,
                       branchId: Option<Id>, sortBy: string, sortOrder: string): (r: Outcome<seq<ProductSales>>)
    ensures r.Ok? || r.ServerError?
    ensures r.ServerError? <==> SortsByColumn(sortBy) && !KnownDirection(sortOrder)
    ensures r.Ok? ==> |r.value| == Min(|BranchProductSales(products, orders, items, branchId)|, TopLimit)
    ensures r.Ok? && SortsByColumn(sortBy) ==> Descending(r.value, SortKey(sortBy, sortOrder == "asc"))
    ensures r.Ok? ==> multiset(r.value) <= multiset(BranchProductSales(products, orders, items, branchId))
  {
    if SortsByColumn(sortBy) && !KnownDirection(sortOrder) then ServerError
    else Ok(Take(Ranked(BranchProductSales(products, orders, items, branchId), sortBy, sortOrder == "asc"), TopLimit))
  }

  function Min(a: int, b: int): int
  {
    if a < b then a else b
  }

  /** Every entry of the list is one of the branch's products with its figures. */
  lemma TopProductsFromBranch(products: seq<Product>, orders: seq<Order>, items: seq<OrderItem>,
                              branchId: Option<Id>, sortBy: string, sortOrder: string)
    requires !SortsByColumn(sortBy) || KnownDirection(sortOrder)
    ensures var top := TopProducts(products, orders, items, branchId, sortBy, sortOrder).value;
      forall i :: 0 <= i < |top| ==> top[i] in BranchProductSales(products, orders, items, branchId)
  {
    var all := BranchProductSales(products, orders, items, branchId);
    var ranked := Ranked(all, sortBy, sortOrder == "asc");
    forall i | 0 <= i < |ranked| ensures ranked[i] in all {
      assert ranked[i] in multiset(ranked);
    }
  }

  /** Every product of the branch appears in the branch's list with its own figures. */
  lemma BranchProductListed(products: seq<Product>, orders: seq<Order>, items: seq<OrderItem>,
                            branchId: Option<Id>, p: Product)
    requires p in products && p.branchId == branchId
    ensures Stats(orders, items, p) in BranchProductSales(products, orders, items, branchId)
  {
    var branchProducts := Filter(products, (q: Product) => q.branchId == branchId);
    assert p in branchProducts;
    var j :| 0 <= j < |branchProducts| && branchProducts[j] == p;
    assert BranchProductSales(products, orders, items, branchId)[j] == Stats(orders, items, p);
  }

  /** Sorted by a named column in either direction: a branch product left off the list comes
      no earlier in that order than any product on it, and the list is full. */
  lemma TopProductsAreTop(products: seq<Product>, orders: seq<Order>, items: seq<OrderItem>,
                          branchId: Option<Id>, sortBy: string, sortOrder: string, p: Product)
    requires SortsByColumn(sortBy) && KnownDirection(sortOrder)
    requires p in products && p.branchId == branchId
    requires Stats(orders, items, p) !in TopProducts(products, orders, items, branchId, sortBy, sortOrder).value
    ensures var top := TopProducts(products, orders, items, branchId, sortBy, sortOrder).value;
      |top| == TopLimit &&
      forall i :: 0 <= i < |top| ==>
        if sortOrder == "desc" then Column(sortBy, top[i]) >= Column(sortBy, Stats(orders, items, p))
        else Column(sortBy, top[i]) <= Column(sortBy, Stats(orders, items, p))
  {
    var all := BranchProductSales(products, orders, items, branchId);
    var x := Stats(orders, items, p);
    var top := TopProducts(products, orders, items, branchId, sortBy, sortOrder).value;
    assert top == Take(Ranked(all, sortBy, sortOrder == "asc"), TopLimit);
    assert x in all by {
      BranchProductListed(products, orders, items, branchId, p);
    }
    RankedTop(all, sortBy, sortOrder, x);
  }

  /** The same for any list of figures: an entry left off the first ten of its ranking comes no
      earlier than any of them. */
  lemma RankedTop(all: seq<ProductSales>, sortBy: string, sortOrder: string, x: ProductSales)
    requires SortsByColumn(sortBy) && KnownDirection(sortOrder)
    requires x in all && x !in Take(Ranked(all, sortBy, sortOrder == "asc"), TopLimit)
    ensures var top := Take(Ranked(all, sortBy, sortOrder == "asc"), TopLimit);
      |top| == TopLimit &&
      forall i :: 0 <= i < |top| ==>
        if sortOrder == "desc" then Column(sortBy, top[i]) >= Column(sortBy, x)
        else Column(sortBy, top[i]) <= Column(sortBy, x)
  {
    var ranked := Ranked(all, sortBy, sortOrder == "asc");
    var top := Take(ranked, TopLimit);
    assert x in multiset(ranked);
    TakeDescending(ranked, SortKey(sortBy, sortOrder == "asc"), TopLimit, x);
    forall i | 0 <= i < |top|
      ensures if sortOrder == "desc" then Column(sortBy, top[i]) >= Column(sortBy, x)
              else Column(sortBy, top[i]) <= Column(sortBy, x)
    {
      SortKeyOrder(sortBy, sortOrder, top[i], x);
    }
  }

  /** Ranking `a` at or before `b` under the sort key means a column at least as large for a
      descending sort and at most as large for an ascending one. */
  lemma SortKeyOrder(sortBy: string, sortOrder: string, a: ProductSales, b: ProductSales)
    requires KnownDirection(sortOrder)
    ensures SortKey(sortBy, sortOrder == "asc")(a) >= SortKey(sortBy, sortOrder == "asc")(b) <==>
      if sortOrder == "desc" then Column(sortBy, a) >= Column(sortBy, b) else Column(sortBy, a) <= Column(sortBy, b)
  {
  }

  /** `$request->input('sort_by', 'quantity_sold')` and `input('sort_order', 'desc')`. */
  const DefaultSortBy: string := "quantity_sold"
  const DefaultSortOrder: string := "desc"

  /** `topProducts` for the parameters as sent: a parameter not sent takes its default. */
  function TopProductsFor(products: seq<Product>, orders: seq<Order>, items: seq<OrderItem>,
                          branchId: Option<Id>, sortBy: Option<string>, sortOrder: Option<string>): (r: Outcome<seq<ProductSales>>)
    ensures sortBy.Some? && sortOrder.Some? ==> r == TopProducts(products, orders, items, branchId, sortBy.value, sortOrder.value)
    ensures sortBy.Some? && sortOrder.None? ==> r == TopProducts(products, orders, items, branchId, sortBy.value, DefaultSortOrder)
    ensures sortBy.None? && sortOrder.Some? ==> r == TopProducts(products, orders, items, branchId, DefaultSortBy, sortOrder.value)
    ensures sortBy.None? && sortOrder.None? ==>
      r.Ok? && forall i, j :: 0 <= i < j < |r.value| ==> r.value[i].quantitySold >= r.value[j].quantitySold
    ensures sortOrder.None? ==> r.Ok?
    ensures sortBy.None? ==> (r.ServerError? <==> sortOrder.Some? && !KnownDirection(sortOrder.value))
    ensures sortBy.Some? && SortsByColumn(sortBy.value) && sortOrder.None? ==>
      forall i, j :: 0 <= i < j < |r.value| ==> Column(sortBy.value, r.value[i]) >= Column(sortBy.value, r.value[j])
  {
    var column := if sortBy.Some? then sortBy.value else DefaultSortBy;
    var direction := if sortOrder.Some? then sortOrder.value else DefaultSortOrder;
    TopProducts(products, orders, items, branchId, column, direction)
  }

  /** The relations the `Product` model declares: `category`, `branch`, `stocks` and `saleItems`. */
  const DeclaredProductRelations: set<string> := {"category", "branch", "stocks", "saleItems"}

  /** No relation of that name is declared: none of the declared names has its length. */
  lemma OrderItemsUndeclared()
    ensures "orderItems" !in DeclaredProductRelations
  {
    assert forall name :: name in DeclaredProductRelations ==> |name| != |"orderItems"|;
  }

  /** `withCount`/`withSum` over `orderItems`: they resolve the relation by name on the model,
      and a relation the model does not declare throws, which the action turns into a 500. */
  function TopProductsWith(relations: set<string>, products: seq<Product>, orders: seq<Order>, items: seq<OrderItem>,
                           branchId: Option<Id>, sortBy: Option<string>, sortOrder: Option<string>): (r: Outcome<seq<ProductSales>>)
    ensures "orderItems" !in relations ==> r.ServerError?
    ensures "orderItems" in relations ==> r == TopProductsFor(products, orders, items, branchId, sortBy, sortOrder)
  {
    if "orderItems" in relations then TopProductsFor(products, orders, items, branchId, sortBy, sortOrder) else ServerError
  }

  /** The figures the `dashboard` action answers with. */
  datatype DashboardData = DashboardData(today: TodayFigures, daily: seq<DayTotal>, weekly: seq<Bucket>,
                                         monthly: seq<Bucket>, yearly: seq<Bucket>, top: seq<ProductSales>)

  /** `SalesDashboardController::dashboard` for a `Product` model declaring `relations`: every figure
      is computed in turn, and any failure, the top products' included, answers a 500 instead.
      With the relations the model declares, that is every request. */
  method FetchDashboard(relations: set<string>, products: seq<Product>, orders: seq<Order>, items: seq<OrderItem>,
               branchId: Option<Id>, sortBy: Option<string>, sortOrder: Option<string>, c: Clock)
    returns (r: Outcome<DashboardData>)
    ensures r.Ok? || r.ServerError?
    ensures r.ServerError? <==>
      "orderItems" !in relations || TopProductsFor(products, orders, items, branchId, sortBy, sortOrder).ServerError?
    ensures relations == DeclaredProductRelations ==> r.ServerError?
    ensures "orderItems" in relations && sortOrder.None? ==> r.Ok?
    ensures r.Ok? ==>
      r.value.today == TodayByWindow(orders, branchId, c) &&
      r.value.daily == DailySales(orders, branchId, c) &&
      r.value.top == TopProductsFor(products, orders, items, branchId, sortBy, sortOrder).value
    ensures r.Ok? ==>
      |r.value.weekly| == 4 && |r.value.monthly| == 12 && |r.value.yearly| == 5 &&
      (forall i :: 0 <= i < 4 ==>
        r.value.weekly[i] == Bucket(WeekWindow(FirstWeek(c) + 7 * i), WindowTotal(orders, branchId, WeekWindow(FirstWeek(c) + 7 * i)))) &&
      (forall i :: 0 <= i < 12 ==> r.value.monthly[i] == MonthBucket(orders, branchId, FirstMonth(c) + i)) &&
      (forall i :: 0 <= i < 5 ==>
        r.value.yearly[i] == Bucket(YearWindow(FirstYear(c) + i), WindowTotal(orders, branchId, YearWindow(FirstYear(c) + i))))
  {
    var today := TodayByWindow(orders, branchId, c);
    var daily := DailySales(orders, branchId, c);
    var weekly := WeeklySales(orders, branchId, c);
    var monthly := MonthlySales(orders, branchId, c);
    var yearly := YearlySales(orders, branchId, c);
    var top := TopProductsWith(relations, products, orders, items, branchId, sortBy, sortOrder);
    OrderItemsUndeclared();
    if top.Ok? {
      r := Ok(DashboardData(today, daily, weekly, monthly, yearly, top.value));
    } else {
      r := ServerError;
    }
  }
}
