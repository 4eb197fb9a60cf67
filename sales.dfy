/** The sales listing (`SalesController`): completed and confirmed orders, narrowed
    by branch and by an inclusive range of dates, newest first, with their summary;
    and the same summary for every branch. */
module Sales {
  import opened Calendar
  import opened Schema
  import opened Seqs

  /** The listing's query parameters; a parameter not sent is `None`. Dates are day numbers. */
  datatype SalesQuery = SalesQuery(branchId: Option<Id>, startDate: Option<Day>, endDate: Option<Day>)

  /** `total_sales`, `total_orders`, `average_order_value` and `total_items` (or
      `total_transactions`, `average_transaction`, `total_items_sold`). */
  datatype Summary = Summary(totalSales: Cents, totalOrders: nat, average: Ratio, totalItems: int)

  /** One entry of `branchStats`. */
  datatype BranchStat = BranchStat(branchId: Id, branchName: string, summary: Summary)

  /** `whereIn('status', ['completed', 'confirmed'])`. */
  predicate Counted(o: Order)
  {
    o.status == Completed || o.status == Confirmed
  }

  /** `whereDate('created_at', '>=', start)` and `whereDate('created_at', '<=', end)`, each when sent. */
  predicate InPeriod(o: Order, startDate: Option<Day>, endDate: Option<Day>)
  {
    (startDate.Some? ==> DayOf(o.createdAt) >= startDate.value) &&
    (endDate.Some? ==> DayOf(o.createdAt) <= endDate.value)
  }

  /** An order the listing for `q` includes. */
  predicate Matches(q: SalesQuery, o: Order)
  {
    Counted(o) && (q.branchId.Some? ==> o.branchId == q.branchId.value) && InPeriod(o, q.startDate, q.endDate)
  }

  /** The first `k` of the query's four clauses (status, branch, start date, end date). */
  predicate Stage(q: SalesQuery, k: nat, o: Order)
  {
    Counted(o) &&
    (k >= 1 && q.branchId.Some? ==> o.branchId == q.branchId.value) &&
    (k >= 2 && q.startDate.Some? ==> DayOf(o.createdAt) >= q.startDate.value) &&
    (k >= 3 && q.endDate.Some? ==> DayOf(o.createdAt) <= q.endDate.value)
  }

  /** The items of order `o`. */
  function ItemsOf(items: seq<OrderItem>, o: Order): seq<OrderItem>
  {
    Filter(items, (it: OrderItem) => it.orderId == o.id)
  }

  /** `$order->items->sum('quantity')`. */
  function ItemCount(items: seq<OrderItem>, o: Order): int
  {
    SumOf(ItemsOf(items, o), (it: OrderItem) => it.quantity)
  }

  /** The summary of a selection of orders; the average is 0 for an empty selection. */
  function Summarize(orders: seq<Order>, items: seq<OrderItem>): (s: Summary)
    ensures s.totalOrders == |orders| && s.average.den > 0
    ensures |orders| == 0 ==> s.totalSales == 0 && s.average.num == 0 && s.totalItems == 0
  {
    var total := SumOf(orders, (o: Order) => o.total);
    Summary(total, |orders|,
            if |orders| > 0 then Ratio(total, |orders|) else Ratio(0, 1),
            SumOf(orders, (o: Order) => ItemCount(items, o)))
  }

  /** The average lies between the smallest and the largest order total. */
  lemma AverageWithinTotals(orders: seq<Order>, items: seq<OrderItem>, lo: Cents, hi: Cents)
    requires forall i :: 0 <= i < |orders| ==> lo <= orders[i].total <= hi
    ensures var a := Summarize(orders, items).average;
      lo * a.den <= a.num <= hi * a.den || (|orders| == 0 && a.num == 0)
  {
    SumOfBounds(orders, (o: Order) => o.total, lo, hi);
  }

  /** A summary does not depend on the order of the rows. */
  lemma SummaryOfPermutation(a: seq<Order>, b: seq<Order>, items: seq<OrderItem>)
    requires multiset(a) == multiset(b)
    ensures Summarize(a, items) == Summarize(b, items)
  {
    assert |a| == |multiset(a)| == |multiset(b)| == |b|;
    SumOfPermutation(a, b, (o: Order) => o.total);
    SumOfPermutation(a, b, (o: Order) => ItemCount(items, o));
  }

  /** The clause the query adds at step k + 1 (branch, start date, end date). */
  predicate Clause(q: SalesQuery, k: nat, o: Order)
  {
    if k == 0 then q.branchId.Some? ==> o.branchId == q.branchId.value
    else if k == 1 then q.startDate.Some? ==> DayOf(o.createdAt) >= q.startDate.value
    else q.endDate.Some? ==> DayOf(o.createdAt) <= q.endDate.value
  }

  /** Adding clause k + 1 to the first k clauses gives the first k + 1. */
  lemma StageStep(orders: seq<Order>, q: SalesQuery, k: nat)
    requires k < 3
    ensures Filter(Filter(orders, (o: Order) => Stage(q, k, o)), (o: Order) => Clause(q, k, o)) ==
            Filter(orders, (o: Order) => Stage(q, k + 1, o))
  {
    FilterFilter(orders, (o: Order) => Stage(q, k, o), (o: Order) => Clause(q, k, o), (o: Order) => Stage(q, k + 1, o));
  }

  /** A clause whose parameter was not sent selects every row. */
  lemma ClauseAbsent(rows: seq<Order>, q: SalesQuery, k: nat)
    requires k < 3
    requires k == 0 ==> q.branchId.None?
    requires k == 1 ==> q.startDate.None?
    requires k == 2 ==> q.endDate.None?
    ensures Filter(rows, (o: Order) => Clause(q, k, o)) == rows
  {
    FilterAll(rows, (o: Order) => Clause(q, k, o));
  }

  /** One conditional `$query->where(...)`: clause k + 1 is added only when its parameter was sent. */
  method Narrow(orders: seq<Order>, q: SalesQuery, k: nat, query: seq<Order>) returns (narrowed: seq<Order>)
    requires k < 3
    requires query == Filter(orders, (o: Order) => Stage(q, k, o))
    ensures narrowed == Filter(orders, (o: Order) => Stage(q, k + 1, o))
  {
    StageStep(orders, q, k);
    if (k == 0 && q.branchId.Some?) || (k == 1 && q.startDate.Some?) || (k == 2 && q.endDate.Some?) {
      narrowed := Filter(query, (o: Order) => Clause(q, k, o));
    } else {
      ClauseAbsent(query, q, k);
      narrowed := query;
    }
  }

  /** The query `index` builds: the status clause, then each further clause only when its
      parameter was sent. The result is exactly the matching orders, in table order. */
  method Select(orders: seq<Order>, q: SalesQuery) returns (query: seq<Order>)
    ensures query == Filter(orders, (o: Order) => Matches(q, o))
  {
    query := Filter(orders, (o: Order) => Stage(q, 0, o));
    query := Narrow(orders, q, 0, query);
    query := Narrow(orders, q, 1, query);
    query := Narrow(orders, q, 2, query);
    FilterCongruent(orders, (o: Order) => Stage(q, 3, o), (o: Order) => Matches(q, o));
  }

  /** `SalesController::index`: the matching orders, newest first, and their summary. */
  method Index(orders: seq<Order>, items: seq<OrderItem>, q: SalesQuery) returns (sales: seq<Order>, summary: Summary)
    ensures multiset(sales) == multiset(Filter(orders, (o: Order) => Matches(q, o)))
    ensures forall o :: o in sales <==> o in orders && Matches(q, o)
    ensures Descending(sales, (o: Order) => o.createdAt)
    ensures summary == Summarize(sales, items)
  {
    var query := Select(orders, q);
    sales := SortDesc(query, (o: Order) => o.createdAt);
    assert forall o :: o in sales <==> o in multiset(query);
    summary := Summarize(sales, items);
  }

  /** The orders of branch `b` that `branchStats` eager-loads. */
  function BranchOrders(orders: seq<Order>, b: Id, startDate: Option<Day>, endDate: Option<Day>): seq<Order>
  {
    Filter(orders, (o: Order) => o.branchId == b && Counted(o) && InPeriod(o, startDate, endDate))
  }

  /** `SalesController::branchStats`: one entry per branch, in table order. */
  function BranchStats(branches: seq<Branch>, orders: seq<Order>, items: seq<OrderItem>,
                       startDate: Option<Day>, endDate: Option<Day>): (r: seq<BranchStat>)
    ensures |r| == |branches|
    ensures forall i :: 0 <= i < |r| ==> r[i].branchId == branches[i].id && r[i].branchName == branches[i].name
  {
    seq(|branches|, i requires 0 <= i < |branches| =>
      BranchStat(branches[i].id, branches[i].name,
                 Summarize(BranchOrders(orders, branches[i].id, startDate, endDate), items)))
  }

  /** Each branch's entry of `branchStats` is the summary `index` reports for that branch and
      the same dates, whatever order the listing puts the orders in. */
  lemma BranchStatsAgreeWithIndex(branches: seq<Branch>, orders: seq<Order>, items: seq<OrderItem>,
                                  startDate: Option<Day>, endDate: Option<Day>, i: nat, sales: seq<Order>)
    requires i < |branches|
    requires multiset(sales) ==
      multiset(Filter(orders, (o: Order) => Matches(SalesQuery(Some(branches[i].id), startDate, endDate), o)))
    ensures BranchStats(branches, orders, items, startDate, endDate)[i].summary == Summarize(sales, items)
  {
    var q := SalesQuery(Some(branches[i].id), startDate, endDate);
    FilterCongruent(orders, (o: Order) => Matches(q, o),
                    (o: Order) => o.branchId == branches[i].id && Counted(o) && InPeriod(o, startDate, endDate));
    SummaryOfPermutation(sales, BranchOrders(orders, branches[i].id, startDate, endDate), items);
  }
}
