/** getDashboardSummary of controllers/dashboardController.js over the
    order collection as a sequence. Each database pipeline is replaced by
    a function that gives its result; the two loops of the controller
    (the status counters and the seven-day series) are methods. The clock
    is an input: `today` is the current day as a day number. */
module Dashboard {
  import opened Domain
  import opened Seqs

  // ---------------------------------------------------------------------
  // 1. Total sales

  /** Sum of totalPrice over the paid orders. */
  function PaidSum(orders: seq<Order>): real {
    if orders == [] then 0.0
    else (if orders[0].isPaid then orders[0].totalPrice else 0.0) + PaidSum(orders[1..])
  }

  /** The `$match isPaid` + `$group _id: null` pipeline: no group at all
      when nothing is paid, otherwise one group holding the sum. */
  function SalesAggregation(orders: seq<Order>): (groups: seq<real>)
    ensures |groups| <= 1
    ensures |groups| == 0 <==> forall i :: 0 <= i < |orders| ==> !orders[i].isPaid
  {
    if exists i :: 0 <= i < |orders| && orders[i].isPaid then [PaidSum(orders)] else []
  }

  lemma {:induction false} PaidSumNone(orders: seq<Order>)
    requires forall i :: 0 <= i < |orders| ==> !orders[i].isPaid
    ensures PaidSum(orders) == 0.0
  {
    if orders != [] {
      assert forall i :: 0 <= i < |orders[1..]| ==> orders[1..][i] == orders[i + 1];
      PaidSumNone(orders[1..]);
    }
  }

  /** totalSales: the sum of totalPrice over paid orders, 0 when none is
      paid. */
  function TotalSales(orders: seq<Order>): (total: real)
    ensures total == PaidSum(orders)
    ensures (forall i :: 0 <= i < |orders| ==> !orders[i].isPaid) ==> total == 0.0
  {
    var groups := SalesAggregation(orders);
    if |groups| > 0 then groups[0] else PaidSumNone(orders); 0.0
  }

  /** Sales over two batches of orders add up. */
  lemma {:induction false} TotalSalesAppend(a: seq<Order>, b: seq<Order>)
    ensures TotalSales(a + b) == TotalSales(a) + TotalSales(b)
  {
    if a != [] {
      assert (a + b)[1..] == a[1..] + b;
      TotalSalesAppend(a[1..], b);
    } else {
      assert a + b == b;
    }
  }

  // ---------------------------------------------------------------------
  // 2. Counts

  /** activeOrders: `countDocuments({ isDelivered: false })`. */
  function ActiveOrders(orders: seq<Order>): nat {
    if orders == [] then 0
    else (if !orders[0].isDelivered then 1 else 0) + ActiveOrders(orders[1..])
  }

  /** The undelivered orders, as `find({ isDelivered: false })` would
      list them. */
  function Undelivered(orders: seq<Order>): (r: seq<Order>)
    ensures forall o :: o in r <==> o in orders && !o.isDelivered
  {
    Filter(orders, (o: Order) => !o.isDelivered)
  }

  /** activeOrders is the number of undelivered orders, so at most the
      number of orders. */
  lemma {:induction false} ActiveOrdersCount(orders: seq<Order>)
    ensures ActiveOrders(orders) == |Undelivered(orders)| <= |orders|
  {
    if orders != [] {
      ActiveOrdersCount(orders[1..]);
    }
  }

  // ---------------------------------------------------------------------
  // 4. Order status distribution

  datatype StatusKey = StatusKey(isPaid: bool, isDelivered: bool)

  /** One row of the `$group` by (isPaid, isDelivered) pipeline. */
  datatype StatusGroup = StatusGroup(key: StatusKey, count: nat)

  datatype Bucket = Delivered | PaidPending | Unpaid

  function KeyOf(o: Order): StatusKey {
    StatusKey(o.isPaid, o.isDelivered)
  }

  /** The branch the counting loop takes for a group: delivered first,
      whatever isPaid says; then paid; then everything else. */
  function BucketOf(k: StatusKey): (b: Bucket)
    ensures b == Delivered <==> k.isDelivered
    ensures b == PaidPending <==> k.isPaid && !k.isDelivered
    ensures b == Unpaid <==> !k.isPaid && !k.isDelivered
  {
    if k.isDelivered then Delivered else if k.isPaid then PaidPending else Unpaid
  }

  /** Number of orders with that (isPaid, isDelivered) pair. */
  function CountKey(orders: seq<Order>, k: StatusKey): nat {
    if orders == [] then 0
    else (if KeyOf(orders[0]) == k then 1 else 0) + CountKey(orders[1..], k)
  }

  /** Every order's own key has a positive count. */
  lemma {:induction false} CountKeyPositive(orders: seq<Order>, o: Order)
    requires o in orders
    ensures CountKey(orders, KeyOf(o)) > 0
  {
    if orders[0] != o {
      CountKeyPositive(orders[1..], o);
    }
  }

  /** Number of orders that fall in bucket `b`. */
  function CountInBucket(orders: seq<Order>, b: Bucket): nat {
    if orders == [] then 0
    else (if BucketOf(KeyOf(orders[0])) == b then 1 else 0) + CountInBucket(orders[1..], b)
  }

  const AllKeys: seq<StatusKey> :=
    [StatusKey(false, false), StatusKey(true, false), StatusKey(false, true), StatusKey(true, true)]

  function GroupOf(orders: seq<Order>, k: StatusKey): seq<StatusGroup> {
    var n := CountKey(orders, k);
    if n > 0 then [StatusGroup(k, n)] else []
  }

  function GroupsFor(keys: seq<StatusKey>, orders: seq<Order>): seq<StatusGroup> {
    if keys == [] then [] else GroupOf(orders, keys[0]) + GroupsFor(keys[1..], orders)
  }

  /** The grouping pipeline, with the groups in the order of `AllKeys`
      (the database gives them in no particular order). */
  function GroupByStatus(orders: seq<Order>): seq<StatusGroup> {
    GroupsFor(AllKeys, orders)
  }

  /** Each group's key is one of `keys` and holds the positive number of
      orders with that key; there are at most as many groups as keys. */
  lemma {:induction false} GroupsForCounts(keys: seq<StatusKey>, orders: seq<Order>)
    ensures var g := GroupsFor(keys, orders);
      && |g| <= |keys|
      && (forall i :: 0 <= i < |g| ==> g[i].key in keys && g[i].count == CountKey(orders, g[i].key) > 0)
  {
    if keys != [] {
      GroupsForCounts(keys[1..], orders);
      var head := GroupOf(orders, keys[0]);
      var rest := GroupsFor(keys[1..], orders);
      assert forall i :: 0 <= i < |rest| ==> (head + rest)[|head| + i] == rest[i];
      assert forall k :: k in keys[1..] ==> k in keys;
    }
  }

  /** Every key of `keys` that some order has gets a group. */
  lemma {:induction false} GroupsForCovers(keys: seq<StatusKey>, orders: seq<Order>, k: StatusKey)
    requires k in keys && CountKey(orders, k) > 0
    ensures exists i :: 0 <= i < |GroupsFor(keys, orders)| && GroupsFor(keys, orders)[i].key == k
  {
    var head := GroupOf(orders, keys[0]);
    var g := GroupsFor(keys, orders);
    assert g == head + GroupsFor(keys[1..], orders);
    if k == keys[0] {
      assert g[0].key == k;
    } else {
      GroupsForCovers(keys[1..], orders, k);
      var rest := GroupsFor(keys[1..], orders);
      var i :| 0 <= i < |rest| && rest[i].key == k;
      assert g[|head| + i] == rest[i];
    }
  }

  /** Distinct keys give groups with distinct keys. */
  lemma {:induction false} GroupsForDistinct(keys: seq<StatusKey>, orders: seq<Order>)
    requires forall i, j :: 0 <= i < j < |keys| ==> keys[i] != keys[j]
    ensures var g := GroupsFor(keys, orders);
      forall i, j :: 0 <= i < j < |g| ==> g[i].key != g[j].key
  {
    if keys != [] {
      var tail := keys[1..];
      assert forall i :: 0 <= i < |tail| ==> tail[i] == keys[i + 1];
      GroupsForDistinct(tail, orders);
      GroupsForCounts(tail, orders);
      var head := GroupOf(orders, keys[0]);
      var rest := GroupsFor(tail, orders);
      var g := head + rest;
      assert keys[0] !in tail;
      assert forall i :: 0 <= i < |rest| ==> g[|head| + i] == rest[i];
    }
  }

  /** GroupByStatus gives exactly one group per (isPaid, isDelivered)
      pair that some order has, each holding the number of orders with
      that pair, and at most four groups. */
  lemma GroupByStatusGroups(orders: seq<Order>)
    ensures var g := GroupByStatus(orders);
      && |g| <= 4
      && (forall i :: 0 <= i < |g| ==> g[i].count == CountKey(orders, g[i].key) > 0)
      && (forall o :: o in orders ==> exists i :: 0 <= i < |g| && g[i].key == KeyOf(o))
      && (forall i, j :: 0 <= i < j < |g| ==> g[i].key != g[j].key)
  {
    var k := AllKeys;
    GroupsForCounts(k, orders);
    GroupsForDistinct(k, orders);
    forall o | o in orders
      ensures exists i :: 0 <= i < |GroupByStatus(orders)| && GroupByStatus(orders)[i].key == KeyOf(o)
    {
      CountKeyPositive(orders, o);
      assert KeyOf(o) in k;
      GroupsForCovers(k, orders, KeyOf(o));
      assert GroupByStatus(orders) == GroupsFor(k, orders);
    }
  }

  /** Sum of the counts of the groups that the loop adds to bucket `b`. */
  function BucketTotal(groups: seq<StatusGroup>, b: Bucket): nat {
    if groups == [] then 0
    else
      var last := groups[|groups| - 1];
      BucketTotal(groups[..|groups| - 1], b) + (if BucketOf(last.key) == b then last.count else 0)
  }

  /** The `forEach` over the groups that updates the three counters. */
  method CountStatuses(groups: seq<StatusGroup>) returns (deliveredCount: nat, paidPendingCount: nat, unpaidCount: nat)
    ensures deliveredCount == BucketTotal(groups, Delivered)
    ensures paidPendingCount == BucketTotal(groups, PaidPending)
    ensures unpaidCount == BucketTotal(groups, Unpaid)
  {
    deliveredCount, paidPendingCount, unpaidCount := 0, 0, 0;
    var i := 0;
    while i < |groups|
      invariant 0 <= i <= |groups|
      invariant deliveredCount == BucketTotal(groups[..i], Delivered)
      invariant paidPendingCount == BucketTotal(groups[..i], PaidPending)
      invariant unpaidCount == BucketTotal(groups[..i], Unpaid)
    {
      var item := groups[i];
      assert groups[..i + 1][..i] == groups[..i];
      if item.key.isDelivered {
        deliveredCount := deliveredCount + item.count;
      } else if item.key.isPaid {
        paidPendingCount := paidPendingCount + item.count;
      } else {
        unpaidCount := unpaidCount + item.count;
      }
      i := i + 1;
    }
    assert groups[..i] == groups;
  }

  lemma {:induction false} BucketTotalAppend(a: seq<StatusGroup>, c: seq<StatusGroup>, b: Bucket)
    ensures BucketTotal(a + c, b) == BucketTotal(a, b) + BucketTotal(c, b)
    decreases |c|
  {
    if c != [] {
      assert (a + c)[..|a + c| - 1] == a + c[..|c| - 1];
      BucketTotalAppend(a, c[..|c| - 1], b);
    } else {
      assert a + c == a;
    }
  }

  /** Taking one group out of the list takes its count out of its
      bucket's total. */
  lemma BucketTotalRemove(g: seq<StatusGroup>, k: nat, b: Bucket)
    requires k < |g|
    ensures BucketTotal(g, b) == BucketTotal(g[..k] + g[k + 1..], b) + BucketTotal([g[k]], b)
  {
    var before, after := g[..k], g[k + 1..];
    assert g == before + ([g[k]] + after);
    BucketTotalAppend(before, [g[k]] + after, b);
    BucketTotalAppend([g[k]], after, b);
    BucketTotalAppend(before, after, b);
  }

  /** The counters do not depend on the order in which the groups come:
      any rearrangement of the groups gives the same bucket totals. */
  lemma {:induction false} BucketTotalPermutation(g1: seq<StatusGroup>, g2: seq<StatusGroup>, b: Bucket)
    requires multiset(g1) == multiset(g2)
    ensures BucketTotal(g1, b) == BucketTotal(g2, b)
    decreases |g1|
  {
    if g1 == [] {
      assert |g2| == |multiset(g2)| == 0;
    } else {
      var last := |g1| - 1;
      var x := g1[last];
      assert x in multiset(g2);
      var k :| 0 <= k < |g2| && g2[k] == x;
      var init, rest := g1[..last] + g1[last + 1..], g2[..k] + g2[k + 1..];
      RemovedCounts(g1, last);
      RemovedCounts(g2, k);
      BucketTotalPermutation(init, rest, b);
      BucketTotalRemove(g1, last, b);
      BucketTotalRemove(g2, k, b);
    }
  }

  /** Cutting position `k` out of a list removes one copy of that element. */
  lemma RemovedCounts<T>(s: seq<T>, k: nat)
    requires k < |s|
    ensures multiset(s[..k] + s[k + 1..]) == multiset(s) - multiset{s[k]}
  {
    assert s == s[..k] + [s[k]] + s[k + 1..];
  }

  /** The per-key counts that fall in bucket `b`. */
  function KeysTotal(keys: seq<StatusKey>, orders: seq<Order>, b: Bucket): nat {
    if keys == [] then 0
    else (if BucketOf(keys[0]) == b then CountKey(orders, keys[0]) else 0) + KeysTotal(keys[1..], orders, b)
  }

  lemma {:induction false} GroupsForTotal(keys: seq<StatusKey>, orders: seq<Order>, b: Bucket)
    ensures BucketTotal(GroupsFor(keys, orders), b) == KeysTotal(keys, orders, b)
  {
    if keys != [] {
      var g := GroupOf(orders, keys[0]);
      BucketTotalAppend(g, GroupsFor(keys[1..], orders), b);
      GroupsForTotal(keys[1..], orders, b);
      if g != [] {
        assert g[..0] == [];
      }
    }
  }

  /** Each bucket is the sum of the counts of its (isPaid, isDelivered)
      pairs. */
  lemma {:induction false} BucketsByKey(orders: seq<Order>)
    ensures CountInBucket(orders, Delivered)
      == CountKey(orders, StatusKey(false, true)) + CountKey(orders, StatusKey(true, true))
    ensures CountInBucket(orders, PaidPending) == CountKey(orders, StatusKey(true, false))
    ensures CountInBucket(orders, Unpaid) == CountKey(orders, StatusKey(false, false))
  {
    if orders != [] {
      BucketsByKey(orders[1..]);
    }
  }

  /** The counters of the loop, fed the grouping of the orders, count the
      orders of each bucket. */
  lemma StatusGroupsCountBuckets(orders: seq<Order>, b: Bucket)
    ensures BucketTotal(GroupByStatus(orders), b) == CountInBucket(orders, b)
  {
    GroupsForTotal(AllKeys, orders, b);
    var k := AllKeys;
    assert KeysTotal(k[3..], orders, b) == (if BucketOf(k[3]) == b then CountKey(orders, k[3]) else 0) by {
      assert k[3..][1..] == [];
    }
    assert KeysTotal(k[2..], orders, b)
      == (if BucketOf(k[2]) == b then CountKey(orders, k[2]) else 0) + KeysTotal(k[3..], orders, b) by {
      assert k[2..][1..] == k[3..];
    }
    assert KeysTotal(k[1..], orders, b)
      == (if BucketOf(k[1]) == b then CountKey(orders, k[1]) else 0) + KeysTotal(k[2..], orders, b) by {
      assert k[1..][1..] == k[2..];
    }
    BucketsByKey(orders);
  }

  /** Whatever order the database returns the status groups in, the loop
      counts exactly the orders of each bucket. */
  lemma GroupsInAnyOrderCountBuckets(groups: seq<StatusGroup>, orders: seq<Order>, b: Bucket)
    requires multiset(groups) == multiset(GroupByStatus(orders))
    ensures BucketTotal(groups, b) == CountInBucket(orders, b)
  {
    BucketTotalPermutation(groups, GroupByStatus(orders), b);
    StatusGroupsCountBuckets(orders, b);
  }

  /** The three buckets split the orders: they add up to totalOrders, and
      the two undelivered buckets add up to activeOrders. */
  lemma {:induction false} BucketsPartition(orders: seq<Order>)
    ensures CountInBucket(orders, Delivered) + CountInBucket(orders, PaidPending)
      + CountInBucket(orders, Unpaid) == |orders|
    ensures CountInBucket(orders, PaidPending) + CountInBucket(orders, Unpaid) == ActiveOrders(orders)
  {
    if orders != [] {
      BucketsPartition(orders[1..]);
    }
  }

  datatype StatusEntry = StatusEntry(name: string, value: nat)

  // ---------------------------------------------------------------------
  // 3. Seven-day sales series

  const MsPerDay: int := 86_400_000
  const SeriesLength: nat := 7

  /** The calendar day (UTC) of a timestamp, as a day number. */
  function DayOf(t: int): int {
    t / MsPerDay
  }

  /** Sum of totalPrice over the paid orders created on day `d`. */
  function DaySales(orders: seq<Order>, d: int): real {
    if orders == [] then 0.0
    else
      var last := orders[|orders| - 1];
      DaySales(orders[..|orders| - 1], d) + (if last.isPaid && DayOf(last.createdAt) == d then last.totalPrice else 0.0)
  }

  /** The second pipeline: paid orders created at or after `start`,
      grouped by day with the sum of their totalPrice. */
  function SalesByDay(orders: seq<Order>, start: int): map<int, real> {
    if orders == [] then map[]
    else
      var m := SalesByDay(orders[..|orders| - 1], start);
      var o := orders[|orders| - 1];
      if o.isPaid && o.createdAt >= start then
        var d := DayOf(o.createdAt);
        m[d := (if d in m then m[d] else 0.0) + o.totalPrice]
      else m
  }

  /** `found ? found.sales : 0` */
  function SalesOn(salesData: map<int, real>, d: int): real {
    if d in salesData then salesData[d] else 0.0
  }

  /** For a day that starts inside the window, the grouped value is that
      day's paid sales, and 0 when it had none. */
  lemma {:induction false} SalesByDayMeaning(orders: seq<Order>, start: int, d: int)
    requires start <= d * MsPerDay
    ensures SalesOn(SalesByDay(orders, start), d) == DaySales(orders, d)
  {
    if orders != [] {
      var init := orders[..|orders| - 1];
      var o := orders[|orders| - 1];
      SalesByDayMeaning(init, start, d);
      if o.isPaid && DayOf(o.createdAt) == d {
        assert o.createdAt >= d * MsPerDay;
      }
    }
  }

  /** The pipeline has a group for day `d` exactly when some paid order
      created at or after `start` falls on day `d`. */
  lemma {:induction false} SalesByDayDays(orders: seq<Order>, start: int, d: int)
    ensures d in SalesByDay(orders, start) <==>
      exists i :: 0 <= i < |orders| && orders[i].isPaid && orders[i].createdAt >= start
        && DayOf(orders[i].createdAt) == d
  {
    if orders != [] {
      var init := orders[..|orders| - 1];
      SalesByDayDays(init, start, d);
      assert forall i :: 0 <= i < |init| ==> init[i] == orders[i];
    }
  }

  datatype DayPoint = DayPoint(day: int, sales: real)

  /** The `for` loop that fills the seven days ending today, oldest first,
      with zero for a day without a group. */
  method FillSalesSeries(salesData: map<int, real>, today: int) returns (series: seq<DayPoint>)
    ensures |series| == SeriesLength
    ensures forall j :: 0 <= j < |series| ==>
      series[j].day == today - 6 + j && series[j].sales == SalesOn(salesData, today - 6 + j)
  {
    series := [];
    var i := 6;
    while i >= 0
      invariant -1 <= i <= 6
      invariant |series| == 6 - i
      invariant forall j :: 0 <= j < |series| ==>
        series[j].day == today - 6 + j && series[j].sales == SalesOn(salesData, today - 6 + j)
    {
      var d := today - i;
      var sales := if d in salesData then salesData[d] else 0.0;
      series := series + [DayPoint(d, sales)];
      i := i - 1;
    }
  }

  // ---------------------------------------------------------------------
  // 5. Recent orders

  const RecentLimit: nat := 5

  ghost predicate NewestFirst(s: seq<Order>) {
    forall i, j :: 0 <= i < j < |s| ==> s[i].createdAt >= s[j].createdAt
  }

  function InsertNewest(o: Order, s: seq<Order>): (r: seq<Order>)
    requires NewestFirst(s)
    ensures NewestFirst(r)
    ensures multiset(r) == multiset(s) + multiset{o}
  {
    if s == [] then [o]
    else if o.createdAt >= s[0].createdAt then [o] + s
    else
      var rest := InsertNewest(o, s[1..]);
      assert s == [s[0]] + s[1..];
      assert forall x :: x in rest ==> x.createdAt <= s[0].createdAt by {
        forall x | x in rest ensures x.createdAt <= s[0].createdAt {
          assert x in multiset(rest);
        }
      }
      [s[0]] + rest
  }

  /** `sort({ createdAt: -1 })`: newest first, same orders. */
  function SortNewestFirst(orders: seq<Order>): (r: seq<Order>)
    ensures NewestFirst(r)
    ensures multiset(r) == multiset(orders)
  {
    if orders == [] then []
    else
      assert orders == [orders[0]] + orders[1..];
      InsertNewest(orders[0], SortNewestFirst(orders[1..]))
  }

  /** recentOrders: at most five orders, newest first, taken from the
      orders, and no order left out is newer than one taken. */
  function RecentOrders(orders: seq<Order>): (r: seq<Order>)
    ensures |r| == if |orders| < RecentLimit then |orders| else RecentLimit
    ensures NewestFirst(r)
    ensures multiset(r) <= multiset(orders)
    ensures forall o, x :: o in orders && o !in r && x in r ==> o.createdAt <= x.createdAt
  {
    var sorted := SortNewestFirst(orders);
    assert |sorted| == |multiset(sorted)| == |orders|;
    var n := if |orders| < RecentLimit then |orders| else RecentLimit;
    var r := sorted[..n];
    assert sorted == r + sorted[n..];
    assert forall o :: o in orders && o !in r ==> o in sorted[n..] by {
      forall o | o in orders && o !in r ensures o in sorted[n..] {
        assert o in multiset(orders);
        assert o in sorted;
      }
    }
    r
  }

  // ---------------------------------------------------------------------
  // The summary

  datatype Summary = Summary(
    totalSales: real,
    activeOrders: nat,
    totalOrders: nat,
    totalCustomers: nat,
    totalProducts: nat,
    salesData: seq<DayPoint>,
    orderStatusData: seq<StatusEntry>,
    recentOrders: seq<Order>)

  /** getDashboardSummary. `totalUsers` and `totalProducts` are the
      document counts of the other two collections. */
  method GetDashboardSummary(orders: seq<Order>, totalUsers: nat, totalProducts: nat, today: int)
    returns (s: Summary)
    ensures s.totalSales == PaidSum(orders)
    ensures s.activeOrders == ActiveOrders(orders) && s.totalOrders == |orders|
    ensures s.totalCustomers == totalUsers && s.totalProducts == totalProducts
    ensures |s.salesData| == SeriesLength
    ensures forall j :: 0 <= j < |s.salesData| ==>
      s.salesData[j].day == today - 6 + j && s.salesData[j].sales == DaySales(orders, today - 6 + j)
    ensures s.orderStatusData == [
      StatusEntry("Delivered", CountInBucket(orders, Delivered)),
      StatusEntry("Paid (Pending)", CountInBucket(orders, PaidPending)),
      StatusEntry("Unpaid", CountInBucket(orders, Unpaid))]
    ensures s.orderStatusData[0].value + s.orderStatusData[1].value + s.orderStatusData[2].value == s.totalOrders
    ensures s.orderStatusData[1].value + s.orderStatusData[2].value == s.activeOrders
    ensures s.recentOrders == RecentOrders(orders)
  {
    var totalSales := TotalSales(orders);
    var activeOrders := ActiveOrders(orders);
    var totalOrders := |orders|;

    var windowStart := (today - 7) * MsPerDay;
    var salesData := SalesByDay(orders, windowStart);
    var series := FillSalesSeries(salesData, today);
    forall j | 0 <= j < |series|
      ensures series[j].sales == DaySales(orders, today - 6 + j)
    {
      SalesByDayMeaning(orders, windowStart, today - 6 + j);
    }

    var deliveredCount, paidPendingCount, unpaidCount := CountStatuses(GroupByStatus(orders));
    StatusGroupsCountBuckets(orders, Delivered);
    StatusGroupsCountBuckets(orders, PaidPending);
    StatusGroupsCountBuckets(orders, Unpaid);
    BucketsPartition(orders);
    var orderStatusData := [
      StatusEntry("Delivered", deliveredCount),
      StatusEntry("Paid (Pending)", paidPendingCount),
      StatusEntry("Unpaid", unpaidCount)];

    s := Summary(totalSales, activeOrders, totalOrders, totalUsers, totalProducts,
                 series, orderStatusData, RecentOrders(orders));
  }
}
