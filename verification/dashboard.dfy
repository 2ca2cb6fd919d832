/** The admin dashboard's overview figures, computed from `list({})`. */
module Dashboard {
  import opened Api
  import opened Orders
  import opened Recency
  import opened OrderList

  /** The four stat cards and the recent-orders panel. */
  datatype Overview = Overview(orderCount: nat, pending: nat, delivered: nat, revenue: int, recent: seq<Order>)

  /** How many orders the recent-orders panel shows. */
  const RecentCount: int := 5

  /** The number of orders with the given status. */
  function CountStatus(orders: seq<Order>, status: string): (n: nat)
    ensures n <= |orders|
  {
    if orders == [] then 0
    else (if orders[0].status == status then 1 else 0) + CountStatus(orders[1..], status)
  }

  /** The sum of `f` over the orders, from the left. */
  function Sum(orders: seq<Order>, f: Order -> int): int {
    if orders == [] then 0 else f(orders[0]) + Sum(orders[1..], f)
  }

  function TotalPrice(o: Order): int { o.totalPrice }
  function ProductPrice(o: Order): int { o.productPrice }
  function ShippingPrice(o: Order): int { o.shippingPrice }

  /** No order is counted both as pending and as delivered. */
  lemma {:induction false} PendingAndDeliveredDisjoint(orders: seq<Order>)
    ensures CountStatus(orders, Processing) + CountStatus(orders, Delivered) <= |orders|
  {
    if orders != [] {
      PendingAndDeliveredDisjoint(orders[1..]);
    }
  }

  /** The figures for the fetched orders: revenue is the sum of the stored
      totals, pending and delivered count the two statuses, and the recent
      panel shows the first five orders. */
  function Summarize(orders: seq<Order>): (v: Overview)
    ensures v.orderCount == |orders|
    ensures v.pending == CountStatus(orders, Processing) && v.delivered == CountStatus(orders, Delivered)
    ensures v.pending + v.delivered <= v.orderCount
    ensures v.revenue == Sum(orders, TotalPrice)
    ensures |v.recent| == Min(RecentCount, |orders|)
    ensures forall i :: 0 <= i < |v.recent| ==> v.recent[i] == orders[i]
  {
    PendingAndDeliveredDisjoint(orders);
    Overview(|orders|, CountStatus(orders, Processing), CountStatus(orders, Delivered),
             Sum(orders, TotalPrice), orders[..Min(RecentCount, |orders|)])
  }

  /** The request `list({})`: no filter, default page and limit. */
  const ListAll: ListOrdersRequest := ListOrdersRequest(None, None, None)

  /** `ordersData?.orders || []`. */
  function Fetched(s: OrderStore): seq<Order> {
    match ListOrders(s, ListAll)
    case Ok(resp) => resp.orders
    case Err(_) => []
  }

  /** The unfiltered match set is the whole table. */
  lemma MatchingAll(t: map<int, Order>)
    ensures Matching(t, None) == t
  {
    assert Matching(t, None).Keys == t.Keys;
  }

  /** The dashboard over the current table. The order count is that of the
      first page only, at most the default limit of 20, not the response's
      total. */
  function DashboardOverview(s: OrderStore): (v: Overview)
    ensures v.orderCount == Min(DefaultLimit, |s.rows|)
    ensures v.orderCount <= DefaultLimit
    ensures NewestFirst(v.recent)
    ensures |v.recent| == Min(RecentCount, |s.rows|)
  {
    MatchingAll(s.rows);
    var orders := Fetched(s);
    WindowNewestFirst(orders, 0, Min(RecentCount, |orders|));
    Summarize(orders)
  }

  /** A prefix of a newest-first sequence holds its newest entries: an
      entry outside the prefix is no newer than any entry in it. */
  lemma NewestPrefix(ranked: seq<Order>, prefix: seq<Order>, j: int)
    requires NewestFirst(ranked)
    requires |prefix| <= |ranked|
    requires forall i :: 0 <= i < |prefix| ==> prefix[i] == ranked[i]
    requires |prefix| <= j < |ranked|
    ensures forall i :: 0 <= i < |prefix| ==> prefix[i].createdAt >= ranked[j].createdAt
  {
  }

  /** The recent panel holds the newest orders of the whole table: any stored
      order left out of it is no newer than every order shown. */
  lemma RecentAreNewest(s: OrderStore, k: int)
    requires k in s.rows
    ensures var recent := DashboardOverview(s).recent;
            s.rows[k] in recent || forall i :: 0 <= i < |recent| ==> recent[i].createdAt >= s.rows[k].createdAt
  {
    assert PageOf(ListAll) == 1 && LimitOf(ListAll) == DefaultLimit;
    var r := ListOrders(s, ListAll);
    assert r.Ok?;
    var ranked := Ranked(s.rows, None);
    assert Offset(1, DefaultLimit) == 0;
    assert r.value.orders == Window(ranked, 0, DefaultLimit);
    var fetched := Fetched(s);
    assert fetched == r.value.orders;
    var recent := DashboardOverview(s).recent;
    assert recent == Summarize(fetched).recent;
    assert forall i :: 0 <= i < |recent| ==> recent[i] == fetched[i];
    assert forall i :: 0 <= i < |recent| ==> recent[i] == ranked[i];
    var j := RankOf(s.rows, None, k);
    if j < |recent| {
      assert recent[j] == s.rows[k];
      assert s.rows[k] in recent;
    } else {
      NewestPrefix(ranked, recent, j);
      assert forall i :: 0 <= i < |recent| ==> recent[i].createdAt >= s.rows[k].createdAt;
    }
  }

  /** With more than 20 orders stored, the count card shows 20 while the
      list response reports the full total. */
  lemma CountCardIsFirstPage(s: OrderStore)
    requires |s.rows| > DefaultLimit
    ensures DashboardOverview(s).orderCount == DefaultLimit
    ensures ListOrders(s, ListAll).Ok? && ListOrders(s, ListAll).value.total == |s.rows|
  {
    MatchingAll(s.rows);
  }

  /** Summing a split quantity is summing its parts. */
  lemma {:induction false} SumSplits(orders: seq<Order>, f: Order -> int, g: Order -> int, h: Order -> int)
    requires forall i :: 0 <= i < |orders| ==> f(orders[i]) == g(orders[i]) + h(orders[i])
    ensures Sum(orders, f) == Sum(orders, g) + Sum(orders, h)
  {
    if orders != [] {
      SumSplits(orders[1..], f, g, h);
    }
  }

  /** Because every stored total is the snapshot of its own prices, the
      revenue card is the product takings plus the shipping takings. */
  lemma RevenueIsProductPlusShipping(s: OrderStore)
    requires WellFormed(s) && TotalsConsistent(s)
    ensures var fetched := Fetched(s);
            DashboardOverview(s).revenue == Sum(fetched, ProductPrice) + Sum(fetched, ShippingPrice)
  {
    var fetched := Fetched(s);
    forall i | 0 <= i < |fetched|
      ensures TotalPrice(fetched[i]) == ProductPrice(fetched[i]) + ShippingPrice(fetched[i])
    {
      ListedOrdersMatch(s, ListAll, i);
      assert PriceSnapshot(s.rows[fetched[i].id]);
    }
    SumSplits(fetched, TotalPrice, ProductPrice, ShippingPrice);
  }
}
