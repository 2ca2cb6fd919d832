/** `GET /orders`: one page of orders, newest first, optionally filtered by status. */
module OrderList {
  import opened Api
  import opened Orders
  import opened Recency

  datatype ListOrdersRequest = ListOrdersRequest(status: Option<string>, page: Option<int>, limit: Option<int>)

  datatype ListOrdersResponse = ListOrdersResponse(orders: seq<Order>, total: nat, page: int, limit: int)

  const DefaultPage: int := 1
  const DefaultLimit: int := 20

  /** The page number after `req.page || 1`. */
  function PageOf(req: ListOrdersRequest): int {
    NumberOr(req.page, DefaultPage)
  }

  /** The page size after `req.limit || 20`. */
  function LimitOf(req: ListOrdersRequest): int {
    NumberOr(req.limit, DefaultLimit)
  }

  /** The status filter: a truthy status must match exactly; an absent or
      empty one selects every order. */
  predicate Selects(status: Option<string>, o: Order) {
    !Truthy(status) || o.status == status.value
  }

  /** The rows the `WHERE` clause keeps. */
  function Matching(t: map<int, Order>, status: Option<string>): (m: map<int, Order>)
    ensures forall k :: k in m <==> k in t && Selects(status, t[k])
    ensures forall k :: k in m ==> m[k] == t[k]
  {
    map k | k in t && Selects(status, t[k]) :: t[k]
  }

  /** The matching orders in the order `ORDER BY created_at DESC` returns them. */
  function Ranked(t: map<int, Order>, status: Option<string>): (r: seq<Order>)
    ensures NewestFirst(r)
    ensures |r| == |Matching(t, status)|
  {
    SortNewestFirst(Rows(Matching(t, status)))
  }

  /** Every stored order the filter selects is ranked. */
  lemma RankedComplete(t: map<int, Order>, status: Option<string>, k: int)
    requires k in t && Selects(status, t[k])
    ensures t[k] in Ranked(t, status)
  {
    var m := Matching(t, status);
    RowsComplete(m, k);
    SortKeepsMembers(Rows(m));
  }

  /** The position at which a selected stored order is ranked. */
  lemma RankOf(t: map<int, Order>, status: Option<string>, k: int) returns (j: int)
    requires k in t && Selects(status, t[k])
    ensures 0 <= j < |Ranked(t, status)| && Ranked(t, status)[j] == t[k]
  {
    RankedComplete(t, status, k);
    var r := Ranked(t, status);
    j :| 0 <= j < |r| && r[j] == t[k];
  }

  /** `o` is the row stored under its id, and the filter selects it. */
  predicate StoredMatch(t: map<int, Order>, status: Option<string>, o: Order) {
    o.id in t && t[o.id] == o && Selects(status, o)
  }

  /** Every ranked order of an id-keyed table is a stored order the filter selects. */
  lemma RankedSound(t: map<int, Order>, status: Option<string>, i: int)
    requires KeyedById(t)
    requires 0 <= i < |Ranked(t, status)|
    ensures StoredMatch(t, status, Ranked(t, status)[i])
  {
    var m := Matching(t, status);
    assert KeyedById(m);
    var rows := Rows(m);
    var r := SortNewestFirst(rows);
    assert r[i] in multiset(r);
    assert r[i] in rows;
    var j :| 0 <= j < |rows| && rows[j] == r[i];
    RowsSound(m, j);
  }

  /** `LIMIT limit OFFSET offset` over an already ordered result. */
  function Window(s: seq<Order>, offset: int, limit: int): (w: seq<Order>)
    requires offset >= 0 && limit >= 0
    ensures |w| == if offset >= |s| then 0 else Min(limit, |s| - offset)
    ensures forall i :: 0 <= i < |w| ==> w[i] == s[offset + i]
  {
    if offset >= |s| then [] else s[offset..Min(offset + limit, |s|)]
  }

  /** A page of a newest-first sequence is newest first. */
  lemma WindowNewestFirst(s: seq<Order>, offset: int, limit: int)
    requires offset >= 0 && limit >= 0
    requires NewestFirst(s)
    ensures NewestFirst(Window(s, offset, limit))
  {
    if offset < |s| {
      SliceNewestFirst(s, offset, Min(offset + limit, |s|));
    }
  }

  /** The number of rows skipped before page `page` of size `limit`. */
  function Offset(page: int, limit: int): (o: nat)
    requires page >= 1 && limit >= 1
  {
    (page - 1) * limit
  }

  /** Lists one page. The page and limit default on absent or 0; a page or
      limit below 1 makes the database reject the negative OFFSET or LIMIT.
      The table itself is only read. */
  function ListOrders(s: OrderStore, req: ListOrdersRequest): (r: Result<ListOrdersResponse>)
    ensures r.Err? <==> PageOf(req) < 1 || LimitOf(req) < 1
    ensures r.Err? ==> r.error == Internal
    ensures r.Ok? ==> r.value.page == PageOf(req) && r.value.limit == LimitOf(req)
    ensures r.Ok? ==> r.value.total == |Matching(s.rows, req.status)|
    ensures r.Ok? ==> |r.value.orders| <= r.value.limit && |r.value.orders| <= r.value.total
    ensures r.Ok? ==> NewestFirst(r.value.orders)
    ensures r.Ok? ==>
              r.value.orders == Window(Ranked(s.rows, req.status), Offset(r.value.page, r.value.limit), r.value.limit)
  {
    var page := PageOf(req);
    var limit := LimitOf(req);
    if page < 1 || limit < 1 then
      Err(Internal)
    else
      var offset := Offset(page, limit);
      var ranked := Ranked(s.rows, req.status);
      WindowNewestFirst(ranked, offset, limit);
      Ok(ListOrdersResponse(Window(ranked, offset, limit), |ranked|, page, limit))
  }

  /** Every order in a window of the ranking of an id-keyed table is a
      stored order the filter selects. */
  lemma WindowSound(t: map<int, Order>, status: Option<string>, offset: int, limit: int, i: int)
    requires KeyedById(t) && offset >= 0 && limit >= 0
    requires 0 <= i < |Window(Ranked(t, status), offset, limit)|
    ensures StoredMatch(t, status, Window(Ranked(t, status), offset, limit)[i])
  {
    var r := Ranked(t, status);
    WindowIndex(r, offset, limit, i);
    RankedSound(t, status, offset + i);
    WindowKeepsMatch(r, t, status, offset, limit, i);
  }

  /** Entry `i` of a window lies inside the windowed sequence. */
  lemma WindowIndex(r: seq<Order>, offset: int, limit: int, i: int)
    requires offset >= 0 && limit >= 0
    requires 0 <= i < |Window(r, offset, limit)|
    ensures 0 <= offset + i < |r|
  {
  }

  /** Entry `i` of a window is entry `offset + i` of the sequence, so it is a
      stored match whenever that entry is. */
  lemma WindowKeepsMatch(r: seq<Order>, t: map<int, Order>, status: Option<string>, offset: int, limit: int, i: int)
    requires offset >= 0 && limit >= 0
    requires 0 <= i < |Window(r, offset, limit)|
    requires StoredMatch(t, status, r[offset + i])
    ensures StoredMatch(t, status, Window(r, offset, limit)[i])
  {
  }

  /** Every listed order is a stored order with the requested status. */
  lemma ListedOrdersMatch(s: OrderStore, req: ListOrdersRequest, i: int)
    requires WellFormed(s)
    requires ListOrders(s, req).Ok?
    requires 0 <= i < |ListOrders(s, req).value.orders|
    ensures var o := ListOrders(s, req).value.orders[i];
            o.id in s.rows && s.rows[o.id] == o && Selects(req.status, o)
  {
    var resp := ListOrders(s, req).value;
    WindowSound(s.rows, req.status, Offset(resp.page, resp.limit), resp.limit, i);
    assert StoredMatch(s.rows, req.status, resp.orders[i]);
  }

  /** Every stored order with the requested status is ranked. */
  lemma MatchIsRanked(s: OrderStore, status: Option<string>, k: int)
    requires k in s.rows && Selects(status, s.rows[k])
    ensures s.rows[k] in Ranked(s.rows, status)
  {
    RankedComplete(s.rows, status, k);
  }

  /** The page, `i / limit + 1`, whose window holds position `i` of the ranking. */
  function PageHolding(i: nat, limit: int): (page: int)
    requires limit >= 1
    ensures page >= 1
    ensures Offset(page, limit) <= i < Offset(page, limit) + limit
  {
    var q, r := i / limit, i % limit;
    assert i == q * limit + r;
    assert Offset(q + 1, limit) == q * limit;
    q + 1
  }

  /** A window holds every position from its offset up to its limit. */
  lemma WindowHolds(s: seq<Order>, offset: int, limit: int, i: int)
    requires 0 <= offset <= i < offset + limit && i < |s|
    ensures s[i] in Window(s, offset, limit)
  {
    assert Window(s, offset, limit)[i - offset] == s[i];
  }

  /** Paging is complete: the order ranked `i`-th among the matches appears
      on the page that holds position `i`. Stated for well-formed stores, whose
      timestamps are distinct, so the ranking is the same for every page. */
  lemma EveryMatchIsListed(s: OrderStore, status: Option<string>, limit: int, i: int)
    requires WellFormed(s)
    requires limit >= 1
    requires 0 <= i < |Ranked(s.rows, status)|
    ensures var r := ListOrders(s, ListOrdersRequest(status, Some(PageHolding(i, limit)), Some(limit)));
            r.Ok? && Ranked(s.rows, status)[i] in r.value.orders
  {
    var page := PageHolding(i, limit);
    var req := ListOrdersRequest(status, Some(page), Some(limit));
    assert PageOf(req) == page && LimitOf(req) == limit;
    var r := ListOrders(s, req);
    assert r.Ok?;
    assert r.value.orders == Window(Ranked(s.rows, status), Offset(page, limit), limit);
    WindowHolds(Ranked(s.rows, status), Offset(page, limit), limit, i);
  }
}
