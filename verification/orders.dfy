/** The orders table, as the order endpoints see it. */
module Orders {

  /** One row of the orders table. Prices are integers in millimes;
      `createdAt` is the value the store's clock had when the row was inserted. */
  datatype Order = Order(
    id: int,
    customerName: string,
    phone: string,
    governorate: string,
    address: string,
    productId: int,
    productPrice: int,
    shippingPrice: int,
    totalPrice: int,
    status: string,
    createdAt: int)

  /** The orders table keyed by id, the next value of the serial id column,
      and the clock `NOW()` reads (it advances on every insert). */
  datatype OrderStore = OrderStore(rows: map<int, Order>, nextId: int, clock: int)

  /** The status every order is created with. */
  const Processing: string := "processing"

  /** The status the dashboard counts as completed. */
  const Delivered: string := "delivered"

  /** The statuses the admin interface offers; the backend stores any string. */
  const UiStatuses: seq<string> :=
    ["processing", "on-hold", "delivered", "failed", "shipping", "returned"]

  /** Every row sits under its own id, ids were handed out by the serial
      column, and every timestamp lies in the clock's past. Since the clock
      advances on every insert, no two rows share a timestamp. */
  predicate WellFormed(s: OrderStore) {
    KeyedById(s.rows) && DistinctTimes(s.rows) &&
    forall k :: k in s.rows ==> k < s.nextId && s.rows[k].createdAt < s.clock
  }

  /** No two rows were created at the same instant. */
  predicate DistinctTimes(t: map<int, Order>) {
    forall j, k :: j in t && k in t && j != k ==> t[j].createdAt != t[k].createdAt
  }

  /** Every row sits under its own id. */
  predicate KeyedById(t: map<int, Order>) {
    forall k :: k in t ==> t[k].id == k
  }

  /** The stored total is the snapshot of the order's own two prices. */
  predicate PriceSnapshot(o: Order) {
    o.totalPrice == o.productPrice + o.shippingPrice
  }

  predicate TotalsConsistent(s: OrderStore) {
    forall k :: k in s.rows ==> PriceSnapshot(s.rows[k])
  }

  /** Every finite non-empty set of ids has a greatest element. */
  lemma {:induction false} MaxKeyExists(ks: set<int>)
    requires ks != {}
    ensures exists m :: m in ks && forall k :: k in ks ==> k <= m
  {
    var x := PickKey(ks);
    if ks == {x} {
      assert forall k :: k in ks ==> k <= x;
    } else {
      MaxKeyExists(ks - {x});
      var m :| m in ks - {x} && forall k :: k in ks - {x} ==> k <= m;
      assert forall k :: k in ks ==> k == x || k in ks - {x};
      if x > m {
        assert forall k :: k in ks ==> k <= x;
      } else {
        assert m in ks && forall k :: k in ks ==> k <= m;
      }
    }
  }

  lemma PickKey(ks: set<int>) returns (x: int)
    requires ks != {}
    ensures x in ks
  {
    if forall y :: y !in ks {
      assert false;
    }
    var y :| y in ks;
    x := y;
  }

  function MaxKey(ks: set<int>): (m: int)
    requires ks != {}
    ensures m in ks && forall k :: k in ks ==> k <= m
  {
    MaxKeyExists(ks);
    var m :| m in ks && forall k :: k in ks ==> k <= m;
    m
  }

  /** The rows of a table as a sequence, by descending id; `RowsComplete`
      and `RowsSound` show it lists each row. */
  function Rows(t: map<int, Order>): (rows: seq<Order>)
    ensures |rows| == |t|
    decreases |t|
  {
    if t.Keys == {} then
      []
    else
      var k := MaxKey(t.Keys);
      var rest := t - {k};
      RemoveKey(t, k);
      [t[k]] + Rows(rest)
  }

  /** Every row of the table is listed. */
  lemma {:induction false} RowsComplete(t: map<int, Order>, k: int)
    requires k in t
    ensures t[k] in Rows(t)
    decreases |t|
  {
    var m := MaxKey(t.Keys);
    RemoveKey(t, m);
    if k != m {
      RowsComplete(t - {m}, k);
    }
  }

  /** In an id-keyed table, every listed row is the row stored under its id. */
  lemma {:induction false} RowsSound(t: map<int, Order>, i: int)
    requires KeyedById(t)
    requires 0 <= i < |Rows(t)|
    ensures Rows(t)[i].id in t && t[Rows(t)[i].id] == Rows(t)[i]
    decreases |t|
  {
    var m := MaxKey(t.Keys);
    RemoveKey(t, m);
    if i > 0 {
      RowsSound(t - {m}, i - 1);
    }
  }

  /** Removing a present key leaves one row fewer and every other row as it was. */
  lemma RemoveKey(t: map<int, Order>, k: int)
    requires k in t
    ensures |t - {k}| == |t| - 1
    ensures forall j :: j in t ==> j == k || (j in t - {k} && (t - {k})[j] == t[j])
    ensures KeyedById(t) ==> KeyedById(t - {k})
  {
    assert (t - {k}).Keys == t.Keys - {k};
  }
}
