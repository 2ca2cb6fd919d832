/** `PUT /orders/:id`: a partial update of an order's customer fields and status. */
module OrderUpdate {
  import opened Api
  import opened Orders

  datatype UpdateOrderRequest = UpdateOrderRequest(
    id: int,
    status: Option<string>,
    customerName: Option<string>,
    phone: Option<string>,
    governorate: Option<string>,
    address: Option<string>)

  /** The request sets at least one field: only truthy values count, so an
      empty string is as good as no value at all. */
  predicate HasChanges(req: UpdateOrderRequest) {
    Truthy(req.status) || Truthy(req.customerName) || Truthy(req.phone)
      || Truthy(req.governorate) || Truthy(req.address)
  }

  /** A truthy request value replaces the stored one. */
  function Pick(v: Option<string>, current: string): string {
    if Truthy(v) then v.value else current
  }

  /** The row after the `SET` list of the request has been applied. */
  function Patched(o: Order, req: UpdateOrderRequest): Order {
    o.(status := Pick(req.status, o.status),
       customerName := Pick(req.customerName, o.customerName),
       phone := Pick(req.phone, o.phone),
       governorate := Pick(req.governorate, o.governorate),
       address := Pick(req.address, o.address))
  }

  /** Updates the order `req.id`. A request without truthy fields fails with
      InvalidArgument before the table is consulted; an unknown id fails with
      NotFound. On success only the fields the request sets change, only in
      that one order, and the response is the stored row. The status is not
      checked against any list. */
  function UpdateOrder(s: OrderStore, req: UpdateOrderRequest): (r: Result<(OrderStore, Order)>)
    ensures !HasChanges(req) ==> r == Err(InvalidArgument)
    ensures HasChanges(req) && req.id !in s.rows ==> r == Err(NotFound)
    ensures r.Ok? <==> HasChanges(req) && req.id in s.rows
    ensures r.Ok? ==> var (s', o) := r.value;
              && s'.nextId == s.nextId && s'.clock == s.clock
              && s'.rows.Keys == s.rows.Keys
              && req.id in s'.rows && s'.rows[req.id] == o
              && (forall k :: k in s.rows && k != req.id ==> s'.rows[k] == s.rows[k])
    ensures r.Ok? ==> var (before, o) := (s.rows[req.id], r.value.1);
              && o.id == before.id && o.productId == before.productId
              && o.productPrice == before.productPrice && o.shippingPrice == before.shippingPrice
              && o.totalPrice == before.totalPrice && o.createdAt == before.createdAt
    ensures r.Ok? ==> var (before, o) := (s.rows[req.id], r.value.1);
              && (Truthy(req.status) ==> o.status == req.status.value)
              && (!Truthy(req.status) ==> o.status == before.status)
              && (Truthy(req.customerName) ==> o.customerName == req.customerName.value)
              && (!Truthy(req.customerName) ==> o.customerName == before.customerName)
              && (Truthy(req.phone) ==> o.phone == req.phone.value)
              && (!Truthy(req.phone) ==> o.phone == before.phone)
              && (Truthy(req.governorate) ==> o.governorate == req.governorate.value)
              && (!Truthy(req.governorate) ==> o.governorate == before.governorate)
              && (Truthy(req.address) ==> o.address == req.address.value)
              && (!Truthy(req.address) ==> o.address == before.address)
  {
    if !HasChanges(req) then
      Err(InvalidArgument)
    else if req.id !in s.rows then
      Err(NotFound)
    else
      var o := Patched(s.rows[req.id], req);
      Ok((s.(rows := s.rows[req.id := o]), o))
  }

  /** Updating keeps the table well formed and every stored total equal to
      its own prices. */
  lemma UpdatePreservesInvariants(s: OrderStore, req: UpdateOrderRequest)
    requires WellFormed(s) && TotalsConsistent(s)
    requires UpdateOrder(s, req).Ok?
    ensures WellFormed(UpdateOrder(s, req).value.0)
    ensures TotalsConsistent(UpdateOrder(s, req).value.0)
  {
    var s' := UpdateOrder(s, req).value.0;
    assert PriceSnapshot(s.rows[req.id]);
    assert forall k :: k in s'.rows ==> k == req.id || s'.rows[k] == s.rows[k];
  }

  /** Applying an update a second time changes nothing more. */
  lemma UpdateIdempotent(s: OrderStore, req: UpdateOrderRequest)
    requires UpdateOrder(s, req).Ok?
    ensures UpdateOrder(UpdateOrder(s, req).value.0, req) == UpdateOrder(s, req)
  {
    var (s', o) := UpdateOrder(s, req).value;
    assert Patched(o, req) == o;
    assert s'.rows[req.id := o] == s'.rows;
  }

  /** A field sent as "" is treated exactly like a field left out. */
  lemma EmptyStringIsAbsent(s: OrderStore, req: UpdateOrderRequest)
    ensures UpdateOrder(s, req.(status := Some(""))) == UpdateOrder(s, req.(status := None))
    ensures UpdateOrder(s, req.(customerName := Some(""))) == UpdateOrder(s, req.(customerName := None))
    ensures UpdateOrder(s, req.(phone := Some(""))) == UpdateOrder(s, req.(phone := None))
    ensures UpdateOrder(s, req.(governorate := Some(""))) == UpdateOrder(s, req.(governorate := None))
    ensures UpdateOrder(s, req.(address := Some(""))) == UpdateOrder(s, req.(address := None))
  {
  }

  /** An update with nothing to set reports InvalidArgument even for an id
      that does not exist: the field check comes first. */
  lemma EmptyUpdateOfMissingOrder(s: OrderStore, req: UpdateOrderRequest)
    requires !HasChanges(req) && req.id !in s.rows
    ensures UpdateOrder(s, req) == Err(InvalidArgument)
  {
  }

  /** Any non-empty status is stored, including ones the admin interface
      never offers. */
  lemma AnyStatusIsStored(s: OrderStore, id: int, status: string)
    requires id in s.rows && status != ""
    requires status !in UiStatuses
    ensures var r := UpdateOrder(s, UpdateOrderRequest(id, Some(status), None, None, None, None));
            r.Ok? && r.value.0.rows[id].status == status
  {
  }
}
