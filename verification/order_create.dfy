/** `POST /orders`: checkout stores one order with a price snapshot. */
module OrderCreate {
  import opened Orders

  datatype CreateOrderRequest = CreateOrderRequest(
    customerName: string,
    phone: string,
    governorate: string,
    address: string,
    productId: int,
    productPrice: int,
    shippingPrice: int)

  /** Inserts the order the request describes and returns the stored row.
      The total is computed from the request's own prices; no settings are
      read, so the stored total is a snapshot. The request is not validated. */
  function CreateOrder(s: OrderStore, req: CreateOrderRequest): (r: (OrderStore, Order))
    ensures r.1.totalPrice == req.productPrice + req.shippingPrice
    ensures r.1.status == Processing
    ensures r.1.customerName == req.customerName && r.1.phone == req.phone
    ensures r.1.governorate == req.governorate && r.1.address == req.address
    ensures r.1.productId == req.productId
    ensures r.1.productPrice == req.productPrice && r.1.shippingPrice == req.shippingPrice
    ensures r.0.rows == s.rows[r.1.id := r.1]
    ensures WellFormed(s) ==> r.1.id !in s.rows && |r.0.rows| == |s.rows| + 1
    ensures WellFormed(s) ==> forall k :: k in s.rows ==> s.rows[k].createdAt < r.1.createdAt
  {
    var o := Order(s.nextId, req.customerName, req.phone, req.governorate, req.address,
                   req.productId, req.productPrice, req.shippingPrice,
                   req.productPrice + req.shippingPrice, Processing, s.clock);
    (OrderStore(s.rows[s.nextId := o], s.nextId + 1, s.clock + 1), o)
  }

  /** Creating an order keeps the table well formed and keeps every stored
      total equal to its own prices. */
  lemma CreatePreservesInvariants(s: OrderStore, req: CreateOrderRequest)
    requires WellFormed(s) && TotalsConsistent(s)
    ensures WellFormed(CreateOrder(s, req).0)
    ensures TotalsConsistent(CreateOrder(s, req).0)
  {
  }

  /** The order a checkout places with the current settings' prices carries
      their sum as its total, e.g. 99000 + 8000 = 107000 millimes. */
  lemma CheckoutExample(s: OrderStore)
    ensures var o := CreateOrder(s, CreateOrderRequest("Amel", "20123456", "Tunis", "Rue 1", 1, 99000, 8000)).1;
            o.totalPrice == 107000 && o.status == "processing"
  {
  }
}
