/** The request body schema of order items. */
module OrderItemSchema {
  import opened Wrappers
  import opened Tables
  import opened Json
  import opened ZodRules

  datatype OrderItemBody = OrderItemBody(
    id: Js, orderId: Js, productId: Js, quantity: Js, price: Js,
    createdAt: Js, updatedAt: Js, deletedAt: Js, modifiedBy: Js)

  datatype OrderItemInput = OrderItemInput(
    id: Option<string>, orderId: string, productId: string, quantity: int, price: string,
    createdAt: Option<Time>, updatedAt: Option<Time>, deletedAt: Option<Time>,
    modifiedBy: Option<string>)

  function Parse(f: Formats, b: OrderItemBody): (r: Option<OrderItemInput>)
    ensures r.Some? <==>
      OptUuidOk(f, b.id) && UuidOk(f, b.orderId) && UuidOk(f, b.productId)
      && b.quantity.JsNumber? && b.quantity.n == b.quantity.n.Floor as real
      && 1 <= b.quantity.n.Floor <= MaxSafeInteger
      && b.price.JsString? && PriceLanguage(b.price.s)
      && OptDateOk(f, b.createdAt) && OptDateOk(f, b.updatedAt) && OptDateOk(f, b.deletedAt)
      && OptUuidOk(f, b.modifiedBy)
    ensures r.Some? ==>
      r.value == OrderItemInput(
        Present(b.id), b.orderId.s, b.productId.s, r.value.quantity, b.price.s,
        DateOf(f, b.createdAt), DateOf(f, b.updatedAt), DateOf(f, b.deletedAt), Present(b.modifiedBy))
      && r.value.quantity as real == b.quantity.n && r.value.quantity >= 1
  {
    var id :- Optional(b.id, v => Uuid(f, v));
    var orderId :- Uuid(f, b.orderId);
    var productId :- Uuid(f, b.productId);
    var quantity :- Quantity(b.quantity);
    var price :- Price(b.price);
    var createdAt :- Optional(b.createdAt, f.toDate);
    var updatedAt :- Optional(b.updatedAt, f.toDate);
    var deletedAt :- Optional(b.deletedAt, f.toDate);
    var modifiedBy :- Optional(b.modifiedBy, v => Uuid(f, v));
    Some(OrderItemInput(id, orderId, productId, quantity, price, createdAt, updatedAt, deletedAt, modifiedBy))
  }
}
