/** The request body schema of orders. The order's date is not a field of it: the
    database supplies the default. */
module OrderSchema {
  import opened Wrappers
  import opened Tables
  import opened Entities
  import opened Json
  import opened ZodRules

  /** The keys the schema reads; a key the body lacks is `Undefined`. */
  datatype OrderBody = OrderBody(
    id: Js, companyId: Js, number: Js, kind: Js, customerId: Js, warehouseId: Js,
    createdAt: Js, updatedAt: Js, deletedAt: Js, modifiedBy: Js)

  datatype OrderInput = OrderInput(
    id: Option<string>, companyId: string, number: string, kind: OrderType,
    customerId: string, warehouseId: string,
    createdAt: Option<Time>, updatedAt: Option<Time>, deletedAt: Option<Time>,
    modifiedBy: Option<string>)

  function Parse(f: Formats, b: OrderBody): (r: Option<OrderInput>)
    ensures r.Some? <==>
      OptUuidOk(f, b.id) && UuidOk(f, b.companyId) && TextOk(b.number, 1)
      && b.kind.JsString? && OrderTypeFromName(b.kind.s).Some?
      && UuidOk(f, b.customerId) && UuidOk(f, b.warehouseId)
      && OptDateOk(f, b.createdAt) && OptDateOk(f, b.updatedAt) && OptDateOk(f, b.deletedAt)
      && OptUuidOk(f, b.modifiedBy)
    ensures r.Some? ==>
      r.value == OrderInput(
        Present(b.id), b.companyId.s, b.number.s, r.value.kind, b.customerId.s, b.warehouseId.s,
        DateOf(f, b.createdAt), DateOf(f, b.updatedAt), DateOf(f, b.deletedAt), Present(b.modifiedBy))
      && OrderTypeName(r.value.kind) == b.kind.s
  {
    var id :- Optional(b.id, v => Uuid(f, v));
    var companyId :- Uuid(f, b.companyId);
    var number :- MinText(b.number, 1);
    var kind :- Enum(b.kind, OrderTypeFromName);
    var customerId :- Uuid(f, b.customerId);
    var warehouseId :- Uuid(f, b.warehouseId);
    var createdAt :- Optional(b.createdAt, f.toDate);
    var updatedAt :- Optional(b.updatedAt, f.toDate);
    var deletedAt :- Optional(b.deletedAt, f.toDate);
    var modifiedBy :- Optional(b.modifiedBy, v => Uuid(f, v));
    Some(OrderInput(id, companyId, number, kind, customerId, warehouseId, createdAt, updatedAt, deletedAt, modifiedBy))
  }
}
