/** The request body schema of invoices; the status is free text and may be left out. */
module InvoiceSchema {
  import opened Wrappers
  import opened Tables
  import opened Json
  import opened ZodRules

  datatype InvoiceBody = InvoiceBody(
    id: Js, companyId: Js, orderId: Js, number: Js, status: Js,
    createdAt: Js, updatedAt: Js, deletedAt: Js, modifiedBy: Js)

  datatype InvoiceInput = InvoiceInput(
    id: Option<string>, companyId: string, orderId: string, number: string,
    status: Option<string>,
    createdAt: Option<Time>, updatedAt: Option<Time>, deletedAt: Option<Time>,
    modifiedBy: Option<string>)

  function Parse(f: Formats, b: InvoiceBody): (r: Option<InvoiceInput>)
    ensures r.Some? <==>
      OptUuidOk(f, b.id) && UuidOk(f, b.companyId) && UuidOk(f, b.orderId)
      && TextOk(b.number, 1) && (b.status.Undefined? || b.status.JsString?)
      && OptDateOk(f, b.createdAt) && OptDateOk(f, b.updatedAt) && OptDateOk(f, b.deletedAt)
      && OptUuidOk(f, b.modifiedBy)
    ensures r.Some? ==>
      r.value == InvoiceInput(
        Present(b.id), b.companyId.s, b.orderId.s, b.number.s, Present(b.status),
        DateOf(f, b.createdAt), DateOf(f, b.updatedAt), DateOf(f, b.deletedAt), Present(b.modifiedBy))
  {
    var id :- Optional(b.id, v => Uuid(f, v));
    var companyId :- Uuid(f, b.companyId);
    var orderId :- Uuid(f, b.orderId);
    var number :- MinText(b.number, 1);
    var status :- Optional(b.status, Text);
    var createdAt :- Optional(b.createdAt, f.toDate);
    var updatedAt :- Optional(b.updatedAt, f.toDate);
    var deletedAt :- Optional(b.deletedAt, f.toDate);
    var modifiedBy :- Optional(b.modifiedBy, v => Uuid(f, v));
    Some(InvoiceInput(id, companyId, orderId, number, status, createdAt, updatedAt, deletedAt, modifiedBy))
  }
}
