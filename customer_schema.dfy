/** The request body schema of customers. Unlike the other schemas it takes any string
    as the company id, and the company id may be left out. */
module CustomerSchema {
  import opened Wrappers
  import opened Tables
  import opened Entities
  import opened Json
  import opened ZodRules

  datatype CustomerBody = CustomerBody(
    id: Js, companyId: Js, kind: Js, name: Js, email: Js,
    createdAt: Js, updatedAt: Js, deletedAt: Js, modifiedBy: Js)

  datatype CustomerInput = CustomerInput(
    id: Option<string>, companyId: Option<string>, kind: CustomerType, name: string,
    email: Option<string>,
    createdAt: Option<Time>, updatedAt: Option<Time>, deletedAt: Option<Time>,
    modifiedBy: Option<string>)

  function Parse(f: Formats, b: CustomerBody): (r: Option<CustomerInput>)
    ensures r.Some? <==>
      OptUuidOk(f, b.id) && (b.companyId.Undefined? || b.companyId.JsString?)
      && b.kind.JsString? && CustomerTypeFromName(b.kind.s).Some?
      && TextOk(b.name, 1) && (b.email.Undefined? || (b.email.JsString? && f.isEmail(b.email.s)))
      && OptDateOk(f, b.createdAt) && OptDateOk(f, b.updatedAt) && OptDateOk(f, b.deletedAt)
      && OptUuidOk(f, b.modifiedBy)
    ensures r.Some? ==>
      r.value == CustomerInput(
        Present(b.id), Present(b.companyId), r.value.kind, b.name.s, Present(b.email),
        DateOf(f, b.createdAt), DateOf(f, b.updatedAt), DateOf(f, b.deletedAt), Present(b.modifiedBy))
      && CustomerTypeName(r.value.kind) == b.kind.s
  {
    var id :- Optional(b.id, v => Uuid(f, v));
    var companyId :- Optional(b.companyId, Text);
    var kind :- Enum(b.kind, CustomerTypeFromName);
    var name :- MinText(b.name, 1);
    var email :- Optional(b.email, v => Email(f, v));
    var createdAt :- Optional(b.createdAt, f.toDate);
    var updatedAt :- Optional(b.updatedAt, f.toDate);
    var deletedAt :- Optional(b.deletedAt, f.toDate);
    var modifiedBy :- Optional(b.modifiedBy, v => Uuid(f, v));
    Some(CustomerInput(id, companyId, kind, name, email, createdAt, updatedAt, deletedAt, modifiedBy))
  }
}
