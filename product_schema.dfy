/** The request body schema of products. */
module ProductSchema {
  import opened Wrappers
  import opened Tables
  import opened Entities
  import opened Json
  import opened ZodRules

  datatype ProductBody = ProductBody(
    id: Js, companyId: Js, name: Js, code: Js, price: Js, kind: Js,
    createdAt: Js, updatedAt: Js, deletedAt: Js, modifiedBy: Js)

  datatype ProductInput = ProductInput(
    id: Option<string>, companyId: string, name: string, code: Option<string>, price: string,
    kind: StorageType,
    createdAt: Option<Time>, updatedAt: Option<Time>, deletedAt: Option<Time>,
    modifiedBy: Option<string>)

  function Parse(f: Formats, b: ProductBody): (r: Option<ProductInput>)
    ensures r.Some? <==>
      OptUuidOk(f, b.id) && UuidOk(f, b.companyId) && TextOk(b.name, 1)
      && (b.code.Undefined? || b.code.JsString?)
      && b.price.JsString? && PriceLanguage(b.price.s)
      && b.kind.JsString? && StorageTypeFromName(b.kind.s).Some?
      && OptDateOk(f, b.createdAt) && OptDateOk(f, b.updatedAt) && OptDateOk(f, b.deletedAt)
      && OptUuidOk(f, b.modifiedBy)
    ensures r.Some? ==>
      r.value == ProductInput(
        Present(b.id), b.companyId.s, b.name.s, Present(b.code), b.price.s, r.value.kind,
        DateOf(f, b.createdAt), DateOf(f, b.updatedAt), DateOf(f, b.deletedAt), Present(b.modifiedBy))
      && StorageTypeName(r.value.kind) == b.kind.s
  {
    var id :- Optional(b.id, v => Uuid(f, v));
    var companyId :- Uuid(f, b.companyId);
    var name :- MinText(b.name, 1);
    var code :- Optional(b.code, Text);
    var price :- Price(b.price);
    var kind :- Enum(b.kind, StorageTypeFromName);
    var createdAt :- Optional(b.createdAt, f.toDate);
    var updatedAt :- Optional(b.updatedAt, f.toDate);
    var deletedAt :- Optional(b.deletedAt, f.toDate);
    var modifiedBy :- Optional(b.modifiedBy, v => Uuid(f, v));
    Some(ProductInput(id, companyId, name, code, price, kind, createdAt, updatedAt, deletedAt, modifiedBy))
  }
}
