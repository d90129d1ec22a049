/** The request body schema of warehouses; the storage type may be left out. */
module WarehouseSchema {
  import opened Wrappers
  import opened Tables
  import opened Entities
  import opened Json
  import opened ZodRules

  datatype WarehouseBody = WarehouseBody(
    id: Js, companyId: Js, kind: Js, name: Js, address: Js,
    createdAt: Js, updatedAt: Js, deletedAt: Js, modifiedBy: Js)

  datatype WarehouseInput = WarehouseInput(
    id: Option<string>, companyId: string, kind: Option<StorageType>, name: string,
    address: Option<string>,
    createdAt: Option<Time>, updatedAt: Option<Time>, deletedAt: Option<Time>,
    modifiedBy: Option<string>)

  function Parse(f: Formats, b: WarehouseBody): (r: Option<WarehouseInput>)
    ensures r.Some? <==>
      OptUuidOk(f, b.id) && UuidOk(f, b.companyId)
      && (b.kind.Undefined? || (b.kind.JsString? && StorageTypeFromName(b.kind.s).Some?))
      && TextOk(b.name, 1) && (b.address.Undefined? || b.address.JsString?)
      && OptDateOk(f, b.createdAt) && OptDateOk(f, b.updatedAt) && OptDateOk(f, b.deletedAt)
      && OptUuidOk(f, b.modifiedBy)
    ensures r.Some? ==>
      r.value == WarehouseInput(
        Present(b.id), b.companyId.s, r.value.kind, b.name.s, Present(b.address),
        DateOf(f, b.createdAt), DateOf(f, b.updatedAt), DateOf(f, b.deletedAt), Present(b.modifiedBy))
      && (r.value.kind.None? <==> b.kind.Undefined?)
      && (r.value.kind.Some? ==> StorageTypeName(r.value.kind.value) == b.kind.s)
  {
    var id :- Optional(b.id, v => Uuid(f, v));
    var companyId :- Uuid(f, b.companyId);
    var kind :- Optional(b.kind, v => Enum(v, StorageTypeFromName));
    var name :- MinText(b.name, 1);
    var address :- Optional(b.address, Text);
    var createdAt :- Optional(b.createdAt, f.toDate);
    var updatedAt :- Optional(b.updatedAt, f.toDate);
    var deletedAt :- Optional(b.deletedAt, f.toDate);
    var modifiedBy :- Optional(b.modifiedBy, v => Uuid(f, v));
    Some(WarehouseInput(id, companyId, kind, name, address, createdAt, updatedAt, deletedAt, modifiedBy))
  }
}
