/** The request body schema of companies. */
module CompanySchema {
  import opened Wrappers
  import opened Tables
  import opened Json
  import opened ZodRules

  datatype CompanyBody = CompanyBody(id: Js, name: Js, createdAt: Js, updatedAt: Js, deletedAt: Js, modifiedBy: Js)

  datatype CompanyInput = CompanyInput(
    id: Option<string>, name: string,
    createdAt: Option<Time>, updatedAt: Option<Time>, deletedAt: Option<Time>,
    modifiedBy: Option<string>)

  function Parse(f: Formats, b: CompanyBody): (r: Option<CompanyInput>)
    ensures r.Some? <==>
      OptUuidOk(f, b.id) && TextOk(b.name, 1)
      && OptDateOk(f, b.createdAt) && OptDateOk(f, b.updatedAt) && OptDateOk(f, b.deletedAt)
      && OptUuidOk(f, b.modifiedBy)
    ensures r.Some? ==>
      r.value == CompanyInput(
        Present(b.id), b.name.s,
        DateOf(f, b.createdAt), DateOf(f, b.updatedAt), DateOf(f, b.deletedAt), Present(b.modifiedBy))
  {
    var id :- Optional(b.id, v => Uuid(f, v));
    var name :- MinText(b.name, 1);
    var createdAt :- Optional(b.createdAt, f.toDate);
    var updatedAt :- Optional(b.updatedAt, f.toDate);
    var deletedAt :- Optional(b.deletedAt, f.toDate);
    var modifiedBy :- Optional(b.modifiedBy, v => Uuid(f, v));
    Some(CompanyInput(id, name, createdAt, updatedAt, deletedAt, modifiedBy))
  }
}
