/** The request body schema of users: a password of at least six characters, an
    optional role and an optional company. It has no `modifiedBy` key. */
module UserSchema {
  import opened Wrappers
  import opened Tables
  import opened Entities
  import opened Json
  import opened ZodRules

  /** The shortest password the schema accepts. */
  const MinPassword: nat := 6

  datatype UserBody = UserBody(
    id: Js, companyId: Js, email: Js, password: Js, name: Js, role: Js,
    createdAt: Js, updatedAt: Js, deletedAt: Js)

  datatype UserInput = UserInput(
    id: Option<string>, companyId: Option<string>, email: string, password: string,
    name: string, role: Option<UserRole>,
    createdAt: Option<Time>, updatedAt: Option<Time>, deletedAt: Option<Time>)

  function Parse(f: Formats, b: UserBody): (r: Option<UserInput>)
    ensures r.Some? <==>
      OptUuidOk(f, b.id) && OptUuidOk(f, b.companyId)
      && b.email.JsString? && f.isEmail(b.email.s)
      && TextOk(b.password, MinPassword) && TextOk(b.name, 1)
      && (b.role.Undefined? || (b.role.JsString? && RoleFromName(b.role.s).Some?))
      && OptDateOk(f, b.createdAt) && OptDateOk(f, b.updatedAt) && OptDateOk(f, b.deletedAt)
    ensures r.Some? ==>
      r.value == UserInput(
        Present(b.id), Present(b.companyId), b.email.s, b.password.s, b.name.s, r.value.role,
        DateOf(f, b.createdAt), DateOf(f, b.updatedAt), DateOf(f, b.deletedAt))
      && (r.value.role.None? <==> b.role.Undefined?)
      && (r.value.role.Some? ==> RoleName(r.value.role.value) == b.role.s)
  {
    var id :- Optional(b.id, v => Uuid(f, v));
    var companyId :- Optional(b.companyId, v => Uuid(f, v));
    var email :- Email(f, b.email);
    var password :- MinText(b.password, MinPassword);
    var name :- MinText(b.name, 1);
    var role :- Optional(b.role, v => Enum(v, RoleFromName));
    var createdAt :- Optional(b.createdAt, f.toDate);
    var updatedAt :- Optional(b.updatedAt, f.toDate);
    var deletedAt :- Optional(b.deletedAt, f.toDate);
    Some(UserInput(id, companyId, email, password, name, role, createdAt, updatedAt, deletedAt))
  }
}
