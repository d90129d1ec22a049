/** `UserService`: registration, login and profile updates over the user table, whose
    emails are unique among live users. Hashing and token signing are supplied as
    functions. */
module UserService {
  import opened Wrappers
  import opened Tables
  import opened Entities
  import opened Database
  import opened CommonUtils

  const PasswordRequired: string := "Password is required"
  const EmailRequired: string := "Email is required"
  const EmailInUse: string := "Email already in use"
  const InvalidCredentials: string := "Invalid credentials"

  /** The claims a token carries: `{ sub, role, email }`, and in the tenant-aware login
      also `companyId`. */
  datatype Payload =
    | UserPayload(sub: Id, role: UserRole, email: string)
    | TenantPayload(sub: Id, role: UserRole, email: string, companyId: Option<Id>)

  /** bcrypt's `hash` and `compare` and the JWT module's `sign`, as opaque functions. */
  datatype Crypto = Crypto(hash: string -> string, compare: (string, string) -> bool, sign: Payload -> string)

  /** What registration receives; the service itself checks password and email. */
  datatype UserData = UserData(companyId: Option<Id>, email: Option<string>, password: Option<string>, name: string,
                               role: Option<UserRole>)

  /** A user as registration returns it: every column but the password. */
  datatype PublicUser = PublicUser(id: Id, companyId: Option<Id>, email: string, name: string, role: UserRole)

  /** What `update` receives: any subset of the columns. */
  datatype UserPatch = UserPatch(companyId: Option<Id>, email: Option<string>, password: Option<string>, name: Option<string>,
                                 role: Option<UserRole>)

  function WithoutPassword(r: Row<User>): (p: PublicUser)
    ensures p.id == r.id && p.email == r.data.email && p.role == r.data.role
    ensures p.companyId == r.data.companyId && p.name == r.data.name
  {
    PublicUser(r.id, r.data.companyId, r.data.email, r.data.name, r.data.role)
  }

  /** The row registration saves: the password replaced by its hash, and the role as
      given or VIEWER. (`data.role || VIEWER` and `data.role ?? VIEWER` agree here, since no
      role's name is empty.) */
  function NewUser(data: UserData, hash: string -> string): (u: User)
    requires Truthy(data.password) && Truthy(data.email)
    ensures u.password == hash(data.password.value) && u.email == data.email.value
    ensures u.role == (if data.role.Some? then data.role.value else VIEWER)
    ensures u.companyId == data.companyId && u.name == data.name
  {
    User(data.companyId, data.email.value, hash(data.password.value), data.name, data.role.GetOr(VIEWER))
  }

  /** `register(data)`: a missing password is reported before a missing email, then the
      email must not be live; the saved user is read back and returned without its
      password. */
  method Register(db: Db, data: UserData, hash: string -> string, userId: Id) returns (r: Result<PublicUser, Error>)
    requires db.Valid()
    requires userId !in Ids(db.users)
    modifies db`users
    ensures db.Valid()
    ensures !Truthy(data.password) ==> r == Failure(BadRequest(PasswordRequired)) && db.users == old(db.users)
    ensures Truthy(data.password) && !Truthy(data.email) ==> r == Failure(BadRequest(EmailRequired)) && db.users == old(db.users)
    ensures Truthy(data.password) && Truthy(data.email) && Taken(old(db.users), UserKey, data.email.value, None)
            ==> r == Failure(BadRequest(EmailInUse)) && db.users == old(db.users)
    ensures Truthy(data.password) && Truthy(data.email) && !Taken(old(db.users), UserKey, data.email.value, None)
            ==> var saved := Row(userId, None, NewUser(data, hash));
                db.users == old(db.users) + [saved] && r == Success(WithoutPassword(saved))
  {
    if !Truthy(data.password) {
      return Failure(BadRequest(PasswordRequired));
    }
    if !Truthy(data.email) {
      return Failure(BadRequest(EmailRequired));
    }
    var existing := Find(db.users, ByKey(UserKey, data.email.value));
    FindByKeyExists(db.users, UserKey, data.email.value);
    if existing.Some? {
      return Failure(BadRequest(EmailInUse));
    }
    var saved := Row(userId, None, NewUser(data, hash));
    InsertKeepsKeyed(db.users, UserKey, saved);
    db.users := db.users + [saved];
    FindByIdUnique(db.users, userId, |db.users| - 1);
    var reloaded := Find(db.users, ById(userId));
    return Success(WithoutPassword(reloaded.value));
  }

  /** `login(email, password)`: a token for `{ sub, role, email }` of the live user with
      that email, if the password matches its hash. An unknown email and a wrong password
      fail with the same error, so the caller cannot tell them apart. */
  function Login(db: Db, crypto: Crypto, email: string, password: string): (r: Result<string, Error>)
    reads db
    requires db.Valid()
    ensures r.Failure? ==> r.error == Unauthorized(InvalidCredentials)
    ensures r.Success? <==> exists i :: 0 <= i < |db.users| && db.users[i].Live() && db.users[i].data.email == email
                                        && crypto.compare(password, db.users[i].data.password)
    ensures forall i :: 0 <= i < |db.users| && db.users[i].Live() && db.users[i].data.email == email
              && crypto.compare(password, db.users[i].data.password)
              ==> r == Success(crypto.sign(UserPayload(db.users[i].id, db.users[i].data.role, email)))
  {
    var user := Find(db.users, ByKey(UserKey, email));
    LoginFindsTheUser(db.users, email);
    if user.None? || !crypto.compare(password, user.value.data.password) then
      Failure(Unauthorized(InvalidCredentials))
    else
      Success(crypto.sign(UserPayload(user.value.id, user.value.data.role, user.value.data.email)))
  }

  /** With unique live emails, the lookup by email returns the one live user holding it. */
  lemma LoginFindsTheUser(users: seq<Row<User>>, email: string)
    requires Keyed(users, UserKey)
    ensures forall i :: 0 <= i < |users| && users[i].Live() && users[i].data.email == email
              ==> Find(users, ByKey(UserKey, email)) == Some(users[i])
    ensures Find(users, ByKey(UserKey, email)).None?
            <==> forall i :: 0 <= i < |users| && users[i].Live() ==> users[i].data.email != email
  {
    forall i | 0 <= i < |users| && users[i].Live() && users[i].data.email == email
      ensures Find(users, ByKey(UserKey, email)) == Some(users[i])
    {
      assert UserKey(users[i].data) == Some(email);
      assert Matches(users[i], ByKey(UserKey, email));
      var j := FindIndex(users, ByKey(UserKey, email)).value;
      assert users[j].data.email == email;
      assert j == i;
    }
    forall i | 0 <= i < |users| && Matches(users[i], ByKey(UserKey, email))
      ensures users[i].data.email == email
    {
      assert UserKey(users[i].data) == Some(email);
    }
  }

  function Every(): Row<User> -> bool {
    (r: Row<User>) => true
  }

  /** `findAll()`: every live user. */
  function FindAll(db: Db): (r: seq<Row<User>>)
    reads db
    ensures forall x :: x in r ==> x in db.users && x.Live()
    ensures forall i :: 0 <= i < |db.users| && db.users[i].Live() ==> db.users[i] in r
  {
    Select(db.users, Every())
  }

  /** `findOne(id)`: the live user with that id. */
  function FindOne(db: Db, id: Id): (r: Option<Row<User>>)
    reads db
    ensures r.Some? ==> r.value in db.users && r.value.Live() && r.value.id == id
    ensures r.None? <==> forall i :: 0 <= i < |db.users| && db.users[i].id == id ==> !db.users[i].Live()
  {
    var f := Find(db.users, ById(id));
    assert forall i :: 0 <= i < |db.users| ==> (Matches(db.users[i], ById(id)) <==> db.users[i].id == id && db.users[i].Live());
    f
  }

  /** `update(criteria, patch)` on one row's columns. */
  function ApplyPatch(patch: UserPatch): User -> User {
    (u: User) => User(if patch.companyId.Some? then patch.companyId else u.companyId, patch.email.GetOr(u.email),
                      patch.password.GetOr(u.password), patch.name.GetOr(u.name), patch.role.GetOr(u.role))
  }

  /** The patch `update` writes: a non-empty password is replaced by its hash, an empty
      one is written as given. */
  function HashedPatch(patch: UserPatch, hash: string -> string): (p: UserPatch)
    ensures Truthy(patch.password) ==> p.password == Some(hash(patch.password.value))
    ensures !Truthy(patch.password) ==> p.password == patch.password
    ensures p.(password := patch.password) == patch
  {
    if Truthy(patch.password) then patch.(password := Some(hash(patch.password.value))) else patch
  }

  /** `update(id, patch)`: hashes a supplied password in place, checks that a new email is
      not held by another live user (the check `UpdateAsWritten` lacks), patches the row
      with that id and reads it back. */
  method Update(db: Db, id: Id, patch: UserPatch, hash: string -> string) returns (r: Result<Option<Row<User>>, Error>)
    requires db.Valid()
    modifies db`users
    ensures db.Valid()
    ensures patch.email.Some? && AssertNotExists(old(db.users), ByKey(UserKey, patch.email.value), EmailInUse, Some(id)).Fail?
            ==> r == Failure(BadRequest(EmailInUse)) && db.users == old(db.users)
    ensures patch.email.Some? && Taken(old(db.users), UserKey, patch.email.value, Spared(Some(id))) ==> r == Failure(BadRequest(EmailInUse))
    ensures !(patch.email.Some? && AssertNotExists(old(db.users), ByKey(UserKey, patch.email.value), EmailInUse, Some(id)).Fail?)
            ==> db.users == SetData(old(db.users), ById(id), ApplyPatch(HashedPatch(patch, hash)))
                && r == Success(var o := Find(old(db.users), ById(id));
                                if o.Some? then Some(o.value.(data := ApplyPatch(HashedPatch(patch, hash))(o.value.data))) else None)
  {
    var data := patch;
    if Truthy(data.password) {
      data := data.(password := Some(hash(data.password.value)));
    }
    assert data == HashedPatch(patch, hash);
    if data.email.Some? {
      var check := AssertNotExists(db.users, ByKey(UserKey, data.email.value), EmailInUse, Some(id));
      AssertNotExistsByKey(db.users, UserKey, data.email.value, EmailInUse, Some(id));
      if check.Fail? {
        return Failure(check.error);
      }
    }
    forall i | 0 <= i < |db.users| && ById<User>(id)(db.users[i]) && db.users[i].Live()
      ensures KeyFree(db.users, UserKey, ApplyPatch(data)(db.users[i].data), Some(id))
    {
      OwnKeyFree(db.users, UserKey, i);
    }
    SetDataKeepsKeyed(db.users, UserKey, ById(id), ApplyPatch(data), id);
    FindAfterSetData(db.users, ById(id), ApplyPatch(data), id);
    db.users := SetData(db.users, ById(id), ApplyPatch(data));
    return Success(FindOne(db, id));
  }

  /** `remove(id)`: soft-deletes; the user is no longer found and the email is free. */
  method Remove(db: Db, id: Id, now: Time)
    requires db.Valid()
    modifies db`users
    ensures db.Valid()
    ensures db.users == SoftDelete(old(db.users), ById(id), now)
    ensures FindOne(db, id).None?
    ensures forall k :: Taken(db.users, UserKey, k, None) <==> Taken(old(db.users), UserKey, k, Some(id))
  {
    SoftDeleteKeepsKeyed(db.users, UserKey, ById(id), now);
    forall k {
      SoftDeleteFreesKey(db.users, UserKey, ById(id), now, k);
    }
    db.users := SoftDelete(db.users, ById(id), now);
  }

  // ---------------------------------------------------------------------------
  // `update` as written writes a new email unchecked

  /** The table after `update(id, patch)` as written: no email check at all. */
  function UpdateAsWritten(rows: seq<Row<User>>, id: Id, patch: UserPatch, hash: string -> string): (r: seq<Row<User>>)
    ensures |r| == |rows|
    ensures forall i :: 0 <= i < |rows| && rows[i].id == id && patch.email.Some? ==> r[i].data.email == patch.email.value
  {
    SetData(rows, ById(id), ApplyPatch(HashedPatch(patch, hash)))
  }

  /** Users u1 (a@x) and u2 (b@x): a valid table. Updating u2's email to a@x leaves two
      live users with the same email. */
  lemma UpdateAsWrittenDuplicatesEmail(hash: string -> string)
    ensures var rows := [Row("u1", None, User(None, "a@x", "h1", "A", VIEWER)),
                         Row("u2", None, User(None, "b@x", "h2", "B", VIEWER))];
            && Keyed(rows, UserKey)
            && !Keyed(UpdateAsWritten(rows, "u2", UserPatch(None, Some("a@x"), None, None, None), hash), UserKey)
  {
    var rows := [Row("u1", None, User(None, "a@x", "h1", "A", VIEWER)),
                 Row("u2", None, User(None, "b@x", "h2", "B", VIEWER))];
    var after := UpdateAsWritten(rows, "u2", UserPatch(None, Some("a@x"), None, None, None), hash);
    assert after[0] == rows[0];
    assert UserKey(after[0].data) == UserKey(after[1].data);
  }
}
