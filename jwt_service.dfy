/** `JwtServiceCustom`: the registration flows that assign roles and tenants, and the
    tenant-aware login. */
module JwtService {
  import opened Wrappers
  import opened Tables
  import opened Entities
  import opened Database
  import opened UserService
  import CompanyService

  const PasswordMissing: string := "Password is required."
  const EmailMissing: string := "Email is required."
  const EmailTaken: string := "Email already in use."
  const RoleRejected: string := "Role must be either OPERATOR or VIEWER."
  const BadLogin: string := "Invalid email or password."

  /** What `register` does to the user table and returns, case by case: a missing
      password is reported before a missing email; an email held by a live user is
      rejected; otherwise one row is saved and returned without its password. */
  ghost predicate Registered(users: seq<Row<User>>, users': seq<Row<User>>, data: UserData, hash: string -> string,
                             userId: Id, r: Result<PublicUser, Error>)
  {
    if !Truthy(data.password) then r == Failure(BadRequest(PasswordMissing)) && users' == users
    else if !Truthy(data.email) then r == Failure(BadRequest(EmailMissing)) && users' == users
    else if Taken(users, UserKey, data.email.value, None) then r == Failure(BadRequest(EmailTaken)) && users' == users
    else var saved := Row(userId, None, NewUser(data, hash));
         users' == users + [saved] && r == Success(WithoutPassword(saved))
  }

  /** `register(data)`, with the email check the source omits (see `RegisterAsWritten`). */
  method Register(db: Db, data: UserData, hash: string -> string, userId: Id) returns (r: Result<PublicUser, Error>)
    requires db.Valid()
    requires userId !in Ids(db.users)
    modifies db`users
    ensures db.Valid()
    ensures Registered(old(db.users), db.users, data, hash, userId, r)
  {
    if !Truthy(data.password) {
      return Failure(BadRequest(PasswordMissing));
    }
    if !Truthy(data.email) {
      return Failure(BadRequest(EmailMissing));
    }
    var existing := Find(db.users, ByKey(UserKey, data.email.value));
    FindByKeyExists(db.users, UserKey, data.email.value);
    if existing.Some? {
      return Failure(BadRequest(EmailTaken));
    }
    var saved := Row(userId, None, NewUser(data, hash));
    InsertKeepsKeyed(db.users, UserKey, saved);
    db.users := db.users + [saved];
    FindByIdUnique(db.users, userId, |db.users| - 1);
    var reloaded := Find(db.users, ById(userId));
    return Success(WithoutPassword(reloaded.value));
  }

  /** The data `publicRegister` hands to `register`: the new company's id and role OWNER
      replace whatever the caller sent. */
  function OwnerData(userData: UserData, companyId: Id): (d: UserData)
    ensures d.companyId == Some(companyId) && d.role == Some(OWNER)
    ensures d.email == userData.email && d.password == userData.password && d.name == userData.name
  {
    userData.(companyId := Some(companyId), role := Some(OWNER))
  }

  /** `publicRegister(userData, companyName)`: creates the company first, then its owner.
      The two writes are not atomic: when the owner is rejected the company remains. */
  method PublicRegister(db: Db, userData: UserData, companyName: string, hash: string -> string, companyId: Id, userId: Id)
    returns (r: Result<PublicUser, Error>)
    requires db.Valid()
    requires companyId !in Ids(db.companies) && userId !in Ids(db.users)
    modifies db`companies, db`users
    ensures db.Valid()
    ensures Taken(old(db.companies), CompanyKey, companyName, None)
            ==> r == Failure(BadRequest(CompanyService.DuplicateName)) && db.companies == old(db.companies) && db.users == old(db.users)
    ensures !Taken(old(db.companies), CompanyKey, companyName, None)
            ==> db.companies == old(db.companies) + [Row(companyId, None, Company(companyName, None))]
                && Registered(old(db.users), db.users, OwnerData(userData, companyId), hash, userId, r)
    ensures r.Success? ==> r.value.role == OWNER && r.value.companyId == Some(companyId) && r.value.id == userId
  {
    var company := CompanyService.Create(db, CompanyService.CompanyData(companyName, None), companyId);
    if company.Failure? {
      return Failure(company.error);
    }
    // The source's `UserRole[role]` lookup maps OWNER to itself.
    var ownerData := OwnerData(userData, company.value.id);
    r := Register(db, ownerData, hash, userId);
  }

  /** The data `registerUserToCompany` hands to `register`: the owner's company replaces
      any companyId the caller sent. */
  function MemberData(newUserData: UserData, owner: User): (d: UserData)
    ensures d.companyId == owner.companyId && d.role == newUserData.role
    ensures d.email == newUserData.email && d.password == newUserData.password && d.name == newUserData.name
  {
    newUserData.(companyId := owner.companyId)
  }

  /** `registerUserToCompany(newUserData, ownerUser)`: only OPERATOR and VIEWER may be
      given; the new user joins the owner's company. */
  method RegisterUserToCompany(db: Db, newUserData: UserData, owner: User, hash: string -> string, userId: Id)
    returns (r: Result<PublicUser, Error>)
    requires db.Valid()
    requires userId !in Ids(db.users)
    modifies db`users
    ensures db.Valid()
    ensures newUserData.role !in {Some(OPERATOR), Some(VIEWER)} ==> r == Failure(BadRequest(RoleRejected)) && db.users == old(db.users)
    ensures newUserData.role in {Some(OPERATOR), Some(VIEWER)}
            ==> Registered(old(db.users), db.users, MemberData(newUserData, owner), hash, userId, r)
    ensures r.Success? ==> r.value.role in {OPERATOR, VIEWER} && r.value.companyId == owner.companyId
  {
    if newUserData.role.None? || newUserData.role.value !in {OPERATOR, VIEWER} {
      return Failure(BadRequest(RoleRejected));
    }
    // The source's `UserRole[role]` lookup maps each role to itself.
    var userData := MemberData(newUserData, owner);
    r := Register(db, userData, hash, userId);
  }

  /** `login(email, password)`: a token for `{ sub, role, email, companyId }` of the live
      user with that email, if the password matches its hash. */
  function Login(db: Db, crypto: Crypto, email: string, password: string): (r: Result<string, Error>)
    reads db
    requires db.Valid()
    ensures r.Failure? ==> r.error == Unauthorized(BadLogin)
    ensures r.Success? <==> exists i :: 0 <= i < |db.users| && db.users[i].Live() && db.users[i].data.email == email
                                        && crypto.compare(password, db.users[i].data.password)
    ensures forall i :: 0 <= i < |db.users| && db.users[i].Live() && db.users[i].data.email == email
              && crypto.compare(password, db.users[i].data.password)
              ==> r == Success(crypto.sign(TenantPayload(db.users[i].id, db.users[i].data.role, email, db.users[i].data.companyId)))
  {
    var user := Find(db.users, ByKey(UserKey, email));
    LoginFindsTheUser(db.users, email);
    if user.None? || !crypto.compare(password, user.value.data.password) then
      Failure(Unauthorized(BadLogin))
    else
      Success(crypto.sign(TenantPayload(user.value.id, user.value.data.role, user.value.data.email, user.value.data.companyId)))
  }

  // ---------------------------------------------------------------------------
  // `register` as written saves without checking the email

  /** The user table after `register(data)` as written, or the error it throws. */
  function RegisterAsWritten(users: seq<Row<User>>, data: UserData, hash: string -> string, userId: Id)
    : (r: Result<seq<Row<User>>, Error>)
    ensures r.Failure? <==> !Truthy(data.password) || !Truthy(data.email)
    ensures r.Success? ==> |r.value| == |users| + 1 && r.value[|users|].data.email == data.email.value
  {
    if !Truthy(data.password) then Failure(BadRequest(PasswordMissing))
    else if !Truthy(data.email) then Failure(BadRequest(EmailMissing))
    else Success(users + [Row(userId, None, NewUser(data, hash))])
  }

  /** One live user a@x: a valid table. Registering a@x again is accepted and leaves two
      live users with that email. */
  lemma RegisterAsWrittenDuplicatesEmail(hash: string -> string)
    ensures var users := [Row("u1", None, User(None, "a@x", "h1", "A", VIEWER))];
            var data := UserData(None, Some("a@x"), Some("secret"), "B", None);
            && Keyed(users, UserKey)
            && RegisterAsWritten(users, data, hash, "u2").Success?
            && !Keyed(RegisterAsWritten(users, data, hash, "u2").value, UserKey)
  {
    var users := [Row("u1", None, User(None, "a@x", "h1", "A", VIEWER))];
    var data := UserData(None, Some("a@x"), Some("secret"), "B", None);
    var after := RegisterAsWritten(users, data, hash, "u2").value;
    assert after[0] == users[0];
    assert UserKey(after[0].data) == UserKey(after[1].data);
  }
}
