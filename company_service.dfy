/** `CompanyService`: company names are unique across all tenants among live companies. */
module CompanyService {
  import opened Wrappers
  import opened Tables
  import opened Entities
  import opened Database
  import opened CommonUtils

  const DuplicateName: string := "A company with this name already exists"

  datatype CompanyData = CompanyData(name: string, modifiedBy: Option<Id>)

  /** What `update` receives: the name the uniqueness lookup needs, and the auditor. */
  datatype CompanyPatch = CompanyPatch(name: string, modifiedBy: Option<Id>)

  function NewCompany(data: CompanyData): Company {
    Company(data.name, data.modifiedBy)
  }

  function ApplyPatch(patch: CompanyPatch): Company -> Company {
    (c: Company) => Company(patch.name, if patch.modifiedBy.Some? then patch.modifiedBy else c.modifiedBy)
  }

  /** `create`: rejects a name any live company already has; otherwise saves one row. */
  method Create(db: Db, data: CompanyData, companyId: Id) returns (r: Result<Row<Company>, Error>)
    requires db.Valid()
    requires companyId !in Ids(db.companies)
    modifies db`companies
    ensures db.Valid()
    ensures Taken(old(db.companies), CompanyKey, data.name, None)
            ==> r == Failure(BadRequest(DuplicateName)) && db.companies == old(db.companies)
    ensures !Taken(old(db.companies), CompanyKey, data.name, None)
            ==> r == Success(Row(companyId, None, NewCompany(data))) && db.companies == old(db.companies) + [r.value]
  {
    var check := AssertNotExists(db.companies, ByKey(CompanyKey, data.name), DuplicateName);
    AssertNotExistsByKey(db.companies, CompanyKey, data.name, DuplicateName, None);
    if check.Fail? {
      return Failure(check.error);
    }
    var company := Row(companyId, None, NewCompany(data));
    InsertKeepsKeyed(db.companies, CompanyKey, company);
    db.companies := db.companies + [company];
    return Success(company);
  }

  function Every(): Row<Company> -> bool {
    (r: Row<Company>) => true
  }

  /** `findAll()`: every live company, in table order. */
  function FindAll(db: Db): (r: seq<Row<Company>>)
    reads db
    ensures forall x :: x in r ==> x in db.companies && x.Live()
    ensures forall i :: 0 <= i < |db.companies| && db.companies[i].Live() ==> db.companies[i] in r
  {
    Select(db.companies, Every())
  }

  /** `findOne(id)`: the live company with that id. */
  function FindOne(db: Db, id: Id): (r: Option<Row<Company>>)
    reads db
    ensures r.Some? ==> r.value in db.companies && r.value.Live() && r.value.id == id
    ensures r.None? <==> forall i :: 0 <= i < |db.companies| && db.companies[i].id == id ==> !db.companies[i].Live()
  {
    var f := Find(db.companies, ById(id));
    assert forall i :: 0 <= i < |db.companies| ==> (Matches(db.companies[i], ById(id)) <==> db.companies[i].id == id && db.companies[i].Live());
    f
  }

  /** `update(id, patch)`: rejects a name held by a different live company and allows a
      company to keep its own; then patches the row with that id and reads it back. */
  method Update(db: Db, id: Id, patch: CompanyPatch) returns (r: Result<Option<Row<Company>>, Error>)
    requires db.Valid()
    modifies db`companies
    ensures db.Valid()
    ensures AssertNotExists(old(db.companies), ByKey(CompanyKey, patch.name), DuplicateName, Some(id)).Fail?
            ==> r == Failure(BadRequest(DuplicateName)) && db.companies == old(db.companies)
    ensures Taken(old(db.companies), CompanyKey, patch.name, Spared(Some(id))) ==> r == Failure(BadRequest(DuplicateName))
    ensures AssertNotExists(old(db.companies), ByKey(CompanyKey, patch.name), DuplicateName, Some(id)).Pass?
            ==> db.companies == SetData(old(db.companies), ById(id), ApplyPatch(patch))
                && (forall i :: 0 <= i < |db.companies| && db.companies[i].id != id ==> db.companies[i] == old(db.companies)[i])
                && r == Success(var o := Find(old(db.companies), ById(id));
                                if o.Some? then Some(o.value.(data := ApplyPatch(patch)(o.value.data))) else None)
  {
    var check := AssertNotExists(db.companies, ByKey(CompanyKey, patch.name), DuplicateName, Some(id));
    AssertNotExistsByKey(db.companies, CompanyKey, patch.name, DuplicateName, Some(id));
    if check.Fail? {
      return Failure(check.error);
    }
    assert !Taken(db.companies, CompanyKey, patch.name, Some(id));
    SetDataKeepsKeyed(db.companies, CompanyKey, ById(id), ApplyPatch(patch), id);
    FindAfterSetData(db.companies, ById(id), ApplyPatch(patch), id);
    db.companies := SetData(db.companies, ById(id), ApplyPatch(patch));
    return Success(FindOne(db, id));
  }

  /** `remove(id)`: soft-deletes; the company is no longer found and its name is free. */
  method Remove(db: Db, id: Id, now: Time)
    requires db.Valid()
    modifies db`companies
    ensures db.Valid()
    ensures db.companies == SoftDelete(old(db.companies), ById(id), now)
    ensures FindOne(db, id).None?
    ensures forall k :: Taken(db.companies, CompanyKey, k, None) <==> Taken(old(db.companies), CompanyKey, k, Some(id))
  {
    SoftDeleteKeepsKeyed(db.companies, CompanyKey, ById(id), now);
    forall k {
      SoftDeleteFreesKey(db.companies, CompanyKey, ById(id), now, k);
    }
    db.companies := SoftDelete(db.companies, ById(id), now);
  }
}
