/** `CustomerService`: customer names are unique per company among live customers;
    every read and write by id is tenant-checked. */
module CustomerService {
  import opened Wrappers
  import opened Tables
  import opened Entities
  import opened Database
  import opened CommonUtils
  import opened CompanyAccess

  const DuplicateName: string := "A customer with this name already exists for this company"

  datatype CustomerData = CustomerData(companyId: Id, kind: CustomerType, name: string, email: Option<string>,
                                       modifiedBy: Option<Id>)

  /** What `update` receives: the name the uniqueness lookup needs, and any other columns. */
  datatype CustomerPatch = CustomerPatch(name: string, companyId: Option<Id>, kind: Option<CustomerType>,
                                         email: Option<string>, modifiedBy: Option<Id>)

  function NewCustomer(data: CustomerData): Customer {
    Customer(data.companyId, data.kind, data.name, data.email, data.modifiedBy)
  }

  /** The criterion `{ id, companyId }` of the scoped writes. */
  function ByIdIn(id: Id, companyId: Id): Row<Customer> -> bool {
    (r: Row<Customer>) => r.id == id && r.data.companyId == companyId
  }

  /** `update(criteria, patch)` on one row's columns, keeping the row in its tenant:
      the patch's `companyId` is not applied. (See `UpdateAsWritten`, which applies it.) */
  function ApplyPatch(patch: CustomerPatch): Customer -> Customer {
    (c: Customer) => Customer(c.companyId, patch.kind.GetOr(c.kind), patch.name,
                              if patch.email.Some? then patch.email else c.email,
                              if patch.modifiedBy.Some? then patch.modifiedBy else c.modifiedBy)
  }

  lemma ApplyPatchKey(patch: CustomerPatch, c: Customer)
    ensures ApplyPatch(patch)(c).companyId == c.companyId
    ensures CustomerKey(ApplyPatch(patch)(c)) == Some((c.companyId, patch.name))
  {
  }

  /** `create`: rejects a name already live for the company; otherwise saves one row. */
  method Create(db: Db, data: CustomerData, customerId: Id) returns (r: Result<Row<Customer>, Error>)
    requires db.Valid()
    requires customerId !in Ids(db.customers)
    modifies db`customers
    ensures db.Valid()
    ensures Taken(old(db.customers), CustomerKey, (data.companyId, data.name), None)
            ==> r == Failure(BadRequest(DuplicateName)) && db.customers == old(db.customers)
    ensures !Taken(old(db.customers), CustomerKey, (data.companyId, data.name), None)
            ==> r == Success(Row(customerId, None, NewCustomer(data))) && db.customers == old(db.customers) + [r.value]
  {
    var check := AssertNotExists(db.customers, ByKey(CustomerKey, (data.companyId, data.name)), DuplicateName);
    AssertNotExistsByKey(db.customers, CustomerKey, (data.companyId, data.name), DuplicateName, None);
    if check.Fail? {
      return Failure(check.error);
    }
    var customer := Row(customerId, None, NewCustomer(data));
    InsertKeepsKeyed(db.customers, CustomerKey, customer);
    db.customers := db.customers + [customer];
    return Success(customer);
  }

  function OfCompany(companyId: Id): Row<Customer> -> bool {
    (r: Row<Customer>) => r.data.companyId == companyId
  }

  /** `findAll(companyId, page, limit)`: one page of the company's live customers and their total. */
  function FindAll(db: Db, companyId: Id, page: int := 1, limit: int := 20): (r: Paged<Row<Customer>>)
    reads db
    requires page >= 1 && limit >= 1
    ensures r.page == page && r.limit == limit && |r.data| <= limit
    ensures r.total == |Select(db.customers, OfCompany(companyId))|
    ensures forall x :: x in r.data ==> x in db.customers && x.Live() && x.data.companyId == companyId
  {
    var r := Paginate(Select(db.customers, OfCompany(companyId)), page, limit);
    assert forall i :: 0 <= i < |r.data| ==> r.data[i] in Select(db.customers, OfCompany(companyId));
    r
  }

  /** Every live customer of the company is listed on some page. */
  lemma FindAllListsEveryCustomer(db: Db, companyId: Id, limit: int, i: nat)
    requires limit >= 1
    requires i < |db.customers| && db.customers[i].Live() && db.customers[i].data.companyId == companyId
    ensures exists page :: page >= 1 && db.customers[i] in FindAll(db, companyId, page, limit).data
  {
    assert Matches(db.customers[i], OfCompany(companyId));
    SelectPaginateReaches(db.customers, OfCompany(companyId), limit, i);
    var page :| page >= 1 && db.customers[i] in Paginate(Select(db.customers, OfCompany(companyId)), page, limit).data;
    assert FindAll(db, companyId, page, limit) == Paginate(Select(db.customers, OfCompany(companyId)), page, limit);
  }

  /** `findOne(id, companyId)`, through `validateCompanyAccess`. */
  function FindOne(db: Db, id: Id, companyId: Id): (r: Result<Row<Customer>, Error>)
    reads db
    ensures r == CheckCompanyAccess(Find(db.customers, ById(id)), CustomerCompany, companyId, "Customer")
  {
    var rows := db.customers;
    ValidateCompanyAccess(() => Find(rows, ById(id)), CustomerCompany, companyId, "Customer")
  }

  /** What `findOne` decides, in terms of the table. */
  lemma FindOneOutcome(db: Db, id: Id, companyId: Id)
    requires db.Valid()
    ensures FindOne(db, id, companyId) == Failure(NotFound("Customer not found"))
            <==> forall i :: 0 <= i < |db.customers| && db.customers[i].id == id ==> !db.customers[i].Live()
    ensures FindOne(db, id, companyId).Success?
            ==> var c := FindOne(db, id, companyId).value; c in db.customers && c.id == id && c.Live() && !Foreign(Some(c.data.companyId), companyId)
    ensures (forall i :: 0 <= i < |db.customers| && db.customers[i].id == id && db.customers[i].Live()
              ==> Foreign(Some(db.customers[i].data.companyId), companyId))
            && (exists i :: 0 <= i < |db.customers| && db.customers[i].id == id && db.customers[i].Live())
            <==> FindOne(db, id, companyId) == Failure(Forbidden(AccessDenied))
    ensures FindOne(db, id, companyId).Success?
            <==> exists i :: 0 <= i < |db.customers| && db.customers[i].id == id && db.customers[i].Live()
                             && !Foreign(Some(db.customers[i].data.companyId), companyId)
  {
    if exists i :: 0 <= i < |db.customers| && db.customers[i].id == id && db.customers[i].Live() {
      var i :| 0 <= i < |db.customers| && db.customers[i].id == id && db.customers[i].Live();
      FindByIdUnique(db.customers, id, i);
    } else {
      forall j | 0 <= j < |db.customers|
        ensures !Matches(db.customers[j], ById(id))
      {
      }
      assert "Customer" + " not found" == "Customer not found";
    }
  }

  /** `update(id, patch, companyId)`: conflicts only with a different live customer of the
      caller's company with the same name; then the tenant check; then only the row
      matching `{ id, companyId }` is patched, and the customer is read back. */
  method Update(db: Db, id: Id, patch: CustomerPatch, companyId: Id) returns (r: Result<Row<Customer>, Error>)
    requires db.Valid()
    modifies db`customers
    ensures db.Valid()
    ensures AssertNotExists(old(db.customers), ByKey(CustomerKey, (companyId, patch.name)), DuplicateName, Some(id)).Fail?
            ==> r == Failure(BadRequest(DuplicateName)) && db.customers == old(db.customers)
    ensures Taken(old(db.customers), CustomerKey, (companyId, patch.name), Some(id)) ==> r == Failure(BadRequest(DuplicateName))
    ensures AssertNotExists(old(db.customers), ByKey(CustomerKey, (companyId, patch.name)), DuplicateName, Some(id)).Pass?
            && old(FindOne(db, id, companyId)).Failure?
            ==> r == old(FindOne(db, id, companyId)) && db.customers == old(db.customers)
    ensures AssertNotExists(old(db.customers), ByKey(CustomerKey, (companyId, patch.name)), DuplicateName, Some(id)).Pass?
            && old(FindOne(db, id, companyId)).Success?
            ==> db.customers == SetData(old(db.customers), ByIdIn(id, companyId), ApplyPatch(patch))
                && r == FindOne(db, id, companyId)
                && (old(FindOne(db, id, companyId)).value.data.companyId == companyId
                    ==> r == Success(old(FindOne(db, id, companyId)).value.(data := ApplyPatch(patch)(old(FindOne(db, id, companyId)).value.data))))
  {
    var check := AssertNotExists(db.customers, ByKey(CustomerKey, (companyId, patch.name)), DuplicateName, Some(id));
    AssertNotExistsByKey(db.customers, CustomerKey, (companyId, patch.name), DuplicateName, Some(id));
    if check.Fail? {
      return Failure(check.error);
    }
    var access := FindOne(db, id, companyId);
    if access.Failure? {
      return access;
    }
    forall i | 0 <= i < |db.customers| && ByIdIn(id, companyId)(db.customers[i]) && db.customers[i].Live()
      ensures KeyFree(db.customers, CustomerKey, ApplyPatch(patch)(db.customers[i].data), Some(id))
    {
      ApplyPatchKey(patch, db.customers[i].data);
    }
    SetDataKeepsKeyed(db.customers, CustomerKey, ByIdIn(id, companyId), ApplyPatch(patch), id);
    FindAfterSetData(db.customers, ByIdIn(id, companyId), ApplyPatch(patch), id);
    db.customers := SetData(db.customers, ByIdIn(id, companyId), ApplyPatch(patch));
    return FindOne(db, id, companyId);
  }

  /** `remove(id, companyId)`: soft-deletes `{ id, companyId }` only after the tenant check. */
  method Remove(db: Db, id: Id, companyId: Id, now: Time) returns (r: Outcome<Error>)
    requires db.Valid()
    modifies db`customers
    ensures db.Valid()
    ensures old(FindOne(db, id, companyId)).Failure?
            ==> r == Fail(old(FindOne(db, id, companyId)).error) && db.customers == old(db.customers)
    ensures old(FindOne(db, id, companyId)).Success?
            ==> r == Pass && db.customers == SoftDelete(old(db.customers), ByIdIn(id, companyId), now)
  {
    var access := FindOne(db, id, companyId);
    if access.Failure? {
      return Fail(access.error);
    }
    SoftDeleteKeepsKeyed(db.customers, CustomerKey, ByIdIn(id, companyId), now);
    db.customers := SoftDelete(db.customers, ByIdIn(id, companyId), now);
    return Pass;
  }

  /** `hardRemove(id, companyId)`: deletes `{ id, companyId }` only after the tenant check. */
  method HardRemove(db: Db, id: Id, companyId: Id) returns (r: Outcome<Error>)
    requires db.Valid()
    modifies db`customers
    ensures db.Valid()
    ensures old(FindOne(db, id, companyId)).Failure?
            ==> r == Fail(old(FindOne(db, id, companyId)).error) && db.customers == old(db.customers)
    ensures old(FindOne(db, id, companyId)).Success?
            ==> r == Pass && db.customers == Delete(old(db.customers), ByIdIn(id, companyId))
  {
    var access := FindOne(db, id, companyId);
    if access.Failure? {
      return Fail(access.error);
    }
    DeleteKeepsKeyed(db.customers, CustomerKey, ByIdIn(id, companyId));
    db.customers := Delete(db.customers, ByIdIn(id, companyId));
    return Pass;
  }

  // ---------------------------------------------------------------------------
  // `update` as written applies the patch's `companyId` too

  function ApplyPatchAsWritten(patch: CustomerPatch): Customer -> Customer {
    (c: Customer) => ApplyPatch(patch)(c).(companyId := patch.companyId.GetOr(c.companyId))
  }

  /** The table after `update(id, patch, companyId)` as written, or the error it throws.
      The name check and the tenant check only look at the caller's company. */
  function UpdateAsWritten(rows: seq<Row<Customer>>, id: Id, patch: CustomerPatch, companyId: Id)
    : (r: Result<seq<Row<Customer>>, Error>)
    ensures r.Success? ==> |r.value| == |rows|
    ensures r.Success? ==>
              forall i :: 0 <= i < |rows| && ByIdIn(id, companyId)(rows[i]) ==> r.value[i].data.companyId == patch.companyId.GetOr(companyId)
  {
    if AssertNotExists(rows, ByKey(CustomerKey, (companyId, patch.name)), DuplicateName, Some(id)).Fail? then
      Failure(BadRequest(DuplicateName))
    else
      match CheckCompanyAccess(Find(rows, ById(id)), CustomerCompany, companyId, "Customer")
      case Failure(e) => Failure(e)
      case Success(_) => Success(SetData(rows, ByIdIn(id, companyId), ApplyPatchAsWritten(patch)))
  }

  /** Customer k1 "Acme" of company c1 and customer k2 "Acme" of company c2: a valid table.
      An update of k1 by c1 with body `{ name: "Acme", companyId: c2 }` passes both checks
      and moves k1 into c2, which now has two live customers named "Acme". */
  lemma UpdateAsWrittenDuplicatesName()
    ensures var rows := [Row("k1", None, Customer("c1", CustomerKind, "Acme", None, None)),
                         Row("k2", None, Customer("c2", CustomerKind, "Acme", None, None))];
            var patch := CustomerPatch("Acme", Some("c2"), None, None, None);
            && Keyed(rows, CustomerKey)
            && UpdateAsWritten(rows, "k1", patch, "c1").Success?
            && !Keyed(UpdateAsWritten(rows, "k1", patch, "c1").value, CustomerKey)
  {
    var rows := [Row("k1", None, Customer("c1", CustomerKind, "Acme", None, None)),
                 Row("k2", None, Customer("c2", CustomerKind, "Acme", None, None))];
    var patch := CustomerPatch("Acme", Some("c2"), None, None, None);
    assert Find(rows, ByKey(CustomerKey, ("c1", "Acme"))) == Some(rows[0]) by {
      assert CustomerKey(rows[0].data) == Some(("c1", "Acme"));
      assert Matches(rows[0], ByKey(CustomerKey, ("c1", "Acme")));
    }
    assert Find(rows, ById("k1")) == Some(rows[0]) by {
      assert Matches(rows[0], ById("k1"));
    }
    var after := UpdateAsWritten(rows, "k1", patch, "c1").value;
    assert after == SetData(rows, ByIdIn("k1", "c1"), ApplyPatchAsWritten(patch));
    assert after[0].data == ApplyPatchAsWritten(patch)(rows[0].data);
    assert ApplyPatch(patch)(rows[0].data).name == "Acme";
    assert after[0].data.companyId == "c2" && after[0].data.name == "Acme";
    assert after[1] == rows[1];
    assert CustomerKey(after[0].data) == CustomerKey(after[1].data);
  }
}
