/** `ProductService`: product codes are unique per company among live products that
    have a code; every read and write by id is tenant-checked. */
module ProductService {
  import opened Wrappers
  import opened Tables
  import opened Entities
  import opened Database
  import opened CommonUtils
  import opened CompanyAccess

  const DuplicateCode: string := "A product with this code already exists for this company"

  datatype ProductData = ProductData(companyId: Id, name: string, code: Option<string>, price: string, kind: StorageType,
                                     modifiedBy: Option<Id>)

  /** What `update` receives: any subset of the columns. */
  datatype ProductPatch = ProductPatch(companyId: Option<Id>, name: Option<string>, code: Option<string>, price: Option<string>,
                                       kind: Option<StorageType>, modifiedBy: Option<Id>)

  /** The listing filters; each is applied only when non-empty. */
  datatype Filters = Filters(name: Option<string>, code: Option<string>)

  function NewProduct(data: ProductData): Product {
    Product(data.companyId, data.name, data.code, data.price, data.kind, data.modifiedBy)
  }

  /** The criterion `{ companyId, code }`. For a non-empty code it is the key criterion. */
  function ByCode(companyId: Id, code: string): Row<Product> -> bool {
    (r: Row<Product>) => r.data.companyId == companyId && r.data.code == Some(code)
  }

  lemma ByCodeIsByKey(companyId: Id, code: string, r: Row<Product>)
    requires code != ""
    ensures ByCode(companyId, code)(r) <==> ByKey(ProductKey, (companyId, code))(r)
  {
    assert ByKey(ProductKey, (companyId, code))(r) <==> ProductKey(r.data) == Some((companyId, code));
  }

  /** The criterion `{ id, companyId }` of the scoped writes. */
  function ByIdIn(id: Id, companyId: Id): Row<Product> -> bool {
    (r: Row<Product>) => r.id == id && r.data.companyId == companyId
  }

  /** `update(criteria, patch)` on one row's columns, keeping the row in its tenant:
      the patch's `companyId` is not applied. (See `UpdateAsWritten`, which applies it.) */
  function ApplyPatch(patch: ProductPatch): Product -> Product {
    (p: Product) => Product(p.companyId, patch.name.GetOr(p.name), if patch.code.Some? then patch.code else p.code,
                            patch.price.GetOr(p.price), patch.kind.GetOr(p.kind),
                            if patch.modifiedBy.Some? then patch.modifiedBy else p.modifiedBy)
  }

  /** The patched row keeps its tenant, and keeps its scoped key unless the patch sets a code. */
  lemma ApplyPatchKey(patch: ProductPatch, p: Product)
    ensures ApplyPatch(patch)(p).companyId == p.companyId
    ensures patch.code.None? ==> ProductKey(ApplyPatch(patch)(p)) == ProductKey(p)
    ensures Truthy(patch.code) ==> ProductKey(ApplyPatch(patch)(p)) == Some((p.companyId, patch.code.value))
    ensures patch.code == Some("") ==> ProductKey(ApplyPatch(patch)(p)).None?
  {
  }

  /** `create`: a non-empty code must not be live for the company; a product without one
      is saved unchecked. */
  method Create(db: Db, data: ProductData, productId: Id) returns (r: Result<Row<Product>, Error>)
    requires db.Valid()
    requires productId !in Ids(db.products)
    modifies db`products
    ensures db.Valid()
    ensures Truthy(data.code) && Taken(old(db.products), ProductKey, (data.companyId, data.code.value), None)
            ==> r == Failure(BadRequest(DuplicateCode)) && db.products == old(db.products)
    ensures !(Truthy(data.code) && Taken(old(db.products), ProductKey, (data.companyId, data.code.value), None))
            ==> r == Success(Row(productId, None, NewProduct(data))) && db.products == old(db.products) + [r.value]
  {
    if Truthy(data.code) {
      var check := AssertNotExists(db.products, ByKey(ProductKey, (data.companyId, data.code.value)), DuplicateCode);
      AssertNotExistsByKey(db.products, ProductKey, (data.companyId, data.code.value), DuplicateCode, None);
      if check.Fail? {
        return Failure(check.error);
      }
    }
    var product := Row(productId, None, NewProduct(data));
    InsertKeepsKeyed(db.products, ProductKey, product);
    db.products := db.products + [product];
    return Success(product);
  }

  /** The query `findAll` builds: the tenant condition plus the optional ILIKE patterns. */
  datatype Query = Query(companyId: Id, namePattern: Option<string>, codePattern: Option<string>)

  /** A row satisfies the query; `ilike(value, pattern)` is the database's case-insensitive
      pattern test, and a NULL code satisfies no pattern. */
  predicate Satisfies(q: Query, ilike: (string, string) -> bool, r: Row<Product>) {
    && r.data.companyId == q.companyId
    && (q.namePattern.Some? ==> ilike(r.data.name, q.namePattern.value))
    && (q.codePattern.Some? ==> r.data.code.Some? && ilike(r.data.code.value, q.codePattern.value))
  }

  function QueryFilter(q: Query, ilike: (string, string) -> bool): Row<Product> -> bool {
    (r: Row<Product>) => Satisfies(q, ilike, r)
  }

  /** `findAll(companyId, page, limit, filters)`: builds the query condition by condition,
      then returns one page of the live matches and their total. */
  method FindAll(db: Db, companyId: Id, ilike: (string, string) -> bool, filters: Filters, page: int := 1, limit: int := 20)
    returns (r: Paged<Row<Product>>, ghost query: Query)
    requires page >= 1 && limit >= 1
    ensures query.companyId == companyId
    ensures query.namePattern == (if Truthy(filters.name) then Some("%" + filters.name.value + "%") else None)
    ensures query.codePattern == (if Truthy(filters.code) then Some("%" + filters.code.value + "%") else None)
    ensures r == Paginate(Select(db.products, QueryFilter(query, ilike)), page, limit)
    ensures forall x :: x in r.data ==> x in db.products && x.Live() && x.data.companyId == companyId
    ensures forall x :: x in r.data && Truthy(filters.name) ==> ilike(x.data.name, "%" + filters.name.value + "%")
    ensures forall x :: x in r.data && Truthy(filters.code)
              ==> x.data.code.Some? && ilike(x.data.code.value, "%" + filters.code.value + "%")
  {
    var q := Query(companyId, None, None);
    if Truthy(filters.name) {
      q := q.(namePattern := Some("%" + filters.name.value + "%"));
    }
    if Truthy(filters.code) {
      q := q.(codePattern := Some("%" + filters.code.value + "%"));
    }
    query := q;
    r := Paginate(Select(db.products, QueryFilter(q, ilike)), page, limit);
    assert forall i :: 0 <= i < |r.data| ==> r.data[i] in Select(db.products, QueryFilter(q, ilike));
  }

  /** With no filters, every live product of the company is listed on some page. */
  lemma FindAllListsEveryProduct(db: Db, companyId: Id, ilike: (string, string) -> bool, limit: int, i: nat)
    requires limit >= 1
    requires i < |db.products| && db.products[i].Live() && db.products[i].data.companyId == companyId
    ensures exists page :: page >= 1
              && db.products[i] in Paginate(Select(db.products, QueryFilter(Query(companyId, None, None), ilike)), page, limit).data
  {
    assert Matches(db.products[i], QueryFilter(Query(companyId, None, None), ilike));
    SelectPaginateReaches(db.products, QueryFilter(Query(companyId, None, None), ilike), limit, i);
  }

  /** `findOne(id, companyId)`: NotFound for an id with no live product, Forbidden for
      another tenant's product. */
  function FindOne(db: Db, id: Id, companyId: Id): (r: Result<Row<Product>, Error>)
    reads db
    ensures r == CheckCompanyAccess(Find(db.products, ById(id)), ProductCompany, companyId, "Product")
  {
    var rows := db.products;
    ValidateCompanyAccess(() => Find(rows, ById(id)), ProductCompany, companyId, "Product")
  }

  /** What `findOne` decides, in terms of the table. */
  lemma FindOneOutcome(db: Db, id: Id, companyId: Id)
    requires db.Valid()
    ensures FindOne(db, id, companyId) == Failure(NotFound("Product not found"))
            <==> forall i :: 0 <= i < |db.products| && db.products[i].id == id ==> !db.products[i].Live()
    ensures (forall i :: 0 <= i < |db.products| && db.products[i].id == id && db.products[i].Live()
              ==> Foreign(Some(db.products[i].data.companyId), companyId))
            && (exists i :: 0 <= i < |db.products| && db.products[i].id == id && db.products[i].Live())
            <==> FindOne(db, id, companyId) == Failure(Forbidden(AccessDenied))
    ensures FindOne(db, id, companyId).Success?
            ==> var p := FindOne(db, id, companyId).value; p in db.products && p.id == id && p.Live() && !Foreign(Some(p.data.companyId), companyId)
    ensures FindOne(db, id, companyId).Success?
            <==> exists i :: 0 <= i < |db.products| && db.products[i].id == id && db.products[i].Live()
                             && !Foreign(Some(db.products[i].data.companyId), companyId)
  {
    if exists i :: 0 <= i < |db.products| && db.products[i].id == id && db.products[i].Live() {
      var i :| 0 <= i < |db.products| && db.products[i].id == id && db.products[i].Live();
      FindByIdUnique(db.products, id, i);
    } else {
      forall j | 0 <= j < |db.products|
        ensures !Matches(db.products[j], ById(id))
      {
      }
      assert "Product" + " not found" == "Product not found";
    }
  }

  /** `update(id, patch, companyId)`: a non-empty code is checked in the caller's company,
      excluding the product itself; then the tenant check; then only the row matching
      `{ id, companyId }` is patched, and the product is read back. */
  method Update(db: Db, id: Id, patch: ProductPatch, companyId: Id) returns (r: Result<Row<Product>, Error>)
    requires db.Valid()
    modifies db`products
    ensures db.Valid()
    ensures Truthy(patch.code) && AssertNotExists(old(db.products), ByKey(ProductKey, (companyId, patch.code.value)), DuplicateCode, Some(id)).Fail?
            ==> r == Failure(BadRequest(DuplicateCode)) && db.products == old(db.products)
    ensures Truthy(patch.code) && Taken(old(db.products), ProductKey, (companyId, patch.code.value), Some(id))
            ==> r == Failure(BadRequest(DuplicateCode))
    ensures !(Truthy(patch.code) && AssertNotExists(old(db.products), ByKey(ProductKey, (companyId, patch.code.value)), DuplicateCode, Some(id)).Fail?)
            && old(FindOne(db, id, companyId)).Failure?
            ==> r == old(FindOne(db, id, companyId)) && db.products == old(db.products)
    ensures !(Truthy(patch.code) && AssertNotExists(old(db.products), ByKey(ProductKey, (companyId, patch.code.value)), DuplicateCode, Some(id)).Fail?)
            && old(FindOne(db, id, companyId)).Success?
            ==> db.products == SetData(old(db.products), ByIdIn(id, companyId), ApplyPatch(patch))
                && r == FindOne(db, id, companyId)
                && (old(FindOne(db, id, companyId)).value.data.companyId == companyId
                    ==> r == Success(old(FindOne(db, id, companyId)).value.(data := ApplyPatch(patch)(old(FindOne(db, id, companyId)).value.data))))
  {
    if Truthy(patch.code) {
      var check := AssertNotExists(db.products, ByKey(ProductKey, (companyId, patch.code.value)), DuplicateCode, Some(id));
      AssertNotExistsByKey(db.products, ProductKey, (companyId, patch.code.value), DuplicateCode, Some(id));
      if check.Fail? {
        return Failure(check.error);
      }
    }
    var access := FindOne(db, id, companyId);
    if access.Failure? {
      return access;
    }
    forall i | 0 <= i < |db.products| && ByIdIn(id, companyId)(db.products[i]) && db.products[i].Live()
      ensures KeyFree(db.products, ProductKey, ApplyPatch(patch)(db.products[i].data), Some(id))
    {
      ApplyPatchKey(patch, db.products[i].data);
      OwnKeyFree(db.products, ProductKey, i);
    }
    SetDataKeepsKeyed(db.products, ProductKey, ByIdIn(id, companyId), ApplyPatch(patch), id);
    FindAfterSetData(db.products, ByIdIn(id, companyId), ApplyPatch(patch), id);
    db.products := SetData(db.products, ByIdIn(id, companyId), ApplyPatch(patch));
    ApplyPatchKey(patch, access.value.data);
    return FindOne(db, id, companyId);
  }

  /** `remove(id, companyId)`: soft-deletes `{ id, companyId }` only after the tenant check. */
  method Remove(db: Db, id: Id, companyId: Id, now: Time) returns (r: Outcome<Error>)
    requires db.Valid()
    modifies db`products
    ensures db.Valid()
    ensures old(FindOne(db, id, companyId)).Failure?
            ==> r == Fail(old(FindOne(db, id, companyId)).error) && db.products == old(db.products)
    ensures old(FindOne(db, id, companyId)).Success?
            ==> r == Pass && db.products == SoftDelete(old(db.products), ByIdIn(id, companyId), now)
  {
    var access := FindOne(db, id, companyId);
    if access.Failure? {
      return Fail(access.error);
    }
    SoftDeleteKeepsKeyed(db.products, ProductKey, ByIdIn(id, companyId), now);
    db.products := SoftDelete(db.products, ByIdIn(id, companyId), now);
    return Pass;
  }

  /** `hardRemove(id, companyId)`: deletes `{ id, companyId }` only after the tenant check. */
  method HardRemove(db: Db, id: Id, companyId: Id) returns (r: Outcome<Error>)
    requires db.Valid()
    modifies db`products
    ensures db.Valid()
    ensures old(FindOne(db, id, companyId)).Failure?
            ==> r == Fail(old(FindOne(db, id, companyId)).error) && db.products == old(db.products)
    ensures old(FindOne(db, id, companyId)).Success?
            ==> r == Pass && db.products == Delete(old(db.products), ByIdIn(id, companyId))
  {
    var access := FindOne(db, id, companyId);
    if access.Failure? {
      return Fail(access.error);
    }
    DeleteKeepsKeyed(db.products, ProductKey, ByIdIn(id, companyId));
    db.products := Delete(db.products, ByIdIn(id, companyId));
    return Pass;
  }

  // ---------------------------------------------------------------------------
  // `update` as written applies the patch's `companyId` too

  /** The column update the source performs: every supplied column, `companyId` included. */
  function ApplyPatchAsWritten(patch: ProductPatch): Product -> Product {
    (p: Product) => ApplyPatch(patch)(p).(companyId := patch.companyId.GetOr(p.companyId))
  }

  /** The table after `update(id, patch, companyId)` as written, or the error it throws.
      The code check and the tenant check only look at the caller's company. */
  function UpdateAsWritten(rows: seq<Row<Product>>, id: Id, patch: ProductPatch, companyId: Id)
    : (r: Result<seq<Row<Product>>, Error>)
    ensures r.Success? ==> |r.value| == |rows|
    ensures r.Success? ==>
              forall i :: 0 <= i < |rows| && ByIdIn(id, companyId)(rows[i]) ==> r.value[i].data.companyId == patch.companyId.GetOr(companyId)
  {
    if Truthy(patch.code) && AssertNotExists(rows, ByKey(ProductKey, (companyId, patch.code.value)), DuplicateCode, Some(id)).Fail? then
      Failure(BadRequest(DuplicateCode))
    else
      match CheckCompanyAccess(Find(rows, ById(id)), ProductCompany, companyId, "Product")
      case Failure(e) => Failure(e)
      case Success(_) => Success(SetData(rows, ByIdIn(id, companyId), ApplyPatchAsWritten(patch)))
  }

  /** Company c1's product p1 with code X, company c2's product p2 with code X: a valid
      table. An update of p1 by c1 with body `{ companyId: c2, code: X }` passes both
      checks and moves p1 into c2, where X is now held twice among live products. */
  lemma UpdateAsWrittenDuplicatesCode()
    ensures var rows := [Row("p1", None, Product("c1", "A", Some("X"), "1", Solid, None)),
                         Row("p2", None, Product("c2", "B", Some("X"), "1", Solid, None))];
            var patch := ProductPatch(Some("c2"), None, Some("X"), None, None, None);
            && Keyed(rows, ProductKey)
            && UpdateAsWritten(rows, "p1", patch, "c1").Success?
            && !Keyed(UpdateAsWritten(rows, "p1", patch, "c1").value, ProductKey)
  {
    var rows := [Row("p1", None, Product("c1", "A", Some("X"), "1", Solid, None)),
                 Row("p2", None, Product("c2", "B", Some("X"), "1", Solid, None))];
    var patch := ProductPatch(Some("c2"), None, Some("X"), None, None, None);
    assert Find(rows, ByKey(ProductKey, ("c1", "X"))) == Some(rows[0]) by {
      assert Truthy(rows[0].data.code);
      assert ProductKey(rows[0].data) == Some(("c1", "X"));
      assert Matches(rows[0], ByKey(ProductKey, ("c1", "X")));
    }
    assert Find(rows, ById("p1")) == Some(rows[0]) by {
      assert Matches(rows[0], ById("p1"));
    }
    var after := UpdateAsWritten(rows, "p1", patch, "c1").value;
    assert after == SetData(rows, ByIdIn("p1", "c1"), ApplyPatchAsWritten(patch));
    assert after[0].data == ApplyPatchAsWritten(patch)(rows[0].data);
    assert ApplyPatch(patch)(rows[0].data).code == Some("X");
    assert after[0].data.companyId == "c2" && after[0].data.code == Some("X");
    assert after[1] == rows[1];
    assert ProductKey(after[0].data) == ProductKey(after[1].data);
  }

  /** The defect itself, on a table with no code at all: company c1 updates its own product
      p1 with body `{ companyId: c2 }`. Both checks pass, and the row now belongs to c2,
      a tenant c1 may not write to, while the corrected `Update` keeps it in c1. */
  lemma UpdateAsWrittenMovesToOtherTenant()
    ensures var rows := [Row("p1", None, Product("c1", "A", None, "1", Solid, None))];
            var patch := ProductPatch(Some("c2"), None, None, None, None, None);
            && Keyed(rows, ProductKey)
            && UpdateAsWritten(rows, "p1", patch, "c1").Success?
            && UpdateAsWritten(rows, "p1", patch, "c1").value[0].data.companyId == "c2"
            && ApplyPatch(patch)(rows[0].data).companyId == "c1"
  {
    var rows := [Row("p1", None, Product("c1", "A", None, "1", Solid, None))];
    var patch := ProductPatch(Some("c2"), None, None, None, None, None);
    assert Find(rows, ById("p1")) == Some(rows[0]) by {
      assert Matches(rows[0], ById("p1"));
    }
    var after := UpdateAsWritten(rows, "p1", patch, "c1").value;
    assert after == SetData(rows, ByIdIn("p1", "c1"), ApplyPatchAsWritten(patch));
    assert after[0].data == ApplyPatchAsWritten(patch)(rows[0].data);
  }
}
