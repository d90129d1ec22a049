/** `WarehouseService`: warehouse names are unique per company among live warehouses.
    Reads and writes by id are not tenant-checked here. */
module WarehouseService {
  import opened Wrappers
  import opened Tables
  import opened Entities
  import opened Database

  const DuplicateName: string := "A warehouse with this name already exists for this company"

  datatype WarehouseData = WarehouseData(companyId: Id, kind: Option<StorageType>, name: string, address: Option<string>,
                                         modifiedBy: Option<Id>)

  /** What `update` receives: the key columns the uniqueness lookup needs, and any others. */
  datatype WarehousePatch = WarehousePatch(companyId: Id, name: string, kind: Option<StorageType>, address: Option<string>,
                                           modifiedBy: Option<Id>)

  function NewWarehouse(data: WarehouseData): Warehouse {
    Warehouse(data.companyId, data.kind, data.name, data.address, data.modifiedBy)
  }

  function ApplyPatch(patch: WarehousePatch): Warehouse -> Warehouse {
    (w: Warehouse) => Warehouse(patch.companyId, if patch.kind.Some? then patch.kind else w.kind, patch.name,
                                if patch.address.Some? then patch.address else w.address,
                                if patch.modifiedBy.Some? then patch.modifiedBy else w.modifiedBy)
  }

  lemma ApplyPatchKey(patch: WarehousePatch, w: Warehouse)
    ensures WarehouseKey(ApplyPatch(patch)(w)) == Some((patch.companyId, patch.name))
    ensures patch == WarehousePatch(w.companyId, w.name, None, None, None) ==> ApplyPatch(patch)(w) == w
  {
  }

  /** `create`: rejects a name already live for the company; otherwise saves one row. */
  method Create(db: Db, data: WarehouseData, warehouseId: Id) returns (r: Result<Row<Warehouse>, Error>)
    requires db.Valid()
    requires warehouseId !in Ids(db.warehouses)
    modifies db`warehouses
    ensures db.Valid()
    ensures Taken(old(db.warehouses), WarehouseKey, (data.companyId, data.name), None)
            ==> r == Failure(BadRequest(DuplicateName)) && db.warehouses == old(db.warehouses)
    ensures !Taken(old(db.warehouses), WarehouseKey, (data.companyId, data.name), None)
            ==> r == Success(Row(warehouseId, None, NewWarehouse(data))) && db.warehouses == old(db.warehouses) + [r.value]
  {
    var k := (data.companyId, data.name);
    var existing := Find(db.warehouses, ByKey(WarehouseKey, k));
    FindByKeyExists(db.warehouses, WarehouseKey, k);
    if existing.Some? {
      return Failure(BadRequest(DuplicateName));
    }
    var warehouse := Row(warehouseId, None, NewWarehouse(data));
    InsertKeepsKeyed(db.warehouses, WarehouseKey, warehouse);
    db.warehouses := db.warehouses + [warehouse];
    return Success(warehouse);
  }

  function OfCompany(companyId: Id): Row<Warehouse> -> bool {
    (r: Row<Warehouse>) => r.data.companyId == companyId
  }

  /** `findAll(companyId, page, limit)`: one page of the company's live warehouses and their total. */
  function FindAll(db: Db, companyId: Id, page: int := 1, limit: int := 20): (r: Paged<Row<Warehouse>>)
    reads db
    requires page >= 1 && limit >= 1
    ensures r.page == page && r.limit == limit && |r.data| <= limit
    ensures r.total == |Select(db.warehouses, OfCompany(companyId))|
    ensures forall x :: x in r.data ==> x in db.warehouses && x.Live() && x.data.companyId == companyId
  {
    var r := Paginate(Select(db.warehouses, OfCompany(companyId)), page, limit);
    assert forall i :: 0 <= i < |r.data| ==> r.data[i] in Select(db.warehouses, OfCompany(companyId));
    r
  }

  /** Every live warehouse of the company is listed on some page. */
  lemma FindAllListsEveryWarehouse(db: Db, companyId: Id, limit: int, i: nat)
    requires limit >= 1
    requires i < |db.warehouses| && db.warehouses[i].Live() && db.warehouses[i].data.companyId == companyId
    ensures exists page :: page >= 1 && db.warehouses[i] in FindAll(db, companyId, page, limit).data
  {
    assert Matches(db.warehouses[i], OfCompany(companyId));
    SelectPaginateReaches(db.warehouses, OfCompany(companyId), limit, i);
    var page :| page >= 1 && db.warehouses[i] in Paginate(Select(db.warehouses, OfCompany(companyId)), page, limit).data;
    assert FindAll(db, companyId, page, limit) == Paginate(Select(db.warehouses, OfCompany(companyId)), page, limit);
  }

  /** `findOne(id)`: the live warehouse with that id, of whichever company. */
  function FindOne(db: Db, id: Id): (r: Option<Row<Warehouse>>)
    reads db
    ensures r.Some? ==> r.value in db.warehouses && r.value.Live() && r.value.id == id
    ensures r.None? <==> forall i :: 0 <= i < |db.warehouses| && db.warehouses[i].id == id ==> !db.warehouses[i].Live()
  {
    var f := Find(db.warehouses, ById(id));
    assert forall i :: 0 <= i < |db.warehouses| ==> (Matches(db.warehouses[i], ById(id)) <==> db.warehouses[i].id == id && db.warehouses[i].Live());
    f
  }

  /** `update(id, patch)`: conflicts only with a different live warehouse holding the
      patched (companyId, name); then patches the row with that id and reads it back. */
  method Update(db: Db, id: Id, patch: WarehousePatch) returns (r: Result<Option<Row<Warehouse>>, Error>)
    requires db.Valid()
    modifies db`warehouses
    ensures db.Valid()
    ensures Taken(old(db.warehouses), WarehouseKey, (patch.companyId, patch.name), Some(id))
            ==> r == Failure(BadRequest(DuplicateName)) && db.warehouses == old(db.warehouses)
    ensures !Taken(old(db.warehouses), WarehouseKey, (patch.companyId, patch.name), Some(id))
            ==> db.warehouses == SetData(old(db.warehouses), ById(id), ApplyPatch(patch))
                && r == Success(var o := Find(old(db.warehouses), ById(id));
                                if o.Some? then Some(o.value.(data := ApplyPatch(patch)(o.value.data))) else None)
  {
    var k := (patch.companyId, patch.name);
    var existing := Find(db.warehouses, ByKey(WarehouseKey, k));
    FindByKeyIsTaken(db.warehouses, WarehouseKey, k, Some(id));
    if existing.Some? && existing.value.id != id {
      return Failure(BadRequest(DuplicateName));
    }
    forall i | 0 <= i < |db.warehouses| && ById<Warehouse>(id)(db.warehouses[i]) && db.warehouses[i].Live()
      ensures KeyFree(db.warehouses, WarehouseKey, ApplyPatch(patch)(db.warehouses[i].data), Some(id))
    {
      ApplyPatchKey(patch, db.warehouses[i].data);
    }
    SetDataKeepsKeyed(db.warehouses, WarehouseKey, ById(id), ApplyPatch(patch), id);
    FindAfterSetData(db.warehouses, ById(id), ApplyPatch(patch), id);
    db.warehouses := SetData(db.warehouses, ById(id), ApplyPatch(patch));
    return Success(FindOne(db, id));
  }

  /** `remove(id)`: soft-deletes; the warehouse is no longer found and its name is free. */
  method Remove(db: Db, id: Id, now: Time)
    requires db.Valid()
    modifies db`warehouses
    ensures db.Valid()
    ensures db.warehouses == SoftDelete(old(db.warehouses), ById(id), now)
    ensures FindOne(db, id).None?
    ensures forall k :: Taken(db.warehouses, WarehouseKey, k, None) <==> Taken(old(db.warehouses), WarehouseKey, k, Some(id))
  {
    SoftDeleteKeepsKeyed(db.warehouses, WarehouseKey, ById(id), now);
    forall k {
      SoftDeleteFreesKey(db.warehouses, WarehouseKey, ById(id), now, k);
    }
    db.warehouses := SoftDelete(db.warehouses, ById(id), now);
  }

  /** `hardRemove(id)`: deletes the row outright; its name is free. */
  method HardRemove(db: Db, id: Id)
    requires db.Valid()
    modifies db`warehouses
    ensures db.Valid()
    ensures db.warehouses == Delete(old(db.warehouses), ById(id))
    ensures forall x :: x in db.warehouses ==> x.id != id
    ensures forall k :: Taken(db.warehouses, WarehouseKey, k, None) <==> Taken(old(db.warehouses), WarehouseKey, k, Some(id))
  {
    DeleteKeepsKeyed(db.warehouses, WarehouseKey, ById(id));
    forall k {
      DeleteFreesKey(db.warehouses, WarehouseKey, ById(id), k);
    }
    db.warehouses := Delete(db.warehouses, ById(id));
  }
}
