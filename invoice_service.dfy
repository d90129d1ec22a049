/** `InvoiceService`: invoice numbers are unique per company among live invoices. */
module InvoiceService {
  import opened Wrappers
  import opened Tables
  import opened Entities
  import opened Database

  const DuplicateNumber: string := "An invoice with this number already exists for this company"

  /** What `create` receives; `date` and `status` may be absent. */
  datatype InvoiceData = InvoiceData(companyId: Id, orderId: Id, number: string, date: Option<Time>,
                                     status: Option<string>, modifiedBy: Option<Id>)

  /** What `update` receives: the key columns the uniqueness lookup needs, and any others. */
  datatype InvoicePatch = InvoicePatch(companyId: Id, number: string, orderId: Option<Id>, date: Option<Time>,
                                       status: Option<string>, modifiedBy: Option<Id>)

  /** The row `create` saves: an absent date becomes `now`, an absent status takes the
      column default "pending"; everything supplied is kept. */
  function NewInvoice(data: InvoiceData, now: Time): (r: Invoice)
    ensures r.companyId == data.companyId && r.orderId == data.orderId && r.number == data.number
    ensures r.date == (if data.date.Some? then data.date.value else now)
    ensures r.status == (if data.status.Some? then data.status.value else "pending")
    ensures InvoiceKey(r) == Some((data.companyId, data.number))
  {
    Invoice(data.companyId, data.orderId, data.number, data.date.GetOr(now), data.status.GetOr("pending"), data.modifiedBy)
  }

  /** `update(id, patch)` on one row's columns: supplied columns replace, absent ones stay. */
  function ApplyPatch(patch: InvoicePatch): Invoice -> Invoice {
    (i: Invoice) => Invoice(patch.companyId, patch.orderId.GetOr(i.orderId), patch.number,
                            patch.date.GetOr(i.date), patch.status.GetOr(i.status), if patch.modifiedBy.Some? then patch.modifiedBy else i.modifiedBy)
  }

  /** A patch always moves the row to the key it names. */
  lemma ApplyPatchKey(patch: InvoicePatch, i: Invoice)
    ensures InvoiceKey(ApplyPatch(patch)(i)) == Some((patch.companyId, patch.number))
    ensures patch == InvoicePatch(i.companyId, i.number, None, None, None, None) ==> ApplyPatch(patch)(i) == i
  {
  }

  /** `create`: rejects a number already live for the company, otherwise saves one row
      with the generated id `invoiceId`. */
  method Create(db: Db, data: InvoiceData, now: Time, invoiceId: Id) returns (r: Result<Row<Invoice>, Error>)
    requires db.Valid()
    requires invoiceId !in Ids(db.invoices)
    modifies db`invoices
    ensures db.Valid()
    ensures Taken(old(db.invoices), InvoiceKey, (data.companyId, data.number), None)
            ==> r == Failure(BadRequest(DuplicateNumber)) && db.invoices == old(db.invoices)
    ensures !Taken(old(db.invoices), InvoiceKey, (data.companyId, data.number), None)
            ==> r == Success(Row(invoiceId, None, NewInvoice(data, now))) && db.invoices == old(db.invoices) + [r.value]
  {
    var k := (data.companyId, data.number);
    var existing := Find(db.invoices, ByKey(InvoiceKey, k));
    FindByKeyExists(db.invoices, InvoiceKey, k);
    if existing.Some? {
      return Failure(BadRequest(DuplicateNumber));
    }
    var data := data;
    if data.date.None? {
      data := data.(date := Some(now));
    }
    var invoice := Row(invoiceId, None, NewInvoice(data, now));
    InsertKeepsKeyed(db.invoices, InvoiceKey, invoice);
    db.invoices := db.invoices + [invoice];
    return Success(invoice);
  }

  /** `findAll(companyId)`: the company's live invoices, in table order, unpaged. */
  function FindAll(db: Db, companyId: Id): (r: seq<Row<Invoice>>)
    reads db
    ensures forall x :: x in r ==> x in db.invoices && x.Live() && x.data.companyId == companyId
    ensures forall i :: 0 <= i < |db.invoices| && db.invoices[i].Live() && db.invoices[i].data.companyId == companyId
              ==> db.invoices[i] in r
  {
    Select(db.invoices, OfCompany(companyId))
  }

  function OfCompany(companyId: Id): Row<Invoice> -> bool {
    (r: Row<Invoice>) => r.data.companyId == companyId
  }

  /** `findOne(id)`: the live invoice with that id, with no tenant check. */
  function FindOne(db: Db, id: Id): (r: Option<Row<Invoice>>)
    reads db
    ensures r.Some? ==> r.value in db.invoices && r.value.Live() && r.value.id == id
    ensures r.None? <==> forall i :: 0 <= i < |db.invoices| && db.invoices[i].id == id ==> !db.invoices[i].Live()
  {
    var f := Find(db.invoices, ById(id));
    assert forall i :: 0 <= i < |db.invoices| ==> (Matches(db.invoices[i], ById(id)) <==> db.invoices[i].id == id && db.invoices[i].Live());
    f
  }

  /** `update(id, patch)`: conflicts only with a different live invoice holding the
      patched (companyId, number); then patches the row with that id and reads it back. */
  method Update(db: Db, id: Id, patch: InvoicePatch) returns (r: Result<Option<Row<Invoice>>, Error>)
    requires db.Valid()
    modifies db`invoices
    ensures db.Valid()
    ensures Taken(old(db.invoices), InvoiceKey, (patch.companyId, patch.number), Some(id))
            ==> r == Failure(BadRequest(DuplicateNumber)) && db.invoices == old(db.invoices)
    ensures !Taken(old(db.invoices), InvoiceKey, (patch.companyId, patch.number), Some(id))
            ==> db.invoices == SetData(old(db.invoices), ById(id), ApplyPatch(patch))
                && r == Success(var o := Find(old(db.invoices), ById(id));
                                if o.Some? then Some(o.value.(data := ApplyPatch(patch)(o.value.data))) else None)
  {
    var k := (patch.companyId, patch.number);
    var existing := Find(db.invoices, ByKey(InvoiceKey, k));
    FindByKeyIsTaken(db.invoices, InvoiceKey, k, Some(id));
    if existing.Some? && existing.value.id != id {
      return Failure(BadRequest(DuplicateNumber));
    }
    forall i | 0 <= i < |db.invoices| && ById<Invoice>(id)(db.invoices[i]) && db.invoices[i].Live()
      ensures KeyFree(db.invoices, InvoiceKey, ApplyPatch(patch)(db.invoices[i].data), Some(id))
    {
      ApplyPatchKey(patch, db.invoices[i].data);
    }
    SetDataKeepsKeyed(db.invoices, InvoiceKey, ById(id), ApplyPatch(patch), id);
    FindAfterSetData(db.invoices, ById(id), ApplyPatch(patch), id);
    db.invoices := SetData(db.invoices, ById(id), ApplyPatch(patch));
    return Success(FindOne(db, id));
  }

  /** `remove(id)`: soft-deletes; the invoice is no longer found and its number is free. */
  method Remove(db: Db, id: Id, now: Time)
    requires db.Valid()
    modifies db`invoices
    ensures db.Valid()
    ensures db.invoices == SoftDelete(old(db.invoices), ById(id), now)
    ensures FindOne(db, id).None?
    ensures forall k :: Taken(db.invoices, InvoiceKey, k, None) <==> Taken(old(db.invoices), InvoiceKey, k, Some(id))
  {
    SoftDeleteKeepsKeyed(db.invoices, InvoiceKey, ById(id), now);
    forall k {
      SoftDeleteFreesKey(db.invoices, InvoiceKey, ById(id), now, k);
    }
    db.invoices := SoftDelete(db.invoices, ById(id), now);
  }
}
