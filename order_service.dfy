/** `OrderService`: order numbers are unique per company among live orders, and every
    created order triggers the creation of its invoice. */
module OrderService {
  import opened Wrappers
  import opened Tables
  import opened Entities
  import opened Database
  import InvoiceService

  const DuplicateNumber: string := "An order with this number already exists for this company"

  /** What `create` receives; `date` may be absent. */
  datatype OrderData = OrderData(companyId: Id, number: string, kind: OrderType, customerId: Id, warehouseId: Id,
                                 date: Option<Time>, modifiedBy: Option<Id>)

  /** What `update` receives: the key columns the uniqueness lookup needs, and any others. */
  datatype OrderPatch = OrderPatch(companyId: Id, number: string, kind: Option<OrderType>, customerId: Option<Id>,
                                   warehouseId: Option<Id>, date: Option<Time>, modifiedBy: Option<Id>)

  /** The value of one decimal digit character. */
  function DigitValue(c: char): nat {
    if '0' <= c <= '9' then c as int - '0' as int else 0
  }

  /** The number a string of decimal digits denotes, read left to right. */
  ghost function DigitsValue(s: string): nat
    decreases |s|
  {
    if |s| == 0 then 0 else DigitsValue(s[..|s| - 1]) * 10 + DigitValue(s[|s| - 1])
  }

  /** A digit string as JavaScript prints an integer: non-empty, digits only, and no
      leading zero unless the number is 0 itself. */
  ghost predicate Canonical(s: string) {
    && |s| >= 1
    && (forall i :: 0 <= i < |s| ==> '0' <= s[i] <= '9')
    && (|s| > 1 ==> s[0] != '0')
  }

  /** The decimal digits of `n`, as a template literal renders a millisecond count: a
      canonical digit string that reads back as `n`. */
  function Decimal(n: nat): (r: string)
    ensures Canonical(r)
    ensures DigitsValue(r) == n
    decreases n
  {
    var d := ['0' + (n % 10) as char];
    if n < 10 then
      assert d[..0] == [];
      d
    else
      var front := Decimal(n / 10);
      assert (front + d)[..|front|] == front;
      front + d
  }

  /** A canonical digit string other than "0" denotes a positive number. */
  lemma {:induction false} CanonicalPositive(s: string)
    requires Canonical(s) && s[0] != '0'
    ensures DigitsValue(s) >= 1
    decreases |s|
  {
    if |s| == 1 {
      assert s[..0] == [];
    } else {
      var t := s[..|s| - 1];
      assert t[0] == s[0];
      CanonicalPositive(t);
    }
  }

  /** `Decimal` is onto the canonical digit strings: printing the number such a string
      denotes gives the string back. With `DigitsValue(Decimal(n)) == n` the two are
      inverse bijections between numbers and canonical strings. */
  lemma {:induction false} DecimalOfDigitsValue(s: string)
    requires Canonical(s)
    ensures Decimal(DigitsValue(s)) == s
    decreases |s|
  {
    var n := DigitsValue(s);
    var c := s[|s| - 1];
    var t := s[..|s| - 1];
    assert s == t + [c];
    if |s| == 1 {
      assert t == [];
      assert n == DigitValue(c) < 10;
      assert ['0' + (n % 10) as char] == [c];
    } else {
      assert t[0] == s[0];
      assert Canonical(t);
      CanonicalPositive(t);
      assert n == DigitsValue(t) * 10 + DigitValue(c) && DigitValue(c) < 10;
      assert n / 10 == DigitsValue(t) && n % 10 == DigitValue(c);
      DecimalOfDigitsValue(t);
      assert ['0' + (n % 10) as char] == [c];
    }
  }

  /** The invoice number `INV-<milliseconds>`; `stamp` is the clock reading `Date.now()`.
      The part after the prefix is a canonical digit string denoting the stamp. */
  function InvoiceNumber(stamp: nat): (r: string)
    ensures |r| > 4 && r[..4] == "INV-"
    ensures Canonical(r[4..]) && DigitsValue(r[4..]) == stamp
  {
    var r := "INV-" + Decimal(stamp);
    assert r[4..] == Decimal(stamp);
    r
  }

  /** Distinct clock readings give distinct invoice numbers. */
  lemma InvoiceNumberInjective(a: nat, b: nat)
    ensures a != b ==> InvoiceNumber(a) != InvoiceNumber(b)
  {
    if InvoiceNumber(a) == InvoiceNumber(b) {
      assert InvoiceNumber(a)[4..] == InvoiceNumber(b)[4..];
    }
  }

  /** Every `INV-` followed by a canonical digit string is the number of the reading
      that string denotes. */
  lemma InvoiceNumberOnto(s: string)
    requires Canonical(s)
    ensures InvoiceNumber(DigitsValue(s)) == "INV-" + s
  {
    DecimalOfDigitsValue(s);
  }

  /** The row `create` saves: an absent date becomes `now`, everything supplied is kept. */
  function NewOrder(data: OrderData, now: Time): (r: Order)
    ensures r.companyId == data.companyId && r.number == data.number && r.kind == data.kind
    ensures r.customerId == data.customerId && r.warehouseId == data.warehouseId && r.modifiedBy == data.modifiedBy
    ensures r.date == (if data.date.Some? then data.date.value else now)
  {
    Order(data.companyId, data.number, data.kind, data.customerId, data.warehouseId, data.date.GetOr(now), data.modifiedBy)
  }

  /** The invoice `create` requests for a saved order. */
  function InvoiceFor(saved: Row<Order>, stamp: nat): (r: InvoiceService.InvoiceData)
    ensures r.companyId == saved.data.companyId && r.orderId == saved.id && r.date == Some(saved.data.date)
    ensures r.status == Some("pending") && r.number == InvoiceNumber(stamp)
  {
    InvoiceService.InvoiceData(saved.data.companyId, saved.id, InvoiceNumber(stamp), Some(saved.data.date), Some("pending"), None)
  }

  /** `update(id, patch)` on one row's columns: supplied columns replace, absent ones stay. */
  function ApplyPatch(patch: OrderPatch): Order -> Order {
    (o: Order) => Order(patch.companyId, patch.number, patch.kind.GetOr(o.kind), patch.customerId.GetOr(o.customerId),
                        patch.warehouseId.GetOr(o.warehouseId), patch.date.GetOr(o.date),
                        if patch.modifiedBy.Some? then patch.modifiedBy else o.modifiedBy)
  }

  lemma ApplyPatchKey(patch: OrderPatch, o: Order)
    ensures OrderKey(ApplyPatch(patch)(o)) == Some((patch.companyId, patch.number))
    ensures patch == OrderPatch(o.companyId, o.number, None, None, None, None, None) ==> ApplyPatch(patch)(o) == o
  {
  }

  /** `create`: rejects a number already live for the company; otherwise saves the order
      with id `orderId` and then creates its invoice with id `invoiceId`. No transaction
      spans the two: if the invoice is rejected the saved order stays and the invoice's
      error is what the caller sees. */
  method Create(db: Db, data: OrderData, now: Time, stamp: nat, orderId: Id, invoiceId: Id)
    returns (r: Result<Row<Order>, Error>)
    requires db.Valid()
    requires orderId !in Ids(db.orders) && invoiceId !in Ids(db.invoices)
    modifies db`orders, db`invoices
    ensures db.Valid()
    ensures Taken(old(db.orders), OrderKey, (data.companyId, data.number), None)
            ==> r == Failure(BadRequest(DuplicateNumber))
                && db.orders == old(db.orders) && db.invoices == old(db.invoices)
    ensures !Taken(old(db.orders), OrderKey, (data.companyId, data.number), None)
            ==> var saved := Row(orderId, None, NewOrder(data, now));
                && db.orders == old(db.orders) + [saved]
                && (Taken(old(db.invoices), InvoiceKey, (data.companyId, InvoiceNumber(stamp)), None)
                    ==> r == Failure(BadRequest(InvoiceService.DuplicateNumber)) && db.invoices == old(db.invoices))
                && (!Taken(old(db.invoices), InvoiceKey, (data.companyId, InvoiceNumber(stamp)), None)
                    ==> r == Success(saved)
                        && db.invoices == old(db.invoices) + [Row(invoiceId, None, InvoiceService.NewInvoice(InvoiceFor(saved, stamp), now))])
  {
    var k := (data.companyId, data.number);
    var existing := Find(db.orders, ByKey(OrderKey, k));
    FindByKeyExists(db.orders, OrderKey, k);
    if existing.Some? {
      return Failure(BadRequest(DuplicateNumber));
    }
    var data := data;
    if data.date.None? {
      data := data.(date := Some(now));
    }
    var savedOrder := Row(orderId, None, NewOrder(data, now));
    InsertKeepsKeyed(db.orders, OrderKey, savedOrder);
    db.orders := db.orders + [savedOrder];
    var invoice := InvoiceService.Create(db, InvoiceFor(savedOrder, stamp), now, invoiceId);
    if invoice.Failure? {
      return Failure(invoice.error);
    }
    return Success(savedOrder);
  }

  function OfCompany(companyId: Id): Row<Order> -> bool {
    (r: Row<Order>) => r.data.companyId == companyId
  }

  /** `findAll(companyId, page, limit)`: one page of the company's live orders and
      their total count; the service's defaults are page 1 and limit 20. */
  function FindAll(db: Db, companyId: Id, page: int := 1, limit: int := 20): (r: Paged<Row<Order>>)
    reads db
    requires page >= 1 && limit >= 1
    ensures r.page == page && r.limit == limit && |r.data| <= limit
    ensures r.total == |Select(db.orders, OfCompany(companyId))|
    ensures forall x :: x in r.data ==> x in db.orders && x.Live() && x.data.companyId == companyId
  {
    var r := Paginate(Select(db.orders, OfCompany(companyId)), page, limit);
    assert forall i :: 0 <= i < |r.data| ==> r.data[i] in Select(db.orders, OfCompany(companyId));
    r
  }

  /** Every live order of the company is listed on some page. */
  lemma FindAllListsEveryOrder(db: Db, companyId: Id, limit: int, i: nat)
    requires limit >= 1
    requires i < |db.orders| && db.orders[i].Live() && db.orders[i].data.companyId == companyId
    ensures exists page :: page >= 1 && db.orders[i] in FindAll(db, companyId, page, limit).data
  {
    assert Matches(db.orders[i], OfCompany(companyId));
    SelectPaginateReaches(db.orders, OfCompany(companyId), limit, i);
    var page :| page >= 1 && db.orders[i] in Paginate(Select(db.orders, OfCompany(companyId)), page, limit).data;
    assert FindAll(db, companyId, page, limit) == Paginate(Select(db.orders, OfCompany(companyId)), page, limit);
  }

  /** `findOne(id)`: the live order with that id, with no tenant check. */
  function FindOne(db: Db, id: Id): (r: Option<Row<Order>>)
    reads db
    ensures r.Some? ==> r.value in db.orders && r.value.Live() && r.value.id == id
    ensures r.None? <==> forall i :: 0 <= i < |db.orders| && db.orders[i].id == id ==> !db.orders[i].Live()
  {
    var f := Find(db.orders, ById(id));
    assert forall i :: 0 <= i < |db.orders| ==> (Matches(db.orders[i], ById(id)) <==> db.orders[i].id == id && db.orders[i].Live());
    f
  }

  /** `update(id, patch)`: conflicts only with a different live order holding the patched
      (companyId, number), so re-saving an order's own number succeeds; then patches the
      row with that id and reads it back. */
  method Update(db: Db, id: Id, patch: OrderPatch) returns (r: Result<Option<Row<Order>>, Error>)
    requires db.Valid()
    modifies db`orders
    ensures db.Valid()
    ensures Taken(old(db.orders), OrderKey, (patch.companyId, patch.number), Some(id))
            ==> r == Failure(BadRequest(DuplicateNumber)) && db.orders == old(db.orders)
    ensures !Taken(old(db.orders), OrderKey, (patch.companyId, patch.number), Some(id))
            ==> db.orders == SetData(old(db.orders), ById(id), ApplyPatch(patch))
                && r == Success(var o := Find(old(db.orders), ById(id));
                                if o.Some? then Some(o.value.(data := ApplyPatch(patch)(o.value.data))) else None)
  {
    var k := (patch.companyId, patch.number);
    var existing := Find(db.orders, ByKey(OrderKey, k));
    FindByKeyIsTaken(db.orders, OrderKey, k, Some(id));
    if existing.Some? && existing.value.id != id {
      return Failure(BadRequest(DuplicateNumber));
    }
    forall i | 0 <= i < |db.orders| && ById<Order>(id)(db.orders[i]) && db.orders[i].Live()
      ensures KeyFree(db.orders, OrderKey, ApplyPatch(patch)(db.orders[i].data), Some(id))
    {
      ApplyPatchKey(patch, db.orders[i].data);
    }
    SetDataKeepsKeyed(db.orders, OrderKey, ById(id), ApplyPatch(patch), id);
    FindAfterSetData(db.orders, ById(id), ApplyPatch(patch), id);
    db.orders := SetData(db.orders, ById(id), ApplyPatch(patch));
    return Success(FindOne(db, id));
  }

  /** `remove(id)`: soft-deletes; the order is no longer found and its number is free. */
  method Remove(db: Db, id: Id, now: Time)
    requires db.Valid()
    modifies db`orders
    ensures db.Valid()
    ensures db.orders == SoftDelete(old(db.orders), ById(id), now)
    ensures FindOne(db, id).None?
    ensures forall k :: Taken(db.orders, OrderKey, k, None) <==> Taken(old(db.orders), OrderKey, k, Some(id))
  {
    SoftDeleteKeepsKeyed(db.orders, OrderKey, ById(id), now);
    forall k {
      SoftDeleteFreesKey(db.orders, OrderKey, ById(id), now, k);
    }
    db.orders := SoftDelete(db.orders, ById(id), now);
  }

  /** `hardRemove(id)`: deletes the row outright; its number is free. */
  method HardRemove(db: Db, id: Id)
    requires db.Valid()
    modifies db`orders
    ensures db.Valid()
    ensures db.orders == Delete(old(db.orders), ById(id))
    ensures forall x :: x in db.orders ==> x.id != id
    ensures forall k :: Taken(db.orders, OrderKey, k, None) <==> Taken(old(db.orders), OrderKey, k, Some(id))
  {
    DeleteKeepsKeyed(db.orders, OrderKey, ById(id));
    forall k {
      DeleteFreesKey(db.orders, OrderKey, ById(id), k);
    }
    db.orders := Delete(db.orders, ById(id));
  }
}
