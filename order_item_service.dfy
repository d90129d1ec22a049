/** `OrderItemService`: a product appears at most once per order among live items, and
    items are scoped to a tenant through the order they belong to. */
module OrderItemService {
  import opened Wrappers
  import opened Tables
  import opened Entities
  import opened Database

  const AlreadyAdded: string := "This product is already added to the order"
  const ItemNotFound: string := "Order item not found"

  datatype OrderItemData = OrderItemData(orderId: Id, productId: Id, quantity: int, price: string, modifiedBy: Option<Id>)

  /** What `update` receives: the key columns the uniqueness lookup needs, and any others. */
  datatype OrderItemPatch = OrderItemPatch(orderId: Id, productId: Id, quantity: Option<int>, price: Option<string>,
                                           modifiedBy: Option<Id>)

  function NewItem(data: OrderItemData): OrderItem {
    OrderItem(data.orderId, data.productId, data.quantity, data.price, data.modifiedBy)
  }

  function ApplyPatch(patch: OrderItemPatch): OrderItem -> OrderItem {
    (i: OrderItem) => OrderItem(patch.orderId, patch.productId, patch.quantity.GetOr(i.quantity), patch.price.GetOr(i.price),
                                if patch.modifiedBy.Some? then patch.modifiedBy else i.modifiedBy)
  }

  lemma ApplyPatchKey(patch: OrderItemPatch, i: OrderItem)
    ensures OrderItemKey(ApplyPatch(patch)(i)) == Some((patch.orderId, patch.productId))
    ensures patch == OrderItemPatch(i.orderId, i.productId, None, None, None) ==> ApplyPatch(patch)(i) == i
  {
  }

  /** The item's order is a live order of the company (the inner join on `order`). */
  ghost predicate BelongsTo(orders: seq<Row<Order>>, item: Row<OrderItem>, companyId: Id) {
    exists j :: 0 <= j < |orders| && orders[j].Live() && orders[j].id == item.data.orderId && orders[j].data.companyId == companyId
  }

  /** The join condition `order.companyId = :companyId`, evaluated on the order table. */
  function OfCompany(orders: seq<Row<Order>>, companyId: Id): Row<OrderItem> -> bool {
    (r: Row<OrderItem>) => var o := Find(orders, ById(r.data.orderId)); o.Some? && o.value.data.companyId == companyId
  }

  /** With distinct order ids, the join condition is exactly `BelongsTo`. */
  lemma OfCompanyIsBelongsTo(orders: seq<Row<Order>>, item: Row<OrderItem>, companyId: Id)
    requires DistinctIds(orders)
    ensures OfCompany(orders, companyId)(item) <==> BelongsTo(orders, item, companyId)
  {
    if BelongsTo(orders, item, companyId) {
      var j :| 0 <= j < |orders| && orders[j].Live() && orders[j].id == item.data.orderId && orders[j].data.companyId == companyId;
      FindByIdUnique(orders, item.data.orderId, j);
    }
  }

  function WithIdOf(id: Id, orders: seq<Row<Order>>, companyId: Id): Row<OrderItem> -> bool {
    (r: Row<OrderItem>) => r.id == id && OfCompany(orders, companyId)(r)
  }

  /** `create`: rejects a second live item for the same (orderId, productId); otherwise
      saves one row with the generated id `itemId`. */
  method Create(db: Db, data: OrderItemData, itemId: Id) returns (r: Result<Row<OrderItem>, Error>)
    requires db.Valid()
    requires itemId !in Ids(db.orderItems)
    modifies db`orderItems
    ensures db.Valid()
    ensures Taken(old(db.orderItems), OrderItemKey, (data.orderId, data.productId), None)
            ==> r == Failure(BadRequest(AlreadyAdded)) && db.orderItems == old(db.orderItems)
    ensures !Taken(old(db.orderItems), OrderItemKey, (data.orderId, data.productId), None)
            ==> r == Success(Row(itemId, None, NewItem(data))) && db.orderItems == old(db.orderItems) + [r.value]
  {
    var k := (data.orderId, data.productId);
    var existing := Find(db.orderItems, ByKey(OrderItemKey, k));
    FindByKeyExists(db.orderItems, OrderItemKey, k);
    if existing.Some? {
      return Failure(BadRequest(AlreadyAdded));
    }
    var item := Row(itemId, None, NewItem(data));
    InsertKeepsKeyed(db.orderItems, OrderItemKey, item);
    db.orderItems := db.orderItems + [item];
    return Success(item);
  }

  /** `findAll(companyId)`: exactly the live items whose order is a live order of the company. */
  function FindAll(db: Db, companyId: Id): (r: seq<Row<OrderItem>>)
    reads db
    requires db.Valid()
    ensures forall x :: x in r ==> x in db.orderItems && x.Live() && BelongsTo(db.orders, x, companyId)
    ensures forall i :: 0 <= i < |db.orderItems| && db.orderItems[i].Live() && BelongsTo(db.orders, db.orderItems[i], companyId)
              ==> db.orderItems[i] in r
  {
    var r := Select(db.orderItems, OfCompany(db.orders, companyId));
    assert forall x :: x in r ==> BelongsTo(db.orders, x, companyId) by {
      forall x | x in r ensures BelongsTo(db.orders, x, companyId) {
        OfCompanyIsBelongsTo(db.orders, x, companyId);
      }
    }
    assert forall i :: 0 <= i < |db.orderItems| && db.orderItems[i].Live() && BelongsTo(db.orders, db.orderItems[i], companyId)
              ==> db.orderItems[i] in r by {
      forall i | 0 <= i < |db.orderItems| && db.orderItems[i].Live() && BelongsTo(db.orders, db.orderItems[i], companyId)
        ensures db.orderItems[i] in r
      {
        OfCompanyIsBelongsTo(db.orders, db.orderItems[i], companyId);
        assert Matches(db.orderItems[i], OfCompany(db.orders, companyId));
      }
    }
    r
  }

  /** `findOne(id, companyId)`: the live item with that id if its order belongs to the
      company; an item of another tenant is reported as NotFound, not Forbidden. */
  function FindOne(db: Db, id: Id, companyId: Id): (r: Result<Row<OrderItem>, Error>)
    reads db
    requires db.Valid()
    ensures r.Failure? ==> r.error == NotFound(ItemNotFound)
    ensures r.Success? <==> exists i :: 0 <= i < |db.orderItems| && db.orderItems[i].id == id && db.orderItems[i].Live()
                                         && BelongsTo(db.orders, db.orderItems[i], companyId)
    ensures r.Success? ==> r.value in db.orderItems && r.value.id == id && r.value.Live()
  {
    var f := Find(db.orderItems, WithIdOf(id, db.orders, companyId));
    assert f.Some? ==> BelongsTo(db.orders, f.value, companyId) by {
      if f.Some? { OfCompanyIsBelongsTo(db.orders, f.value, companyId); }
    }
    assert forall i :: (0 <= i < |db.orderItems| && db.orderItems[i].id == id && db.orderItems[i].Live()
                        && BelongsTo(db.orders, db.orderItems[i], companyId)) ==> f.Some? by {
      forall i | 0 <= i < |db.orderItems| && db.orderItems[i].id == id && db.orderItems[i].Live()
                 && BelongsTo(db.orders, db.orderItems[i], companyId)
        ensures f.Some?
      {
        OfCompanyIsBelongsTo(db.orders, db.orderItems[i], companyId);
        assert Matches(db.orderItems[i], WithIdOf(id, db.orders, companyId));
      }
    }
    if f.None? then Failure(NotFound(ItemNotFound)) else Success(f.value)
  }

  /** `update(id, patch, companyId)`: the uniqueness check, excluding the item itself,
      runs first; then the tenant check; then the row with that id is patched and read
      back under the tenant scope. A patch that moves the item to another company's
      order is applied and then reported as NotFound. */
  method Update(db: Db, id: Id, patch: OrderItemPatch, companyId: Id) returns (r: Result<Row<OrderItem>, Error>)
    requires db.Valid()
    modifies db`orderItems
    ensures db.Valid()
    ensures Taken(old(db.orderItems), OrderItemKey, (patch.orderId, patch.productId), Some(id))
            ==> r == Failure(BadRequest(AlreadyAdded)) && db.orderItems == old(db.orderItems)
    ensures !Taken(old(db.orderItems), OrderItemKey, (patch.orderId, patch.productId), Some(id))
            && old(FindOne(db, id, companyId)).Failure?
            ==> r == Failure(NotFound(ItemNotFound)) && db.orderItems == old(db.orderItems)
    ensures !Taken(old(db.orderItems), OrderItemKey, (patch.orderId, patch.productId), Some(id))
            && old(FindOne(db, id, companyId)).Success?
            ==> db.orderItems == SetData(old(db.orderItems), ById(id), ApplyPatch(patch))
                && r == FindOne(db, id, companyId)
  {
    var k := (patch.orderId, patch.productId);
    var existing := Find(db.orderItems, ByKey(OrderItemKey, k));
    FindByKeyIsTaken(db.orderItems, OrderItemKey, k, Some(id));
    if existing.Some? && existing.value.id != id {
      return Failure(BadRequest(AlreadyAdded));
    }
    var access := FindOne(db, id, companyId);
    if access.Failure? {
      return Failure(access.error);
    }
    forall i | 0 <= i < |db.orderItems| && ById<OrderItem>(id)(db.orderItems[i]) && db.orderItems[i].Live()
      ensures KeyFree(db.orderItems, OrderItemKey, ApplyPatch(patch)(db.orderItems[i].data), Some(id))
    {
      ApplyPatchKey(patch, db.orderItems[i].data);
    }
    SetDataKeepsKeyed(db.orderItems, OrderItemKey, ById(id), ApplyPatch(patch), id);
    db.orderItems := SetData(db.orderItems, ById(id), ApplyPatch(patch));
    return FindOne(db, id, companyId);
  }

  /** `remove(id, companyId)`: soft-deletes only after the tenant check succeeds. */
  method Remove(db: Db, id: Id, companyId: Id, now: Time) returns (r: Outcome<Error>)
    requires db.Valid()
    modifies db`orderItems
    ensures db.Valid()
    ensures old(FindOne(db, id, companyId)).Failure? ==> r == Fail(NotFound(ItemNotFound)) && db.orderItems == old(db.orderItems)
    ensures old(FindOne(db, id, companyId)).Success? ==> r == Pass && db.orderItems == SoftDelete(old(db.orderItems), ById(id), now)
  {
    var access := FindOne(db, id, companyId);
    if access.Failure? {
      return Fail(access.error);
    }
    SoftDeleteKeepsKeyed(db.orderItems, OrderItemKey, ById(id), now);
    db.orderItems := SoftDelete(db.orderItems, ById(id), now);
    return Pass;
  }

  /** `hardRemove(id, companyId)`: deletes only after the tenant check succeeds. */
  method HardRemove(db: Db, id: Id, companyId: Id) returns (r: Outcome<Error>)
    requires db.Valid()
    modifies db`orderItems
    ensures db.Valid()
    ensures old(FindOne(db, id, companyId)).Failure? ==> r == Fail(NotFound(ItemNotFound)) && db.orderItems == old(db.orderItems)
    ensures old(FindOne(db, id, companyId)).Success? ==> r == Pass && db.orderItems == Delete(old(db.orderItems), ById(id))
  {
    var access := FindOne(db, id, companyId);
    if access.Failure? {
      return Fail(access.error);
    }
    DeleteKeepsKeyed(db.orderItems, OrderItemKey, ById(id));
    db.orderItems := Delete(db.orderItems, ById(id));
    return Pass;
  }
}
