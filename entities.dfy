/** The columns of each entity table, the enums they draw on, and the scoped key
    that each table's unique constraint declares. */
module Entities {
  import opened Wrappers
  import opened Tables

  datatype UserRole = OWNER | OPERATOR | VIEWER
  datatype OrderType = Sales | Purchase | Transfer
  datatype StorageType = Solid | Liquid
  datatype CustomerType = CustomerKind | Supplier

  /** The string each role is stored and transmitted as (the enum's values). */
  function RoleName(r: UserRole): string {
    match r
    case OWNER => "OWNER"
    case OPERATOR => "OPERATOR"
    case VIEWER => "VIEWER"
  }

  function OrderTypeName(t: OrderType): string {
    match t
    case Sales => "sales"
    case Purchase => "purchase"
    case Transfer => "transfer"
  }

  function StorageTypeName(t: StorageType): string {
    match t
    case Solid => "solid"
    case Liquid => "liquid"
  }

  function CustomerTypeName(t: CustomerType): string {
    match t
    case CustomerKind => "customer"
    case Supplier => "supplier"
  }

  // The inverse of each name function: what an enum validator accepts.

  function RoleFromName(s: string): (r: Option<UserRole>)
    ensures r.Some? ==> RoleName(r.value) == s
    ensures forall t :: RoleName(t) == s ==> r == Some(t)
  {
    if s == "OWNER" then Some(OWNER) else if s == "OPERATOR" then Some(OPERATOR) else if s == "VIEWER" then Some(VIEWER) else None
  }

  function OrderTypeFromName(s: string): (r: Option<OrderType>)
    ensures r.Some? ==> OrderTypeName(r.value) == s
    ensures forall t :: OrderTypeName(t) == s ==> r == Some(t)
  {
    if s == "sales" then Some(Sales) else if s == "purchase" then Some(Purchase) else if s == "transfer" then Some(Transfer) else None
  }

  function StorageTypeFromName(s: string): (r: Option<StorageType>)
    ensures r.Some? ==> StorageTypeName(r.value) == s
    ensures forall t :: StorageTypeName(t) == s ==> r == Some(t)
  {
    if s == "solid" then Some(Solid) else if s == "liquid" then Some(Liquid) else None
  }

  function CustomerTypeFromName(s: string): (r: Option<CustomerType>)
    ensures r.Some? ==> CustomerTypeName(r.value) == s
    ensures forall t :: CustomerTypeName(t) == s ==> r == Some(t)
  {
    if s == "customer" then Some(CustomerKind) else if s == "supplier" then Some(Supplier) else None
  }

  datatype Company = Company(name: string, modifiedBy: Option<Id>)

  datatype User = User(companyId: Option<Id>, email: string, password: string, name: string, role: UserRole)

  datatype Customer = Customer(companyId: Id, kind: CustomerType, name: string, email: Option<string>, modifiedBy: Option<Id>)

  datatype Warehouse = Warehouse(companyId: Id, kind: Option<StorageType>, name: string, address: Option<string>, modifiedBy: Option<Id>)

  datatype Product = Product(companyId: Id, name: string, code: Option<string>, price: string, kind: StorageType, modifiedBy: Option<Id>)

  datatype Order = Order(companyId: Id, number: string, kind: OrderType, customerId: Id, warehouseId: Id, date: Time, modifiedBy: Option<Id>)

  datatype OrderItem = OrderItem(orderId: Id, productId: Id, quantity: int, price: string, modifiedBy: Option<Id>)

  datatype Invoice = Invoice(companyId: Id, orderId: Id, number: string, date: Time, status: string, modifiedBy: Option<Id>)

  // Scoped keys: the columns whose combination must be unique among live rows.

  /** Company names are unique across all tenants. */
  function CompanyKey(c: Company): Option<string> { Some(c.name) }

  /** User emails are unique across all tenants. */
  function UserKey(u: User): Option<string> { Some(u.email) }

  function CustomerKey(c: Customer): Option<(Id, string)> { Some((c.companyId, c.name)) }

  function WarehouseKey(w: Warehouse): Option<(Id, string)> { Some((w.companyId, w.name)) }

  /** Product codes are unique per company; a product without a non-empty code is not constrained. */
  function ProductKey(p: Product): Option<(Id, string)> {
    if Truthy(p.code) then Some((p.companyId, p.code.value)) else None
  }

  function OrderKey(o: Order): Option<(Id, string)> { Some((o.companyId, o.number)) }

  function OrderItemKey(i: OrderItem): Option<(Id, Id)> { Some((i.orderId, i.productId)) }

  function InvoiceKey(i: Invoice): Option<(Id, string)> { Some((i.companyId, i.number)) }

  // The tenant column, as the access check reads it.

  function ProductCompany(r: Row<Product>): Option<Id> { Some(r.data.companyId) }

  function CustomerCompany(r: Row<Customer>): Option<Id> { Some(r.data.companyId) }
}
