/** The database the services share: one table per entity. */
module Database {
  import opened Tables
  import opened Entities

  class Db {
    var companies: seq<Row<Company>>
    var users: seq<Row<User>>
    var customers: seq<Row<Customer>>
    var warehouses: seq<Row<Warehouse>>
    var products: seq<Row<Product>>
    var orders: seq<Row<Order>>
    var orderItems: seq<Row<OrderItem>>
    var invoices: seq<Row<Invoice>>

    /** Every table has distinct ids and keeps its scoped key unique among live rows. */
    ghost predicate Valid()
      reads this
    {
      && Keyed(companies, CompanyKey)
      && Keyed(users, UserKey)
      && Keyed(customers, CustomerKey)
      && Keyed(warehouses, WarehouseKey)
      && Keyed(products, ProductKey)
      && Keyed(orders, OrderKey)
      && Keyed(orderItems, OrderItemKey)
      && Keyed(invoices, InvoiceKey)
    }

    constructor ()
      ensures Valid()
      ensures companies == [] && users == [] && customers == [] && warehouses == []
      ensures products == [] && orders == [] && orderItems == [] && invoices == []
    {
      companies, users, customers, warehouses := [], [], [], [];
      products, orders, orderItems, invoices := [], [], [], [];
    }
  }
}
