# warehouse-nest, verified model of the service layer

This project is a Dafny model of the multi-tenant warehouse backend `warehouse-nest`. The backend is a
NestJS/TypeORM service in which each company (tenant) keeps its orders, invoices, order items,
products, customers and warehouses, and its users log in with a JWT carrying their company. The
model covers three layers:

- **The service layer over the database** (`Database.Db`, one `seq<Row<T>>` field per table). Each
  row has an id, a soft-deletion stamp and its columns. A lookup (`findOneBy`) sees only live rows
  and returns the first match. `update`, `softDelete` and `delete` act by criteria. Every service
  operation is a method with a `modifies` frame on the tables it writes. Each method keeps the
  table invariant `Db.Valid()`: primary ids are distinct, and each scoped key is unique among live
  rows. The scoped keys are (company, number) for orders and invoices, (order, product) for order
  items, (company, name) for customers and warehouses, (company, non-empty code) for products, the
  name for companies and the email for users. Each method's `ensures` states its error cases and
  its whole new state.
- **The pure access decisions**: `assertNotExists`, `checkCompanyAccess` / `validateCompanyAccess`,
  the request filter `CompanyAccessInterceptor.intercept`, the role parser `toUserRole`, and the
  role and tenant assignment of the registration flows.
- **The zod request schemas**, as parsers from a JSON body to typed input. Each schema's contract
  says exactly which bodies it accepts and what it outputs. The price rule `^\d+(\.\d{1,2})?$` is
  written as a scanner and proved equal to its grammar.

Time (`new Date()`, `Date.now()`), generated ids, bcrypt hashing and comparison, and JWT signing
are parameters of the operations that use them. The same goes for zod's UUID, email and date
checks (module `Json`, datatype `Formats`) and for ILIKE matching.

Modules follow the repository: `Wrappers`, `Tables` and `Entities` hold shared types and the table
algebra. `Database` holds the tables. There is one module per service, one per zod schema,
`CommonUtils`, `CompanyAccess`, `CompanyAccessInterceptor` and `UserController`.

## Model

| member | source | states |
|---|---|---|
| Tables.Find | src/common/common.utils.ts:10 | `findOneBy(where)` yields a row exactly when some live row matches, and the row it yields is a live match from the table |
| Tables.Select | src/invoice/invoice.service.ts:30-32 | `find({ where })` keeps only live matching rows of the table and keeps every one of them |
| Tables.SelectAppend | src/invoice/invoice.service.ts:30-32 | the listing of two tables one after the other is the first table's listing followed by the second's, so matches keep table order |
| Tables.SelectSingle | src/invoice/invoice.service.ts:30-32 | a one-row table lists that row exactly when it is live and matches, once |
| Tables.SelectCount | src/order/order.service.ts:58-63 | the listing has as many entries as the table has matching positions, so each row occurs as often as it does in the table |
| Tables.SetData | src/order/order.service.ts:83 | `update(criteria, data)` patches every row satisfying the criteria, live or not, and leaves every other row as it was |
| Tables.SoftDelete | src/order/order.service.ts:88 | `softDelete(criteria)` stamps every row satisfying the criteria and leaves every other row as it was |
| Tables.Delete | src/order/order.service.ts:92 | `delete(criteria)` removes the rows satisfying the criteria and keeps every other row |
| Tables.Paginate | src/order/order.service.ts:58-63 | `skip: (page-1)*limit, take: limit`: exactly `limit` entries, or the matches left after the skipped ones when fewer remain (none past the end); entry i is match `(page-1)*limit + i`, and the total counts all matches |
| Tables.FindByKeyExists | src/common/common.utils.ts:10-12 | a key lookup finds a row exactly when a live row holds the key |
| Tables.FindByKeyIsTaken | src/common/common.utils.ts:10-14 | when live keys are unique, the lookup finds a row with an id other than the excluded one exactly when another live row holds the key |
| Tables.FindByIdUnique | src/user/user.service.ts:39-40 | reading a saved row back by id returns that very row |
| Tables.InsertKeepsKeyed | migration/1753106327600-006-create-orders.ts:81-86 | saving a row with a fresh id and a free key keeps ids distinct and live keys unique |
| Tables.SetDataKeepsKeyed | src/migration/1753106331023-008-create-invoices.ts:73-78 | an update of one id whose new key clashes with no other live row keeps the invariant |
| Tables.SoftDeleteKeepsKeyed | src/migration/1753106329166-007-create-order-items.ts:69-74 | soft deletion keeps the invariant |
| Tables.DeleteKeepsKeyed | src/migration/1753106329166-007-create-order-items.ts:69-74 | hard deletion keeps the invariant (proved by induction on the table) |
| Tables.FindAfterSetData | src/order/order.service.ts:83-84 | after `update(id, data)`, `findOne(id)` is the old row with the patch applied, or nothing if there was none |
| Tables.SoftDeleteFreesKey | src/order/order.service.ts:87-89 | after a soft delete a key counts as taken exactly when a live row outside the deleted ones holds it |
| Tables.DeleteFreesKey | src/order/order.service.ts:91-93 | the same for a hard delete |
| Tables.PaginateReaches | src/order/order.service.ts:58-62 | with a fixed limit, match i is entry `i % limit` of page `i / limit + 1` |
| Tables.PaginateContains | src/order/order.service.ts:58-62 | every element of a listing appears on some page |
| Tables.SelectPaginateReaches | src/customer/customer.service.ts:35-39 | every live matching row appears on some page of the listing |
| Tables.OwnKeyFree | src/order/order.service.ts:78 | a live row's own key never blocks re-saving it |
| Entities.RoleFromName | src/user/user.entity.ts:13-17 | accepts exactly the role names, and returns the role so named |
| Entities.OrderTypeFromName | src/order/order.entity/order.entity.ts:34-35 | accepts exactly "sales", "purchase", "transfer", and returns the type so named |
| Entities.StorageTypeFromName | src/product/product.entity/product.entity.ts:43-44 | accepts exactly "solid", "liquid", and returns the type so named |
| Entities.CustomerTypeFromName | src/customer/customer.entity/customer.entity.ts:28-29 | accepts exactly "customer", "supplier", and returns the type so named |
| CommonUtils.AssertNotExists | src/common/common.utils.ts:4-17 | fails only with BadRequest(caller's message); without a truthy excludeId it fails iff some live row matches; with one it fails iff the row found has a different id; as a function it cannot change the store |
| CommonUtils.AssertNotExistsByKey | src/common/common.utils.ts:11-15 | on a key, with unique live keys: fails iff a live row other than the spared id holds the key, so the row `excludeId` names never causes failure and any other holder always does |
| CompanyAccess.CheckCompanyAccess | src/common/company-access.utils.ts:3-19 | absent entity gives NotFound("<name> not found") before any tenant test; a set, different companyId gives Forbidden; otherwise the entity is returned unchanged |
| CompanyAccess.ValidateCompanyAccess | src/common/company-access.utils.ts:21-28 | equals `checkCompanyAccess(findEntity(), ...)` |
| CompanyAccess.AccessGranted | src/common/company-access.utils.ts:12-18 | success iff the entity exists and its companyId is unset, empty or the caller's; success returns that entity |
| CompanyAccessInterceptor.Intercept | src/common/company-access.interceptor.ts:18-45 | no user or no user company passes; a POST/PUT rejection carries the write message, any other rejection the read message; a method other than POST, PUT or GET always passes |
| CompanyAccessInterceptor.InterceptRejectsIff | src/common/company-access.interceptor.ts:26-42 | a request is rejected exactly when the field its method inspects (body on POST/PUT, query on GET) names a tenant other than the user's |
| CompanyAccessInterceptor.InterceptIgnoresUninspected | src/common/company-access.interceptor.ts:26-44 | the verdict does not depend on the query for POST/PUT or the body for GET; for e.g. DELETE neither is inspected and the request passes |
| InvoiceService.NewInvoice | src/invoice/invoice.service.ts:23-26 | the stored invoice keeps the supplied columns, takes `now` as date only when none is given, and "pending" as status when none is given (column default, src/invoice/invoice.entity.ts:43) |
| InvoiceService.ApplyPatchKey | src/invoice/invoice.service.ts:51 | a patched invoice has the patch's (company, number) key; a patch restating the row changes nothing |
| InvoiceService.Create | src/invoice/invoice.service.ts:13-28 | a live invoice with the same (company, number) gives BadRequest and inserts nothing; otherwise exactly the new row is appended; the invariant is kept |
| InvoiceService.FindAll | src/invoice/invoice.service.ts:30-32 | exactly the live invoices of the company, with no pagination |
| InvoiceService.FindOne | src/invoice/invoice.service.ts:34-36 | the live invoice with that id, none iff no live row has it |
| InvoiceService.Update | src/invoice/invoice.service.ts:38-53 | conflicts only with a different live invoice holding the patched key; otherwise patches the row with that id and returns it re-read; the invariant is kept |
| InvoiceService.Remove | src/invoice/invoice.service.ts:55-57 | soft-deletes: the invoice is no longer found and its number is free |
| OrderService.Decimal | src/order/order.service.ts:40 | a millisecond count renders as decimal digits with no leading zero that read back as the count |
| OrderService.DecimalOfDigitsValue | src/order/order.service.ts:40 | every digit string with no leading zero is the rendering of the number it denotes, so rendering is a bijection |
| OrderService.InvoiceNumber | src/order/order.service.ts:40 | the invoice number is "INV-" followed by digits that read back as the clock reading |
| OrderService.InvoiceNumberInjective | src/order/order.service.ts:40 | two different clock readings give two different invoice numbers |
| OrderService.InvoiceNumberOnto | src/order/order.service.ts:40 | "INV-" followed by any digit string with no leading zero is the invoice number of the reading it denotes |
| OrderService.NewOrder | src/order/order.service.ts:31-34 | the saved order keeps every supplied column; date becomes `now` only when absent |
| OrderService.InvoiceFor | src/order/order.service.ts:37-43 | the requested invoice has the order's company, orderId = saved id, date = order date, status "pending", number INV-<stamp> |
| OrderService.ApplyPatchKey | src/order/order.service.ts:83 | a patched order has the patch's (company, number) key; a patch restating the row changes nothing |
| OrderService.Create | src/order/order.service.ts:21-46 | duplicate (company, number) gives BadRequest and writes nothing; otherwise the order is appended first and then exactly one invoice is created for it; if the invoice is rejected the order remains and the invoice's error is returned |
| OrderService.FindAll | src/order/order.service.ts:48-64 | one page (at most `limit`) of the company's live orders, echoing page and limit, with the total count of matches |
| OrderService.FindAllListsEveryOrder | src/order/order.service.ts:58-62 | every live order of the company appears on some page |
| OrderService.FindOne | src/order/order.service.ts:66-68 | the live order with that id, no tenant check; none iff no live row has it |
| OrderService.Update | src/order/order.service.ts:70-85 | conflicts only with a different live order holding the patched key (re-saving its own number succeeds); otherwise patches the row and returns the patched old row |
| OrderService.Remove | src/order/order.service.ts:87-89 | soft-deletes: no longer found, the number is free again |
| OrderService.HardRemove | src/order/order.service.ts:91-93 | deletes: no row with that id remains, the number is free |
| OrderItemService.ApplyPatchKey | src/orderItem/order-item.service.ts:75 | a patched item has the patch's (order, product) key; a patch restating the row changes nothing |
| OrderItemService.OfCompanyIsBelongsTo | src/orderItem/order-item.service.ts:34-35 | the inner join on the item's order selects exactly items whose live order belongs to the company |
| OrderItemService.Create | src/orderItem/order-item.service.ts:17-29 | a live item with the same (order, product) gives BadRequest and inserts nothing; otherwise one row is appended |
| OrderItemService.FindAll | src/orderItem/order-item.service.ts:31-37 | exactly the live items whose order belongs to the company |
| OrderItemService.FindOne | src/orderItem/order-item.service.ts:40-53 | succeeds iff a live item with that id belongs to the company; another tenant's item gives NotFound, not Forbidden |
| OrderItemService.Update | src/orderItem/order-item.service.ts:56-79 | uniqueness (excluding itself) is checked before the tenant check; then only rows with that id are patched, and the result is the scoped re-read |
| OrderItemService.Remove | src/orderItem/order-item.service.ts:82-87 | soft-deletes only after the tenant check passes; otherwise NotFound and nothing changes |
| OrderItemService.HardRemove | src/orderItem/order-item.service.ts:90-95 | deletes only after the tenant check passes; otherwise NotFound and nothing changes |
| ProductService.ByCodeIsByKey | src/product/product.service.ts:16-22 | the lookup `{ companyId, code }` with a non-empty code is the lookup on the product key |
| ProductService.ApplyPatchKey | src/product/product.service.ts:82 | (corrected) the scoped update keeps the row's company; an absent code keeps the key; a truthy code becomes the key; an empty code frees it |
| ProductService.Create | src/product/product.service.ts:15-25 | uniqueness of (company, code) is checked only for a non-empty code; duplicate gives BadRequest and inserts nothing |
| ProductService.FindAll | src/product/product.service.ts:27-52 | builds the query step by step (`%name%`, `%code%` only for truthy filters); the result is a page of the company's live products satisfying each filter, with the total |
| ProductService.FindAllListsEveryProduct | src/product/product.service.ts:43-46 | without filters, every live product of the company appears on some page |
| ProductService.FindOne | src/product/product.service.ts:55-61 | equals `checkCompanyAccess(findOneBy({ id }), companyId, "Product")` |
| ProductService.FindOneOutcome | src/product/product.service.ts:55-61 | NotFound("Product not found") iff no live product has the id; success iff it exists and is not another tenant's |
| ProductService.Update | src/product/product.service.ts:64-86 | (corrected) code uniqueness excluding itself, then the tenant check, then only the row matching {id, companyId} is patched and re-read |
| ProductService.Remove | src/product/product.service.ts:89-94 | soft-deletes {id, companyId} only after a successful tenant check; otherwise that error and no change |
| ProductService.HardRemove | src/product/product.service.ts:97-102 | deletes {id, companyId} only after a successful tenant check |
| ProductService.UpdateAsWritten | src/product/product.service.ts:64-86 | the update as written, which applies the body's companyId to the row |
| ProductService.UpdateAsWrittenDuplicatesCode | src/product/product.service.ts:69-82 | a concrete table, valid under the per-company key, on which the update as written leaves two live products with the same (company, code) |
| ProductService.UpdateAsWrittenMovesToOtherTenant | src/product/product.service.ts:82 | a concrete one-row table with no code on which the update as written moves the caller's product into another company, while the corrected patch keeps it |
| CustomerService.ApplyPatchKey | src/customer/customer.service.ts:65 | (corrected) the scoped update keeps the row's company; the key becomes (company, new name) |
| CustomerService.Create | src/customer/customer.service.ts:15-23 | duplicate (name, company) gives BadRequest and inserts nothing; otherwise one row is appended |
| CustomerService.FindAll | src/customer/customer.service.ts:25-41 | a page of the company's live customers with the total |
| CustomerService.FindAllListsEveryCustomer | src/customer/customer.service.ts:35-39 | every live customer of the company appears on some page |
| CustomerService.FindOne | src/customer/customer.service.ts:43-49 | equals `checkCompanyAccess(findOneBy({ id }), companyId, "Customer")` |
| CustomerService.FindOneOutcome | src/customer/customer.service.ts:43-49 | NotFound iff no live customer has the id; success iff it exists and is not another tenant's |
| CustomerService.Update | src/customer/customer.service.ts:51-68 | (corrected) conflicts only with a different live customer of the caller's company with the same name, then tenant-checks, then patches only {id, companyId} |
| CustomerService.Remove | src/customer/customer.service.ts:70-74 | soft-deletes only after a successful tenant check |
| CustomerService.HardRemove | src/customer/customer.service.ts:76-80 | deletes only after a successful tenant check |
| CustomerService.UpdateAsWritten | src/customer/customer.service.ts:51-68 | the update as written, which applies the body's companyId to the row |
| CustomerService.UpdateAsWrittenDuplicatesName | src/customer/customer.service.ts:56-65 | a concrete valid table on which the update as written leaves two live customers with the same (company, name) |
| WarehouseService.ApplyPatchKey | src/warehouse/warehouse.service.ts:63 | a patched warehouse has the patch's (company, name) key; a patch restating the row changes nothing |
| WarehouseService.Create | src/warehouse/warehouse.service.ts:14-26 | duplicate (company, name) gives BadRequest and inserts nothing; otherwise one row is appended |
| WarehouseService.FindAll | src/warehouse/warehouse.service.ts:28-44 | a page of the company's live warehouses with the total |
| WarehouseService.FindAllListsEveryWarehouse | src/warehouse/warehouse.service.ts:38-42 | every live warehouse of the company appears on some page |
| WarehouseService.FindOne | src/warehouse/warehouse.service.ts:46-48 | the live warehouse with that id, with no tenant check |
| WarehouseService.Update | src/warehouse/warehouse.service.ts:50-65 | conflicts only with a different live warehouse holding the patched key; otherwise patches and re-reads |
| WarehouseService.Remove | src/warehouse/warehouse.service.ts:67-69 | soft-deletes: no longer found, the name is free |
| WarehouseService.HardRemove | src/warehouse/warehouse.service.ts:71-73 | deletes: no row with that id remains, the name is free |
| CompanyService.Create | src/company/company.service.ts:14-22 | a name held by any live company, across all tenants, gives BadRequest and writes nothing |
| CompanyService.FindAll | src/company/company.service.ts:24-26 | exactly the live companies |
| CompanyService.FindOne | src/company/company.service.ts:28-30 | the live company with that id |
| CompanyService.Update | src/company/company.service.ts:32-44 | a name held by a different live company gives BadRequest; keeping its own name succeeds; only the target row changes |
| CompanyService.Remove | src/company/company.service.ts:46-48 | soft-deletes: no longer found, the name is free |
| UserService.WithoutPassword | src/user/user.service.ts:43-45 | the returned user carries every column except the password |
| UserService.NewUser | src/user/user.service.ts:33-38 | the stored password is the hash of the input; the role is as given, VIEWER when absent |
| UserService.Register | src/user/user.service.ts:20-46 | missing password is reported before missing email; a live user with the email gives "Email already in use"; otherwise one row is appended and returned without its password |
| UserService.Login | src/user/user.service.ts:48-60 | fails only with Unauthorized("Invalid credentials"); succeeds iff the live user with the email has a matching password; the token signs {sub, role, email} |
| UserService.LoginFindsTheUser | src/user/user.service.ts:52 | with unique live emails, the lookup by email returns the one live user with it |
| UserService.FindAll | src/user/user.service.ts:66-68 | exactly the live users |
| UserService.FindOne | src/user/user.service.ts:70-72 | the live user with that id |
| UserService.HashedPatch | src/user/user.service.ts:78-80 | a truthy password is replaced by its hash; an absent or empty one is left as is; nothing else changes |
| UserService.Update | src/user/user.service.ts:74-83 | (corrected) rejects an email held by another live user; otherwise hashes a given password and patches the row with that id |
| UserService.Remove | src/user/user.service.ts:85-87 | soft-deletes: no longer found, the email is free |
| UserService.UpdateAsWritten | src/user/user.service.ts:74-83 | the update as written: the patched email is written with no check |
| UserService.UpdateAsWrittenDuplicatesEmail | src/user/user.service.ts:81 | a concrete valid table on which the update as written leaves two live users with one email |
| JwtService.Register | src/auth/jwt.service.ts:22-44 | (corrected) password then email required ("… is required."); a taken email is rejected; role defaults to VIEWER when nullish; the result has no password |
| JwtService.OwnerData | src/auth/jwt.service.ts:51-58 | the owner's data takes the new company's id and role OWNER and keeps the rest |
| JwtService.PublicRegister | src/auth/jwt.service.ts:46-60 | (corrected) creates the company first (a taken name fails with nothing written), then registers an OWNER of it; a failed registration leaves the company in place |
| JwtService.MemberData | src/auth/jwt.service.ts:72-80 | the owner's companyId replaces any supplied one; the role is kept |
| JwtService.RegisterUserToCompany | src/auth/jwt.service.ts:62-82 | (corrected) a missing role or OWNER is rejected with nothing written; the user joins the owner's company with role OPERATOR or VIEWER |
| JwtService.Login | src/auth/jwt.service.ts:84-101 | bad credentials give Unauthorized("Invalid email or password."); the payload has sub, role, email and companyId |
| JwtService.RegisterAsWritten | src/auth/jwt.service.ts:22-44 | registration as written: required fields checked, then the row is saved with no email check |
| JwtService.RegisterAsWrittenDuplicatesEmail | src/auth/jwt.service.ts:25-37 | a concrete valid table on which registration as written leaves two live users with one email |
| UserController.ToUserRole | src/user/user.controller.ts:40-48 | some role iff the input is one of the strings "OWNER", "OPERATOR", "VIEWER"; the role returned is the one so named |
| UserController.ToUserRoleRoundTrip | src/user/user.controller.ts:45 | each role's name parses back to that role |
| UserController.ToUserRoleInverse | src/user/user.controller.ts:40-48 | a parsed role's name is the input, and the parser agrees with the enum's name parser |
| UserController.ToUserRoleRejects | src/user/user.controller.ts:41-47 | lower-case, mixed-case or padded names and non-strings give none |
| ZodRules.Uuid | src/order-item/order-item.zod.ts:5-6 | accepts exactly strings in UUID form, output unchanged |
| ZodRules.Email | src/user/user.static.ts:6 | accepts exactly strings in email form, output unchanged |
| ZodRules.Text | src/product/product.zod.ts:7 | accepts exactly strings |
| ZodRules.MinText | src/user/user.static.ts:7-8 | accepts exactly strings of at least n characters |
| ZodRules.Enum | src/order/order.zod.ts:10 | accepts exactly strings the enum's parser knows, and outputs that member |
| ZodRules.Quantity | src/order-item/order-item.zod.ts:7 | accepts exactly whole numbers from 1 to the safe-integer bound; the output equals the input |
| ZodRules.Optional | src/order-item/order-item.zod.ts:4-12 | a missing key passes as none; any other value must pass the inner rule |
| ZodRules.MatchesPriceIff | src/order-item/order-item.zod.ts:8 | the scanner accepts exactly digits, optionally followed by a point and one or two digits |
| ZodRules.Price | src/order-item/order-item.zod.ts:8 | accepts exactly strings in the price language |
| ZodRules.PriceAccepts | src/order-item/order-item.zod.ts:8 | "9.99", "10", "0.5" are prices |
| ZodRules.PriceRejects | src/order-item/order-item.zod.ts:8 | ".5", "1.", "1.234", "-1", "" are not |
| OrderItemSchema.Parse | src/order-item/order-item.zod.ts:3-13 | accepts iff orderId/productId are UUIDs, quantity an integer ≥ 1, price a price, id/modifiedBy absent or UUIDs, dates absent or valid; outputs the fields |
| ProductSchema.Parse | src/product/product.zod.ts:3-14 | accepts iff companyId is a UUID, name non-empty, code absent or a string, price a price, type "solid"/"liquid", optional UUIDs and dates valid |
| OrderSchema.Parse | src/order/order.zod.ts:3-21 | accepts iff companyId, customerId, warehouseId are UUIDs, number non-empty, type "sales"/"purchase"/"transfer", id/modifiedBy absent or UUIDs |
| InvoiceSchema.Parse | src/invoice/invoice.zod.ts:3-13 | accepts iff companyId and orderId are UUIDs, number non-empty, status absent or any string, optional UUIDs and dates valid |
| WarehouseSchema.Parse | src/warehouse/warehouse.zod.ts:3-14 | accepts iff companyId is a UUID, name non-empty, type absent or "solid"/"liquid", address absent or a string |
| CustomerSchema.Parse | src/customer/customer.zod.ts:3-19 | accepts iff type is "customer"/"supplier", name non-empty, companyId absent or any string (not a UUID), email absent or an email |
| UserSchema.Parse | src/user/user.static.ts:3-13 | accepts iff email is an email, password has at least 6 characters, name non-empty, role absent or a role name, companyId absent or a UUID |
| CompanySchema.Parse | src/company/company.zod.ts:3-13 | accepts iff name is non-empty, id and modifiedBy absent or UUIDs, dates absent or valid |

## Left out

- The HTTP layer is not modelled, apart from `toUserRole` and the request filter. That covers
  controllers, decorators, guards, Swagger metadata, Nest modules, `main.ts`, `db.config.ts` and
  `app.module.ts`. The controllers call the services with their own argument lists, which are
  wiring.
- The request filter `CompanyAccessInterceptor` is modelled as written. None of the shown modules
  installs it.
- The ORM and SQL are not modelled. Lookups are exact matches on the supplied fields, and they
  see only live rows. The product report (`src/product/report/product.report.service.ts`) is SQL
  aggregates and is left out.
- TypeORM's handling of `undefined` where-keys is not modelled. The key fields that the uniqueness
  lookups need are required fields of the create and patch data.
- The database unique indexes are left out. They also cover soft-deleted rows and settle races.
  Foreign keys and cascades are left out too. The model states uniqueness only among live rows,
  as the services check it.
- Concurrency is left out: the model is sequential, so there are no check-then-insert races.
  Every promise is awaited in order.
- bcrypt, JWT signing, the clock, `nanoid` and uuid generation are parameters. `validatePassword`
  (src/user/user.service.ts:62-64) is a single bcrypt call and is not a member.
- Audit columns (`createdAt`, `updatedAt`) are not stored. The soft-deletion stamp is the time
  passed to `Remove`.
- Patches cannot set a column to null. An absent field in a patch leaves the column as it is.
- The UUID and email patterns and date coercion are opaque predicates (`Json.Formats`). ILIKE
  matching is an abstract parameter of `ProductService.FindAll`, with no Unicode case folding.
- `ZodRules.MinText` counts characters, not UTF-16 code units as JavaScript's `length` does.
- The schemas take an object body with the known keys. Keys a schema does not name are stripped,
  so they are not represented. A non-object body is not represented either.
- The create-order-with-items workflow exists only as a DTO (src/order/dto/order.dto.ts:46-109).
  No service implements it, so it is not modelled. The class-validator DTOs are not run by any
  shown pipe and are left out.
- Seeds, the dev controller and migrations are not modelled as code. The migrations' unique
  constraints are used only as the statement of the table invariant.
- The duplicate revisions `src/order-item/*` and the second `company.entity.ts` are modelled once.
- Product code uniqueness follows the service: per company. The entity declares the code column
  globally unique (src/product/product.entity/product.entity.ts:30). Under that index the start
  table of ProductService.UpdateAsWrittenDuplicatesCode (two products with code X) cannot exist;
  the cross-tenant move of ProductService.UpdateAsWrittenMovesToOtherTenant needs no code at all.
- A user's `companyId` (`Entities.User`) is optional, as the services' types allow. The users column is
  `nullable: false` (src/user/user.entity.ts:24), so a registration without a company that the
  model accepts fails at the database in the source.
- The reload after save in `register` is proved to find the saved row, so its "not found" error
  branch is not a reachable result of `UserService.Register` or `JwtService.Register`.
- Tables.Select, Tables.Paginate and the listings built on them take the table's sequence order
  as the result order. The source's `find`/`findAndCount` and query builder ask for no ORDER BY,
  so the database may return rows in any order, and a row may move between pages across calls.
  This affects OrderService.FindAll (src/order/order.service.ts:58-62),
  CustomerService.FindAll (src/customer/customer.service.ts:35-38),
  WarehouseService.FindAll (src/warehouse/warehouse.service.ts:38-41),
  ProductService.FindAll (src/product/product.service.ts:47-49) and the lemmas
  OrderService.FindAllListsEveryOrder, CustomerService.FindAllListsEveryCustomer,
  WarehouseService.FindAllListsEveryWarehouse and ProductService.FindAllListsEveryProduct, which hold
  for one fixed order.
- CompanyAccessInterceptor.Intercept: the body's and the query's `companyId` are modelled as
  optional strings. In the source they are arbitrary JSON values; a truthy non-string (a number,
  an array) never equals the user's string id, so it is always rejected, and that case is not
  represented.
- OrderService.FindAll: requires page ≥ 1 and limit ≥ 1. The source passes any numbers through to
  `skip`/`take`.
- CustomerService.FindAll, WarehouseService.FindAll, ProductService.FindAll: the same page and
  limit precondition.
- ZodRules.Quantity: a JSON number is a mathematical real here, so NaN and infinities, which zod
  rejects, do not arise.
- JwtService.Register: the `??` default of the source is modelled by one absent-role case. It
  agrees with `||` because no role name is empty.

## Findings

| source | as written | input that shows it | evidently intended | confidence | as-written member | corrected member |
|---|---|---|---|---|---|---|
| src/auth/jwt.service.ts:22-44 | `register` saves the user with no check that the email is free | a table with live user `a@x`; register `a@x` again | reject a taken email, as `UserService.register` does | not executed | JwtService.RegisterAsWrittenDuplicatesEmail | JwtService.Register |
| src/user/user.service.ts:74-83 | `update` writes a new email with no uniqueness check | users `a@x` (u1) and `b@x` (u2); update u2 with email `a@x` | reject an email held by another live user | not executed | UserService.UpdateAsWrittenDuplicatesEmail | UserService.Update |
| src/product/product.service.ts:64-86 | the tenant check looks at the row's company, but the body's `companyId` is written to the row, so a tenant can move its product into another company | p1 (c1, no code); c1 updates p1 with `companyId` c2 | a product stays in the caller's company | not executed | ProductService.UpdateAsWrittenMovesToOtherTenant | ProductService.Update |
| src/product/product.service.ts:69-82 | the code check runs in the caller's company, so after such a move the (company, code) key is unchecked in the target company | p1 (c1, code X), p2 (c2, code X); c1 updates p1 with `companyId` c2 and code X | a product stays in the caller's company, so the check covers its key | not executed | ProductService.UpdateAsWrittenDuplicatesCode | ProductService.Update |
| src/customer/customer.service.ts:51-68 | the name check runs in the caller's company, but the body's `companyId` is written to the row | k1 (c1, "Acme"), k2 (c2, "Acme"); c1 updates k1 with `companyId` c2 | a customer stays in the caller's company, so the check covers its key | not executed | CustomerService.UpdateAsWrittenDuplicatesName | CustomerService.Update |
