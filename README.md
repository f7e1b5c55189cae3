# E-commerce store model

A Dafny model of the store behind a small Flask e-commerce backend: a
`Product` table (id, name, price, stock) and an `Order` table (id,
product name, quantity, total price), and the seven route handlers that
read and write them — add, list, fetch, update and delete a product, place
an order, list the orders.

The model has three modules:

- `ShopModel` (`shop_model.dfy`): the tables as values (`Db`), the reply
  of a route as `Outcome` (`Ok`, `NotFound` for a 404,
  `InsufficientStock` for the 400 "Not enough stock"), and one function
  per writing route from the old tables to the new tables and the reply.
  Each function's postcondition states what the route promises, in terms
  of what `GetProduct` sees afterwards. The id of a new row follows
  SQLite's rule for an `INTEGER PRIMARY KEY` column: one more than the
  largest id in the table, 1 for an empty table (`NextRowId`).
- `ShopStore` (`shop_store.dfy`): the class `Store` holding the two tables
  as fields (`map<int, Product>` and `seq<Order>`), one method per route.
  The writing methods do the lookup, the check and the writes step by step
  and commit once; each is proved to leave exactly the tables and reply
  that the `ShopModel` function gives.
- `ShopProperties` (`shop_properties.dfy`): properties over whole
  sequences of writing requests (`Run`): the store invariant is kept,
  order rows are append-only, orders never make stock negative, and, over
  a run of orders against a single product, its stock plus the quantity
  sold is conserved.

Prices and totals are whole numbers of cents; the service stores them as
floating point. Stock and quantity are unbounded integers.

The handlers validate nothing: a body lacking a field raises on the missing
key, an order's quantity is not checked to be positive, and a stored price
or stock is not checked to be non-negative. A negative quantity therefore
passes the stock check and raises the stock (`NegativeQuantityRaisesStock`).

## Model

| member | source | states |
|---|---|---|
| `ShopModel.NextRowId` | TamayoPaulAron_Ecommerce_app/app.py:19 | the id given to a new row is not in use, exceeds every id in use, is 1 for an empty table and otherwise one more than the largest id |
| `ShopModel.GetProduct` | TamayoPaulAron_Ecommerce_app/app.py:77-79 | the product is returned exactly when a row has that id, and it is that row; otherwise 404; never the stock error |
| `ShopModel.AddProduct` | TamayoPaulAron_Ecommerce_app/app.py:58-67 | the new record has the given name, price and stock under an id not in use, the one the row-id rule picks; fetching that id then returns it; every other id fetches as before; orders unchanged; invariant kept |
| `ShopModel.UpdateProduct` | TamayoPaulAron_Ecommerce_app/app.py:83-90 | 404 with no change exactly when the id is absent; otherwise all three fields become the new values, the id stays, fetching returns the new record, every other product and the orders are unchanged |
| `ShopModel.DeleteProduct` | TamayoPaulAron_Ecommerce_app/app.py:94-98 | 404 with no change exactly when the id is absent; afterwards fetching the id gives 404, every other product and every order is unchanged |
| `ShopModel.CreateOrder` | TamayoPaulAron_Ecommerce_app/app.py:105-125 | 404 exactly when the product is absent, stock error exactly when its stock is below the quantity, and then no change at all; on success exactly one order is appended with the product's current name, the quantity and price times quantity, the product's stock drops by the quantity and stays non-negative, its name and price and every other product are unchanged; invariant kept |
| `ShopModel.OrderIdIsNextRowId` | TamayoPaulAron_Ecommerce_app/app.py:24-25 | in a well-formed store the id CreateOrder gives the new order is the one the database's row-id rule picks for the Order table |
| `ShopStore.Store.constructor` | TamayoPaulAron_Ecommerce_app/app.py:137-138 | a new database has both tables empty and satisfies the store invariant |
| `ShopStore.Store.AddProduct` | TamayoPaulAron_Ecommerce_app/app.py:58-67 | the tables and the returned record after the insert are those `ShopModel.AddProduct` gives; invariant kept |
| `ShopStore.Store.GetProducts` | TamayoPaulAron_Ecommerce_app/app.py:71-73 | a record is returned exactly when it is stored under its own id |
| `ShopStore.Store.GetProduct` | TamayoPaulAron_Ecommerce_app/app.py:77-79 | the reply is that of `ShopModel.GetProduct` on the current tables, and a found record carries the requested id |
| `ShopStore.Store.UpdateProduct` | TamayoPaulAron_Ecommerce_app/app.py:83-90 | the field-by-field update followed by one commit leaves the tables and reply of `ShopModel.UpdateProduct`; invariant kept |
| `ShopStore.Store.DeleteProduct` | TamayoPaulAron_Ecommerce_app/app.py:94-98 | the tables and reply after the delete are those of `ShopModel.DeleteProduct`; invariant kept |
| `ShopStore.Store.CreateOrder` | TamayoPaulAron_Ecommerce_app/app.py:105-125 | the lookup, check, snapshot, decrement and single commit leave the tables and reply of `ShopModel.CreateOrder`; on success the stock is the old stock minus the quantity, on failure neither table changes |
| `ShopStore.Store.GetOrders` | TamayoPaulAron_Ecommerce_app/app.py:129-131 | all order rows in insertion order, numbered 1, 2, 3, ... |
| `ShopProperties.Step` | TamayoPaulAron_Ecommerce_app/app.py:57-125 | any writing request keeps the store invariant and only appends to the order table, at most one row |
| `ShopProperties.RunPreservesWellFormed` | TamayoPaulAron_Ecommerce_app/app.py:18-28 | after any sequence of writing requests every product is filed under its own id and orders are numbered 1..n |
| `ShopProperties.OrdersAppendOnly` | TamayoPaulAron_Ecommerce_app/app.py:114-123 | earlier orders are never changed or removed by later requests (their snapshot survives product updates and deletes), and each request adds at most one |
| `ShopProperties.StockNeverNegative` | TamayoPaulAron_Ecommerce_app/app.py:109-120 | if stock starts non-negative and creation and update write only non-negative stock, no sequence of requests, whatever the order quantities, makes any stock negative |
| `ShopProperties.NegativeQuantityRaisesStock` | TamayoPaulAron_Ecommerce_app/app.py:109-120 | an order with a negative quantity on a product with non-negative stock succeeds, whatever the price, raises the stock, and records price times quantity as the total, which is non-positive when the price is non-negative |
| `ShopProperties.StockConservation` | TamayoPaulAron_Ecommerce_app/app.py:107-123 | after any run of orders against one product, its stock plus the quantities of the accepted orders equals the stock before; those orders carry its name and are together worth its price times the quantity sold; its name and price are unchanged |
| `ShopProperties.WidgetScenario` | TamayoPaulAron_Ecommerce_app/app.py:58-125 | a Widget at 950 cents with stock 10 gets id 1; ordering 3 gives order 1 worth 2850 and stock 7; then ordering 8 is refused and stock stays 7 |

## Left out

- HTTP routing, parsing of the JSON body and the JSON replies: the field values arrive as parameters and the reply is an `Outcome`. A body lacking a field makes the handlers raise on the missing key; that path is not modelled.
- Serialization schemas: they only shape the JSON output.
- The database engine, session and connection setup: each handler's commit is one atomic assignment of the tables.
- Floating-point price and total: modelled as exact integers (cents), so no rounding.
- Concurrent requests: each handler runs atomically, so the race in which two simultaneous orders both pass the stock check is not represented.
- `ShopModel.CreateOrder`, `ShopModel.AddProduct`, `ShopModel.UpdateProduct` and `ShopProperties.NegativeQuantityRaisesStock`: every integer column (the ids, `stock`, `quantity`) is a signed 64-bit SQLite integer, and a stock, quantity or id outside that range makes the service's commit (or lookup) fail with a server error and write nothing; the model uses unbounded integers and does not represent that failure, so for example a negative quantity below -2^63 still succeeds here.
- `ShopModel.NextRowId`: does not model SQLite's fallback to a random unused id once the largest id reaches 2^63 - 1; ids are unbounded integers.
- The 100-character length of the name columns: SQLite does not enforce it, and neither does the model.
- `ShopStore.Store.GetProducts`: returns the records as a set, so it says nothing about the order in which the listing returns them.
- The value a route's handler passes as `product_id` is assumed to be an integer; a non-integer id in the order body is not modelled.
