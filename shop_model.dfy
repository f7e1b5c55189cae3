/**
 * The two-table store of the e-commerce backend, as values.
 *
 * The store holds a `Product` table keyed by id and an append-only `Order`
 * table. Every route of the service is a function from the store before the
 * request to the store after it together with the reply it sends. Prices and
 * totals are whole numbers of the smallest currency unit (cents).
 */
module ShopModel {

  /** A row of the Product table; `id` is its primary key. */
  datatype Product = Product(id: int, name: string, price: int, stock: int)

  /** A row of the Order table: a snapshot taken when the order was placed. */
  datatype Order = Order(id: int, productName: string, quantity: int, totalPrice: int)

  /** The whole persisted state: the Product table by id, the Order table in insertion order. */
  datatype Db = Db(products: map<int, Product>, orders: seq<Order>)

  /** What a route answers: the record, a 404, or the 400 "Not enough stock". */
  datatype Outcome<+T> = Ok(value: T) | NotFound | InsufficientStock

  /** The empty store the service starts from. */
  const EmptyDb := Db(map[], [])

  /**
   * Invariant of the store: every product is filed under its own id, and the
   * order rows carry the ids 1, 2, 3, ... in the order they were inserted
   * (orders are never deleted, so the row-id rule hands them out in sequence).
   */
  predicate WellFormed(db: Db) {
    && (forall id :: id in db.products ==> db.products[id].id == id)
    && (forall i :: 0 <= i < |db.orders| ==> db.orders[i].id == i + 1)
  }

  /** `m` is the largest element of `s`. */
  predicate IsMax(s: set<int>, m: int) {
    m in s && forall k :: k in s ==> k <= m
  }

  lemma {:induction false} MaxExists(s: set<int>)
    requires s != {}
    ensures exists m :: IsMax(s, m)
  {
    if forall k :: k !in s {
      assert false;  // s is not empty
    }
    var x :| x in s;
    var rest := s - {x};
    if rest == {} {
      assert s == {x};
      assert IsMax(s, x);
    } else {
      MaxExists(rest);
      var m :| IsMax(rest, m);
      var top := if x <= m then m else x;
      forall k | k in s
        ensures k <= top
      {
        if k != x {
          assert k in rest;
        }
      }
      assert IsMax(s, top);
    }
  }

  /**
   * The id the database gives a new row of a table whose rows currently have
   * the ids `ids`: one more than the largest id in use, or 1 for an empty
   * table (the rule SQLite applies to an INTEGER PRIMARY KEY column).
   */
  function NextRowId(ids: set<int>): (id: int)
    ensures id !in ids
    ensures forall k :: k in ids ==> k < id
    ensures ids == {} ==> id == 1
    ensures ids != {} ==> id - 1 in ids
  {
    if ids == {} then 1
    else
      MaxExists(ids);
      var m :| IsMax(ids, m);
      m + 1
  }

  /** GET /products/<id>: the stored record, or 404 when no row has that id. */
  function GetProduct(db: Db, id: int): (r: Outcome<Product>)
    ensures r.Ok? <==> id in db.products
    ensures r.NotFound? <==> id !in db.products
    ensures r.Ok? ==> r.value == db.products[id]
    ensures WellFormed(db) && r.Ok? ==> r.value.id == id
  {
    if id in db.products then Ok(db.products[id]) else NotFound
  }

  /**
   * POST /products: insert a row with the given fields under a fresh id and
   * reply with the stored record.
   */
  function AddProduct(db: Db, name: string, price: int, stock: int): (r: (Db, Product))
    ensures r.1.name == name && r.1.price == price && r.1.stock == stock
    ensures r.1.id !in db.products
    ensures r.1.id == NextRowId(db.products.Keys)
    ensures GetProduct(r.0, r.1.id) == Ok(r.1)
    ensures forall id :: id != r.1.id ==> GetProduct(r.0, id) == GetProduct(db, id)
    ensures r.0.products.Keys == db.products.Keys + {r.1.id}
    ensures r.0.orders == db.orders
    ensures WellFormed(db) ==> WellFormed(r.0)
  {
    var id := NextRowId(db.products.Keys);
    var p := Product(id, name, price, stock);
    (db.(products := db.products[id := p]), p)
  }

  /**
   * PUT /products/<id>: overwrite name, price and stock of an existing row
   * (no check on the new values); 404 and no change when the id is absent.
   */
  function UpdateProduct(db: Db, id: int, name: string, price: int, stock: int): (r: (Db, Outcome<Product>))
    ensures r.1.NotFound? <==> id !in db.products
    ensures !r.1.InsufficientStock?
    ensures r.1.NotFound? ==> r.0 == db
    ensures r.1.Ok? ==> r.1.value.name == name && r.1.value.price == price && r.1.value.stock == stock
    ensures WellFormed(db) && r.1.Ok? ==> r.1.value == Product(id, name, price, stock)
    ensures r.1.Ok? ==> GetProduct(r.0, id) == r.1
    ensures forall other :: other != id ==> GetProduct(r.0, other) == GetProduct(db, other)
    ensures r.0.products.Keys == db.products.Keys
    ensures r.0.orders == db.orders
    ensures WellFormed(db) ==> WellFormed(r.0)
  {
    if id !in db.products then (db, NotFound)
    else
      var p := db.products[id].(name := name, price := price, stock := stock);
      (db.(products := db.products[id := p]), Ok(p))
  }

  /**
   * DELETE /products/<id>: remove the row; 404 and no change when the id is
   * absent. Orders placed earlier keep their snapshot of the product.
   */
  function DeleteProduct(db: Db, id: int): (r: (Db, Outcome<()>))
    ensures r.1.NotFound? <==> id !in db.products
    ensures !r.1.InsufficientStock?
    ensures r.1.NotFound? ==> r.0 == db
    ensures GetProduct(r.0, id) == NotFound
    ensures forall other :: other != id ==> GetProduct(r.0, other) == GetProduct(db, other)
    ensures r.0.products.Keys == db.products.Keys - {id}
    ensures r.0.orders == db.orders
    ensures WellFormed(db) ==> WellFormed(r.0)
  {
    if id !in db.products then (db, NotFound)
    else (db.(products := db.products - {id}), Ok(()))
  }

  /**
   * POST /orders: look the product up (404 if absent), refuse when its stock
   * is below the requested quantity (400, nothing written), otherwise append
   * an order holding the product's current name, the quantity and
   * price * quantity, and take the quantity off the product's stock; both
   * writes are one commit. The quantity is not checked to be positive.
   */
  function CreateOrder(db: Db, productId: int, quantity: int): (r: (Db, Outcome<Order>))
    ensures r.1.NotFound? <==> productId !in db.products
    ensures r.1.InsufficientStock? <==>
              productId in db.products && db.products[productId].stock < quantity
    ensures !r.1.Ok? ==> r.0 == db
    ensures r.1.Ok? ==>
              var p := db.products[productId];
              && r.1.value.productName == p.name
              && r.1.value.quantity == quantity
              && r.1.value.totalPrice == p.price * quantity
              && r.1.value.id == |db.orders| + 1
              && r.0.orders == db.orders + [r.1.value]
              && GetProduct(r.0, productId) == Ok(p.(stock := p.stock - quantity))
              && r.0.products[productId].stock >= 0
    ensures forall other :: other != productId ==> GetProduct(r.0, other) == GetProduct(db, other)
    ensures r.0.products.Keys == db.products.Keys
    ensures WellFormed(db) ==> WellFormed(r.0)
  {
    if productId !in db.products then (db, NotFound)
    else
      var p := db.products[productId];
      if p.stock < quantity then (db, InsufficientStock)
      else
        var order := Order(|db.orders| + 1, p.name, quantity, p.price * quantity);
        var db' := Db(db.products[productId := p.(stock := p.stock - quantity)], db.orders + [order]);
        (db', Ok(order))
  }

  /** The ids of a sequence of order rows. */
  function OrderIds(orders: seq<Order>): (ids: set<int>) {
    set o | o in orders :: o.id
  }

  /**
   * In a well-formed store the id CreateOrder gives a new order is exactly
   * the one the database's row-id rule would choose for the Order table.
   */
  lemma OrderIdIsNextRowId(db: Db)
    requires WellFormed(db)
    ensures NextRowId(OrderIds(db.orders)) == |db.orders| + 1
  {
    var ids := OrderIds(db.orders);
    var n := |db.orders|;
    var id := NextRowId(ids);
    if n == 0 {
      assert ids == {};
    } else {
      assert db.orders[n - 1] in db.orders;
      assert n in ids;
      assert id - 1 in ids;
      var o :| o in db.orders && o.id == id - 1;
      var i :| 0 <= i < n && db.orders[i] == o;
      assert id - 1 == i + 1;
    }
  }
}
