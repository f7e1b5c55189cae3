/**
 * Properties of the store over whole sequences of requests: what every
 * handler keeps true, what the order history records, and how stock and
 * revenue add up.
 */
module ShopProperties {
  import opened ShopModel

  /** A request that writes to the store (the GET routes change nothing). */
  datatype Request =
    | AddProductReq(name: string, price: int, stock: int)
    | UpdateProductReq(id: int, name: string, price: int, stock: int)
    | DeleteProductReq(id: int)
    | CreateOrderReq(productId: int, quantity: int)

  /** The store after one request, whatever the reply. */
  function Step(db: Db, req: Request): (db': Db)
    ensures WellFormed(db) ==> WellFormed(db')
    ensures db.orders <= db'.orders
    ensures |db'.orders| <= |db.orders| + 1
  {
    match req
    case AddProductReq(name, price, stock) => AddProduct(db, name, price, stock).0
    case UpdateProductReq(id, name, price, stock) => UpdateProduct(db, id, name, price, stock).0
    case DeleteProductReq(id) => DeleteProduct(db, id).0
    case CreateOrderReq(productId, quantity) => CreateOrder(db, productId, quantity).0
  }

  /** The store after the requests, handled one at a time from first to last. */
  function Run(db: Db, reqs: seq<Request>): (db': Db)
    decreases |reqs|
  {
    if reqs == [] then db else Run(Step(db, reqs[0]), reqs[1..])
  }

  lemma {:induction false} RunPreservesWellFormed(db: Db, reqs: seq<Request>)
    requires WellFormed(db)
    ensures WellFormed(Run(db, reqs))
    decreases |reqs|
  {
    if reqs != [] {
      RunPreservesWellFormed(Step(db, reqs[0]), reqs[1..]);
    }
  }

  /** Order rows are never changed or removed: later requests only append. */
  lemma {:induction false} OrdersAppendOnly(db: Db, reqs: seq<Request>)
    ensures db.orders <= Run(db, reqs).orders
    ensures |Run(db, reqs).orders| <= |db.orders| + |reqs|
    decreases |reqs|
  {
    if reqs != [] {
      OrdersAppendOnly(Step(db, reqs[0]), reqs[1..]);
    }
  }

  predicate StocksNonNegative(db: Db) {
    forall id :: id in db.products ==> db.products[id].stock >= 0
  }

  /** The stock values a request writes directly (creation and update) are not negative. */
  predicate DirectStockNonNegative(req: Request) {
    match req
    case AddProductReq(_, _, stock) => stock >= 0
    case UpdateProductReq(_, _, _, stock) => stock >= 0
    case _ => true
  }

  /**
   * Orders never drive stock below zero, whatever quantity they ask for
   * (a negative one raises the stock); only creation and update can store a
   * negative stock, since neither checks the value.
   */
  lemma {:induction false} StockNeverNegative(db: Db, reqs: seq<Request>)
    requires StocksNonNegative(db)
    requires forall i :: 0 <= i < |reqs| ==> DirectStockNonNegative(reqs[i])
    ensures StocksNonNegative(Run(db, reqs))
    decreases |reqs|
  {
    if reqs != [] {
      var db' := Step(db, reqs[0]);
      assert DirectStockNonNegative(reqs[0]);
      forall id | id in db'.products
        ensures db'.products[id].stock >= 0
      {
        assert GetProduct(db', id).Ok?;
        match reqs[0]
        case AddProductReq(name, price, stock) =>
          var r := AddProduct(db, name, price, stock);
          if id != r.1.id {
            assert GetProduct(db', id) == GetProduct(db, id);
          }
        case UpdateProductReq(uid, name, price, stock) =>
          if id != uid {
            assert GetProduct(db', id) == GetProduct(db, id);
          }
        case DeleteProductReq(did) =>
          assert GetProduct(db', id) == GetProduct(db, id);
        case CreateOrderReq(pid, q) =>
          if id != pid {
            assert GetProduct(db', id) == GetProduct(db, id);
          }
      }
      StockNeverNegative(db', reqs[1..]);
    }
  }

  /**
   * A storefront that sets stock only through creation and update can still
   * see its stock grow through an order: CreateOrder accepts a negative
   * quantity, adds it back to the stock and records price * quantity as the
   * total, which is not positive when the price is not negative.
   */
  lemma NegativeQuantityRaisesStock(db: Db, productId: int, quantity: int)
    requires productId in db.products && quantity < 0
    requires db.products[productId].stock >= 0
    ensures var r := CreateOrder(db, productId, quantity);
            && r.1.Ok?
            && r.0.products[productId].stock > db.products[productId].stock
            && r.1.value.totalPrice == db.products[productId].price * quantity
            && (db.products[productId].price >= 0 ==> r.1.value.totalPrice <= 0)
  {
  }

  function SumQuantities(orders: seq<Order>): (total: int) {
    if orders == [] then 0 else orders[0].quantity + SumQuantities(orders[1..])
  }

  function SumTotals(orders: seq<Order>): (total: int) {
    if orders == [] then 0 else orders[0].totalPrice + SumTotals(orders[1..])
  }

  predicate OrdersFor(reqs: seq<Request>, productId: int) {
    forall i :: 0 <= i < |reqs| ==> reqs[i].CreateOrderReq? && reqs[i].productId == productId
  }

  /**
   * Stock is conserved: after any run of orders against one product, the
   * product's stock plus the quantities of the orders that went through
   * equals its stock before; those orders all carry its name, and together
   * they are worth its price times the quantity sold.
   */
  lemma {:induction false} StockConservation(db: Db, productId: int, reqs: seq<Request>)
    requires productId in db.products
    requires OrdersFor(reqs, productId)
    ensures db.orders <= Run(db, reqs).orders
    ensures var db' := Run(db, reqs);
            var placed := db'.orders[|db.orders|..];
            && productId in db'.products
            && db'.products[productId] == db.products[productId].(stock := db'.products[productId].stock)
            && db'.products[productId].stock + SumQuantities(placed) == db.products[productId].stock
            && SumTotals(placed) == db.products[productId].price * SumQuantities(placed)
            && (forall i :: 0 <= i < |placed| ==> placed[i].productName == db.products[productId].name)
    decreases |reqs|
  {
    OrdersAppendOnly(db, reqs);
    if reqs == [] {
      assert Run(db, reqs).orders[|db.orders|..] == [];
    } else {
      var p := db.products[productId];
      var q := reqs[0].quantity;
      var r := CreateOrder(db, productId, q);
      var db1 := r.0;
      assert Step(db, reqs[0]) == db1;
      assert OrdersFor(reqs[1..], productId);
      StockConservation(db1, productId, reqs[1..]);
      var final := Run(db1, reqs[1..]);
      assert Run(db, reqs) == final;
      if r.1.Ok? {
        var rest := final.orders[|db1.orders|..];
        var placed := final.orders[|db.orders|..];
        assert placed == [r.1.value] + rest;
        SumsOfPlaced(r.1.value, rest, p.price);
      } else {
        assert db1 == db;
      }
    }
  }

  /** Accounting for one more placed order in front of the ones after it. */
  lemma SumsOfPlaced(o: Order, rest: seq<Order>, price: int)
    requires o.totalPrice == price * o.quantity
    requires SumTotals(rest) == price * SumQuantities(rest)
    ensures SumQuantities([o] + rest) == o.quantity + SumQuantities(rest)
    ensures SumTotals([o] + rest) == price * SumQuantities([o] + rest)
  {
  }

  /**
   * A worked example: a "Widget" at 950 cents with 10 in stock gets id 1; an
   * order of 3 becomes order 1 worth 2850 and leaves 7; a second order of 8
   * is refused and the stock stays at 7.
   */
  lemma WidgetScenario()
    ensures var (db1, widget) := AddProduct(EmptyDb, "Widget", 950, 10);
            var (db2, first) := CreateOrder(db1, widget.id, 3);
            var (db3, second) := CreateOrder(db2, widget.id, 8);
            && widget == Product(1, "Widget", 950, 10)
            && first == Ok(Order(1, "Widget", 3, 2850))
            && GetProduct(db2, 1) == Ok(Product(1, "Widget", 950, 7))
            && second == InsufficientStock
            && GetProduct(db3, 1) == Ok(Product(1, "Widget", 950, 7))
  {
  }
}
