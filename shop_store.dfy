/**
 * The store as the service holds it: one object whose Product table and
 * Order table the route handlers update in place. Each handler does its
 * lookup, check and writes step by step and commits once at the end; its
 * postcondition says that the new tables and the reply are exactly what the
 * matching function of ShopModel gives for the old tables.
 */
module ShopStore {
  import opened ShopModel

  class Store {
    /** The Product table, keyed by primary key. */
    var products: map<int, Product>
    /** The Order table, in insertion order. */
    var orders: seq<Order>

    /** The tables as one value. */
    function State(): Db
      reads this
    {
      Db(products, orders)
    }

    ghost predicate Valid()
      reads this
    {
      WellFormed(State())
    }

    /** A fresh database: both tables empty. */
    constructor ()
      ensures Valid()
      ensures State() == EmptyDb
    {
      products := map[];
      orders := [];
    }

    /** POST /products. */
    method AddProduct(name: string, price: int, stock: int) returns (p: Product)
      requires Valid()
      modifies this
      ensures Valid()
      ensures (State(), p) == ShopModel.AddProduct(old(State()), name, price, stock)
    {
      var id := NextRowId(products.Keys);
      p := Product(id, name, price, stock);
      products := products[id := p];
    }

    /** GET /products: every stored record. */
    method GetProducts() returns (r: set<Product>)
      requires Valid()
      ensures forall p :: p in r <==> p.id in products && products[p.id] == p
    {
      r := products.Values;
      forall p | p in r
        ensures p.id in products && products[p.id] == p
      {
        if forall id :: id in products ==> products[id] != p {
          assert false;  // p is one of the stored values
        }
      }
    }

    /** GET /products/<id>. */
    method GetProduct(id: int) returns (r: Outcome<Product>)
      requires Valid()
      ensures r == ShopModel.GetProduct(State(), id)
      ensures r.Ok? ==> r.value.id == id
    {
      if id !in products {
        return NotFound;
      }
      r := Ok(products[id]);
    }

    /** PUT /products/<id>: the three fields are assigned one by one, then committed. */
    method UpdateProduct(id: int, name: string, price: int, stock: int) returns (r: Outcome<Product>)
      requires Valid()
      modifies this
      ensures Valid()
      ensures (State(), r) == ShopModel.UpdateProduct(old(State()), id, name, price, stock)
    {
      if id !in products {
        return NotFound;
      }
      var product := products[id];
      product := product.(name := name);
      product := product.(price := price);
      product := product.(stock := stock);
      products := products[id := product];
      r := Ok(product);
    }

    /** DELETE /products/<id>. */
    method DeleteProduct(id: int) returns (r: Outcome<()>)
      requires Valid()
      modifies this
      ensures Valid()
      ensures (State(), r) == ShopModel.DeleteProduct(old(State()), id)
    {
      if id !in products {
        return NotFound;
      }
      products := products - {id};
      r := Ok(());
    }

    /**
     * POST /orders. The order row and the lowered stock are written together
     * at the end, so a refused request leaves both tables as they were.
     */
    method CreateOrder(productId: int, quantity: int) returns (r: Outcome<Order>)
      requires Valid()
      modifies this
      ensures Valid()
      ensures (State(), r) == ShopModel.CreateOrder(old(State()), productId, quantity)
      ensures r.Ok? ==> products[productId].stock == old(products[productId].stock) - quantity
      ensures !r.Ok? ==> products == old(products) && orders == old(orders)
    {
      if productId !in products {
        return NotFound;
      }
      var product := products[productId];
      if product.stock < quantity {
        return InsufficientStock;
      }
      var total := product.price * quantity;
      var order := Order(|orders| + 1, product.name, quantity, total);
      product := product.(stock := product.stock - quantity);
      products, orders := products[productId := product], orders + [order];
      r := Ok(order);
    }

    /** GET /orders: the order rows, oldest first, numbered from 1. */
    method GetOrders() returns (r: seq<Order>)
      requires Valid()
      ensures r == orders
      ensures forall i :: 0 <= i < |r| ==> r[i].id == i + 1
    {
      r := orders;
    }
  }
}
