/**
 * The database the services share: the product, cart-item and order tables
 * held as maps, with the counters that hand out fresh ids and creation times.
 */
module Storage {
  import opened Entities

  /** Every product is stored under its own id, has a positive price, no negative stock and a derived flag. */
  ghost predicate ProductsValid(products: map<ProductId, Product>, nextId: nat) {
    forall id :: id in products ==>
      && id < nextId
      && products[id].id == id
      && products[id].price > 0
      && products[id].quantity >= 0
      && StockFlagDerived(products[id])
  }

  /** The unique key (cartId, productId): a cart holds at most one item per product. */
  predicate NoDuplicateProducts(items: seq<CartItem>) {
    forall i, j :: 0 <= i < j < |items| ==> items[i].productId != items[j].productId
  }

  /** Cart quantities are at least 1, as the request validation admits no other. */
  predicate PositiveQuantities(items: seq<CartItem>) {
    forall i :: 0 <= i < |items| ==> items[i].quantity >= 1
  }

  predicate WellFormedItems(items: seq<CartItem>) {
    NoDuplicateProducts(items) && PositiveQuantities(items)
  }

  ghost predicate CartsValid(carts: map<CartId, seq<CartItem>>, nextId: nat) {
    forall id :: id in carts ==> id < nextId && WellFormedItems(carts[id])
  }

  /** Orders are stored under their ids; an order created later has a later creation time. */
  ghost predicate OrdersValid(orders: map<OrderId, Order>, nextId: nat, clock: nat) {
    && (forall id :: id in orders ==> id < nextId && orders[id].id == id && orders[id].createdAt < clock)
    && (forall a, b :: a in orders && b in orders && a < b ==> orders[a].createdAt < orders[b].createdAt)
  }

  class Store {
    var products: map<ProductId, Product>
    /** The cart-item table, grouped by cart, each cart's items in creation order. */
    var carts: map<CartId, seq<CartItem>>
    var orders: map<OrderId, Order>
    var nextProductId: nat
    var nextCartId: nat
    var nextOrderId: nat
    /** The creation time the next order receives. */
    var clock: nat

    ghost predicate Valid()
      reads this
    {
      && ProductsValid(products, nextProductId)
      && CartsValid(carts, nextCartId)
      && OrdersValid(orders, nextOrderId, clock)
    }

    constructor ()
      ensures Valid()
      ensures products == map[] && carts == map[] && orders == map[]
    {
      products, carts, orders := map[], map[], map[];
      nextProductId, nextCartId, nextOrderId, clock := 0, 0, 0, 0;
    }
  }
}
