/**
 * The order service: checkout turns a cart into an order all-or-nothing —
 * the cart is read, every line is checked against current stock, then, in one
 * transaction, the order is created with the unit prices of the moment, each
 * product's stock is decremented and its flag recomputed, and the cart is
 * emptied. Orders are read back one by one or newest first.
 */
module OrderService {
  import opened Wrappers
  import opened Entities
  import opened Storage
  import CartService

  // ---- the availability check ----

  /** A line can be served: its product exists, is flagged in stock and has enough units. */
  predicate Available(products: map<ProductId, Product>, line: CartLine) {
    && line.productId in products
    && products[line.productId].inStock
    && products[line.productId].quantity >= line.quantity
  }

  /** The exception the check loop throws for a line that cannot be served. */
  function LineRejection(products: map<ProductId, Product>, line: CartLine): Error {
    if line.productId !in products then ProductNotFound(line.productId)
    else
      var p := products[line.productId];
      CheckoutNotAvailable(p.name, p.quantity, line.quantity)
  }

  /** Line `k` is the first that cannot be served, and `e` is what is thrown for it. */
  predicate FirstFailureAt(products: map<ProductId, Product>, lines: seq<CartLine>, k: int, e: Error) {
    && 0 <= k < |lines|
    && !Available(products, lines[k])
    && (forall i :: 0 <= i < k ==> Available(products, lines[i]))
    && e == LineRejection(products, lines[k])
  }

  /** A first failure after a servable head line is the first failure of the whole list. */
  lemma FirstFailureShift(products: map<ProductId, Product>, lines: seq<CartLine>, e: Error)
    requires lines != [] && Available(products, lines[0])
    requires exists k :: FirstFailureAt(products, lines[1..], k, e)
    ensures exists k :: FirstFailureAt(products, lines, k, e)
  {
    var k :| FirstFailureAt(products, lines[1..], k, e);
    assert forall i :: 1 <= i <= k + 1 ==> lines[i] == lines[1..][i - 1];
    assert FirstFailureAt(products, lines, k + 1, e);
  }

  /** The exception the check loop throws at the first line that cannot be served, if any. */
  function FirstUnavailable(products: map<ProductId, Product>, lines: seq<CartLine>): (r: Option<Error>)
    ensures r.None? <==> forall i :: 0 <= i < |lines| ==> Available(products, lines[i])
    ensures r.Some? ==> exists k :: FirstFailureAt(products, lines, k, r.value)
    ensures r.Some? ==> r.value.ProductNotFound? || r.value.CheckoutNotAvailable?
  {
    if lines == [] then None
    else
      var line := lines[0];
      match Lookup(products, line.productId)
      case None =>
        assert FirstFailureAt(products, lines, 0, ProductNotFound(line.productId));
        Some(ProductNotFound(line.productId))
      case Some(p) =>
        if !p.inStock || p.quantity < line.quantity then
          assert FirstFailureAt(products, lines, 0, CheckoutNotAvailable(p.name, p.quantity, line.quantity));
          Some(CheckoutNotAvailable(p.name, p.quantity, line.quantity))
        else
          var rest := FirstUnavailable(products, lines[1..]);
          assert forall i :: 1 <= i < |lines| ==> lines[i] == lines[1..][i - 1];
          if rest.Some? then
            FirstFailureShift(products, lines, rest.value);
            rest
          else rest
  }

  /** Why checkout refuses a cart whose lines are `lines`, if it does. */
  function CheckoutRejection(products: map<ProductId, Product>, lines: seq<CartLine>): (r: Option<Error>)
    ensures lines == [] ==> r == Some(CartEmpty)
    ensures r.None? <==> lines != [] && forall i :: 0 <= i < |lines| ==> Available(products, lines[i])
    ensures r.Some? && lines != [] ==> exists k :: FirstFailureAt(products, lines, k, r.value)
  {
    if lines == [] then Some(CartEmpty) else FirstUnavailable(products, lines)
  }

  /** The check loop: each line's product is read afresh and compared with the requested quantity. */
  method ValidateLines(db: Store, lines: seq<CartLine>) returns (r: Option<Error>)
    ensures r == FirstUnavailable(db.products, lines)
  {
    var i := 0;
    while i < |lines|
      invariant 0 <= i <= |lines|
      invariant FirstUnavailable(db.products, lines[i..]) == FirstUnavailable(db.products, lines)
    {
      var line := lines[i];
      var product := Lookup(db.products, line.productId);
      if product.None? {
        return Some(ProductNotFound(line.productId));
      }
      if !product.value.inStock || product.value.quantity < line.quantity {
        return Some(CheckoutNotAvailable(product.value.name, product.value.quantity, line.quantity));
      }
      assert lines[i..][1..] == lines[i + 1..];
      i := i + 1;
    }
    assert lines[i..] == [];
    r := None;
  }

  // ---- what the transaction records and takes ----

  /** The order items: one per cart line, priced at the product's current unit price. */
  function OrderItemsFor(lines: seq<CartLine>): (r: seq<OrderItem>)
    requires CartService.Joined(lines)
    ensures |r| == |lines|
    ensures forall i :: 0 <= i < |lines| ==>
      r[i].productId == lines[i].productId && r[i].quantity == lines[i].quantity
      && r[i].price == lines[i].product.value.price
  {
    seq(|lines|, i requires 0 <= i < |lines| =>
      OrderItem(lines[i].productId, lines[i].quantity, lines[i].product.value.price))
  }

  /** The value of an order's items: price × quantity summed. */
  function ItemsTotal(items: seq<OrderItem>): Cents {
    if items == [] then 0 else items[0].price * items[0].quantity + ItemsTotal(items[1..])
  }

  /** The total stored on the order is what its items are worth. */
  lemma {:induction false} OrderTotalMatchesItems(lines: seq<CartLine>)
    requires CartService.Joined(lines)
    ensures ItemsTotal(OrderItemsFor(lines)) == CartService.Sum(lines)
  {
    if lines != [] {
      OrderTotalMatchesItems(lines[1..]);
      assert OrderItemsFor(lines)[1..] == OrderItemsFor(lines[1..]);
    }
  }

  /** The two writes of one transaction step: decrement the stock, then recompute the flag. */
  function Decrement(products: map<ProductId, Product>, line: CartLine): map<ProductId, Product> {
    if line.productId in products then
      var p := products[line.productId];
      var q := p.quantity - line.quantity;
      products[line.productId := p.(quantity := q, inStock := q > 0)]
    else products
  }

  /** The product table after the transaction has processed `lines` in order. */
  function DecrementAll(products: map<ProductId, Product>, lines: seq<CartLine>): (r: map<ProductId, Product>)
    ensures forall pid {:trigger pid in r} :: pid in r <==> pid in products
  {
    if lines == [] then products
    else Decrement(DecrementAll(products, lines[..|lines| - 1]), lines[|lines| - 1])
  }

  /** The units of `pid` that `lines` order. */
  function Ordered(lines: seq<CartLine>, pid: ProductId): nat {
    if lines == [] then 0
    else
      var last := lines[|lines| - 1];
      Ordered(lines[..|lines| - 1], pid) + (if last.productId == pid then last.quantity else 0)
  }

  /**
   * Stock is conserved: every product keeps its row and all fields but stock and
   * flag, loses exactly the units ordered, and a product no line names is untouched.
   */
  lemma {:induction false} DecrementAllEffect(products: map<ProductId, Product>, lines: seq<CartLine>, pid: ProductId)
    ensures pid in DecrementAll(products, lines) <==> pid in products
    ensures pid in products ==>
      var a, b := products[pid], DecrementAll(products, lines)[pid];
      && b.quantity == a.quantity - Ordered(lines, pid)
      && b.id == a.id && b.name == a.name && b.price == a.price && b.category == a.category
      && (StockFlagDerived(a) ==> StockFlagDerived(b))
      && ((forall i :: 0 <= i < |lines| ==> lines[i].productId != pid) ==> b == a)
  {
    if lines != [] {
      var init := lines[..|lines| - 1];
      DecrementAllEffect(products, init, pid);
      assert forall i :: 0 <= i < |init| ==> init[i] == lines[i];
    }
  }

  /** Without duplicate products, the units ordered of a product are those of its one line. */
  lemma {:induction false} OrderedSingle(lines: seq<CartLine>, pid: ProductId)
    requires forall i, j :: 0 <= i < j < |lines| ==> lines[i].productId != lines[j].productId
    ensures (forall i :: 0 <= i < |lines| ==> lines[i].productId != pid) ==> Ordered(lines, pid) == 0
    ensures forall k :: 0 <= k < |lines| && lines[k].productId == pid ==> Ordered(lines, pid) == lines[k].quantity
  {
    if lines != [] {
      var init := lines[..|lines| - 1];
      OrderedSingle(init, pid);
      assert forall i :: 0 <= i < |init| ==> init[i] == lines[i];
    }
  }

  /** The transaction leaves a valid product table when every line was available and named a distinct product. */
  lemma CheckoutKeepsProductsValid(products: map<ProductId, Product>, lines: seq<CartLine>, nextId: nat)
    requires ProductsValid(products, nextId)
    requires forall i, j :: 0 <= i < j < |lines| ==> lines[i].productId != lines[j].productId
    requires forall i :: 0 <= i < |lines| ==> Available(products, lines[i])
    ensures ProductsValid(DecrementAll(products, lines), nextId)
  {
    forall pid | pid in DecrementAll(products, lines)
      ensures var b := DecrementAll(products, lines)[pid];
        pid < nextId && b.id == pid && b.price > 0 && b.quantity >= 0 && StockFlagDerived(b)
    {
      DecrementAllEffect(products, lines, pid);
      OrderedSingle(lines, pid);
    }
  }

  /** Cart lines read from a cart with no duplicate products name distinct products. */
  lemma LinesDistinct(items: seq<CartItem>, products: map<ProductId, Product>)
    requires NoDuplicateProducts(items)
    ensures var lines := CartService.Lines(items, products);
      forall i, j :: 0 <= i < j < |lines| ==> lines[i].productId != lines[j].productId
  {
  }

  /** One step of the transaction loop extends both the recorded items and the stock updates by one line. */
  lemma PrefixStep(products: map<ProductId, Product>, lines: seq<CartLine>, i: nat)
    requires CartService.Joined(lines) && i < |lines|
    requires forall k :: 0 <= k < |lines| ==> Available(products, lines[k])
    ensures lines[i].productId in DecrementAll(products, lines[..i])
    ensures OrderItemsFor(lines[..i + 1])
      == OrderItemsFor(lines[..i]) + [OrderItem(lines[i].productId, lines[i].quantity, lines[i].product.value.price)]
    ensures DecrementAll(products, lines[..i + 1]) == Decrement(DecrementAll(products, lines[..i]), lines[i])
  {
    assert lines[..i + 1][..i] == lines[..i];
    DecrementAllEffect(products, lines[..i], lines[i].productId);
    assert Available(products, lines[i]);
  }

  /** A new order under the next id, created at the current time, keeps the order table valid. */
  lemma NewOrderKeepsOrdersValid(orders: map<OrderId, Order>, nextId: nat, clock: nat, order: Order)
    requires OrdersValid(orders, nextId, clock)
    requires order.id == nextId && order.createdAt == clock
    ensures OrdersValid(orders[nextId := order], nextId + 1, clock + 1)
  {
  }

  /** Emptying a cart keeps the cart table valid. */
  lemma ClearKeepsCartsValid(carts: map<CartId, seq<CartItem>>, nextId: nat, cartId: CartId)
    requires CartsValid(carts, nextId) && cartId in carts
    ensures CartsValid(carts[cartId := []], nextId)
  {
  }

  // ---- checkout ----

  /**
   * The loop of the transaction: for each line, record an order item at the
   * product's unit price, decrement the product's stock and recompute its flag.
   */
  method RecordLines(db: Store, orderId: OrderId, lines: seq<CartLine>)
    requires orderId in db.orders && db.orders[orderId].items == []
    requires CartService.Joined(lines)
    requires forall k :: 0 <= k < |lines| ==> Available(db.products, lines[k])
    modifies db`orders, db`products
    ensures db.orders == old(db.orders)[orderId := old(db.orders)[orderId].(items := OrderItemsFor(lines))]
    ensures db.products == DecrementAll(old(db.products), lines)
  {
    ghost var products0 := db.products;
    ghost var order0 := db.orders[orderId];
    var i := 0;
    while i < |lines|
      invariant 0 <= i <= |lines|
      invariant db.orders == old(db.orders)[orderId := order0.(items := OrderItemsFor(lines[..i]))]
      invariant db.products == DecrementAll(products0, lines[..i])
    {
      var line := lines[i];
      var item := OrderItem(line.productId, line.quantity, line.product.value.price);
      var order := db.orders[orderId];
      db.orders := db.orders[orderId := order.(items := order.items + [item])];

      PrefixStep(products0, lines, i);
      ghost var decremented := Decrement(db.products, line);
      var updatedProduct := db.products[line.productId];
      updatedProduct := updatedProduct.(quantity := updatedProduct.quantity - line.quantity);
      db.products := db.products[line.productId := updatedProduct];
      db.products := db.products[line.productId := updatedProduct.(inStock := updatedProduct.quantity > 0)];
      assert db.products == decremented;
      i := i + 1;
    }
    assert lines[..i] == lines;
  }

  /**
   * The transaction of a checkout whose lines all passed the check: the order
   * is created with the total, its lines recorded, the cart emptied and the
   * order read back.
   */
  method PlaceOrder(db: Store, cartId: CartId, lines: seq<CartLine>, total: Cents) returns (order: Order)
    requires db.Valid()
    requires cartId in db.carts
    requires forall i, j :: 0 <= i < j < |lines| ==> lines[i].productId != lines[j].productId
    requires forall i :: 0 <= i < |lines| ==> Available(db.products, lines[i])
    requires CartService.Joined(lines)
    modifies db`products, db`carts, db`orders, db`nextOrderId, db`clock
    ensures db.Valid()
    ensures order == Order(old(db.nextOrderId), total, old(db.clock), OrderItemsFor(lines))
    ensures order.id !in old(db.orders) && db.orders == old(db.orders)[order.id := order]
    ensures db.products == DecrementAll(old(db.products), lines)
    ensures db.carts == old(db.carts)[cartId := []]
  {
    CheckoutKeepsProductsValid(db.products, lines, db.nextProductId);
    ClearKeepsCartsValid(db.carts, db.nextCartId, cartId);
    var orderId := db.nextOrderId;
    ghost var orders0 := db.orders;
    ghost var placed := Order(orderId, total, db.clock, OrderItemsFor(lines));
    NewOrderKeepsOrdersValid(db.orders, orderId, db.clock, placed);
    db.orders := db.orders[orderId := Order(orderId, total, db.clock, [])];
    db.nextOrderId := orderId + 1;
    db.clock := db.clock + 1;

    RecordLines(db, orderId, lines);
    assert db.orders == orders0[orderId := placed];

    db.carts := db.carts[cartId := []];
    order := db.orders[orderId];
    assert ProductsValid(db.products, db.nextProductId) && CartsValid(db.carts, db.nextCartId);
  }

  /**
   * checkout: NotFound for an unknown cart; BadRequest for an empty cart;
   * the first unavailable line's exception; otherwise an order priced from the
   * current products, the stock taken, the cart emptied — and nothing changed
   * when an exception is thrown.
   */
  method Checkout(db: Store, cartId: CartId) returns (r: Result<Order, Error>)
    requires db.Valid()
    modifies db`products, db`carts, db`orders, db`nextOrderId, db`clock
    ensures db.Valid()
    ensures cartId !in old(db.carts) ==> r == Err(CartNotFound(cartId))
    ensures cartId in old(db.carts) ==>
      var lines := CartService.Lines(old(db.carts)[cartId], old(db.products));
      && (CheckoutRejection(old(db.products), lines).Some? ==>
            r == Err(CheckoutRejection(old(db.products), lines).value))
      && (CheckoutRejection(old(db.products), lines).None? ==>
            && r.Ok? && CartService.Joined(lines)
            && r.value == Order(old(db.nextOrderId), CartService.Sum(lines), old(db.clock), OrderItemsFor(lines))
            && r.value.id !in old(db.orders)
            && db.orders == old(db.orders)[r.value.id := r.value]
            && db.products == DecrementAll(old(db.products), lines)
            && db.carts == old(db.carts)[cartId := []])
    ensures r.Err? ==>
      db.products == old(db.products) && db.carts == old(db.carts) && db.orders == old(db.orders)
    ensures r.Err? ==> db.nextOrderId == old(db.nextOrderId) && db.clock == old(db.clock)
  {
    var found := CartService.FindCart(db, cartId);
    if found.Err? {
      return Err(found.error);
    }
    var cart := found.value;
    if |cart.items| == 0 {
      return Err(CartEmpty);
    }
    var rejection := ValidateLines(db, cart.items);
    if rejection.Some? {
      return Err(rejection.value);
    }
    assert CartService.Joined(cart.items) by {
      forall i | 0 <= i < |cart.items| ensures cart.items[i].product.Some? {
        assert Available(db.products, cart.items[i]);
      }
    }
    var total := CartService.GetCartTotal(db, cartId);
    LinesDistinct(db.carts[cartId], db.products);
    var order := PlaceOrder(db, cartId, cart.items, total.value);
    r := Ok(order);
  }

  // ---- reads ----

  /** findOrder: the order, or NotFound. */
  function FindOrder(db: Store, orderId: OrderId): (r: Result<Order, Error>)
    reads db
    requires db.Valid()
    ensures r.Ok? <==> orderId in db.orders
    ensures r.Ok? ==> r.value == db.orders[orderId] && r.value.id == orderId
    ensures r.Err? ==> r.error == OrderNotFound(orderId) && r.error.Kind() == NotFound
  {
    if orderId in db.orders then Ok(db.orders[orderId]) else Err(OrderNotFound(orderId))
  }

  /** The ids of the orders below `n`, highest first. */
  function IdsNewestFirst(orders: map<OrderId, Order>, n: nat): (r: seq<OrderId>)
    ensures forall id :: id in r <==> id in orders && id < n
    ensures forall i, j :: 0 <= i < j < |r| ==> r[i] > r[j]
  {
    if n == 0 then []
    else
      var rest := IdsNewestFirst(orders, n - 1);
      if n - 1 !in orders then rest
      else
        var r := [n - 1] + rest;
        assert forall i :: 1 <= i < |r| ==> r[i] == rest[i - 1] && rest[i - 1] in rest;
        r
  }

  /** findAllOrders: every order exactly once, the most recently created first. */
  function FindAllOrders(db: Store): (r: seq<Order>)
    reads db
    requires db.Valid()
    ensures forall o :: o in r <==> o in db.orders.Values
    ensures forall i, j :: 0 <= i < j < |r| ==> r[i].createdAt > r[j].createdAt
  {
    var orders := db.orders;
    var ids := IdsNewestFirst(orders, db.nextOrderId);
    var r := seq(|ids|, i requires 0 <= i < |ids| => orders[ids[i]]);
    assert forall o :: o in orders.Values ==> o in r by {
      forall o | o in orders.Values ensures o in r {
        var id :| id in orders && orders[id] == o;
        var i :| 0 <= i < |ids| && ids[i] == id;
        assert r[i] == o;
      }
    }
    r
  }
}
