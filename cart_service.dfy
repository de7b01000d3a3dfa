/**
 * The cart service: reading a cart with its products, adding, updating and
 * removing items, clearing a cart, and the cart total. Each mutation is
 * specified by a function that decides, from the cart's items and the product
 * row read for the request, either the cart's new items or the exception; the
 * method performs the reads and the single write.
 */
module CartService {
  import opened Wrappers
  import opened Entities
  import opened Storage

  // ---- the (cartId, productId) key ----

  /** The position of the product's item in the cart, the first one if there were several. */
  function IndexOfProduct(items: seq<CartItem>, productId: ProductId): (r: Option<nat>)
    ensures r.Some? ==> r.value < |items| && items[r.value].productId == productId
    ensures r.Some? ==> forall i :: 0 <= i < r.value ==> items[i].productId != productId
    ensures r.None? ==> forall i :: 0 <= i < |items| ==> items[i].productId != productId
  {
    if items == [] then None
    else if items[0].productId == productId then Some(0)
    else match IndexOfProduct(items[1..], productId)
      case Some(k) => Some(k + 1)
      case None => None
  }

  /** The units of the product the cart holds; 0 when it has no item for it. */
  function QuantityOf(items: seq<CartItem>, productId: ProductId): nat {
    match IndexOfProduct(items, productId)
    case Some(k) => items[k].quantity
    case None => 0
  }

  /** Two item lists that name the same products at the same positions find every product at the same place. */
  lemma SameProductsSameIndex(a: seq<CartItem>, b: seq<CartItem>, productId: ProductId)
    requires |a| == |b|
    requires forall i :: 0 <= i < |a| ==> a[i].productId == b[i].productId
    ensures IndexOfProduct(a, productId) == IndexOfProduct(b, productId)
  {
  }

  // ---- reads ----

  /** The `include: { product }` join of a cart's items with the product table. */
  function Lines(items: seq<CartItem>, products: map<ProductId, Product>): (r: seq<CartLine>)
    ensures |r| == |items|
    ensures forall i :: 0 <= i < |items| ==>
      r[i] == CartLine(items[i].productId, items[i].quantity, Lookup(products, items[i].productId))
  {
    seq(|items|, i requires 0 <= i < |items| =>
      CartLine(items[i].productId, items[i].quantity, Lookup(products, items[i].productId)))
  }

  /** findCart: the cart with its items joined to their products, or NotFound. */
  function FindCart(db: Store, cartId: CartId): (r: Result<Cart, Error>)
    reads db
    ensures r.Ok? <==> cartId in db.carts
    ensures r.Err? ==> r.error == CartNotFound(cartId) && r.error.Kind() == NotFound
    ensures r.Ok? ==> r.value.id == cartId && r.value.items == Lines(db.carts[cartId], db.products)
  {
    if cartId in db.carts then Ok(Cart(cartId, Lines(db.carts[cartId], db.products)))
    else Err(CartNotFound(cartId))
  }

  // ---- the cart total ----

  /** Every line still has its product row. */
  predicate Joined(lines: seq<CartLine>) {
    forall i :: 0 <= i < |lines| ==> lines[i].product.Some?
  }

  function LineAmount(line: CartLine): Cents
    requires line.product.Some?
  {
    line.product.value.price * line.quantity
  }

  /** The sum of price × quantity over the lines. */
  function Sum(lines: seq<CartLine>): Cents
    requires Joined(lines)
  {
    if lines == [] then 0 else LineAmount(lines[0]) + Sum(lines[1..])
  }

  /** The source's `reduce((total, item) => total + item.product!.price * item.quantity, acc)`: the sum. */
  function Reduce(acc: Cents, lines: seq<CartLine>): (r: Cents)
    requires Joined(lines)
    decreases |lines|
    ensures r == acc + Sum(lines)
  {
    if lines == [] then acc else Reduce(acc + LineAmount(lines[0]), lines[1..])
  }

  lemma {:induction false} SumAppend(a: seq<CartLine>, b: seq<CartLine>)
    requires Joined(a) && Joined(b)
    ensures Joined(a + b) && Sum(a + b) == Sum(a) + Sum(b)
  {
    if a == [] {
      assert a + b == b;
    } else {
      assert (a + b)[1..] == a[1..] + b;
      SumAppend(a[1..], b);
    }
  }

  lemma {:induction false} SumUpdate(s: seq<CartLine>, k: nat, x: CartLine)
    requires Joined(s) && k < |s| && x.product.Some?
    ensures Joined(s[k := x])
    ensures Sum(s[k := x]) + LineAmount(s[k]) == Sum(s) + LineAmount(x)
  {
    if k == 0 {
      assert s[k := x][1..] == s[1..];
    } else {
      assert s[k := x][1..] == s[1..][k - 1 := x];
      SumUpdate(s[1..], k - 1, x);
    }
  }

  /**
   * getCartTotal: NotFound for an unknown cart; otherwise the sum of
   * price × quantity over the cart's items, 0 for an empty cart. An item whose
   * product row is gone makes `item.product!` fail.
   */
  function GetCartTotal(db: Store, cartId: CartId): (r: Result<Cents, Error>)
    reads db
    ensures cartId !in db.carts ==> r == Err(CartNotFound(cartId))
    ensures cartId in db.carts ==> (r.Ok? <==> Joined(Lines(db.carts[cartId], db.products)))
    ensures r.Ok? ==> r.value == Sum(Lines(db.carts[cartId], db.products))
    ensures cartId in db.carts && db.carts[cartId] == [] ==> r == Ok(0)
  {
    match FindCart(db, cartId)
    case Err(e) => Err(e)
    case Ok(cart) =>
      if Joined(cart.items) then
        Ok(Reduce(0, cart.items))
      else Err(ProductMissing)
  }

  // ---- the decisions of the mutations ----

  /**
   * addToCart on an existing cart, given the product row read for productId:
   * the requested quantity is checked against stock, then merged into an
   * existing item (the merged total checked again) or added as a new item.
   */
  function AddItem(items: seq<CartItem>, product: Option<Product>, productId: ProductId, quantity: nat)
    : (r: Result<seq<CartItem>, Error>)
    ensures r.Ok? <==>
      product.Some? && product.value.inStock && QuantityOf(items, productId) + quantity <= product.value.quantity
    ensures product.None? ==> r == Err(ProductNotFound(productId))
    ensures product.Some? && (!product.value.inStock || product.value.quantity < quantity) ==>
      r == Err(NotAvailable(product.value.quantity))
    ensures product.Some? && product.value.inStock && quantity <= product.value.quantity
              && product.value.quantity < QuantityOf(items, productId) + quantity ==>
      r == Err(NotEnoughStock(product.value.quantity, QuantityOf(items, productId) + quantity))
    ensures r.Err? ==> (r.error.Kind() == NotFound <==> product.None?)
    ensures r.Ok? ==> QuantityOf(r.value, productId) == QuantityOf(items, productId) + quantity
    ensures r.Ok? ==> forall pid :: pid != productId ==> QuantityOf(r.value, pid) == QuantityOf(items, pid)
    ensures r.Ok? && WellFormedItems(items) && quantity >= 1 ==> WellFormedItems(r.value)
  {
    match product
    case None => Err(ProductNotFound(productId))
    case Some(p) =>
      if !p.inStock || p.quantity < quantity then Err(NotAvailable(p.quantity))
      else match IndexOfProduct(items, productId)
        case Some(k) =>
          var newQuantity := items[k].quantity + quantity;
          if p.quantity < newQuantity then Err(NotEnoughStock(p.quantity, newQuantity))
          else
            var updated := items[k := items[k].(quantity := newQuantity)];
            SetQuantityEffect(items, k, newQuantity);
            Ok(updated)
        case None =>
          AppendEffect(items, CartItem(productId, quantity));
          Ok(items + [CartItem(productId, quantity)])
  }

  /** Setting the quantity of the first item of a product changes that product's quantity only. */
  lemma SetQuantityEffect(items: seq<CartItem>, k: nat, quantity: nat)
    requires k < |items| && IndexOfProduct(items, items[k].productId) == Some(k)
    ensures var updated := items[k := items[k].(quantity := quantity)];
      && QuantityOf(updated, items[k].productId) == quantity
      && (forall pid :: pid != items[k].productId ==> QuantityOf(updated, pid) == QuantityOf(items, pid))
      && (WellFormedItems(items) && quantity >= 1 ==> WellFormedItems(updated))
  {
    var updated := items[k := items[k].(quantity := quantity)];
    forall pid ensures IndexOfProduct(updated, pid) == IndexOfProduct(items, pid) {
      SameProductsSameIndex(updated, items, pid);
    }
  }

  /** Appending an item for a product the cart lacks adds that product and changes nothing else. */
  lemma AppendEffect(items: seq<CartItem>, item: CartItem)
    requires IndexOfProduct(items, item.productId).None?
    ensures var extended := items + [item];
      && QuantityOf(extended, item.productId) == item.quantity
      && (forall pid :: pid != item.productId ==> QuantityOf(extended, pid) == QuantityOf(items, pid))
      && (WellFormedItems(items) && item.quantity >= 1 ==> WellFormedItems(extended))
  {
    var extended := items + [item];
    forall pid | pid != item.productId
      ensures QuantityOf(extended, pid) == QuantityOf(items, pid)
    {
      var r := IndexOfProduct(items, pid);
      var e := IndexOfProduct(extended, pid);
      if r.Some? {
        assert extended[r.value].productId == pid;
      }
      if e.Some? {
        assert e.value < |items|;
        assert items[e.value].productId == pid;
      }
    }
    var e := IndexOfProduct(extended, item.productId);
    assert extended[|items|].productId == item.productId;
    assert e.Some? && e.value == |items|;
  }

  /**
   * updateCartItem on an existing cart: the product must exist and cover the
   * requested quantity, then the item must exist; its quantity is replaced.
   */
  function UpdateItem(items: seq<CartItem>, product: Option<Product>, productId: ProductId, quantity: nat)
    : (r: Result<seq<CartItem>, Error>)
    ensures r.Ok? <==>
      && product.Some? && product.value.inStock && quantity <= product.value.quantity
      && IndexOfProduct(items, productId).Some?
    ensures product.None? ==> r == Err(ProductNotFound(productId))
    ensures product.Some? && (!product.value.inStock || product.value.quantity < quantity) ==>
      r == Err(NotAvailable(product.value.quantity))
    ensures product.Some? && product.value.inStock && quantity <= product.value.quantity
              && IndexOfProduct(items, productId).None? ==>
      r == Err(ItemNotInCart)
    ensures r.Ok? ==> |r.value| == |items|
    ensures r.Ok? ==> QuantityOf(r.value, productId) == quantity
    ensures r.Ok? ==> forall pid :: pid != productId ==> QuantityOf(r.value, pid) == QuantityOf(items, pid)
    ensures r.Ok? && WellFormedItems(items) && quantity >= 1 ==> WellFormedItems(r.value)
  {
    match product
    case None => Err(ProductNotFound(productId))
    case Some(p) =>
      if !p.inStock || p.quantity < quantity then Err(NotAvailable(p.quantity))
      else match IndexOfProduct(items, productId)
        case None => Err(ItemNotInCart)
        case Some(k) =>
          SetQuantityEffect(items, k, quantity);
          Ok(items[k := items[k].(quantity := quantity)])
  }

  /** removeFromCart on an existing cart: the product's item is deleted, or NotFound. */
  function RemoveItem(items: seq<CartItem>, productId: ProductId): (r: Result<seq<CartItem>, Error>)
    ensures r.Ok? <==> IndexOfProduct(items, productId).Some?
    ensures r.Err? ==> r.error == ItemNotInCart
    ensures r.Ok? ==> |r.value| == |items| - 1
    ensures r.Ok? && NoDuplicateProducts(items) ==> QuantityOf(r.value, productId) == 0
    ensures r.Ok? ==> forall pid :: pid != productId ==> QuantityOf(r.value, pid) == QuantityOf(items, pid)
    ensures r.Ok? && WellFormedItems(items) ==> WellFormedItems(r.value)
  {
    match IndexOfProduct(items, productId)
    case None => Err(ItemNotInCart)
    case Some(k) =>
      DeleteEffect(items, k);
      Ok(items[..k] + items[k + 1..])
  }

  /** Deleting the first item of a product leaves every other product's quantity as it was. */
  lemma DeleteEffect(items: seq<CartItem>, k: nat)
    requires k < |items| && IndexOfProduct(items, items[k].productId) == Some(k)
    ensures var rest := items[..k] + items[k + 1..];
      && (NoDuplicateProducts(items) ==> QuantityOf(rest, items[k].productId) == 0)
      && (forall pid :: pid != items[k].productId ==> QuantityOf(rest, pid) == QuantityOf(items, pid))
      && (WellFormedItems(items) ==> WellFormedItems(rest))
  {
    var rest := items[..k] + items[k + 1..];
    assert forall i :: 0 <= i < k ==> rest[i] == items[i];
    assert forall i :: k <= i < |rest| ==> rest[i] == items[i + 1];
    forall pid | pid != items[k].productId
      ensures QuantityOf(rest, pid) == QuantityOf(items, pid)
    {
      var r := IndexOfProduct(items, pid);
      var e := IndexOfProduct(rest, pid);
      if r.Some? && r.value < k {
        assert rest[r.value].productId == pid;
      } else if r.Some? {
        assert rest[r.value - 1].productId == pid;
      }
      if e.Some? && e.value >= k {
        assert items[e.value + 1].productId == pid;
      }
    }
  }

  // ---- the effect of the mutations on the cart total ----

  lemma LinesOfUpdate(items: seq<CartItem>, products: map<ProductId, Product>, k: nat, quantity: nat)
    requires k < |items|
    ensures Lines(items[k := items[k].(quantity := quantity)], products)
         == Lines(items, products)[k := Lines(items, products)[k].(quantity := quantity)]
  {
  }

  lemma LinesOfAppend(items: seq<CartItem>, products: map<ProductId, Product>, item: CartItem)
    ensures Lines(items + [item], products)
         == Lines(items, products) + [CartLine(item.productId, item.quantity, Lookup(products, item.productId))]
  {
  }

  /** Raising one line's quantity by `quantity` raises the sum by price × quantity. */
  lemma RaiseLineTotal(lines: seq<CartLine>, k: nat, quantity: nat)
    requires Joined(lines) && k < |lines|
    ensures var x := lines[k].(quantity := lines[k].quantity + quantity);
      Joined(lines[k := x]) && Sum(lines[k := x]) == Sum(lines) + lines[k].product.value.price * quantity
  {
    var x := lines[k].(quantity := lines[k].quantity + quantity);
    SumUpdate(lines, k, x);
    var price := lines[k].product.value.price;
    assert price * (lines[k].quantity + quantity) == price * lines[k].quantity + price * quantity;
  }

  /** Appending a joined line raises the sum by its amount. */
  lemma AppendLineTotal(lines: seq<CartLine>, line: CartLine)
    requires Joined(lines) && line.product.Some?
    ensures Joined(lines + [line]) && Sum(lines + [line]) == Sum(lines) + LineAmount(line)
  {
    SumAppend(lines, [line]);
    assert Sum([line]) == LineAmount(line) + Sum([]);
  }

  /**
   * A successful addToCart raises the cart total by exactly the product's
   * price times the requested quantity, whether the item is merged or new.
   */
  lemma AddItemRaisesTotal(items: seq<CartItem>, products: map<ProductId, Product>, productId: ProductId, quantity: nat)
    requires Joined(Lines(items, products))
    requires productId in products
    requires AddItem(items, Some(products[productId]), productId, quantity).Ok?
    ensures var after := Lines(AddItem(items, Some(products[productId]), productId, quantity).value, products);
      Joined(after) && Sum(after) == Sum(Lines(items, products)) + products[productId].price * quantity
  {
    var lines := Lines(items, products);
    var index := IndexOfProduct(items, productId);
    if index.Some? {
      var k := index.value;
      LinesOfUpdate(items, products, k, items[k].quantity + quantity);
      RaiseLineTotal(lines, k, quantity);
    } else {
      LinesOfAppend(items, products, CartItem(productId, quantity));
      AppendLineTotal(lines, CartLine(productId, quantity, Some(products[productId])));
    }
  }

  // ---- the service's operations ----

  /** createCart: a new, empty cart under a fresh id. */
  method CreateCart(db: Store) returns (cart: Cart)
    requires db.Valid()
    modifies db`carts, db`nextCartId
    ensures db.Valid()
    ensures cart == Cart(old(db.nextCartId), []) && cart.id !in old(db.carts)
    ensures db.carts == old(db.carts)[cart.id := []]
  {
    var id := db.nextCartId;
    db.carts := db.carts[id := []];
    db.nextCartId := id + 1;
    cart := Cart(id, []);
  }

  /** addToCart: at most one cart-item write; the refreshed cart on success. */
  method AddToCart(db: Store, cartId: CartId, productId: ProductId, quantity: nat) returns (r: Result<Cart, Error>)
    requires db.Valid()
    requires quantity >= 1
    modifies db`carts
    ensures db.Valid()
    ensures cartId !in old(db.carts) ==> r == Err(CartNotFound(cartId))
    ensures cartId in old(db.carts) ==>
      match AddItem(old(db.carts)[cartId], Lookup(db.products, productId), productId, quantity)
      case Err(e) => r == Err(e)
      case Ok(items) => db.carts == old(db.carts)[cartId := items] && r == FindCart(db, cartId)
    ensures r.Err? ==> db.carts == old(db.carts)
  {
    var found := FindCart(db, cartId);
    if found.Err? {
      return found;
    }
    var product := Lookup(db.products, productId);
    if product.None? {
      return Err(ProductNotFound(productId));
    }
    var p := product.value;
    if !p.inStock || p.quantity < quantity {
      return Err(NotAvailable(p.quantity));
    }
    var items := db.carts[cartId];
    var existing := IndexOfProduct(items, productId);
    if existing.Some? {
      var k := existing.value;
      var newQuantity := items[k].quantity + quantity;
      if p.quantity < newQuantity {
        return Err(NotEnoughStock(p.quantity, newQuantity));
      }
      db.carts := db.carts[cartId := items[k := items[k].(quantity := newQuantity)]];
    } else {
      db.carts := db.carts[cartId := items + [CartItem(productId, quantity)]];
    }
    r := FindCart(db, cartId);
  }

  /** updateCartItem: replaces the item's quantity; the refreshed cart on success. */
  method UpdateCartItem(db: Store, cartId: CartId, productId: ProductId, quantity: nat) returns (r: Result<Cart, Error>)
    requires db.Valid()
    requires quantity >= 1
    modifies db`carts
    ensures db.Valid()
    ensures cartId !in old(db.carts) ==> r == Err(CartNotFound(cartId))
    ensures cartId in old(db.carts) ==>
      match UpdateItem(old(db.carts)[cartId], Lookup(db.products, productId), productId, quantity)
      case Err(e) => r == Err(e)
      case Ok(items) => db.carts == old(db.carts)[cartId := items] && r == FindCart(db, cartId)
    ensures r.Err? ==> db.carts == old(db.carts)
  {
    var found := FindCart(db, cartId);
    if found.Err? {
      return found;
    }
    var product := Lookup(db.products, productId);
    if product.None? {
      return Err(ProductNotFound(productId));
    }
    var p := product.value;
    if !p.inStock || p.quantity < quantity {
      return Err(NotAvailable(p.quantity));
    }
    var items := db.carts[cartId];
    var cartItem := IndexOfProduct(items, productId);
    if cartItem.None? {
      return Err(ItemNotInCart);
    }
    var k := cartItem.value;
    db.carts := db.carts[cartId := items[k := items[k].(quantity := quantity)]];
    r := FindCart(db, cartId);
  }

  /** removeFromCart: deletes the product's item; the refreshed cart on success. */
  method RemoveFromCart(db: Store, cartId: CartId, productId: ProductId) returns (r: Result<Cart, Error>)
    requires db.Valid()
    modifies db`carts
    ensures db.Valid()
    ensures cartId !in old(db.carts) ==> r == Err(CartNotFound(cartId))
    ensures cartId in old(db.carts) ==>
      match RemoveItem(old(db.carts)[cartId], productId)
      case Err(e) => r == Err(e)
      case Ok(items) => db.carts == old(db.carts)[cartId := items] && r == FindCart(db, cartId)
    ensures r.Err? ==> db.carts == old(db.carts)
  {
    var found := FindCart(db, cartId);
    if found.Err? {
      return found;
    }
    var items := db.carts[cartId];
    var cartItem := IndexOfProduct(items, productId);
    if cartItem.None? {
      return Err(ItemNotInCart);
    }
    var k := cartItem.value;
    db.carts := db.carts[cartId := items[..k] + items[k + 1..]];
    r := FindCart(db, cartId);
  }

  /** clearCart: deletes every item of the cart and nothing else; succeeds on an empty cart too. */
  method ClearCart(db: Store, cartId: CartId) returns (r: Outcome<Error>)
    requires db.Valid()
    modifies db`carts
    ensures db.Valid()
    ensures cartId !in old(db.carts) ==> r == Fail(CartNotFound(cartId)) && db.carts == old(db.carts)
    ensures cartId in old(db.carts) ==> r == Pass && db.carts == old(db.carts)[cartId := []]
  {
    var found := FindCart(db, cartId);
    if found.Err? {
      return Fail(found.error);
    }
    db.carts := db.carts[cartId := []];
    r := Pass;
  }
}
