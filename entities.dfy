/**
 * The records of the store: products, cart items and the cart as the cart
 * service returns it, orders and their items, and the exceptions the
 * services throw. Prices are integer cents.
 */
module Entities {
  import opened Wrappers
  import opened ProductCategories

  type ProductId = nat
  type CartId = nat
  type OrderId = nat
  type Cents = nat

  /** A product row. `quantity` is the database's integer column; `inStock` is derived from it. */
  datatype Product = Product(
    id: ProductId,
    name: string,
    price: Cents,
    category: Category,
    quantity: int,
    inStock: bool)

  /** The derived flag agrees with the stock counter. */
  predicate StockFlagDerived(p: Product) {
    p.inStock == (p.quantity > 0)
  }

  /** A cart-item row; its cart is the key under which the store keeps it. */
  datatype CartItem = CartItem(productId: ProductId, quantity: nat)

  /** A cart item as a cart read returns it, joined with its product row when that still exists. */
  datatype CartLine = CartLine(productId: ProductId, quantity: nat, product: Option<Product>)

  datatype Cart = Cart(id: CartId, items: seq<CartLine>)

  /** An order item: the price is the unit price recorded at checkout. */
  datatype OrderItem = OrderItem(productId: ProductId, quantity: nat, price: Cents)

  datatype Order = Order(id: OrderId, total: Cents, createdAt: nat, items: seq<OrderItem>)

  /** The exception classes: NotFoundException, BadRequestException, and a runtime failure. */
  datatype ErrorKind = NotFound | BadRequest | Internal

  /** The exceptions the services throw, with the numbers their messages report. */
  datatype Error =
    | CartNotFound(cartId: CartId)
    | ProductNotFound(productId: ProductId)
    | ItemNotInCart
    | OrderNotFound(orderId: OrderId)
      /** "Product is not available in the requested quantity. Available: n" */
    | NotAvailable(available: int)
      /** "Not enough stock. Available: n, requested: m" */
    | NotEnoughStock(available: int, requested: int)
    | CartEmpty
      /** "Product "name" is not available in the requested quantity. Available: n, requested: m" */
    | CheckoutNotAvailable(name: string, available: int, requested: int)
      /** An unrecognised category on create or update; its message is `InvalidCategoryErrorMessage()`. */
    | InvalidCategory
      /** An unrecognised category on a category query; its message is `InvalidCategoryErrorMessage()`. */
    | UnknownCategory
      /** A cart total over an item whose product row is gone (`item.product!`). */
    | ProductMissing
  {
    function Kind(): ErrorKind {
      match this
      case CartNotFound(_) => NotFound
      case ProductNotFound(_) => NotFound
      case ItemNotInCart => NotFound
      case OrderNotFound(_) => NotFound
      case UnknownCategory => NotFound
      case NotAvailable(_) => BadRequest
      case NotEnoughStock(_, _) => BadRequest
      case CartEmpty => BadRequest
      case CheckoutNotAvailable(_, _, _) => BadRequest
      case InvalidCategory => BadRequest
      case ProductMissing => Internal
    }
  }

  /** `findUnique` on the product table. */
  function Lookup(products: map<ProductId, Product>, id: ProductId): Option<Product> {
    if id in products then Some(products[id]) else None
  }
}
