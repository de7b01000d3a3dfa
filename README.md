# Rocket Store API — cart, checkout and stock rules in Dafny

This project models the core of a NestJS store backend: the cart service
(creating, reading, adding to, updating, removing from and clearing a cart, and
its total), the order service (checkout, reading one order, listing orders newest
first), the product service's stock rules (create, update, read, remove, the
in-stock and by-category queries) and the product-category enum with its label
table, its inverse and the resolver that accepts either spelling.

The database is one `Storage.Store` object. Its maps stand for the Prisma tables:
products by id, the cart-item table grouped by cart (each cart's items in creation
order), and orders by id. Counters hand out fresh ids and creation times.
`Store.Valid()` holds the table invariants:

- every product has a positive price and no negative stock, and `inStock == (quantity > 0)`;
- a cart holds at most one item per product, which is the (cartId, productId) unique key;
- every cart quantity is at least 1;
- an order created later has a later creation time.

Every mutating operation preserves `Valid()`. Prices are integer cents.

Each cart mutation is specified by a pure decision function on the cart's items
(`AddItem`, `UpdateItem`, `RemoveItem`). The method that performs the reads and
the single write is proved to follow that function. Checkout does the same with
`CheckoutRejection`, `OrderItemsFor` and `DecrementAll`:

- its check pass is a loop proved equal to `FirstUnavailable`;
- its transaction loop is proved to record one order item per line and to take exactly the ordered units from stock;
- on any error nothing changes.

Modules: `Wrappers` (Option, Result, Outcome), `ProductCategories`
(category.dfy), `Entities`, `Storage`, `CartService`, `ProductService`,
`OrderService`, and `Scenarios`, which holds worked cases on the figures the
source's tests use.

## Model

| member | source | states |
|---|---|---|
| ProductCategories.EveryCategoryListed | src/product/enums/product-category.enum.ts:1-14 | every enum member is in the declaration-order list that `Object.values`/`Object.entries` walk |
| ProductCategories.LabelsDistinct | src/product/enums/product-category.enum.ts:1-27 | the ten values are pairwise distinct, the ten labels are pairwise distinct, and no label equals a value |
| ProductCategories.LabelIndexInverts | src/product/enums/product-category.enum.ts:29-33 | the reduce over the label entries yields a map whose keys are exactly the labels of the listed members, each mapped back to its member |
| ProductCategories.LabelToCategoryInverse | src/product/enums/product-category.enum.ts:16-33 | LABEL_TO_CATEGORY inverts PRODUCT_CATEGORY_LABELS in both directions |
| ProductCategories.FindByValue | src/product/enums/product-category.enum.ts:36-37 | `includes` over the values: a member found is listed and has the input as its value; nothing is found only when no listed member has that value |
| ProductCategories.FindByValueRoundTrip | src/product/enums/product-category.enum.ts:35-38 | an enum value resolves to its own member |
| ProductCategories.FindByLabelRoundTrip | src/product/enums/product-category.enum.ts:16-40 | a member's label resolves to that member |
| ProductCategories.LabelIndex | src/product/enums/product-category.enum.ts:29-33 | the reduce that builds LABEL_TO_CATEGORY maps each key to a listed member whose label is that key |
| ProductCategories.FindCategoryByValueOrLabel | src/product/enums/product-category.enum.ts:35-41 | the resolver yields null exactly when the input is neither a value nor a label; any member it yields was named by the input, by value or by label |
| ProductCategories.InvalidCategoryErrorMessage | src/product/enums/product-category.enum.ts:43-48 | the message starts with its fixed prefix |
| ProductCategories.Entries | src/product/enums/product-category.enum.ts:44-45 | one entry per category, the i-th being "KEY (Label)" of the i-th category in enum order |
| ProductCategories.JoinContainsPart | src/product/enums/product-category.enum.ts:46 | every part of a join occurs in the joined string |
| ProductCategories.MessageListsEveryCategory | src/product/enums/product-category.enum.ts:43-48 | the invalid-category message contains "KEY (Label)" for every category |
| ProductCategories.FindCategoryAsWritten | src/product/enums/product-category.enum.ts:35-40 | as written: an own entry is named by the input; an inherited member is returned only for one of the twelve Object.prototype names; undefined (null) exactly for an input that is neither a value, a label nor such a name |
| ProductCategories.InheritedNameSlipsThrough | src/product/enums/product-category.enum.ts:29-40 | as written, the input "toString" yields an inherited prototype member, not null; the corrected resolver yields None |
| ProductCategories.AsWrittenAgreesElsewhere | src/product/enums/product-category.enum.ts:35-41 | for any input that is not an Object.prototype member name, the written lookup and the corrected resolver agree |
| CartService.IndexOfProduct | src/cart/cart.service.ts:75-82 | the (cartId, productId) lookup: the item found has that product and none before it does; nothing is found only when no item has it |
| CartService.Lines | src/cart/cart.service.ts:33-51 | the cart view: line i carries item i's product id and quantity and the product row joined by that id, or none if the row is gone |
| CartService.FindCart | src/cart/cart.service.ts:33-58 | found iff the cart exists, otherwise NotFound naming the id; the cart returned has that id and exactly the joined lines of its items, in order |
| CartService.Reduce | src/cart/cart.service.ts:178-180 | the left fold from an accumulator adds the sum of price × quantity over the lines to it |
| CartService.SumAppend | src/cart/cart.service.ts:178-180 | the sum over two lists joined is the sum of their sums |
| CartService.GetCartTotal | src/cart/cart.service.ts:175-181 | an unknown cart gives NotFound; otherwise the total is the sum of price × quantity and 0 for an empty cart; it fails only when an item's product row is gone |
| CartService.AddItem | src/cart/cart.service.ts:63-103 | succeeds iff the product exists, is flagged in stock and the cart's quantity plus the request fits the stock; a missing product, then a first check against the request alone, then the merged total give the three exceptions with their numbers; on success that product's quantity rises by the request, every other product's is unchanged, and no duplicate item appears |
| CartService.AddItemRaisesTotal | src/cart/cart.service.ts:84-103 | a successful add raises the cart total by exactly price × requested quantity, whether it merges or creates an item |
| CartService.UpdateItem | src/cart/cart.service.ts:111-139 | succeeds iff the product exists, is in stock with enough units and the item is in the cart; on success the item's quantity is replaced by the request (not added to) and every other product's quantity is unchanged |
| CartService.RemoveItem | src/cart/cart.service.ts:147-162 | succeeds iff the item is in the cart, otherwise NotFound; on success exactly one item is gone, that product's quantity is 0 and every other product's is unchanged |
| CartService.CreateCart | src/cart/cart.service.ts:11-31 | a new empty cart under an id not yet used; no other cart changes |
| CartService.AddToCart | src/cart/cart.service.ts:60-106 | unknown cart gives NotFound; otherwise the outcome is AddItem's on the product row read; on success only that cart's items change and the refreshed cart is returned; on error nothing changes |
| CartService.UpdateCartItem | src/cart/cart.service.ts:108-142 | unknown cart gives NotFound; otherwise the outcome is UpdateItem's; only that cart changes, and nothing on error |
| CartService.RemoveFromCart | src/cart/cart.service.ts:144-165 | unknown cart gives NotFound; otherwise the outcome is RemoveItem's; only that cart changes, and nothing on error |
| CartService.ClearCart | src/cart/cart.service.ts:167-173 | unknown cart gives NotFound and nothing changes; otherwise that cart is left with no items and every other cart is untouched |
| ProductService.CreateOutcome | src/product/product.service.ts:12-26 | an unknown category is rejected (BadRequest) exactly when the text is neither a value nor a label; otherwise the row carries the category the text names, and `inStock == (quantity > 0)` |
| ProductService.Create | src/product/product.service.ts:12-27 | follows CreateOutcome; the product is stored under a fresh id; nothing is stored on rejection |
| ProductService.FindOne | src/product/product.service.ts:38-48 | the row iff the id exists, otherwise NotFound naming the id |
| ProductService.FindInStock | src/product/product.service.ts:103-116 | only products flagged in stock with quantity above zero are selected; in a valid store exactly the products with quantity above zero |
| ProductService.FindByCategory | src/product/product.service.ts:85-101 | the query fails, with NotFound, exactly for text that is neither a value nor a label; otherwise exactly the products of the category it names |
| ProductService.FindByCategoryLabelOrValue | src/product/product.service.ts:85-101 | asking by label or by value selects the same products, those of that category |
| ProductService.UpdateOutcome | src/product/product.service.ts:50-74 | unknown id gives NotFound before anything else; an invalid category gives BadRequest; a supplied quantity replaces the stock and sets `inStock == (quantity > 0)`, no quantity leaves both untouched; a label is stored as its category; a supplied name or price replaces the old one, an absent one is kept; the derived flag stays derived |
| ProductService.Update | src/product/product.service.ts:50-74 | follows UpdateOutcome with one write of the patch; nothing is written on either error |
| ProductService.Remove | src/product/product.service.ts:76-83 | unknown id gives NotFound and nothing changes; otherwise exactly that row is deleted and returned |
| OrderService.FirstUnavailable | src/order/order.service.ts:23-37 | no exception exactly when every line's product exists, is flagged in stock and has enough units; otherwise the exception is that of the first line that fails, every line before it passing: NotFound naming its product if the row is gone, else its product's name, available quantity and the line's requested quantity |
| OrderService.CheckoutRejection | src/order/order.service.ts:19-37 | an empty cart is refused with "Cart is empty"; otherwise a cart is accepted exactly when every line is available, and a refusal is the exception of the first line that fails |
| OrderService.ValidateLines | src/order/order.service.ts:23-37 | the check loop, reading each product afresh, returns the first line's exception, as FirstUnavailable |
| OrderService.OrderItemsFor | src/order/order.service.ts:48-56 | one order item per cart line, with the same product and quantity and the unit price read with the cart |
| OrderService.OrderTotalMatchesItems | src/order/order.service.ts:39-56 | the total stored on the order, the cart total, equals the value of its recorded items |
| OrderService.DecrementAll | src/order/order.service.ts:58-72 | the transaction's product table after the lines in order: no row is added or removed |
| OrderService.DecrementAllEffect | src/order/order.service.ts:58-72 | stock conservation: every product loses exactly the units ordered and keeps its other fields, the flag stays derived, and a product no line names is untouched |
| OrderService.OrderedSingle | src/order/order.service.ts:58-72 | in a cart without duplicate products, the units ordered of a product are its line's quantity |
| OrderService.CheckoutKeepsProductsValid | src/order/order.service.ts:23-72 | after all lines passed the check, the decrements leave no negative stock and every flag derived |
| OrderService.RecordLines | src/order/order.service.ts:48-73 | the transaction loop records OrderItemsFor(lines) on the order and leaves the product table at DecrementAll(lines) |
| OrderService.PlaceOrder | src/order/order.service.ts:41-100 | the transaction creates the order under a fresh id and the next creation time, records its items, takes the stock, empties the cart and returns the order read back |
| OrderService.Checkout | src/order/order.service.ts:16-103 | unknown cart gives NotFound, an empty cart or an unavailable line gives that exception with nothing changed; otherwise the order's total is the cart total, it has one item per line, stock drops by exactly the ordered units with `inStock` recomputed, the cart is left empty and the store stays valid |
| OrderService.FindOrder | src/order/order.service.ts:105-127 | the order iff the id exists, otherwise NotFound naming the id |
| OrderService.IdsNewestFirst | src/order/order.service.ts:143-145 | the walk from the highest id down lists exactly the existing ids, strictly decreasing |
| OrderService.FindAllOrders | src/order/order.service.ts:129-149 | every order appears, nothing else does, and creation times strictly decrease along the list |
| Scenarios.MergeOneAndTwo | src/cart/cart.service.spec.ts:187-203 | one item in the cart plus two more gives a single item of three |
| Scenarios.MergeBeyondStock | src/cart/cart.service.spec.ts:235-245 | nine in the cart plus two against a stock of ten is refused as "Available: 10, requested: 11" |
| Scenarios.FlaggedOutOfStock | src/cart/cart.service.spec.ts:215-223 | a product flagged out of stock is refused with its counter reported |
| Scenarios.TwoSmartphonesTotal | src/cart/cart.service.spec.ts:342-348 | two units at 1299.99 total 2599.98 |
| Scenarios.CheckoutTwoOfTen | src/order/order.service.spec.ts:243-245 | checking out two of ten leaves eight, still in stock |
| Scenarios.CheckoutOutOfStock | src/order/order.service.spec.ts:161-180 | checkout of two units of a product with none left reports 0 available and 2 requested |
| Scenarios.CreateWithZeroQuantity | src/product/product.service.spec.ts:87-109 | a product created with quantity 0 is stored out of stock |

## Left out

- HTTP controllers, status codes and Swagger decorators are not modelled. They only forward to the services; each exception carries its kind (`Error.Kind`: NotFound, BadRequest, or an internal failure).
- DTO validation is not modelled; its effect appears as preconditions: cart quantities at least 1, product quantity at least 0, price above 0, and a non-empty category on update.
- Exception messages are modelled as the numbers and names they report, not as text.
- ProductCategories.InvalidCategoryErrorMessage: its contract states only the fixed prefix, and ProductCategories.MessageListsEveryCategory adds that every "KEY (Label)" entry occurs in it. The enum order of the entries and the ", " separator come from the definition alone; the message is not proved equal to its full literal text.
- Prices are JavaScript floats in the source; the model uses integer cents so that totals are exact.
- Ids and timestamps are fresh naturals and a monotone clock. `createdAt`/`updatedAt` of carts and products, and the product description, are not modelled.
- Prisma's transaction mechanics, row locks, conflicts and concurrent checkouts are not modelled. Checkout either returns the new state or an error with the state unchanged.
- The "Order not found after creation" branch of checkout (src/order/order.service.ts:95-97) is unreachable in this model: the order just written is read back.
- Reads that include related rows are modelled as plain joins. The `{id, name}` projection of an order item's product is not modelled, and the cart view joins the whole product row.
- The product schema is not part of this model, so no foreign key from cart items to products is assumed. Removing a product leaves its cart items in place. Reading such a cart shows the line without its product. Its total fails (`item.product!`), and checkout reports the product as not found.
- ProductService.CreateOutcome, ProductService.FindByCategory, ProductService.UpdateOutcome: are built on the corrected FindCategoryByValueOrLabel. For the twelve Object.prototype names (e.g. "toString") the source's `if (!validCategory)` checks (src/product/product.service.ts:15, 55, 88) let the inherited function through and hand it to `prisma.product.create`, `update` or `findMany` (src/product/product.service.ts:19-24, 69-72, 92-95) instead of throwing; the model throws BadRequest or NotFound there, and what Prisma would do with such a value is not modelled.
- ProductService.FindByCategory: returns a set of products; the ordering by name is not modelled. The same holds for ProductService.FindInStock.
- The product listing `findAll` (src/product/product.service.ts:29-36) is not modelled: it is a plain listing, newest first, outside the stock rules.
- Cart item ids and timestamps are not modelled: the cart that addToCart, updateCartItem and removeFromCart return is the cart read again, as the source does, without them.

## Findings

| source | as written | input that shows it | evidently intended | confidence | as-written member | corrected member |
|---|---|---|---|---|---|---|
| src/product/enums/product-category.enum.ts:29-40 | LABEL_TO_CATEGORY is built on a plain `{}` object, so `LABEL_TO_CATEGORY[input]` also finds members inherited from Object.prototype, and `\|\| null` lets that truthy value through | `findCategoryByValueOrLabel("toString")` returns the inherited `toString` function instead of null, so create/update pass the inherited function to Prisma instead of throwing BadRequest, and findByCategory passes it to `findMany` instead of throwing NotFound | only the ten values and ten labels resolve; every other input yields null | not executed | ProductCategories.FindCategoryAsWritten (shown by ProductCategories.InheritedNameSlipsThrough) | ProductCategories.FindCategoryByValueOrLabel (its own contract: None exactly when the input is neither a value nor a label) |
