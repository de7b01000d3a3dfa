/**
 * Worked cases of the cart, checkout and product rules, on the store's own
 * figures: a smartphone at 1299.99 (129999 cents) with 10 units in stock.
 */
module Scenarios {
  import opened Wrappers
  import opened ProductCategories
  import opened Entities
  import CartService
  import OrderService
  import ProductService

  const Smartphone: Product := Product(1, "Smartphone", 129999, Eletronicos, 10, true)

  /** One smartphone in the cart plus two more makes three. */
  lemma MergeOneAndTwo()
    ensures CartService.AddItem([CartItem(1, 1)], Some(Smartphone), 1, 2) == Ok([CartItem(1, 3)])
  {
    assert CartService.IndexOfProduct([CartItem(1, 1)], 1) == Some(0);
    assert [CartItem(1, 1)][0 := CartItem(1, 3)] == [CartItem(1, 3)];
  }

  /** Nine in the cart plus two more exceeds the ten in stock: rejected with both numbers. */
  lemma MergeBeyondStock()
    ensures CartService.AddItem([CartItem(1, 9)], Some(Smartphone), 1, 2) == Err(NotEnoughStock(10, 11))
  {
  }

  /** A product flagged out of stock cannot be added, whatever its counter says. */
  lemma FlaggedOutOfStock()
    ensures CartService.AddItem([], Some(Smartphone.(inStock := false)), 1, 2) == Err(NotAvailable(10))
  {
  }

  /** Two smartphones cost 2599.98. */
  lemma TwoSmartphonesTotal()
    ensures CartService.Sum(CartService.Lines([CartItem(1, 2)], map[1 := Smartphone])) == 259998
  {
    var lines := CartService.Lines([CartItem(1, 2)], map[1 := Smartphone]);
    assert lines == [CartLine(1, 2, Some(Smartphone))];
  }

  /** Checking out two of ten leaves eight, still in stock. */
  lemma CheckoutTwoOfTen()
    ensures OrderService.DecrementAll(map[1 := Smartphone], [CartLine(1, 2, Some(Smartphone))])
      == map[1 := Smartphone.(quantity := 8)]
  {
    var lines := [CartLine(1, 2, Some(Smartphone))];
    assert lines[..0] == [];
  }

  /** Checkout refuses two units of a product with none left, reporting 0 available and 2 requested. */
  lemma CheckoutOutOfStock()
    ensures var empty := Smartphone.(quantity := 0, inStock := false);
      OrderService.CheckoutRejection(map[1 := empty], [CartLine(1, 2, Some(empty))])
      == Some(CheckoutNotAvailable("Smartphone", 0, 2))
  {
  }

  /** A product created with quantity 0 is stored out of stock. */
  lemma CreateWithZeroQuantity()
    ensures ProductService.CreateOutcome(7, ProductService.CreateProductDto("Smartphone", 129999, "ELETRONICOS", 0))
      == Ok(Product(7, "Smartphone", 129999, Eletronicos, 0, false))
  {
    FindByValueRoundTrip(Eletronicos);
  }
}
