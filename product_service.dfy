/**
 * The product service's stock rules: `create` and `update` derive `inStock`
 * from `quantity`, an unknown id is NotFound, categories are accepted by value
 * or label, and the in-stock and by-category queries select from the table.
 */
module ProductService {
  import opened Wrappers
  import opened Entities
  import opened Storage
  import opened ProductCategories

  /** A create request as it reaches the service (price and quantity already validated). */
  datatype CreateProductDto = CreateProductDto(name: string, price: Cents, category: string, quantity: nat)

  /** An update request: every field is optional. */
  datatype UpdateProductDto = UpdateProductDto(
    name: Option<string>,
    price: Option<Cents>,
    category: Option<string>,
    quantity: Option<nat>)

  /** The data of a `product.update` call: only the supplied fields are written. */
  datatype ProductPatch = ProductPatch(
    name: Option<string>,
    price: Option<Cents>,
    category: Option<Category>,
    quantity: Option<int>,
    inStock: Option<bool>)

  /** The row that `product.update` leaves: each supplied field overwritten. */
  function Patch(p: Product, data: ProductPatch): Product {
    p.(name := if data.name.Some? then data.name.value else p.name,
       price := if data.price.Some? then data.price.value else p.price,
       category := if data.category.Some? then data.category.value else p.category,
       quantity := if data.quantity.Some? then data.quantity.value else p.quantity,
       inStock := if data.inStock.Some? then data.inStock.value else p.inStock)
  }

  // ---- create ----

  /** What `create` does with a request: reject an unknown category, else the row it stores under `id`. */
  function CreateOutcome(id: ProductId, dto: CreateProductDto): (r: Result<Product, Error>)
    ensures r.Err? <==> forall c :: Value(c) != dto.category && Label(c) != dto.category
    ensures r.Err? ==> r.error == InvalidCategory && r.error.Kind() == BadRequest
    ensures r.Ok? ==> r.value.id == id && r.value.name == dto.name && r.value.price == dto.price
    ensures r.Ok? ==> Value(r.value.category) == dto.category || Label(r.value.category) == dto.category
    ensures r.Ok? ==> r.value.quantity == dto.quantity && StockFlagDerived(r.value)
  {
    match FindCategoryByValueOrLabel(dto.category)
    case None => Err(InvalidCategory)
    case Some(c) =>
      Ok(Product(id, dto.name, dto.price, c, dto.quantity, dto.quantity > 0))
  }

  /** create: validates the category first, then writes one row under a fresh id. */
  method Create(db: Store, dto: CreateProductDto) returns (r: Result<Product, Error>)
    requires db.Valid()
    requires dto.price > 0
    modifies db`products, db`nextProductId
    ensures db.Valid()
    ensures r == CreateOutcome(old(db.nextProductId), dto)
    ensures r.Ok? ==> r.value.id !in old(db.products) && db.products == old(db.products)[r.value.id := r.value]
    ensures r.Err? ==> db.products == old(db.products) && db.nextProductId == old(db.nextProductId)
  {
    var validCategory := FindCategoryByValueOrLabel(dto.category);
    if validCategory.None? {
      return Err(InvalidCategory);
    }
    var id := db.nextProductId;
    var product := Product(id, dto.name, dto.price, validCategory.value, dto.quantity, dto.quantity > 0);
    db.products := db.products[id := product];
    db.nextProductId := id + 1;
    r := Ok(product);
  }

  // ---- reads ----

  /** findOne: the row, or NotFound. */
  function FindOne(db: Store, id: ProductId): (r: Result<Product, Error>)
    reads db
    requires db.Valid()
    ensures r.Ok? <==> id in db.products
    ensures r.Ok? ==> r.value == db.products[id] && r.value.id == id && StockFlagDerived(r.value)
    ensures r.Err? ==> r.error == ProductNotFound(id) && r.error.Kind() == NotFound
  {
    if id in db.products then Ok(db.products[id]) else Err(ProductNotFound(id))
  }

  /**
   * findInStock: the rows flagged in stock with a positive quantity. In a
   * valid store the flag is redundant: these are exactly the rows with stock left.
   */
  function FindInStock(db: Store): (r: set<Product>)
    reads db
    ensures forall p :: p in r ==> p in db.products.Values && p.inStock && p.quantity > 0
    ensures db.Valid() ==> forall p :: p in r <==> p in db.products.Values && p.quantity > 0
  {
    var rows := set p | p in db.products.Values && p.inStock && p.quantity > 0;
    assert db.Valid() ==> forall p :: p in db.products.Values ==> StockFlagDerived(p) by {
      if db.Valid() {
        forall p | p in db.products.Values
          ensures StockFlagDerived(p)
        {
          var id :| id in db.products && db.products[id] == p;
        }
      }
    }
    rows
  }

  /** findByCategory: resolve the category by value or label (NotFound if neither), then select its rows. */
  function FindByCategory(db: Store, category: string): (r: Result<set<Product>, Error>)
    reads db
    ensures r.Err? <==> forall c :: Value(c) != category && Label(c) != category
    ensures r.Err? ==> r.error == UnknownCategory && r.error.Kind() == NotFound
    ensures r.Ok? ==> forall p :: p in r.value <==>
      p in db.products.Values && p.category == FindCategoryByValueOrLabel(category).value
  {
    match FindCategoryByValueOrLabel(category)
    case None => Err(UnknownCategory)
    case Some(c) => Ok(set p | p in db.products.Values && p.category == c)
  }

  /** Asking by label or by value selects the same rows, those of that category. */
  lemma FindByCategoryLabelOrValue(db: Store, c: Category)
    ensures FindByCategory(db, Label(c)) == FindByCategory(db, Value(c))
    ensures FindByCategory(db, Value(c)).Ok?
    ensures forall p :: p in FindByCategory(db, Value(c)).value <==> p in db.products.Values && p.category == c
  {
    FindByLabelRoundTrip(c);
    FindByValueRoundTrip(c);
  }

  // ---- update ----

  /** updateData: the request's fields, the category normalised, inStock added only with a quantity. */
  function UpdateData(dto: UpdateProductDto, category: Option<Category>): ProductPatch {
    ProductPatch(
      dto.name,
      dto.price,
      category,
      if dto.quantity.Some? then Some(dto.quantity.value as int) else None,
      if dto.quantity.Some? then Some(dto.quantity.value > 0) else None)
  }

  /** What `update` does with a request against the current table. */
  function UpdateOutcome(products: map<ProductId, Product>, id: ProductId, dto: UpdateProductDto)
    : (r: Result<Product, Error>)
    ensures id !in products ==> r == Err(ProductNotFound(id))
    ensures id in products && dto.category.Some? ==>
      (r.Err? <==> forall c :: Value(c) != dto.category.value && Label(c) != dto.category.value)
    ensures id in products && dto.category.None? ==> r.Ok?
    ensures r.Err? && id in products ==> r.error == InvalidCategory
    ensures r.Ok? ==> id in products && r.value.id == products[id].id
    ensures r.Ok? ==> r.value.name == (if dto.name.Some? then dto.name.value else products[id].name)
    ensures r.Ok? ==> r.value.price == (if dto.price.Some? then dto.price.value else products[id].price)
    ensures r.Ok? ==> (StockFlagDerived(products[id]) ==> StockFlagDerived(r.value))
    ensures r.Ok? && dto.quantity.None? ==>
      r.value.quantity == products[id].quantity && r.value.inStock == products[id].inStock
    ensures r.Ok? && dto.quantity.Some? ==>
      r.value.quantity == dto.quantity.value && (r.value.inStock <==> dto.quantity.value > 0)
    ensures r.Ok? && dto.category.Some? ==>
      Value(r.value.category) == dto.category.value || Label(r.value.category) == dto.category.value
    ensures r.Ok? && dto.category.None? ==> r.value.category == products[id].category
  {
    if id !in products then Err(ProductNotFound(id))
    else if dto.category.Some? then
      match FindCategoryByValueOrLabel(dto.category.value)
      case None => Err(InvalidCategory)
      case Some(c) =>
        Ok(Patch(products[id], UpdateData(dto, Some(c))))
    else Ok(Patch(products[id], UpdateData(dto, None)))
  }

  /** update: NotFound, or an invalid category, before any write; else one write of the patch. */
  method Update(db: Store, id: ProductId, dto: UpdateProductDto) returns (r: Result<Product, Error>)
    requires db.Valid()
    requires dto.price.Some? ==> dto.price.value > 0
    requires dto.category != Some("")
    modifies db`products
    ensures db.Valid()
    ensures r == UpdateOutcome(old(db.products), id, dto)
    ensures r.Ok? ==> db.products == old(db.products)[id := r.value]
    ensures r.Err? ==> db.products == old(db.products)
  {
    var found := FindOne(db, id);
    if found.Err? {
      return found;
    }
    var category: Option<Category> := None;
    if dto.category.Some? {
      var validCategory := FindCategoryByValueOrLabel(dto.category.value);
      if validCategory.None? {
        return Err(InvalidCategory);
      }
      category := validCategory;
    }
    var updateData := ProductPatch(dto.name, dto.price, category, None, None);
    if dto.quantity.Some? {
      updateData := updateData.(quantity := Some(dto.quantity.value as int), inStock := Some(dto.quantity.value > 0));
    }
    var updated := Patch(db.products[id], updateData);
    db.products := db.products[id := updated];
    r := Ok(updated);
  }

  // ---- remove ----

  /** remove: NotFound for an unknown id; otherwise deletes exactly that row and returns it. */
  method Remove(db: Store, id: ProductId) returns (r: Result<Product, Error>)
    requires db.Valid()
    modifies db`products
    ensures db.Valid()
    ensures id !in old(db.products) ==> r == Err(ProductNotFound(id)) && db.products == old(db.products)
    ensures id in old(db.products) ==>
      r == Ok(old(db.products)[id]) && db.products == old(db.products) - {id}
  {
    var found := FindOne(db, id);
    if found.Err? {
      return found;
    }
    db.products := db.products - {id};
    r := found;
  }
}
