/** The backend's product endpoints as operations on the products table, modelled as a
    map from id to product plus the next identity value. */
module Catalog {
  import opened Wrappers
  import opened Text

  /** A stored product's fields; its id is the key it is stored under. Prices are cents. */
  datatype Product = Product(
    name: string,
    price: int,
    stockQuantity: int,
    description: string,
    imageUrl: string)

  /** A JSON product in a request body, carrying whatever id the client put in it. */
  datatype ProductBody = ProductBody(
    productId: Option<int>,
    name: string,
    price: int,
    stockQuantity: int,
    description: string,
    imageUrl: string)

  /** The products table and the next value of its identity column. */
  datatype ProductStore = ProductStore(products: map<int, Product>, nextId: int)

  /** What an endpoint answers: a product with its id, an empty 200, 404, 400 (a body
      that fails bean validation) or 500 (an exception in the handler). */
  datatype Response = Ok(id: int, product: Product) | OkEmpty | NotFound | BadRequest | ServerError(message: string)

  /** A JSON value in a partial-update body. */
  datatype Json = JString(text: string) | JNumber(number: int)

  /** Every stored id was handed out before the next identity value. */
  predicate StoreInv(st: ProductStore) {
    forall id :: id in st.products ==> id < st.nextId
  }

  /** Bean validation's `@NotBlank`: after trimming the characters up to ' ', something is left. */
  predicate NotBlank(s: string) {
    exists i :: 0 <= i < |s| && s[i] > ' '
  }

  /** The constraints on a product: a non-blank name, a positive price and a stock of
      at least 0. */
  predicate ValidProduct(p: Product) {
    NotBlank(p.name) && p.price > 0 && p.stockQuantity >= 0
  }

  predicate AllValid(st: ProductStore) {
    forall id :: id in st.products ==> ValidProduct(st.products[id])
  }

  /** The fields a body contributes, without its id. */
  function Fields(b: ProductBody): Product {
    Product(b.name, b.price, b.stockQuantity, b.description, b.imageUrl)
  }

  /** `createProduct`: a body that fails validation is refused; otherwise the client's
      id is discarded and the product is inserted under a fresh id, so no stored product
      is ever overwritten. */
  function CreateProduct(st: ProductStore, body: ProductBody): (r: (ProductStore, Response))
    ensures !ValidProduct(Fields(body)) ==> r == (st, BadRequest)
    ensures ValidProduct(Fields(body)) ==>
      && r.1.Ok? && r.1.product == Fields(body)
      && r.0.products == st.products[r.1.id := Fields(body)]
    ensures StoreInv(st) && r.1.Ok? ==> r.1.id !in st.products
    ensures StoreInv(st) ==> StoreInv(r.0)
    ensures AllValid(st) ==> AllValid(r.0)
  {
    var p := Fields(body);
    if !ValidProduct(p) then (st, BadRequest)
    else
      var id := st.nextId;
      (ProductStore(st.products[id := p], id + 1), Ok(id, p))
  }

  /** The id a client puts in a creation body has no effect at all. */
  lemma CreateIgnoresClientId(st: ProductStore, body: ProductBody, id: Option<int>)
    ensures CreateProduct(st, body) == CreateProduct(st, body.(productId := id))
  {
  }

  /** `getProductById`: the stored product, or not-found. */
  function GetProductById(st: ProductStore, id: int): (r: Response)
    ensures r.Ok? <==> id in st.products
    ensures r.Ok? ==> r.id == id && r.product == st.products[id]
    ensures !r.Ok? ==> r == NotFound
  {
    if id in st.products then Ok(id, st.products[id]) else NotFound
  }

  /** `updateProduct`: validation first, then not-found for an absent id; otherwise the
      five fields are copied from the body under the path id (the body's id is ignored)
      and no other product changes. */
  function UpdateProduct(st: ProductStore, id: int, body: ProductBody): (r: (ProductStore, Response))
    ensures !ValidProduct(Fields(body)) ==> r == (st, BadRequest)
    ensures ValidProduct(Fields(body)) && id !in st.products ==> r == (st, NotFound)
    ensures ValidProduct(Fields(body)) && id in st.products ==>
      && r.1 == Ok(id, Fields(body))
      && r.0.products.Keys == st.products.Keys
      && r.0.products[id] == Fields(body)
      && (forall k :: k in st.products && k != id ==> r.0.products[k] == st.products[k])
      && r.0.nextId == st.nextId
    ensures StoreInv(st) ==> StoreInv(r.0)
    ensures AllValid(st) ==> AllValid(r.0)
  {
    var p := Fields(body);
    if !ValidProduct(p) then (st, BadRequest)
    else if id !in st.products then (st, NotFound)
    else (st.(products := st.products[id := p]), Ok(id, p))
  }

  // ---------------------------------------------------------------- partial update

  const TextKeys: set<string> := {"name", "description", "imageUrl"}
  const NumberKeys: set<string> := {"price", "stock_quantity"}

  /** `(String) value`: a JSON string, or a `ClassCastException`. */
  function AsText(v: Json): Result<string, string> {
    match v
    case JString(s) => Success(s)
    case JNumber(_) => Failure("ClassCastException")
  }

  /** `Integer.valueOf(value.toString())` and `Double.valueOf(...)`: a JSON number, or a
      string of decimal digits; anything else is a `NumberFormatException`. */
  function AsNumber(v: Json): Result<int, string> {
    match v
    case JNumber(n) => Success(n)
    case JString(s) => if s != "" && AllDigits(s) then Success(DecimalValue(s)) else Failure("NumberFormatException")
  }

  /** Whether the value under a recognised key converts to that field's type. */
  predicate Converts(key: string, v: Json) {
    if key in NumberKeys then AsNumber(v).Success? else if key in TextKeys then AsText(v).Success? else true
  }

  function TextField(updates: map<string, Json>, key: string, current: string): Result<string, string> {
    if key in updates then AsText(updates[key]) else Success(current)
  }

  function NumberField(updates: map<string, Json>, key: string, current: int): Result<int, string> {
    if key in updates then AsNumber(updates[key]) else Success(current)
  }

  /** The `switch` over the update map: each recognised key sets its field, unknown keys
      are skipped, and a value that does not convert aborts the whole update. */
  function Patch(p: Product, updates: map<string, Json>): (r: Result<Product, string>)
    ensures r.Success? <==> forall k :: k in updates ==> Converts(k, updates[k])
    ensures r.Success? ==>
      && r.value.name == (if "name" in updates then AsText(updates["name"]).value else p.name)
      && r.value.price == (if "price" in updates then AsNumber(updates["price"]).value else p.price)
      && r.value.stockQuantity ==
           (if "stock_quantity" in updates then AsNumber(updates["stock_quantity"]).value else p.stockQuantity)
      && r.value.description ==
           (if "description" in updates then AsText(updates["description"]).value else p.description)
      && r.value.imageUrl == (if "imageUrl" in updates then AsText(updates["imageUrl"]).value else p.imageUrl)
  {
    var name := TextField(updates, "name", p.name);
    var price := NumberField(updates, "price", p.price);
    var stock := NumberField(updates, "stock_quantity", p.stockQuantity);
    var description := TextField(updates, "description", p.description);
    var imageUrl := TextField(updates, "imageUrl", p.imageUrl);
    if name.Failure? then Failure(name.error)
    else if price.Failure? then Failure(price.error)
    else if stock.Failure? then Failure(stock.error)
    else if description.Failure? then Failure(description.error)
    else if imageUrl.Failure? then Failure(imageUrl.error)
    else Success(Product(name.value, price.value, stock.value, description.value, imageUrl.value))
  }

  /** Keys other than the five field names make no difference to a partial update. */
  lemma PatchIgnoresUnknownKeys(p: Product, updates: map<string, Json>)
    ensures Patch(p, updates) == Patch(p, map k | k in updates && k in TextKeys + NumberKeys :: updates[k])
  {
  }

  /** An empty update map leaves the product as it was. */
  lemma PatchEmpty(p: Product)
    ensures Patch(p, map[]) == Success(p)
  {
  }

  /** Applying the same partial update twice is the same as applying it once. */
  lemma PatchIdempotent(p: Product, updates: map<string, Json>)
    requires Patch(p, updates).Success?
    ensures Patch(Patch(p, updates).value, updates) == Patch(p, updates)
  {
  }

  /** `updateProductPartial`: not-found for an absent id; a failed conversion answers
      500 and stores nothing. The body itself is not validated, but the entity is on
      save: a patched product that breaks the constraints makes the save throw, so the
      answer is 500 and nothing is stored. Otherwise the patched product replaces the
      stored one and no other product changes. */
  function UpdateProductPartial(st: ProductStore, id: int, updates: map<string, Json>): (r: (ProductStore, Response))
    ensures id !in st.products ==> r == (st, NotFound)
    ensures id in st.products && Patch(st.products[id], updates).Failure? ==> r.0 == st && r.1.ServerError?
    ensures id in st.products && Patch(st.products[id], updates).Success? ==>
      if ValidProduct(Patch(st.products[id], updates).value) then
        && r.1 == Ok(id, Patch(st.products[id], updates).value)
        && r.0 == st.(products := st.products[id := r.1.product])
      else
        r.0 == st && r.1.ServerError?
    ensures r.1.Ok? ==> ValidProduct(r.1.product)
    ensures StoreInv(st) ==> StoreInv(r.0)
    ensures AllValid(st) ==> AllValid(r.0)
  {
    if id !in st.products then (st, NotFound)
    else
      match Patch(st.products[id], updates)
      case Failure(e) => (st, ServerError(e))
      case Success(p) =>
        if ValidProduct(p) then (st.(products := st.products[id := p]), Ok(id, p))
        else (st, ServerError("ConstraintViolationException"))
  }

  /** A partial update cannot store a product that breaks the constraints either: a
      negative stock is refused with 500 and the stored product is kept. */
  lemma PartialUpdateRefusesInvalid()
    ensures var st := ProductStore(map[1 := Product("Pen", 100, 5, "", "")], 2);
            var r := UpdateProductPartial(st, 1, map["stock_quantity" := JNumber(-3)]);
            && Patch(st.products[1], map["stock_quantity" := JNumber(-3)]).Success?
            && r.0 == st && r.1.ServerError?
  {
    var st := ProductStore(map[1 := Product("Pen", 100, 5, "", "")], 2);
    var patched := Patch(st.products[1], map["stock_quantity" := JNumber(-3)]);
    assert patched.Success? && patched.value.stockQuantity == -3;
  }

  /** `deleteProduct`: not-found and no change for an absent id; otherwise exactly that
      id is removed. */
  function DeleteProduct(st: ProductStore, id: int): (r: (ProductStore, Response))
    ensures id !in st.products ==> r == (st, NotFound)
    ensures id in st.products ==>
      && r.1 == OkEmpty
      && r.0.products.Keys == st.products.Keys - {id}
      && (forall k :: k in r.0.products ==> r.0.products[k] == st.products[k])
      && r.0.nextId == st.nextId
    ensures StoreInv(st) ==> StoreInv(r.0)
    ensures AllValid(st) ==> AllValid(r.0)
  {
    if id !in st.products then (st, NotFound)
    else (st.(products := st.products - {id}), OkEmpty)
  }

  /** Reading back after each kind of write: a created product is found under its new
      id, an updated one shows the new fields, a deleted one is gone. */
  lemma ReadAfterWrite(st: ProductStore, id: int, body: ProductBody)
    ensures var c := CreateProduct(st, body);
            c.1.Ok? ==> GetProductById(c.0, c.1.id) == Ok(c.1.id, Fields(body))
    ensures var u := UpdateProduct(st, id, body);
            u.1.Ok? ==> GetProductById(u.0, id) == Ok(id, Fields(body))
    ensures GetProductById(DeleteProduct(st, id).0, id) == NotFound
  {
  }
}
