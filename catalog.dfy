/** controllers/products.controller.js of the Stationery shop: the admin's
    create, update and delete of catalogue rows, with their field checks. */
module Catalog {
  import opened Common
  import opened ShopDb
  import Auth

  /** A JavaScript number that `Number.isInteger` accepts. */
  predicate IsInteger(x: real)
  {
    x.Floor as real == x
  }

  /** A text field that is missing or only whitespace. */
  predicate Blank(s: Option<string>)
  {
    s.None? || Trim(s.value) == ""
  }

  /** The body of a create request; a missing field is `None`. The stock is
      a JavaScript number, so a `real`, for the integer check. */
  datatype NewProduct = NewProduct(
    title: Option<string>, description: Option<string>, price: Option<int>,
    stock: Option<real>, status: Option<string>)

  /** The fields of `createProduct` are all present and well-formed. */
  predicate NewFieldsOk(b: NewProduct)
  {
    && !Blank(b.title)
    && b.price.Some? && b.price.value >= 0
    && b.stock.Some? && IsInteger(b.stock.value) && b.stock.value >= 0.0
    && !Blank(b.status)
  }

  /** The checks of `createProduct`, in its order, and the row it inserts:
      title and status trimmed, the description as given. */
  function ValidateNew(b: NewProduct): (r: Result<Product>)
    ensures Blank(b.title) ==> r == Err(InvalidTitle)
    ensures !Blank(b.title) && (b.price.None? || b.price.value < 0) ==> r == Err(InvalidPrice)
    ensures !Blank(b.title) && b.price.Some? && b.price.value >= 0 ==>
      (b.stock.None? || !IsInteger(b.stock.value) || b.stock.value < 0.0) ==> r == Err(InvalidStock)
    ensures r.Ok? <==> NewFieldsOk(b)
    ensures r.Err? && NewFieldsOk(b.(status := Some("x"))) ==> r == Err(InvalidProductStatus)
    ensures r.Ok? ==>
      && r.value.title == Trim(b.title.value) && r.value.title != ""
      && r.value.description == b.description
      && r.value.price == b.price.value && r.value.price >= 0
      && r.value.stock as real == b.stock.value && r.value.stock >= 0
      && r.value.status == Trim(b.status.value) && r.value.status != ""
  {
    if Blank(b.title) then Err(InvalidTitle)
    else if b.price.None? || b.price.value < 0 then Err(InvalidPrice)
    else if b.stock.None? || !IsInteger(b.stock.value) || b.stock.value < 0.0 then Err(InvalidStock)
    else if Blank(b.status) then Err(InvalidProductStatus)
    else Ok(Product(Trim(b.title.value), b.description, b.price.value, b.stock.value.Floor, Trim(b.status.value)))
  }

  /** The body of an update request: `None` is a field left out (kept as
      it is); the description may be set to `null`, hence the nested option. */
  datatype ProductPatch = ProductPatch(
    title: Option<string>, description: Option<Option<string>>, price: Option<int>,
    stock: Option<real>, status: Option<string>)

  /** An update request that supplies no field. */
  const NoChange: ProductPatch := ProductPatch(None, None, None, None, None)

  /** Every supplied field of an update is well-formed. */
  predicate PatchOk(u: ProductPatch)
  {
    && (u.title.Some? ==> Trim(u.title.value) != "")
    && (u.price.Some? ==> u.price.value >= 0)
    && (u.stock.Some? ==> IsInteger(u.stock.value) && u.stock.value >= 0.0)
    && (u.status.Some? ==> Trim(u.status.value) != "")
  }

  /** The partial update of `updateProduct`: a supplied field is checked
      and replaces the old one, a missing field keeps the old one, and one
      bad field rejects the whole update. */
  function Merge(p: Product, u: ProductPatch): (r: Result<Product>)
    ensures u.title.Some? && Trim(u.title.value) == "" ==> r == Err(InvalidTitle)
    ensures PatchOk(u.(price := None, stock := None, status := None)) && u.price.Some? && u.price.value < 0 ==>
      r == Err(InvalidPrice)
    ensures PatchOk(u.(stock := None, status := None)) && u.stock.Some? ==>
      (!IsInteger(u.stock.value) || u.stock.value < 0.0) ==> r == Err(InvalidStock)
    ensures r.Ok? <==> PatchOk(u)
    ensures r.Err? && PatchOk(u.(status := None)) ==> r == Err(InvalidProductStatus)
    ensures r.Ok? ==>
      && r.value.title == (if u.title.Some? then Trim(u.title.value) else p.title)
      && r.value.description == (if u.description.Some? then u.description.value else p.description)
      && r.value.price == (if u.price.Some? then u.price.value else p.price)
      && r.value.stock == (if u.stock.Some? then u.stock.value.Floor else p.stock)
      && r.value.status == (if u.status.Some? then Trim(u.status.value) else p.status)
  {
    var title := if u.title.Some? then Trim(u.title.value) else p.title;
    if u.title.Some? && title == "" then Err(InvalidTitle)
    else
      var description := if u.description.Some? then u.description.value else p.description;
      var price := if u.price.Some? then u.price.value else p.price;
      if u.price.Some? && price < 0 then Err(InvalidPrice)
      else if u.stock.Some? && (!IsInteger(u.stock.value) || u.stock.value < 0.0) then Err(InvalidStock)
      else
        var stock := if u.stock.Some? then u.stock.value.Floor else p.stock;
        var status := if u.status.Some? then Trim(u.status.value) else p.status;
        if u.status.Some? && status == "" then Err(InvalidProductStatus)
        else Ok(Product(title, description, price, stock, status))
  }

  /** An update that supplies nothing leaves the product as it is. */
  lemma MergeNothing(p: Product)
    ensures Merge(p, NoChange) == Ok(p)
  {
  }

  /** An update never makes the price or the stock negative. */
  lemma MergeKeepsBounds(p: Product, u: ProductPatch)
    requires p.price >= 0 && p.stock >= 0
    requires Merge(p, u).Ok?
    ensures Merge(p, u).value.price >= 0 && Merge(p, u).value.stock >= 0
  {
  }

  /** Sending the same update twice has the effect of sending it once. */
  lemma MergeIdempotent(p: Product, u: ProductPatch)
    requires Merge(p, u).Ok?
    ensures Merge(Merge(p, u).value, u) == Merge(p, u)
  {
    var q := Merge(p, u).value;
    if u.title.Some? {
      TrimIdempotent(u.title.value);
    }
    if u.status.Some? {
      TrimIdempotent(u.status.value);
    }
    assert Merge(q, u).value == q;
  }

  /** The update request that supplies every field of a create request. */
  function FullPatch(b: NewProduct): (u: ProductPatch)
    ensures u.title == b.title && u.description == Some(b.description) && u.price == b.price
    ensures u.stock == b.stock && u.status == b.status
  {
    ProductPatch(b.title, Some(b.description), b.price, b.stock, b.status)
  }

  /** An update supplying every field is checked like a create and yields
      the same row, whatever the old product was. */
  lemma FullUpdateIsCreate(p: Product, b: NewProduct)
    requires b.title.Some? && b.price.Some? && b.stock.Some? && b.status.Some?
    ensures Merge(p, FullPatch(b)) == ValidateNew(b)
  {
  }

  /** `createProduct` (admin only): the validated row gets the next id. */
  method CreateProduct(db: Database, actor: Auth.Claims, b: NewProduct) returns (r: Result<int>)
    requires Auth.IsAdmin(actor)
    requires db.Valid()
    modifies db`products, db`nextProductId
    ensures db.Valid()
    ensures ValidateNew(b).Err? ==> r == Err(ValidateNew(b).error) && db.products == old(db.products)
    ensures ValidateNew(b).Ok? ==>
      && r.Ok? && r.value !in old(db.products)
      && db.products == old(db.products)[r.value := ValidateNew(b).value]
  {
    var v := ValidateNew(b);
    if v.Err? {
      return Err(v.error);
    }
    var id := InsertProduct(db, v.value);
    r := Ok(id);
  }

  /** `INSERT INTO products ... RETURNING *`: the row gets the next serial id. */
  method InsertProduct(db: Database, p: Product) returns (id: int)
    requires db.Valid()
    requires p.price >= 0 && p.stock >= 0
    modifies db`products, db`nextProductId
    ensures db.Valid()
    ensures id !in old(db.products) && db.products == old(db.products)[id := p]
  {
    id := db.nextProductId;
    db.products := db.products[id := p];
    db.nextProductId := id + 1;
  }

  /** `updateProduct` (admin only): 404 for an unknown id, else the merge. */
  method UpdateProduct(db: Database, actor: Auth.Claims, id: int, u: ProductPatch) returns (r: Result<Product>)
    requires Auth.IsAdmin(actor)
    requires db.Valid()
    modifies db`products
    ensures db.Valid()
    ensures id !in old(db.products) ==> r == Err(ProductNotFound)
    ensures id in old(db.products) ==> r == Merge(old(db.products)[id], u)
    ensures db.products == (if r.Ok? then old(db.products)[id := r.value] else old(db.products))
  {
    if id !in db.products {
      return Err(ProductNotFound);
    }
    r := Merge(db.products[id], u);
    if r.Ok? {
      MergeKeepsBounds(db.products[id], u);
      db.products := db.products[id := r.value];
    }
  }

  /** `deleteProduct` (admin only): 404 for an unknown id, else the row goes. */
  method DeleteProduct(db: Database, actor: Auth.Claims, id: int) returns (r: Result<()>)
    requires Auth.IsAdmin(actor)
    requires db.Valid()
    modifies db`products
    ensures db.Valid()
    ensures r.Ok? <==> id in old(db.products)
    ensures r.Err? ==> r == Err(ProductNotFound) && db.products == old(db.products)
    ensures r.Ok? ==> db.products == old(db.products) - {id}
  {
    if id !in db.products {
      return Err(ProductNotFound);
    }
    db.products := db.products - {id};
    r := Ok(());
  }
}
