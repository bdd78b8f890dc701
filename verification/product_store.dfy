/** The product store (`src/lib/product-store.ts`): the catalog's products as
    last fetched, with a loading flag and the time of the last wholesale
    replacement. Every action is a pure `state -> state` function; the clock
    (`Date.now()`) is an input. */
module ProductStore {
  import opened Wrappers
  import Keyed

  datatype Product = Product(
    id: int,                     // the catalog's numeric record id
    name: string,
    price: real,                 // canonical price
    subCategory: string,         // `sub_category`: the owning sub-category's id
    productId: string,           // file-storage id; the key of the store
    thumbnail: string,
    details: string,
    isDigital: bool,
    hasPurchased: Option<bool>)

  /** `Partial<Product>`: the fields an update overwrites. */
  datatype ProductPatch = ProductPatch(
    id: Option<int>,
    name: Option<string>,
    price: Option<real>,
    subCategory: Option<string>,
    productId: Option<string>,
    thumbnail: Option<string>,
    details: Option<string>,
    isDigital: Option<bool>,
    hasPurchased: Option<Option<bool>>)

  datatype ProductState = ProductState(products: seq<Product>, isLoading: bool, lastUpdated: Option<int>)

  const Initial := ProductState([], false, None)

  function ProductKey(p: Product): string {
    p.productId
  }

  predicate UniqueProductIds(products: seq<Product>) {
    Keyed.UniqueKeys(products, ProductKey)
  }

  /** `{ ...p, ...u }`. */
  function ApplyPatch(p: Product, u: ProductPatch): Product {
    Product(
      u.id.GetOr(p.id), u.name.GetOr(p.name), u.price.GetOr(p.price),
      u.subCategory.GetOr(p.subCategory), u.productId.GetOr(p.productId),
      u.thumbnail.GetOr(p.thumbnail), u.details.GetOr(p.details),
      u.isDigital.GetOr(p.isDigital), u.hasPurchased.GetOr(p.hasPurchased))
  }

  /** `setProducts`: the list is replaced wholesale and stamped with the current time. */
  function SetProducts(s: ProductState, products: seq<Product>, now: int): (r: ProductState)
    ensures r.products == products
    ensures r.lastUpdated == Some(now)
    ensures r.isLoading == s.isLoading
  {
    s.(products := products, lastUpdated := Some(now))
  }

  /** `addProduct`: a product whose id is already present is ignored; a new one is appended. */
  function AddProduct(s: ProductState, p: Product): (r: ProductState)
    ensures (exists i :: 0 <= i < |s.products| && s.products[i].productId == p.productId) ==> r == s
    ensures (forall i :: 0 <= i < |s.products| ==> s.products[i].productId != p.productId) ==>
      r == s.(products := s.products + [p])
    ensures UniqueProductIds(s.products) ==> UniqueProductIds(r.products)
  {
    var products := Keyed.AddIfAbsent(s.products, p, ProductKey);
    assert Keyed.HasKey(s.products, ProductKey, p.productId) <==>
      exists i :: 0 <= i < |s.products| && s.products[i].productId == p.productId;
    s.(products := products)
  }

  /** `updateProduct`: every product with the given id has the patch applied; the others,
      the order and the length are kept. */
  function UpdateProduct(s: ProductState, productId: string, u: ProductPatch): (r: ProductState)
    ensures |r.products| == |s.products|
    ensures forall i :: 0 <= i < |s.products| ==>
      r.products[i] == if s.products[i].productId == productId then ApplyPatch(s.products[i], u) else s.products[i]
    ensures r.isLoading == s.isLoading && r.lastUpdated == s.lastUpdated
  {
    s.(products := Keyed.UpdateWhere(s.products, productId, ProductKey, (p: Product) => ApplyPatch(p, u)))
  }

  /** `resetStore`: back to an empty, idle store that was never loaded. */
  function ResetStore(): (r: ProductState)
    ensures r.products == [] && !r.isLoading && r.lastUpdated == None
  {
    Initial
  }

  /** `setLoading`: only the loading flag changes. */
  function SetLoading(s: ProductState, isLoading: bool): (r: ProductState)
    ensures r.isLoading == isLoading
    ensures r.products == s.products && r.lastUpdated == s.lastUpdated
  {
    s.(isLoading := isLoading)
  }

  /** A patch that leaves `productId` alone keeps the product ids unique. */
  lemma UpdateProductKeepsUnique(s: ProductState, productId: string, u: ProductPatch)
    requires UniqueProductIds(s.products)
    requires u.productId.None?
    ensures UniqueProductIds(UpdateProduct(s, productId, u).products)
  {
    var r := UpdateProduct(s, productId, u);
    forall i | 0 <= i < |r.products|
      ensures r.products[i].productId == s.products[i].productId
    {
    }
  }

  /** A patch that does carry a `productId` can merge two products under one id:
      `updateProduct` does not guard the key the way `addProduct` does. */
  lemma UpdateProductCanDuplicateIds()
    ensures var p := Product(1, "a", 1.0, "s", "A", "", "", true, None);
      var q := p.(id := 2, productId := "B");
      var s := ProductState([p, q], false, None);
      var u := ProductPatch(None, None, None, None, Some("A"), None, None, None, None);
      UniqueProductIds(s.products) && !UniqueProductIds(UpdateProduct(s, "B", u).products)
  {
    var p := Product(1, "a", 1.0, "s", "A", "", "", true, None);
    var q := p.(id := 2, productId := "B");
    var s := ProductState([p, q], false, None);
    var u := ProductPatch(None, None, None, None, Some("A"), None, None, None, None);
    var r := UpdateProduct(s, "B", u);
    assert r.products[0].productId == r.products[1].productId;
  }
}
