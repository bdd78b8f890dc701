/** The marketplace page (`src/routes/_authed/cart.tsx`): how the catalog
    records it loads are copied into the currency, sub-category and product
    stores, which products it lists for the chosen sub-category and search
    text, and when it offers the currency selector. */
module CartView {
  import opened Wrappers
  import Seqs
  import Text
  import CurrencyStore
  import SubCategoryStore
  import ProductStore

  // ---------------------------------------------------------------------
  // Catalog records as loaded
  // ---------------------------------------------------------------------

  /** A currency record; `precision` is absent when unset. */
  datatype RawCurrency = RawCurrency(code: string, symbol: string, labelText: string, rate: real,
                                     isDefault: bool, precision: Option<int>)

  datatype RawSubCategory = RawSubCategory(name: string, description: Option<string>, subCategoryId: string)

  /** A product record. `subCategoryId` is the populated sub-category's id, absent when the
      relation is empty; `smallUrl` and `url` are the thumbnail's small format and original. */
  datatype RawProduct = RawProduct(
    id: int,
    name: string,
    price: Option<real>,
    subCategoryId: Option<string>,
    productId: string,
    smallUrl: Option<string>,
    url: Option<string>,
    details: string,
    isDigital: bool)

  const DefaultDescription := "Premium Digital Asset"

  /** `precision: item.precision || 2`: an absent or zero precision becomes 2. */
  function MapCurrency(c: RawCurrency): (r: CurrencyStore.CurrencyConfig)
    ensures r.code == c.code && r.rate == c.rate && r.isDefault == c.isDefault
    ensures r.precision == if c.precision.Some? && c.precision.value != 0 then c.precision.value else 2
  {
    CurrencyStore.CurrencyConfig(c.code, c.symbol, c.labelText, c.rate, c.isDefault,
      if c.precision.Some? && c.precision.value != 0 then c.precision.value else 2)
  }

  /** `description: item.description || "Premium Digital Asset"`. */
  function MapSubCategory(c: RawSubCategory): (r: SubCategoryStore.SubCategory)
    ensures r.name == c.name && r.subCategoryId == c.subCategoryId
    ensures r.description == if Truthy(c.description) then c.description.value else DefaultDescription
  {
    SubCategoryStore.SubCategory(c.name, if Truthy(c.description) then c.description.value else DefaultDescription,
      c.subCategoryId)
  }

  /** The thumbnail: the small format under `base`, else the original under `base`, else "". */
  function Thumbnail(p: RawProduct, base: string): (r: string)
    ensures Truthy(p.smallUrl) ==> r == base + p.smallUrl.value
    ensures !Truthy(p.smallUrl) && Truthy(p.url) ==> r == base + p.url.value
    ensures !Truthy(p.smallUrl) && !Truthy(p.url) ==> r == ""
  {
    if Truthy(p.smallUrl) then base + p.smallUrl.value
    else if Truthy(p.url) then base + p.url.value
    else ""
  }

  /** One product record as stored: a missing price is 0, an empty relation leaves the
      sub-category empty, and `hasPurchased` says whether the user owns the product. */
  function MapProduct(p: RawProduct, purchasedIds: seq<string>, base: string): (r: ProductStore.Product)
    ensures r.id == p.id && r.name == p.name && r.productId == p.productId && r.isDigital == p.isDigital
    ensures r.price == p.price.GetOr(0.0)
    ensures r.subCategory == p.subCategoryId.GetOr("")
    ensures r.hasPurchased == Some(p.productId in purchasedIds)
    ensures r.thumbnail == Thumbnail(p, base)
  {
    ProductStore.Product(p.id, p.name, p.price.GetOr(0.0), p.subCategoryId.GetOr(""), p.productId,
      Thumbnail(p, base), p.details, p.isDigital, Some(p.productId in purchasedIds))
  }

  datatype Stores = Stores(
    currency: CurrencyStore.CurrencyState,
    subCategories: SubCategoryStore.SubCategoryState,
    products: ProductStore.ProductState)

  /** The page's sync effect: currencies are handed over only when at least one was loaded;
      sub-categories and products are always replaced. */
  function Sync(s: Stores, currencies: seq<RawCurrency>, subs: seq<RawSubCategory>, products: seq<RawProduct>,
                purchasedIds: seq<string>, base: string, storage: CurrencyStore.Storage, now: int): (r: Stores)
    ensures |currencies| == 0 ==> r.currency == s.currency
    ensures |currencies| > 0 ==>
      (r.currency == CurrencyStore.SetAvailableCurrencies(
         s.currency, seq(|currencies|, i requires 0 <= i < |currencies| => MapCurrency(currencies[i])), storage))
    ensures |r.subCategories.subCategories| == |subs|
      && forall i :: 0 <= i < |subs| ==> r.subCategories.subCategories[i] == MapSubCategory(subs[i])
    ensures |r.products.products| == |products|
      && forall i :: 0 <= i < |products| ==> r.products.products[i] == MapProduct(products[i], purchasedIds, base)
  {
    var configs := seq(|currencies|, i requires 0 <= i < |currencies| => MapCurrency(currencies[i]));
    Stores(
      if |currencies| > 0 then CurrencyStore.SetAvailableCurrencies(s.currency, configs, storage) else s.currency,
      SubCategoryStore.SetSubCategories(s.subCategories, seq(|subs|, i requires 0 <= i < |subs| => MapSubCategory(subs[i])), now),
      ProductStore.SetProducts(s.products, seq(|products|, i requires 0 <= i < |products| => MapProduct(products[i], purchasedIds, base)), now))
  }

  /** Because an empty currency list is never handed over, the page's sync cannot leave the
      currency store with nothing on offer once something was: after it the selected code is
      offered whenever the store had finished loading with its selection offered, or any
      currency was loaded. */
  lemma SyncKeepsSelectionOffered(s: Stores, currencies: seq<RawCurrency>, subs: seq<RawSubCategory>,
                                  products: seq<RawProduct>, purchasedIds: seq<string>, base: string,
                                  storage: CurrencyStore.Storage, now: int)
    requires |currencies| > 0 || s.currency.current.code in s.currency.available
    ensures var r := Sync(s, currencies, subs, products, purchasedIds, base, storage, now);
      r.currency.current.code in r.currency.available
  {
    if |currencies| > 0 {
      var configs := seq(|currencies|, i requires 0 <= i < |currencies| => MapCurrency(currencies[i]));
      CurrencyStore.SyncSelectsOffered(s.currency, configs, storage);
    }
  }

  // ---------------------------------------------------------------------
  // What the page lists
  // ---------------------------------------------------------------------

  /** The filter of `displayedProducts`: in the chosen sub-category when one is chosen, and
      the lower-cased name contains the lower-cased search text. */
  predicate Shown(p: ProductStore.Product, subCategoryId: Option<string>, search: string) {
    (Truthy(subCategoryId) ==> p.subCategory == subCategoryId.value)
    && Text.Includes(Text.Lower(p.name), Text.Lower(search))
  }

  function ShownFor(subCategoryId: Option<string>, search: string): ProductStore.Product -> bool {
    (p: ProductStore.Product) => Shown(p, subCategoryId, search)
  }

  /** `displayedProducts`: the stored products that pass the filter, in store order. */
  function DisplayedProducts(products: seq<ProductStore.Product>, subCategoryId: Option<string>, search: string)
    : (r: seq<ProductStore.Product>)
    ensures forall p :: p in r <==> p in products && Shown(p, subCategoryId, search)
    ensures Seqs.Subsequence(r, products)
  {
    Seqs.FilterSubsequence(products, ShownFor(subCategoryId, search));
    Seqs.Filter(products, ShownFor(subCategoryId, search))
  }

  /** With no sub-category chosen and no search text every product is listed. */
  lemma NoFilterShowsAll(products: seq<ProductStore.Product>, subCategoryId: Option<string>)
    requires !Truthy(subCategoryId)
    ensures DisplayedProducts(products, subCategoryId, "") == products
  {
    forall i | 0 <= i < |products| ensures ShownFor(subCategoryId, "")(products[i]) {
      Text.IncludesEmpty(Text.Lower(products[i].name));
    }
    Seqs.FilterKeepsAll(products, ShownFor(subCategoryId, ""));
  }

  /** A chosen sub-category lists only its own products, and a product with no sub-category
      is never listed under one. */
  lemma ChosenSubCategoryOnly(products: seq<ProductStore.Product>, id: string, search: string)
    requires id != ""
    ensures forall p :: p in DisplayedProducts(products, Some(id), search) ==> p.subCategory == id
  {
  }

  /** `showCurrencySelector`: loading is over and more than one code is on offer. */
  predicate ShowCurrencySelector(s: CurrencyStore.CurrencyState) {
    !s.isLoading && |s.available.Keys| > 1
  }

  /** After a sync that loaded two distinct codes the selector appears. */
  lemma SelectorAfterSync(s: CurrencyStore.CurrencyState, configs: seq<CurrencyStore.CurrencyConfig>,
                          storage: CurrencyStore.Storage, i: int, j: int)
    requires 0 <= i < |configs| && 0 <= j < |configs| && configs[i].code != configs[j].code
    ensures ShowCurrencySelector(CurrencyStore.SetAvailableCurrencies(s, configs, storage))
  {
    var r := CurrencyStore.SetAvailableCurrencies(s, configs, storage);
    CurrencyStore.BuildMapSpec(configs);
    assert configs[i].code in r.available.Keys && configs[j].code in r.available.Keys;
    assert {configs[i].code, configs[j].code} <= r.available.Keys;
    assert |{configs[i].code, configs[j].code}| == 2;
    SubsetCard({configs[i].code, configs[j].code}, r.available.Keys);
  }

  /** With one code loaded, however often, the selector stays hidden. */
  lemma NoSelectorForOneCode(s: CurrencyStore.CurrencyState, configs: seq<CurrencyStore.CurrencyConfig>,
                             storage: CurrencyStore.Storage)
    requires |configs| > 0
    requires forall i :: 0 <= i < |configs| ==> configs[i].code == configs[0].code
    ensures !ShowCurrencySelector(CurrencyStore.SetAvailableCurrencies(s, configs, storage))
  {
    var r := CurrencyStore.SetAvailableCurrencies(s, configs, storage);
    CurrencyStore.BuildMapSpec(configs);
    assert r.available.Keys == {configs[0].code};
  }

  lemma SubsetCard<T>(a: set<T>, b: set<T>)
    requires a <= b
    ensures |a| <= |b|
  {
    assert b == a + (b - a);
  }

  datatype Page = StoreEmpty | Listing(products: seq<ProductStore.Product>, currencySelector: bool)

  /** With no sub-categories in the store the empty state shows, whatever the products. */
  function Render(subs: seq<SubCategoryStore.SubCategory>, products: seq<ProductStore.Product>,
                  currency: CurrencyStore.CurrencyState, subCategoryId: Option<string>, search: string): (r: Page)
    ensures r.StoreEmpty? <==> |subs| == 0
    ensures r.Listing? ==>
      (r.products == DisplayedProducts(products, subCategoryId, search)
       && r.currencySelector == ShowCurrencySelector(currency))
  {
    if |subs| == 0 then StoreEmpty
    else Listing(DisplayedProducts(products, subCategoryId, search), ShowCurrencySelector(currency))
  }
}
