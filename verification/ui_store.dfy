/** Presentation preferences (`src/lib/ui-store.ts`): whether the sidebar is
    open, the colour theme, and a grid-or-list layout for each of the three
    listing pages. Theme and layouts persist in `localStorage` (a map from
    key to string, passed in and returned); the sidebar does not. */
module UiStore {
  import opened Wrappers

  datatype Theme = Light | Dark
  datatype ViewMode = Grid | List

  /** The three pages with a remembered layout. */
  datatype Page = CategoryPage | OrderPage | CartPage

  datatype UiState = UiState(
    sidebarOpen: bool,
    theme: Theme,
    categoryViewMode: ViewMode,
    orderViewMode: ViewMode,
    cartViewMode: ViewMode)

  type Storage = map<string, string>

  const ThemeKey := "ui-theme"

  function ViewModeKey(page: Page): string {
    match page
    case CategoryPage => "ui-category-view"
    case OrderPage => "ui-order-view"
    case CartPage => "ui-cart-view"
  }

  const Initial := UiState(false, Dark, Grid, Grid, Grid)

  function ThemeName(t: Theme): string {
    match t
    case Light => "light"
    case Dark => "dark"
  }

  function ViewModeName(m: ViewMode): string {
    match m
    case Grid => "grid"
    case List => "list"
  }

  /** The stored string, if it is one of the two theme names. */
  function ParseTheme(s: string): (r: Option<Theme>)
    ensures r.Some? <==> s == "light" || s == "dark"
    ensures r.Some? ==> ThemeName(r.value) == s
  {
    if s == "light" then Some(Light) else if s == "dark" then Some(Dark) else None
  }

  /** The stored string, if it is one of the two layout names. */
  function ParseViewMode(s: string): (r: Option<ViewMode>)
    ensures r.Some? <==> s == "grid" || s == "list"
    ensures r.Some? ==> ViewModeName(r.value) == s
  {
    if s == "grid" then Some(Grid) else if s == "list" then Some(List) else None
  }

  lemma NamesParse(t: Theme, m: ViewMode)
    ensures ParseTheme(ThemeName(t)) == Some(t)
    ensures ParseViewMode(ViewModeName(m)) == Some(m)
  {
  }

  function ViewModeOf(s: UiState, page: Page): ViewMode {
    match page
    case CategoryPage => s.categoryViewMode
    case OrderPage => s.orderViewMode
    case CartPage => s.cartViewMode
  }

  function WithViewMode(s: UiState, page: Page, mode: ViewMode): (r: UiState)
    ensures ViewModeOf(r, page) == mode
    ensures forall other :: other != page ==> ViewModeOf(r, other) == ViewModeOf(s, other)
    ensures r.sidebarOpen == s.sidebarOpen && r.theme == s.theme
  {
    match page
    case CategoryPage => s.(categoryViewMode := mode)
    case OrderPage => s.(orderViewMode := mode)
    case CartPage => s.(cartViewMode := mode)
  }

  /** `setTheme(theme)`: the theme changes and its name is stored. */
  function SetTheme(s: UiState, theme: Theme, storage: Storage): (r: (UiState, Storage))
    ensures r.0 == s.(theme := theme)
    ensures ThemeKey in r.1 && ParseTheme(r.1[ThemeKey]) == Some(theme)
    ensures forall k :: k != ThemeKey ==> (k in r.1 <==> k in storage) && (k in storage ==> r.1[k] == storage[k])
  {
    (s.(theme := theme), storage[ThemeKey := ThemeName(theme)])
  }

  /** `setCategoryViewMode`, `setOrderViewMode`, `setCartViewMode`: the page's layout changes
      and its name is stored under the page's key. */
  function SetViewMode(s: UiState, page: Page, mode: ViewMode, storage: Storage): (r: (UiState, Storage))
    ensures r.0 == WithViewMode(s, page, mode)
    ensures ViewModeKey(page) in r.1 && ParseViewMode(r.1[ViewModeKey(page)]) == Some(mode)
    ensures forall k :: k != ViewModeKey(page) ==> (k in r.1 <==> k in storage) && (k in storage ==> r.1[k] == storage[k])
  {
    (WithViewMode(s, page, mode), storage[ViewModeKey(page) := ViewModeName(mode)])
  }

  /** `setSidebar(isOpen)`: not persisted. */
  function SetSidebar(s: UiState, isOpen: bool): (r: UiState)
    ensures r == s.(sidebarOpen := isOpen)
  {
    s.(sidebarOpen := isOpen)
  }

  /** The stored theme name, read as a theme. */
  function StoredTheme(storage: Storage): Option<Theme> {
    if ThemeKey in storage then ParseTheme(storage[ThemeKey]) else None
  }

  function StoredViewMode(storage: Storage, page: Page): Option<ViewMode> {
    if ViewModeKey(page) in storage then ParseViewMode(storage[ViewModeKey(page)]) else None
  }

  /** `hydrateTheme()`: each preference whose stored value is a valid name takes that value;
      a missing or unrecognised value leaves the preference as it is. */
  function Hydrate(s: UiState, storage: Storage): (r: UiState)
    ensures r.sidebarOpen == s.sidebarOpen
    ensures r.theme == StoredTheme(storage).GetOr(s.theme)
    ensures forall page :: ViewModeOf(r, page) == StoredViewMode(storage, page).GetOr(ViewModeOf(s, page))
  {
    var t := s.(theme := StoredTheme(storage).GetOr(s.theme));
    var c := WithViewMode(t, CategoryPage, StoredViewMode(storage, CategoryPage).GetOr(s.categoryViewMode));
    var o := WithViewMode(c, OrderPage, StoredViewMode(storage, OrderPage).GetOr(s.orderViewMode));
    WithViewMode(o, CartPage, StoredViewMode(storage, CartPage).GetOr(s.cartViewMode))
  }

  /** Hydrating twice from the same storage is hydrating once. */
  lemma HydrateIdempotent(s: UiState, storage: Storage)
    ensures Hydrate(Hydrate(s, storage), storage) == Hydrate(s, storage)
  {
    var r := Hydrate(s, storage);
    var rr := Hydrate(r, storage);
    assert ViewModeOf(rr, CategoryPage) == ViewModeOf(r, CategoryPage);
    assert ViewModeOf(rr, OrderPage) == ViewModeOf(r, OrderPage);
    assert ViewModeOf(rr, CartPage) == ViewModeOf(r, CartPage);
  }

  /** Preferences chosen in one session come back in the next: a fresh store hydrated from
      the storage the setters wrote shows the chosen theme and layouts. */
  lemma PreferencesSurviveReload(s: UiState, storage: Storage, theme: Theme, category: ViewMode,
                                 order: ViewMode, cart: ViewMode)
    ensures var (s1, st1) := SetTheme(s, theme, storage);
      var (s2, st2) := SetViewMode(s1, CategoryPage, category, st1);
      var (s3, st3) := SetViewMode(s2, OrderPage, order, st2);
      var (s4, st4) := SetViewMode(s3, CartPage, cart, st3);
      Hydrate(Initial, st4) == UiState(false, theme, category, order, cart)
      && Hydrate(Initial, st4) == s4.(sidebarOpen := false)
  {
    var (s1, st1) := SetTheme(s, theme, storage);
    var (s2, st2) := SetViewMode(s1, CategoryPage, category, st1);
    var (s3, st3) := SetViewMode(s2, OrderPage, order, st2);
    var (s4, st4) := SetViewMode(s3, CartPage, cart, st3);
    var h := Hydrate(Initial, st4);
    assert StoredTheme(st4) == Some(theme);
    assert StoredViewMode(st4, CategoryPage) == Some(category);
    assert StoredViewMode(st4, OrderPage) == Some(order);
    assert StoredViewMode(st4, CartPage) == Some(cart);
    assert ViewModeOf(h, CategoryPage) == category;
    assert ViewModeOf(h, OrderPage) == order;
    assert ViewModeOf(h, CartPage) == cart;
  }

  /** Unrecognised stored values change nothing. */
  lemma HydrateIgnoresGarbage(s: UiState, storage: Storage)
    requires ThemeKey in storage ==> storage[ThemeKey] != "light" && storage[ThemeKey] != "dark"
    requires forall page :: ViewModeKey(page) in storage ==>
      storage[ViewModeKey(page)] != "grid" && storage[ViewModeKey(page)] != "list"
    ensures Hydrate(s, storage) == s
  {
    var r := Hydrate(s, storage);
    assert ViewModeOf(r, CategoryPage) == ViewModeOf(s, CategoryPage);
    assert ViewModeOf(r, OrderPage) == ViewModeOf(s, OrderPage);
    assert ViewModeOf(r, CartPage) == ViewModeOf(s, CartPage);
  }
}
