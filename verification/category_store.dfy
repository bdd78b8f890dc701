/** The category store (`src/lib/category-store.ts`): categories, each carrying
    the sub-categories linked to it, with a loading flag and the time of the
    last wholesale replacement. */
module CategoryStore {
  import opened Wrappers
  import Keyed

  /** A sub-category as nested inside a category. */
  datatype SubRef = SubRef(subCategoryId: string, name: string)

  datatype Category = Category(name: string, description: string, categoryId: string, subs: seq<SubRef>)

  /** `Partial<Category>`. */
  datatype CategoryPatch = CategoryPatch(
    name: Option<string>, description: Option<string>, categoryId: Option<string>, subs: Option<seq<SubRef>>)

  datatype CategoryState = CategoryState(categories: seq<Category>, isLoading: bool, lastUpdated: Option<int>)

  const Initial := CategoryState([], false, None)

  function CategoryKey(c: Category): string {
    c.categoryId
  }

  predicate UniqueCategoryIds(categories: seq<Category>) {
    Keyed.UniqueKeys(categories, CategoryKey)
  }

  /** `{ ...c, ...u }`. */
  function ApplyPatch(c: Category, u: CategoryPatch): Category {
    Category(u.name.GetOr(c.name), u.description.GetOr(c.description),
             u.categoryId.GetOr(c.categoryId), u.subs.GetOr(c.subs))
  }

  /** `setCategories`: the list, nested subs included, is replaced wholesale and time-stamped. */
  function SetCategories(s: CategoryState, categories: seq<Category>, now: int): (r: CategoryState)
    ensures r.categories == categories
    ensures r.lastUpdated == Some(now)
    ensures r.isLoading == s.isLoading
  {
    s.(categories := categories, lastUpdated := Some(now))
  }

  /** `addCategory`: a category whose id is already present is ignored; a new one is appended. */
  function AddCategory(s: CategoryState, c: Category): (r: CategoryState)
    ensures (exists i :: 0 <= i < |s.categories| && s.categories[i].categoryId == c.categoryId) ==> r == s
    ensures (forall i :: 0 <= i < |s.categories| ==> s.categories[i].categoryId != c.categoryId) ==>
      r == s.(categories := s.categories + [c])
    ensures UniqueCategoryIds(s.categories) ==> UniqueCategoryIds(r.categories)
  {
    var categories := Keyed.AddIfAbsent(s.categories, c, CategoryKey);
    assert Keyed.HasKey(s.categories, CategoryKey, c.categoryId) <==>
      exists i :: 0 <= i < |s.categories| && s.categories[i].categoryId == c.categoryId;
    s.(categories := categories)
  }

  /** `updateCategory`: the patch is applied to every category with the given id; the others,
      the order and the length are kept. */
  function UpdateCategory(s: CategoryState, categoryId: string, u: CategoryPatch): (r: CategoryState)
    ensures |r.categories| == |s.categories|
    ensures forall i :: 0 <= i < |s.categories| ==>
      r.categories[i] == if s.categories[i].categoryId == categoryId then ApplyPatch(s.categories[i], u) else s.categories[i]
    ensures r.isLoading == s.isLoading && r.lastUpdated == s.lastUpdated
  {
    s.(categories := Keyed.UpdateWhere(s.categories, categoryId, CategoryKey, (c: Category) => ApplyPatch(c, u)))
  }

  /** `resetStore`: back to an empty, idle store that was never loaded. */
  function ResetStore(): (r: CategoryState)
    ensures r.categories == [] && !r.isLoading && r.lastUpdated == None
  {
    Initial
  }

  /** `setLoading`: only the loading flag changes. */
  function SetLoading(s: CategoryState, isLoading: bool): (r: CategoryState)
    ensures r.isLoading == isLoading
    ensures r.categories == s.categories && r.lastUpdated == s.lastUpdated
  {
    s.(isLoading := isLoading)
  }

  /** A patch that leaves `categoryId` alone keeps the category ids unique. */
  lemma UpdateCategoryKeepsUnique(s: CategoryState, categoryId: string, u: CategoryPatch)
    requires UniqueCategoryIds(s.categories)
    requires u.categoryId.None?
    ensures UniqueCategoryIds(UpdateCategory(s, categoryId, u).categories)
  {
    var r := UpdateCategory(s, categoryId, u);
    forall i | 0 <= i < |r.categories|
      ensures r.categories[i].categoryId == s.categories[i].categoryId
    {
    }
  }
}
