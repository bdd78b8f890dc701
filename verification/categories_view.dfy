/** The categories page (`src/routes/_authed/categories.tsx`): how the loaded
    categories and sub-categories are copied into their stores, with each
    category listing the sub-categories that point at it, and where choosing
    a sub-category leads. */
module CategoriesView {
  import opened Wrappers
  import CategoryStore
  import SubCategoryStore
  import ProductStore
  import CartView
  import Seqs

  /** A sub-category record with its populated category: `categoryId` is that category's id,
      absent when the relation is empty. */
  datatype RawSubCategory = RawSubCategory(name: string, description: Option<string>, subCategoryId: string,
                                           categoryId: Option<string>)

  datatype RawCategory = RawCategory(name: string, description: Option<string>, categoryId: string)

  /** `formattedSubs`: `description || ""`. */
  function FormatSub(s: RawSubCategory): (r: SubCategoryStore.SubCategory)
    ensures r.name == s.name && r.subCategoryId == s.subCategoryId
    ensures r.description == if Truthy(s.description) then s.description.value else ""
  {
    SubCategoryStore.SubCategory(s.name, if Truthy(s.description) then s.description.value else "", s.subCategoryId)
  }

  function ToRef(s: RawSubCategory): CategoryStore.SubRef {
    CategoryStore.SubRef(s.subCategoryId, s.name)
  }

  /** The sub-categories whose category is `categoryId`, in load order, as `{subCategoryId, name}`. */
  function SubsOf(categoryId: string, subs: seq<RawSubCategory>): (r: seq<CategoryStore.SubRef>)
    ensures |r| <= |subs|
  {
    if |subs| == 0 then []
    else (if subs[0].categoryId == Some(categoryId) then [ToRef(subs[0])] else []) + SubsOf(categoryId, subs[1..])
  }

  /** A category lists exactly the sub-categories that point at it. */
  lemma {:induction false} SubsOfMembers(categoryId: string, subs: seq<RawSubCategory>)
    ensures forall x :: x in SubsOf(categoryId, subs) <==>
      exists s :: s in subs && s.categoryId == Some(categoryId) && ToRef(s) == x
  {
    if |subs| > 0 {
      SubsOfMembers(categoryId, subs[1..]);
      assert subs == [subs[0]] + subs[1..];
    }
  }

  /** The test `formattedCategories` applies to each loaded sub-category. */
  function PointsAt(categoryId: string): RawSubCategory -> bool {
    (s: RawSubCategory) => s.categoryId == Some(categoryId)
  }

  /** The `{subCategoryId, name}` of each sub-category, in order. */
  function Refs(subs: seq<RawSubCategory>): (r: seq<CategoryStore.SubRef>)
    ensures |r| == |subs|
    ensures forall k :: 0 <= k < |subs| ==> r[k] == ToRef(subs[k])
  {
    if |subs| == 0 then [] else [ToRef(subs[0])] + Refs(subs[1..])
  }

  /** A category's list is the loaded sub-categories that point at it, each once per time it
      was loaded, in load order: its `k`-th entry is the `k`-th such sub-category. */
  lemma {:induction false} SubsOfIsFilter(categoryId: string, subs: seq<RawSubCategory>)
    ensures var kept := Seqs.Filter(subs, PointsAt(categoryId));
      && SubsOf(categoryId, subs) == Refs(kept)
      && Seqs.Subsequence(kept, subs)
  {
    Seqs.FilterSubsequence(subs, PointsAt(categoryId));
    if |subs| > 0 {
      SubsOfIsFilter(categoryId, subs[1..]);
      var keptRest := Seqs.Filter(subs[1..], PointsAt(categoryId));
      if PointsAt(categoryId)(subs[0]) {
        assert ([subs[0]] + keptRest)[1..] == keptRest;
      }
    }
  }

  /** Two categories with different ids never share a loaded sub-category, so together they
      list no more entries than were loaded. */
  lemma {:induction false} SubsOfDisjoint(c1: string, c2: string, subs: seq<RawSubCategory>)
    requires c1 != c2
    ensures |SubsOf(c1, subs)| + |SubsOf(c2, subs)| <= |subs|
  {
    if |subs| > 0 {
      SubsOfDisjoint(c1, c2, subs[1..]);
    }
  }

  /** A sub-category with no category is listed nowhere. */
  lemma {:induction false} OrphanListedNowhere(categoryId: string, subs: seq<RawSubCategory>)
    requires forall i :: 0 <= i < |subs| ==> subs[i].categoryId.None?
    ensures SubsOf(categoryId, subs) == []
  {
    if |subs| > 0 {
      OrphanListedNowhere(categoryId, subs[1..]);
    }
  }

  /** One entry of `formattedCategories`. */
  function FormatCategory(c: RawCategory, subs: seq<RawSubCategory>): (r: CategoryStore.Category)
    ensures r.name == c.name && r.categoryId == c.categoryId
    ensures r.description == if Truthy(c.description) then c.description.value else CartView.DefaultDescription
    ensures r.subs == SubsOf(c.categoryId, subs)
  {
    CategoryStore.Category(c.name, if Truthy(c.description) then c.description.value else CartView.DefaultDescription,
      c.categoryId, SubsOf(c.categoryId, subs))
  }

  /** The page's sync effect. It runs only when both lists were loaded (an empty list counts as
      loaded); then both stores are replaced, one entry per record, in load order. */
  function Sync(cs: CategoryStore.CategoryState, ss: SubCategoryStore.SubCategoryState,
                categories: Option<seq<RawCategory>>, subs: Option<seq<RawSubCategory>>, now: int)
    : (r: (CategoryStore.CategoryState, SubCategoryStore.SubCategoryState))
    ensures categories.None? || subs.None? ==> r == (cs, ss)
    ensures categories.Some? && subs.Some? ==>
      (var cats, raws := categories.value, subs.value;
       && |r.0.categories| == |cats|
       && (forall i :: 0 <= i < |cats| ==> r.0.categories[i] == FormatCategory(cats[i], raws))
       && |r.1.subCategories| == |raws|
       && (forall i :: 0 <= i < |raws| ==> r.1.subCategories[i] == FormatSub(raws[i]))
       && r.0.lastUpdated == Some(now) && r.1.lastUpdated == Some(now))
  {
    if categories.None? || subs.None? then (cs, ss)
    else
      var cats, raws := categories.value, subs.value;
      (CategoryStore.SetCategories(cs, seq(|cats|, i requires 0 <= i < |cats| => FormatCategory(cats[i], raws)), now),
       SubCategoryStore.SetSubCategories(ss, seq(|raws|, i requires 0 <= i < |raws| => FormatSub(raws[i])), now))
  }

  /** After a sync every sub-category a category lists is also in the sub-category store, with
      the same id and name. */
  lemma SyncedSubsAreStored(cs: CategoryStore.CategoryState, ss: SubCategoryStore.SubCategoryState,
                            categories: seq<RawCategory>, subs: seq<RawSubCategory>, now: int, i: int,
                            x: CategoryStore.SubRef)
    requires 0 <= i < |categories|
    requires x in Sync(cs, ss, Some(categories), Some(subs), now).0.categories[i].subs
    ensures exists sub :: (sub in Sync(cs, ss, Some(categories), Some(subs), now).1.subCategories
                           && sub.subCategoryId == x.subCategoryId && sub.name == x.name)
  {
    var r := Sync(cs, ss, Some(categories), Some(subs), now);
    SubsOfMembers(categories[i].categoryId, subs);
    var s :| s in subs && s.categoryId == Some(categories[i].categoryId) && ToRef(s) == x;
    var j :| 0 <= j < |subs| && subs[j] == s;
    assert r.1.subCategories[j] == FormatSub(s);
  }

  /** Where `handleSelect(id)` navigates: the marketplace filtered to that sub-category. */
  datatype Navigation = Navigation(to: string, subCategoryId: string)

  /** `handleSelect(id)`: a missing or empty id does nothing. */
  function HandleSelect(id: Option<string>): (r: Option<Navigation>)
    ensures r.Some? <==> Truthy(id)
    ensures r.Some? ==> r.value.to == "/cart" && r.value.subCategoryId == id.value
  {
    if Truthy(id) then Some(Navigation("/cart", id.value)) else None
  }

  /** Choosing a sub-category leads to a marketplace that lists only that sub-category's
      products. */
  lemma SelectedListingIsFiltered(id: Option<string>, products: seq<ProductStore.Product>, search: string)
    requires HandleSelect(id).Some?
    ensures var nav := HandleSelect(id).value;
      forall p :: p in CartView.DisplayedProducts(products, Some(nav.subCategoryId), search) ==>
        p.subCategory == id.value
  {
    CartView.ChosenSubCategoryOnly(products, id.value, search);
  }

  datatype Page = NoCategories | CategoryList(categories: seq<CategoryStore.Category>)

  /** With no categories in the store the empty state shows; otherwise every stored category
      is listed, in store order. */
  function Render(s: CategoryStore.CategoryState): (r: Page)
    ensures r.NoCategories? <==> |s.categories| == 0
    ensures r.CategoryList? ==> r.categories == s.categories
  {
    if |s.categories| == 0 then NoCategories else CategoryList(s.categories)
  }
}
