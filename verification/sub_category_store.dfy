/** The sub-category store (`src/lib/sub-category-store.ts`): the flat list of
    sub-categories, with a loading flag and the time of the last wholesale
    replacement. Its insert action is named `addCategory` in the source. */
module SubCategoryStore {
  import opened Wrappers
  import Keyed

  datatype SubCategory = SubCategory(name: string, description: string, subCategoryId: string)

  /** `Partial<SubCategory>`. */
  datatype SubCategoryPatch = SubCategoryPatch(
    name: Option<string>, description: Option<string>, subCategoryId: Option<string>)

  datatype SubCategoryState = SubCategoryState(subCategories: seq<SubCategory>, isLoading: bool, lastUpdated: Option<int>)

  const Initial := SubCategoryState([], false, None)

  function SubCategoryKey(c: SubCategory): string {
    c.subCategoryId
  }

  predicate UniqueSubCategoryIds(subs: seq<SubCategory>) {
    Keyed.UniqueKeys(subs, SubCategoryKey)
  }

  /** `{ ...c, ...u }`. */
  function ApplyPatch(c: SubCategory, u: SubCategoryPatch): SubCategory {
    SubCategory(u.name.GetOr(c.name), u.description.GetOr(c.description), u.subCategoryId.GetOr(c.subCategoryId))
  }

  /** `setSubCategories`: the list is replaced wholesale and time-stamped. */
  function SetSubCategories(s: SubCategoryState, subs: seq<SubCategory>, now: int): (r: SubCategoryState)
    ensures r.subCategories == subs
    ensures r.lastUpdated == Some(now)
    ensures r.isLoading == s.isLoading
  {
    s.(subCategories := subs, lastUpdated := Some(now))
  }

  /** `addCategory`: a sub-category whose id is already present is ignored; a new one is appended. */
  function AddSubCategory(s: SubCategoryState, c: SubCategory): (r: SubCategoryState)
    ensures (exists i :: 0 <= i < |s.subCategories| && s.subCategories[i].subCategoryId == c.subCategoryId) ==> r == s
    ensures (forall i :: 0 <= i < |s.subCategories| ==> s.subCategories[i].subCategoryId != c.subCategoryId) ==>
      r == s.(subCategories := s.subCategories + [c])
    ensures UniqueSubCategoryIds(s.subCategories) ==> UniqueSubCategoryIds(r.subCategories)
  {
    var subs := Keyed.AddIfAbsent(s.subCategories, c, SubCategoryKey);
    assert Keyed.HasKey(s.subCategories, SubCategoryKey, c.subCategoryId) <==>
      exists i :: 0 <= i < |s.subCategories| && s.subCategories[i].subCategoryId == c.subCategoryId;
    s.(subCategories := subs)
  }

  /** `updateCategory`: the patch is applied to every sub-category with the given id; the
      others, the order and the length are kept. */
  function UpdateSubCategory(s: SubCategoryState, subCategoryId: string, u: SubCategoryPatch): (r: SubCategoryState)
    ensures |r.subCategories| == |s.subCategories|
    ensures forall i :: 0 <= i < |s.subCategories| ==>
      r.subCategories[i] == if s.subCategories[i].subCategoryId == subCategoryId then ApplyPatch(s.subCategories[i], u) else s.subCategories[i]
    ensures r.isLoading == s.isLoading && r.lastUpdated == s.lastUpdated
  {
    s.(subCategories := Keyed.UpdateWhere(s.subCategories, subCategoryId, SubCategoryKey, (c: SubCategory) => ApplyPatch(c, u)))
  }

  /** `resetStore`: back to an empty, idle store that was never loaded. */
  function ResetStore(): (r: SubCategoryState)
    ensures r.subCategories == [] && !r.isLoading && r.lastUpdated == None
  {
    Initial
  }

  /** `setLoading`: only the loading flag changes. */
  function SetLoading(s: SubCategoryState, isLoading: bool): (r: SubCategoryState)
    ensures r.isLoading == isLoading
    ensures r.subCategories == s.subCategories && r.lastUpdated == s.lastUpdated
  {
    s.(isLoading := isLoading)
  }

  /** A patch that leaves `subCategoryId` alone keeps the ids unique. */
  lemma UpdateSubCategoryKeepsUnique(s: SubCategoryState, subCategoryId: string, u: SubCategoryPatch)
    requires UniqueSubCategoryIds(s.subCategories)
    requires u.subCategoryId.None?
    ensures UniqueSubCategoryIds(UpdateSubCategory(s, subCategoryId, u).subCategories)
  {
    var r := UpdateSubCategory(s, subCategoryId, u);
    forall i | 0 <= i < |r.subCategories|
      ensures r.subCategories[i].subCategoryId == s.subCategories[i].subCategoryId
    {
    }
  }
}
