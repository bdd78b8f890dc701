/** The signed-in user as the storefront knows them (`src/lib/user-store.ts`):
    their email and identity-provider id, the ids of the digital files they
    have bought, whether the back office has blocked them, and whether the
    record has been synchronised at all. */
module UserStore {
  import opened Wrappers
  import Seqs

  datatype UserState = UserState(
    email: Option<string>,
    clerkId: Option<string>,
    purchasedIds: seq<string>,
    blocked: bool,
    isLoaded: bool)

  const Initial := UserState(None, None, [], false, false)

  /** `setUser(data)`: the whole record is replaced by the synchronised one; a missing
      `blocked` reads as not blocked. */
  function SetUser(email: string, clerkId: string, blocked: Option<bool>, purchasedIds: seq<string>): (r: UserState)
    ensures r.email == Some(email) && r.clerkId == Some(clerkId)
    ensures r.purchasedIds == purchasedIds
    ensures r.blocked <==> blocked == Some(true)
    ensures r.isLoaded
  {
    UserState(Some(email), Some(clerkId), purchasedIds, blocked.GetOr(false), true)
  }

  /** `clearUser()`: back to the signed-out, unsynchronised record. */
  function ClearUser(): (r: UserState)
    ensures r.email.None? && r.clerkId.None? && r.purchasedIds == [] && !r.blocked && !r.isLoaded
  {
    Initial
  }

  /** `setBlocked(blocked)`: only the flag changes. */
  function SetBlocked(s: UserState, blocked: bool): (r: UserState)
    ensures r.blocked == blocked
    ensures r.email == s.email && r.clerkId == s.clerkId && r.purchasedIds == s.purchasedIds && r.isLoaded == s.isLoaded
  {
    s.(blocked := blocked)
  }

  /** `addPurchase(productId)`: an id already owned changes nothing; a new one is appended. */
  function AddPurchase(s: UserState, productId: string): (r: UserState)
    ensures productId in s.purchasedIds ==> r == s
    ensures productId !in s.purchasedIds ==> r == s.(purchasedIds := s.purchasedIds + [productId])
    ensures productId in r.purchasedIds
    ensures forall id :: id in r.purchasedIds <==> id in s.purchasedIds || id == productId
  {
    if productId in s.purchasedIds then s else s.(purchasedIds := s.purchasedIds + [productId])
  }

  /** Adding the same purchase twice is the same as adding it once. */
  lemma AddPurchaseIdempotent(s: UserState, productId: string)
    ensures AddPurchase(AddPurchase(s, productId), productId) == AddPurchase(s, productId)
  {
  }

  /** `addPurchase` never introduces a duplicate. */
  lemma AddPurchaseKeepsDistinct(s: UserState, productId: string)
    requires Seqs.NoDup(s.purchasedIds)
    ensures Seqs.NoDup(AddPurchase(s, productId).purchasedIds)
  {
  }

  /** A run of `addPurchase` calls, in order. */
  function AddPurchases(s: UserState, ids: seq<string>): UserState
    decreases |ids|
  {
    if |ids| == 0 then s else AddPurchases(AddPurchase(s, ids[0]), ids[1..])
  }

  /** A run of `addPurchase` calls is first-occurrence de-duplication of the owned ids
      followed by the new ones: for a duplicate-free list that is `Array.from(new Set(...))`
      of the two, the merge the payment webhook performs on the server. */
  lemma {:induction false} AddPurchasesIsDedup(s: UserState, ids: seq<string>)
    ensures AddPurchases(s, ids).purchasedIds == Seqs.DedupFrom(s.purchasedIds, ids)
    ensures AddPurchases(s, ids).email == s.email && AddPurchases(s, ids).blocked == s.blocked
    decreases |ids|
  {
    if |ids| > 0 {
      AddPurchasesIsDedup(AddPurchase(s, ids[0]), ids[1..]);
    }
  }

  lemma AddPurchasesMatchesMerge(s: UserState, ids: seq<string>)
    requires Seqs.NoDup(s.purchasedIds)
    ensures AddPurchases(s, ids).purchasedIds == Seqs.Dedup(s.purchasedIds + ids)
  {
    AddPurchasesIsDedup(s, ids);
    Seqs.DedupFromConcat([], s.purchasedIds, ids);
    Seqs.DedupFromNoDup([], s.purchasedIds);
    assert [] + s.purchasedIds == s.purchasedIds;
  }
}
