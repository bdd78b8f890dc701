/** The back office's user records as the storefront's lookups see them:
    `users.find({ filters: { email }, populate: purchased })`. A record's
    `purchased` relation, when populated, lists product entries carrying both
    the product's numeric id and its file id (`productId`). The lookup itself
    is an outcome handed in: a reply of one of two shapes, or a failure. */
module StrapiUsers {
  import opened Wrappers

  datatype PurchasedEntry = PurchasedEntry(id: int, productId: string)

  datatype UserRecord = UserRecord(
    id: int,
    email: string,
    clerkId: string,
    blocked: Option<bool>,
    purchased: Option<seq<PurchasedEntry>>)

  /** A reply is either a bare array of records, or an object that may carry them under
      `data` and may also have a record under the key `0`. */
  datatype Response =
    | Plain(users: seq<UserRecord>)
    | Wrapped(data: Option<seq<UserRecord>>, zero: Option<UserRecord>)

  datatype Lookup = Answered(response: Response) | Failed

  /** `strapiUser.blocked` read as a condition. */
  predicate IsBlocked(u: UserRecord) {
    u.blocked == Some(true)
  }

  /** `purchased?.map((p) => p.productId) || []`: the owned file ids, in relation order. */
  function ProductIds(u: UserRecord): (r: seq<string>)
    ensures u.purchased.None? ==> r == []
    ensures u.purchased.Some? ==>
      (|r| == |u.purchased.value| && forall i :: 0 <= i < |r| ==> r[i] == u.purchased.value[i].productId)
  {
    if u.purchased.None? then []
    else seq(|u.purchased.value|, i requires 0 <= i < |u.purchased.value| => u.purchased.value[i].productId)
  }

  /** `purchased?.map((p) => p.id) || []`: the owned products' numeric ids, in relation order. */
  function NumericIds(u: UserRecord): (r: seq<int>)
    ensures u.purchased.None? ==> r == []
    ensures u.purchased.Some? ==>
      (|r| == |u.purchased.value| && forall i :: 0 <= i < |r| ==> r[i] == u.purchased.value[i].id)
  {
    if u.purchased.None? then []
    else seq(|u.purchased.value|, i requires 0 <= i < |u.purchased.value| => u.purchased.value[i].id)
  }

  /** Both readings of the relation describe the same entries: a numeric id is owned exactly
      when the entry carrying it is, and with it that entry's file id. */
  lemma ReadingsAgree(u: UserRecord, e: PurchasedEntry)
    requires u.purchased.Some? && e in u.purchased.value
    ensures e.id in NumericIds(u) && e.productId in ProductIds(u)
  {
    var i :| 0 <= i < |u.purchased.value| && u.purchased.value[i] == e;
    assert NumericIds(u)[i] == e.id;
    assert ProductIds(u)[i] == e.productId;
  }
}
