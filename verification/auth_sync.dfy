/** The session synchroniser (`src/components/AuthSync.tsx`): whenever the
    identity provider's session changes, the user store is cleared, or filled
    from the back office's record, or the blocked user is signed out. The
    decision is a list of effects in the order the component performs them;
    `Apply` plays the store-facing ones against the user store. */
module AuthSync {
  import opened Wrappers
  import UserStore
  import StrapiUsers

  /** What the identity provider reports: whether it has loaded, and the signed-in user's
      primary email and id. */
  datatype Session = Session(isLoaded: bool, email: Option<string>, userId: Option<string>)

  datatype Effect =
    | ClearUser
    | FindUser(email: string)
    | SignOut(redirectUrl: string)
    | SetUser(email: string, clerkId: string, purchasedIds: seq<string>)

  const BlockedPage := "/blocked"

  /** The record a reply yields: the first element of an array; otherwise `data[0]`, and when
      that is missing the object's own `0` entry. */
  function FirstRecord(response: StrapiUsers.Response): (r: Option<StrapiUsers.UserRecord>)
    ensures response.Plain? ==> (r.Some? <==> |response.users| > 0)
    ensures response.Plain? && |response.users| > 0 ==> r == Some(response.users[0])
    ensures response.Wrapped? && response.data.Some? && |response.data.value| > 0 ==> r == Some(response.data.value[0])
    ensures response.Wrapped? && !(response.data.Some? && |response.data.value| > 0) ==> r == response.zero
  {
    match response
    case Plain(users) => if |users| > 0 then Some(users[0]) else None
    case Wrapped(data, zero) => if data.Some? && |data.value| > 0 then Some(data.value[0]) else zero
  }

  /** Whether the session is complete enough to look the user up. */
  predicate Ready(session: Session) {
    session.isLoaded && Truthy(session.email) && Truthy(session.userId)
  }

  /** `syncUser()`, given the outcome the lookup would have. */
  function SyncUser(session: Session, lookup: StrapiUsers.Lookup): (r: seq<Effect>)
    ensures !Ready(session) ==> r == [ClearUser]
    ensures Ready(session) ==> |r| >= 1 && r[0] == FindUser(session.email.value)
    ensures Ready(session) && lookup.Failed? ==> r == [FindUser(session.email.value)]
    ensures forall i, j :: 0 <= i < |r| && 0 <= j < |r| && r[i].SetUser? ==> !r[j].SignOut?
    ensures forall i :: 0 <= i < |r| && r[i].SetUser? ==>
      r[i].email == session.email.value && r[i].clerkId == session.userId.value
  {
    if !Ready(session) then [ClearUser]
    else
      var find := FindUser(session.email.value);
      match lookup
      case Failed => [find]
      case Answered(response) =>
        match FirstRecord(response)
        case Some(u) =>
          if StrapiUsers.IsBlocked(u) then [find, ClearUser, SignOut(BlockedPage)]
          else [find, SetUser(session.email.value, session.userId.value, StrapiUsers.ProductIds(u))]
        case None => [find, SetUser(session.email.value, session.userId.value, [])]
  }

  /** The user store after the effects: `ClearUser` resets it, `SetUser` replaces it with an
      unblocked, loaded record; the lookup and the sign-out do not touch it. */
  function Apply(s: UserStore.UserState, effects: seq<Effect>): UserStore.UserState
    decreases |effects|
  {
    if |effects| == 0 then s else Apply(Step(s, effects[0]), effects[1..])
  }

  function Step(s: UserStore.UserState, e: Effect): UserStore.UserState {
    match e
    case ClearUser => UserStore.ClearUser()
    case SetUser(email, clerkId, ids) => UserStore.SetUser(email, clerkId, Some(false), ids)
    case _ => s
  }

  /** The four outcomes of a sync for a ready session, as the store ends up: a blocked record
      leaves it cleared and signs out to the blocked page; an unblocked record loads its owned
      file ids; no record loads an empty library; a failed lookup leaves the store alone. */
  lemma SyncOutcomes(s: UserStore.UserState, session: Session, lookup: StrapiUsers.Lookup)
    requires Ready(session)
    ensures var r := SyncUser(session, lookup);
      var after := Apply(s, r);
      && (lookup.Failed? ==> after == s)
      && (lookup.Answered? && FirstRecord(lookup.response).Some? && StrapiUsers.IsBlocked(FirstRecord(lookup.response).value) ==>
            after == UserStore.Initial && SignOut(BlockedPage) in r)
      && (lookup.Answered? && FirstRecord(lookup.response).Some? && !StrapiUsers.IsBlocked(FirstRecord(lookup.response).value) ==>
            after == UserStore.UserState(session.email, session.userId,
                                         StrapiUsers.ProductIds(FirstRecord(lookup.response).value), false, true))
      && (lookup.Answered? && FirstRecord(lookup.response).None? ==>
            after == UserStore.UserState(session.email, session.userId, [], false, true))
  {
    var r := SyncUser(session, lookup);
    var email, id := session.email.value, session.userId.value;
    var find := FindUser(email);
    if lookup.Answered? {
      match FirstRecord(lookup.response)
      case Some(u) =>
        if StrapiUsers.IsBlocked(u) {
          assert r == [find, ClearUser, SignOut(BlockedPage)];
          assert r[1..] == [ClearUser, SignOut(BlockedPage)] && r[1..][1..] == [SignOut(BlockedPage)];
          assert Apply(s, r) == Apply(Step(s, find), r[1..]);
          assert Apply(s, r) == Apply(UserStore.Initial, [SignOut(BlockedPage)]);
          assert Apply(UserStore.Initial, [SignOut(BlockedPage)]) == Apply(UserStore.Initial, []);
        } else {
          var put := SetUser(email, id, StrapiUsers.ProductIds(u));
          assert r == [find, put];
          assert r[1..] == [put] && r[1..][1..] == [];
          assert Apply(s, r) == Apply(Step(s, find), r[1..]) == Apply(s, [put]);
          assert Apply(s, [put]) == Apply(Step(s, put), []);
        }
      case None =>
        var put := SetUser(email, id, []);
        assert r == [find, put];
        assert r[1..] == [put] && r[1..][1..] == [];
        assert Apply(s, r) == Apply(Step(s, find), r[1..]) == Apply(s, [put]);
        assert Apply(s, [put]) == Apply(Step(s, put), []);
    } else {
      assert r == [find] && r[1..] == [];
    }
  }

  /** Whatever the lookup says, the store never holds a blocked user after a sync. */
  lemma NeverStoresBlocked(s: UserStore.UserState, session: Session, lookup: StrapiUsers.Lookup)
    requires !s.blocked
    ensures !Apply(s, SyncUser(session, lookup)).blocked
  {
    if Ready(session) {
      SyncOutcomes(s, session, lookup);
    }
  }

  /** An incomplete session always ends signed out of the store, with no lookup. */
  lemma IncompleteSessionClears(s: UserStore.UserState, session: Session, lookup: StrapiUsers.Lookup)
    requires !Ready(session)
    ensures Apply(s, SyncUser(session, lookup)) == UserStore.Initial
    ensures forall e :: e in SyncUser(session, lookup) ==> !e.FindUser?
  {
  }
}
