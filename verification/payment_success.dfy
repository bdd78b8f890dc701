/** The page shown after the payment provider sends the buyer back
    (`src/routes/_authed/payment-success.tsx`). On mount it empties the cart
    and, when the user's email is known, polls the back office once a second
    until the user's purchase list has grown, giving up after fifteen answered
    lookups. The interval fires whether or not the previous lookup has
    answered, so a firing and the answer to the lookup it issued are two
    separate events; the timer and the back office together are the sequence
    of events. The polling effect depends on the store's email: when another
    part of the app writes a different email into the store, the running
    interval is cleared and the effect starts afresh, with a new attempt
    counter but the purchase count captured at the first render. */
module PaymentSuccess {
  import opened Wrappers
  import CartStore
  import UserStore
  import StrapiUsers
  import Seqs

  const MaxAttempts := 15

  /** An earlier run of the polling effect, whose interval its cleanup cleared: the lookups it
      has had answered and those it still has pending, which still answer and still count
      against its own budget. */
  datatype EarlierRun = EarlierRun(attempts: nat, inFlight: nat)

  /** The page's state: the spinner flag, the purchase count seen at first render, the email
      the polling effect last ran with, and for that run the lookups answered so far, whether
      its interval is still armed and the lookups issued but not yet answered; then the
      earlier runs, oldest first. */
  datatype Poll = Poll(isVerifying: bool, initialCount: nat, email: Option<string>,
                       attempts: nat, polling: bool, inFlight: nat, earlier: seq<EarlierRun>)

  /** The interval firing; the oldest pending lookup of the current run answering; the oldest
      pending lookup of the earlier run at index `run` answering; another part of the app
      (the session sync) replacing the user store. */
  datatype Event =
    | Fires
    | Settles(lookup: StrapiUsers.Lookup)
    | SettlesEarlier(run: nat, lookup: StrapiUsers.Lookup)
    | Stored(user: UserStore.UserState)

  /** Mounting: the cart is emptied, the current purchase count is captured, and polling
      starts only for a known email. */
  function Mount(user: UserStore.UserState, cart: CartStore.CartState): (r: (Poll, CartStore.CartState))
    ensures r.1 == CartStore.ClearCart(cart)
    ensures r.0 == Poll(true, |user.purchasedIds|, user.email, 0, Truthy(user.email), 0, [])
  {
    (Poll(true, |user.purchasedIds|, user.email, 0, Truthy(user.email), 0, []), CartStore.ClearCart(cart))
  }

  /** The effect last ran with the email the store holds, as it has after every render. */
  predicate Synced(p: Poll, user: UserStore.UserState) {
    p.email == user.email
  }

  /** The lookups one earlier run has issued, answered or pending. */
  function RunTotal(e: EarlierRun): int {
    e.attempts + e.inFlight
  }

  /** The lookups every run of the effect has issued, answered or pending. */
  function Accounted(p: Poll): int {
    p.attempts + p.inFlight + Seqs.SumInt(p.earlier, RunTotal)
  }

  /** The render after a store write: when the email differs from the one the effect last ran
      with, the cleanup clears the current interval, whose pending lookups still answer, and
      the effect runs again with a fresh attempt counter, polling only for a truthy email. The
      spinner flag and the captured count are component state and survive. */
  function Observe(p: Poll, user: UserStore.UserState): (r: Poll)
    ensures Synced(r, user)
    ensures r.isVerifying == p.isVerifying && r.initialCount == p.initialCount
    ensures Accounted(r) == Accounted(p)
    ensures Synced(p, user) ==> r == p
    ensures !Synced(p, user) ==>
      && r.attempts == 0 && r.inFlight == 0 && (r.polling <==> Truthy(user.email))
      && r.earlier == p.earlier + [EarlierRun(p.attempts, p.inFlight)]
  {
    if Synced(p, user) then p
    else
      var run := EarlierRun(p.attempts, p.inFlight);
      Seqs.SumIntConcat(p.earlier, [run], RunTotal);
      assert Seqs.SumInt([run], RunTotal) == RunTotal(run);
      p.(email := user.email, attempts := 0, polling := Truthy(user.email), inFlight := 0, earlier := p.earlier + [run])
  }

  /** The record a poll reply yields: the first element of an array, otherwise `data[0]`
      (this page has no further fallback). */
  function PolledRecord(response: StrapiUsers.Response): (r: Option<StrapiUsers.UserRecord>)
    ensures response.Plain? ==> (r.Some? <==> |response.users| > 0)
    ensures response.Plain? && r.Some? ==> r.value == response.users[0]
    ensures response.Wrapped? ==> (r.Some? <==> response.data.Some? && |response.data.value| > 0)
    ensures response.Wrapped? && r.Some? ==> r.value == response.data.value[0]
  {
    match response
    case Plain(users) => if |users| > 0 then Some(users[0]) else None
    case Wrapped(data, _) => if data.Some? && |data.value| > 0 then Some(data.value[0]) else None
  }

  /** The record a lookup yields when it has grown past the captured count. */
  function Grown(p: Poll, lookup: StrapiUsers.Lookup): Option<StrapiUsers.UserRecord> {
    if lookup.Answered? then
      var rec := PolledRecord(lookup.response);
      if rec.Some? && |StrapiUsers.ProductIds(rec.value)| > p.initialCount then rec else None
    else None
  }

  /** The interval firing: while it is armed it starts `checkPurchases`, which issues a lookup
      at once, whether or not earlier lookups have answered. A cleared interval does nothing. */
  function Tick(p: Poll): (r: Poll)
    ensures p.polling ==> r == p.(inFlight := p.inFlight + 1)
    ensures !p.polling ==> r == p
  {
    if p.polling then p.(inFlight := p.inFlight + 1) else p
  }

  /** A pending lookup answering, and the rest of `checkPurchases` running. A grown purchase
      list is loaded into the user store as an unblocked record and ends the polling; every
      answer, failures included, counts as an attempt, and the fifteenth ends the polling
      whatever it saw. Clearing the interval does not cancel lookups already pending: they
      still answer and still count. With nothing pending there is nothing to answer. */
  function Settle(p: Poll, user: UserStore.UserState, lookup: StrapiUsers.Lookup): (r: (Poll, UserStore.UserState))
    ensures p.inFlight == 0 ==> r == (p, user)
    ensures r.0.email == p.email && r.0.earlier == p.earlier
    ensures p.inFlight > 0 ==>
      && r.0.attempts == p.attempts + 1 && r.0.inFlight == p.inFlight - 1
      && r.0.initialCount == p.initialCount
    ensures p.inFlight > 0 && Grown(p, lookup).Some? ==>
      (var u := Grown(p, lookup).value;
       && r.1 == UserStore.SetUser(u.email, u.clerkId, Some(false), StrapiUsers.ProductIds(u))
       && !r.0.isVerifying && !r.0.polling)
    ensures p.inFlight > 0 && Grown(p, lookup).None? ==> r.1 == user
    ensures p.inFlight > 0 ==>
      (r.0.polling <==> p.polling && Grown(p, lookup).None? && p.attempts + 1 < MaxAttempts)
    ensures p.inFlight > 0 ==>
      (r.0.isVerifying <==> p.isVerifying && Grown(p, lookup).None? && p.attempts + 1 < MaxAttempts)
  {
    if p.inFlight == 0 then (p, user)
    else
      var found := Grown(p, lookup);
      var (p1, user1) :=
        if found.Some? then
          (p.(isVerifying := false, polling := false),
           UserStore.SetUser(found.value.email, found.value.clerkId, Some(false), StrapiUsers.ProductIds(found.value)))
        else (p, user);
      var attempts := p.attempts + 1;
      var p2 := p1.(attempts := attempts, inFlight := p.inFlight - 1);
      if attempts >= MaxAttempts then (p2.(isVerifying := false, polling := false), user1) else (p2, user1)
  }

  /** A pending lookup of an earlier run answering. Its closure compares against the same
      captured count and writes the same spinner flag and user store, but counts against its
      own attempts, and its `clearInterval` only clears its own, already cleared, interval:
      the current run is untouched. */
  function SettleEarlier(p: Poll, user: UserStore.UserState, k: nat, lookup: StrapiUsers.Lookup)
    : (r: (Poll, UserStore.UserState))
    ensures k >= |p.earlier| || p.earlier[k].inFlight == 0 ==> r == (p, user)
    ensures && r.0.email == p.email && r.0.initialCount == p.initialCount
            && r.0.attempts == p.attempts && r.0.polling == p.polling && r.0.inFlight == p.inFlight
            && |r.0.earlier| == |p.earlier|
    ensures k < |p.earlier| && p.earlier[k].inFlight > 0 ==>
      && r.0.earlier == p.earlier[k := EarlierRun(p.earlier[k].attempts + 1, p.earlier[k].inFlight - 1)]
      && (r.0.isVerifying <==>
            p.isVerifying && Grown(p, lookup).None? && p.earlier[k].attempts + 1 < MaxAttempts)
    ensures k < |p.earlier| && p.earlier[k].inFlight > 0 && Grown(p, lookup).Some? ==>
      (var u := Grown(p, lookup).value;
       r.1 == UserStore.SetUser(u.email, u.clerkId, Some(false), StrapiUsers.ProductIds(u)))
    ensures Grown(p, lookup).None? ==> r.1 == user
  {
    if k >= |p.earlier| || p.earlier[k].inFlight == 0 then (p, user)
    else
      var e := p.earlier[k];
      var found := Grown(p, lookup);
      var user1 :=
        if found.Some? then
          UserStore.SetUser(found.value.email, found.value.clerkId, Some(false), StrapiUsers.ProductIds(found.value))
        else user;
      var verifying := p.isVerifying && found.None? && e.attempts + 1 < MaxAttempts;
      (p.(isVerifying := verifying, earlier := p.earlier[k := EarlierRun(e.attempts + 1, e.inFlight - 1)]), user1)
  }

  /** An earlier run's answer moves one of its lookups from pending to answered, so the
      lookups accounted for over all runs do not change. */
  lemma SettleEarlierAccounts(p: Poll, user: UserStore.UserState, k: nat, lookup: StrapiUsers.Lookup)
    ensures Accounted(SettleEarlier(p, user, k, lookup).0) == Accounted(p)
  {
    if k < |p.earlier| && p.earlier[k].inFlight > 0 {
      var e := p.earlier[k];
      var e' := EarlierRun(e.attempts + 1, e.inFlight - 1);
      var before, after := p.earlier[..k], p.earlier[k + 1..];
      assert p.earlier == before + [e] + after;
      assert p.earlier[k := e'] == before + [e'] + after;
      Seqs.SumIntSplice(before, e, after, RunTotal);
      Seqs.SumIntSplice(before, e', after, RunTotal);
    }
  }

  /** The events in the order they happen, each store write followed by the render that may
      re-run the effect; the result counts the lookups actually issued. */
  function Run(p: Poll, user: UserStore.UserState, events: seq<Event>): (r: (Poll, UserStore.UserState, nat))
    decreases |events|
  {
    if |events| == 0 then (p, user, 0)
    else
      match events[0]
      case Fires =>
        var (q, u, n) := Run(Tick(p), user, events[1..]);
        (q, u, n + if p.polling then 1 else 0)
      case Settles(lookup) =>
        var (p1, user1) := Settle(p, user, lookup);
        Run(Observe(p1, user1), user1, events[1..])
      case SettlesEarlier(k, lookup) =>
        var (p1, user1) := SettleEarlier(p, user, k, lookup);
        Run(Observe(p1, user1), user1, events[1..])
      case Stored(u) =>
        Run(Observe(p, u), u, events[1..])
  }

  /** A back office that answers every lookup before the interval fires again: each firing is
      followed by the answer to the lookup it issued. */
  function Serially(lookups: seq<StrapiUsers.Lookup>): (r: seq<Event>)
    ensures |r| == 2 * |lookups|
    decreases |lookups|
  {
    if |lookups| == 0 then [] else [Fires, Settles(lookups[0])] + Serially(lookups[1..])
  }

  /** A firing followed by its answer: the lookup is issued if the interval was armed, then
      answered, then the page re-renders. */
  lemma SerialStep(p: Poll, user: UserStore.UserState, lookup: StrapiUsers.Lookup, rest: seq<Event>)
    ensures var (p1, user1) := Settle(Tick(p), user, lookup);
      var (q, u, n) := Run(Observe(p1, user1), user1, rest);
      Run(p, user, [Fires, Settles(lookup)] + rest) == (q, u, n + if p.polling then 1 else 0)
  {
    var events := [Fires, Settles(lookup)] + rest;
    assert events[1..][1..] == rest;
  }

  /** A page that is polling has had fewer than fifteen lookups of its current run answered. */
  predicate Budgeted(p: Poll) {
    p.polling ==> p.attempts < MaxAttempts
  }

  /** Every lookup issued, by any run of the effect, is either answered or still pending; the
      page stays within its budget while it polls; a re-run only ever adds an earlier run; a
      page in step with the store stays in step; and a stopped page that is never re-run
      issues no lookup again. */
  lemma {:induction false} RunAccounts(p: Poll, user: UserStore.UserState, events: seq<Event>)
    requires Budgeted(p)
    ensures var (q, u, n) := Run(p, user, events);
      && Accounted(q) == Accounted(p) + n
      && q.initialCount == p.initialCount
      && Budgeted(q)
      && |q.earlier| >= |p.earlier|
      && (Synced(p, user) ==> Synced(q, u))
      && (!p.polling && |q.earlier| == |p.earlier| ==> n == 0 && !q.polling)
    decreases |events|
  {
    if |events| > 0 {
      match events[0]
      case Fires =>
        RunAccounts(Tick(p), user, events[1..]);
      case Settles(lookup) =>
        var (p1, user1) := Settle(p, user, lookup);
        RunAccounts(Observe(p1, user1), user1, events[1..]);
      case SettlesEarlier(k, lookup) =>
        var (p1, user1) := SettleEarlier(p, user, k, lookup);
        SettleEarlierAccounts(p, user, k, lookup);
        RunAccounts(Observe(p1, user1), user1, events[1..]);
      case Stored(u) =>
        RunAccounts(Observe(p, u), u, events[1..]);
    }
  }

  /** A stopped page with nothing pending in any run stays exactly as it is, whatever firings
      and answers arrive, as long as no store write changes the email; with no store write at
      all the user store is untouched too. */
  lemma {:induction false} StoppedStaysIdle(p: Poll, user: UserStore.UserState, events: seq<Event>)
    requires !p.polling && p.inFlight == 0 && Synced(p, user)
    requires forall k :: 0 <= k < |p.earlier| ==> p.earlier[k].inFlight == 0
    requires forall i :: 0 <= i < |events| && events[i].Stored? ==> events[i].user.email == p.email
    ensures Run(p, user, events).0 == p && Run(p, user, events).2 == 0
    ensures (forall i :: 0 <= i < |events| ==> !events[i].Stored?) ==> Run(p, user, events).1 == user
    decreases |events|
  {
    if |events| > 0 {
      var rest := events[1..];
      assert forall i :: 0 <= i < |rest| ==> rest[i] == events[i + 1];
      match events[0]
      case Fires =>
        StoppedStaysIdle(p, user, rest);
      case Settles(_) =>
        StoppedStaysIdle(p, user, rest);
      case SettlesEarlier(_, _) =>
        StoppedStaysIdle(p, user, rest);
      case Stored(u) =>
        StoppedStaysIdle(p, u, rest);
    }
  }

  /** The interval does not wait for the back office: firings with no answer in between each
      issue a lookup, so a slow back office sees more lookups than the page's budget. */
  lemma {:induction false} SlowBackendOverruns(p: Poll, user: UserStore.UserState, k: nat)
    requires p.polling
    ensures Run(p, user, seq(k, _ => Fires)) == (p.(inFlight := p.inFlight + k), user, k)
    decreases k
  {
    var events := seq(k, _ => Fires);
    if k > 0 {
      assert events[1..] == seq(k - 1, _ => Fires);
      SlowBackendOverruns(Tick(p), user, k - 1);
    }
  }

  /** From a fresh mount, sixteen firings before the first answer issue sixteen lookups, one
      more than the fifteen attempts the page allows itself. */
  lemma MountedOverrun(user: UserStore.UserState, cart: CartStore.CartState)
    requires Truthy(user.email)
    ensures var (p, _) := Mount(user, cart);
      Run(p, user, seq(MaxAttempts + 1, _ => Fires)).2 == MaxAttempts + 1
  {
    var (p, _) := Mount(user, cart);
    SlowBackendOverruns(p, user, MaxAttempts + 1);
  }

  /** The back office honours the lookup's email filter: the record a reply yields carries
      the email the lookup asked for. */
  predicate Filtered(lookup: StrapiUsers.Lookup, email: Option<string>) {
    lookup.Answered? && PolledRecord(lookup.response).Some? ==>
      Some(PolledRecord(lookup.response).value.email) == email
  }

  /** A firing and its answer, filtered by the page's email, leave the page in step with the
      store: the answer writes back the email it was asked for, so no re-run follows. */
  lemma SerialAnswerKeepsEmail(p: Poll, user: UserStore.UserState, lookup: StrapiUsers.Lookup)
    requires Synced(p, user) && Filtered(lookup, p.email)
    ensures var (p1, user1) := Settle(Tick(p), user, lookup);
      p1.email == p.email && Synced(p1, user1) && Observe(p1, user1) == p1
  {
    var t := Tick(p);
    var (p1, user1) := Settle(t, user, lookup);
    if t.inFlight > 0 && Grown(t, lookup).Some? {
      assert Grown(t, lookup).value == PolledRecord(lookup.response).value;
    }
  }

  /** When each lookup answers before the interval fires again and honours the email filter,
      a polling page issues no more lookups than it has attempts left, and a stopped page
      issues none. */
  lemma {:induction false} RunWithinBudget(p: Poll, user: UserStore.UserState, lookups: seq<StrapiUsers.Lookup>)
    requires Budgeted(p) && p.inFlight == 0 && Synced(p, user)
    requires forall i :: 0 <= i < |lookups| ==> Filtered(lookups[i], p.email)
    ensures var (q, u, n) := Run(p, user, Serially(lookups));
      && Budgeted(q) && q.inFlight == 0 && q.email == p.email && Synced(q, u)
      && (p.polling ==> n <= MaxAttempts - p.attempts)
      && (!p.polling ==> n == 0 && q == p)
    decreases |lookups|
  {
    if |lookups| > 0 {
      SerialStep(p, user, lookups[0], Serially(lookups[1..]));
      SerialAnswerKeepsEmail(p, user, lookups[0]);
      var (p1, user1) := Settle(Tick(p), user, lookups[0]);
      assert forall i :: 0 <= i < |lookups[1..]| ==> lookups[1..][i] == lookups[i + 1];
      RunWithinBudget(p1, user1, lookups[1..]);
    }
  }

  /** From a fresh mount with a back office that answers each lookup before the next firing
      and honours the email filter, at most fifteen lookups are issued. Without an email, and
      with no store write that changes it, no lookup is ever issued, however the events
      arrive, and the spinner keeps spinning. */
  lemma MountedPollBudget(user: UserStore.UserState, cart: CartStore.CartState,
                          lookups: seq<StrapiUsers.Lookup>, events: seq<Event>)
    ensures var (p, _) := Mount(user, cart);
      (forall i :: 0 <= i < |lookups| ==> Filtered(lookups[i], user.email)) ==>
        Run(p, user, Serially(lookups)).2 <= MaxAttempts
    ensures var (p, _) := Mount(user, cart);
      var (q, _, n) := Run(p, user, events);
      !Truthy(user.email) && (forall i :: 0 <= i < |events| && events[i].Stored? ==> events[i].user.email == user.email) ==>
        n == 0 && q.isVerifying
  {
    var (p, _) := Mount(user, cart);
    if forall i :: 0 <= i < |lookups| ==> Filtered(lookups[i], user.email) {
      RunWithinBudget(p, user, lookups);
    }
    if !Truthy(user.email) && forall i :: 0 <= i < |events| && events[i].Stored? ==> events[i].user.email == user.email {
      StoppedStaysIdle(p, user, events);
    }
  }

  /** A page mounted before the session sync has filled the store captures the count it saw
      and does not poll; once the sync writes an email the effect re-runs and polls, and the
      first answer listing more purchases than that count stops the spinner and is loaded. */
  lemma LateUserStartsPolling(user: UserStore.UserState, cart: CartStore.CartState, loaded: UserStore.UserState,
                              response: StrapiUsers.Response)
    requires !Truthy(user.email) && Truthy(loaded.email)
    requires PolledRecord(response).Some?
    requires |StrapiUsers.ProductIds(PolledRecord(response).value)| > |user.purchasedIds|
    ensures var (p, _) := Mount(user, cart);
      var rec := PolledRecord(response).value;
      var (q, u, n) := Run(p, user, [Stored(loaded), Fires, Settles(StrapiUsers.Answered(response))]);
      && !p.polling && q.initialCount == |user.purchasedIds|
      && n == 1 && !q.isVerifying
      && u == UserStore.SetUser(rec.email, rec.clerkId, Some(false), StrapiUsers.ProductIds(rec))
  {
    var (p, _) := Mount(user, cart);
    var events := [Stored(loaded), Fires, Settles(StrapiUsers.Answered(response))];
    var p1 := Observe(p, loaded);
    assert p1.polling && p1.inFlight == 0 && p1.attempts == 0;
    assert Run(p, user, events) == Run(p1, loaded, events[1..]);
    SerialStep(p1, loaded, StrapiUsers.Answered(response), []);
    assert events[1..] == [Fires, Settles(StrapiUsers.Answered(response))] + [];
  }

  /** A fresh load after the provider's redirect mounts the page on the empty store, so the
      captured count is 0: once the session sync writes the email, the first answer listing
      any purchase at all, an earlier one included, stops the spinner, whether or not this
      payment has been recorded yet. */
  lemma EmptyStoreStopsOnAnyPurchase(cart: CartStore.CartState, loaded: UserStore.UserState,
                                     response: StrapiUsers.Response)
    requires Truthy(loaded.email)
    requires PolledRecord(response).Some? && |StrapiUsers.ProductIds(PolledRecord(response).value)| > 0
    ensures var (p, _) := Mount(UserStore.Initial, cart);
      var (q, _, n) := Run(p, UserStore.Initial, [Stored(loaded), Fires, Settles(StrapiUsers.Answered(response))]);
      p.initialCount == 0 && n == 1 && !q.isVerifying
  {
    LateUserStartsPolling(UserStore.Initial, cart, loaded, response);
  }

  /** Answered one at a time, failed lookups up to the budget end the polling with the spinner
      stopped and the user store untouched, each having issued its lookup. */
  lemma {:induction false} FailuresExhaustBudget(p: Poll, user: UserStore.UserState, k: nat)
    requires p.polling && p.inFlight == 0 && p.attempts < MaxAttempts && p.attempts + k == MaxAttempts
    requires Synced(p, user)
    ensures var (q, u, n) := Run(p, user, Serially(seq(k, _ => StrapiUsers.Failed)));
      !q.polling && !q.isVerifying && q.inFlight == 0 && u == user && n == k
    decreases k
  {
    var lookups := seq(k, _ => StrapiUsers.Failed);
    assert k > 0;
    SerialStep(p, user, StrapiUsers.Failed, Serially(lookups[1..]));
    var (p1, user1) := Settle(Tick(p), user, StrapiUsers.Failed);
    assert Observe(p1, user1) == p1;
    if k > 1 {
      assert lookups[1..] == seq(k - 1, _ => StrapiUsers.Failed);
      FailuresExhaustBudget(p1, user1, k - 1);
    } else {
      assert lookups[1..] == [];
    }
  }
}
