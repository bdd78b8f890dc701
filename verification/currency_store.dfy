/** The currency store (`src/lib/currency-store.ts`): the currencies the
    back office offers, keyed by code, the one currently selected, and whether
    the first load is still pending. The user's choice is remembered in the
    browser's `localStorage`, modelled as a map from key to string that the
    actions take and return. */
module CurrencyStore {
  import opened Wrappers

  datatype CurrencyConfig = CurrencyConfig(
    code: string,
    symbol: string,
    labelText: string,  // `label`
    rate: real,         // units of this currency per unit of the canonical one
    isDefault: bool,
    precision: int)

  datatype CurrencyState = CurrencyState(
    current: CurrencyConfig,
    available: map<string, CurrencyConfig>,
    isLoading: bool)

  type Storage = map<string, string>

  /** The `localStorage` key under which the chosen code is kept. */
  const SavedCodeKey := "user-currency"

  /** The built-in currency used before, and in the absence of, any configuration. */
  const Fallback := CurrencyConfig("PHP", "₱", "Philippine Peso", 1.0, true, 2)

  const Initial := CurrencyState(Fallback, map["PHP" := Fallback], true)

  /** The configurations keyed by code, folded in order: of several with one code the last
      one wins. */
  function BuildMap(configs: seq<CurrencyConfig>): map<string, CurrencyConfig> {
    if |configs| == 0 then map[]
    else BuildMap(configs[..|configs| - 1])[configs[|configs| - 1].code := configs[|configs| - 1]]
  }

  /** The keys are the codes delivered, each filed under its own code, and the entry for a
      code is the last configuration carrying it. */
  lemma {:induction false} BuildMapSpec(configs: seq<CurrencyConfig>)
    ensures var r := BuildMap(configs);
      && (forall c :: c in r <==> exists i :: 0 <= i < |configs| && configs[i].code == c)
      && (forall c :: c in r ==> r[c].code == c && r[c] in configs)
      && (forall i :: 0 <= i < |configs| && LastWithCode(configs, i) ==> r[configs[i].code] == configs[i])
  {
    if |configs| > 0 {
      var init := configs[..|configs| - 1];
      var last := configs[|configs| - 1];
      BuildMapSpec(init);
      var r := BuildMap(configs);
      assert configs == init + [last];
      forall c | c in r ensures exists i :: 0 <= i < |configs| && configs[i].code == c {
        if c != last.code {
          var i :| 0 <= i < |init| && init[i].code == c;
          assert configs[i] == init[i];
        }
      }
      forall c | exists i :: 0 <= i < |configs| && configs[i].code == c ensures c in r {
        var i :| 0 <= i < |configs| && configs[i].code == c;
        if i < |init| {
          assert configs[i] == init[i];
        }
      }
      forall c | c in r ensures r[c].code == c && r[c] in configs {
        if c != last.code {
          assert BuildMap(init)[c] in init;
        }
      }
      forall i | 0 <= i < |configs| && LastWithCode(configs, i)
        ensures r[configs[i].code] == configs[i]
      {
        if i < |init| {
          assert configs[i] == init[i];
          assert LastWithCode(init, i);
        }
      }
    }
  }

  /** No configuration after position `i` carries the same code. */
  predicate LastWithCode(configs: seq<CurrencyConfig>, i: int)
    requires 0 <= i < |configs|
  {
    forall j :: i < j < |configs| ==> configs[j].code != configs[i].code
  }

  /** Index of the first configuration marked as default, if any. */
  function FirstDefault(configs: seq<CurrencyConfig>): (r: Option<nat>)
    ensures r.Some? ==> (r.value < |configs| && configs[r.value].isDefault
      && (forall j :: 0 <= j < r.value ==> !configs[j].isDefault))
    ensures r.None? ==> forall j :: 0 <= j < |configs| ==> !configs[j].isDefault
  {
    if |configs| == 0 then None
    else if configs[0].isDefault then Some(0)
    else
      match FirstDefault(configs[1..])
      case None => None
      case Some(k) => Some(k + 1)
  }

  /** `configs.find(c => c.isDefault) || configs[0] || INITIAL_FALLBACK`. */
  function DefaultConfig(configs: seq<CurrencyConfig>): (r: CurrencyConfig)
    ensures |configs| == 0 ==> r == Fallback
    ensures |configs| > 0 ==> r in configs
    ensures (exists i :: 0 <= i < |configs| && configs[i].isDefault) ==>
      exists k :: 0 <= k < |configs| && configs[k] == r && r.isDefault
        && (forall j :: 0 <= j < k ==> !configs[j].isDefault)
    ensures |configs| > 0 && (forall i :: 0 <= i < |configs| ==> !configs[i].isDefault) ==> r == configs[0]
  {
    match FirstDefault(configs)
    case Some(k) => configs[k]
    case None => if |configs| > 0 then configs[0] else Fallback
  }

  /** `localStorage.getItem("user-currency")`. */
  function SavedCode(storage: Storage): Option<string> {
    if SavedCodeKey in storage then Some(storage[SavedCodeKey]) else None
  }

  /** `setAvailableCurrencies(configs)`. On the first load the remembered code is honoured if
      it is non-empty and still offered, else the default applies; on a later sync the current
      code is kept if still offered, else the default applies. Loading is over afterwards. */
  function SetAvailableCurrencies(s: CurrencyState, configs: seq<CurrencyConfig>, storage: Storage): (r: CurrencyState)
    ensures r.available == BuildMap(configs)
    ensures !r.isLoading
    ensures s.isLoading && Truthy(SavedCode(storage)) && SavedCode(storage).value in r.available ==>
      r.current == r.available[SavedCode(storage).value]
    ensures s.isLoading && !(Truthy(SavedCode(storage)) && SavedCode(storage).value in r.available) ==>
      r.current == DefaultConfig(configs)
    ensures !s.isLoading && s.current.code in r.available ==> r.current == r.available[s.current.code]
    ensures !s.isLoading && s.current.code !in r.available ==> r.current == DefaultConfig(configs)
  {
    var newMap := BuildMap(configs);
    var saved := SavedCode(storage);
    var next :=
      if s.isLoading then
        (if Truthy(saved) && saved.value in newMap then newMap[saved.value] else DefaultConfig(configs))
      else
        (if s.current.code in newMap then newMap[s.current.code] else DefaultConfig(configs));
    CurrencyState(next, newMap, false)
  }

  /** `setCurrency(code)`: an unknown code changes nothing, in the store or in storage; a known
      one becomes current and is remembered. */
  function SetCurrency(s: CurrencyState, code: string, storage: Storage): (r: (CurrencyState, Storage))
    ensures code !in s.available ==> r == (s, storage)
    ensures code in s.available ==>
      && r.0 == s.(current := s.available[code])
      && SavedCode(r.1) == Some(code)
      && (forall k :: k != SavedCodeKey ==> (k in r.1 <==> k in storage) && (k in storage ==> r.1[k] == storage[k]))
  {
    if code !in s.available then (s, storage)
    else (s.(current := s.available[code]), storage[SavedCodeKey := code])
  }

  // ---------------------------------------------------------------------
  // Properties
  // ---------------------------------------------------------------------

  /** The selected currency is one of those on offer, under its own code. */
  predicate CurrentOffered(s: CurrencyState) {
    s.current.code in s.available && s.available[s.current.code] == s.current
  }

  lemma InitialCurrentOffered()
    ensures CurrentOffered(Initial)
  {
  }

  /** After any non-empty delivery of configurations the selected currency is offered. When a
      code is delivered more than once, a default or first entry that an earlier duplicate
      supplied can differ from the entry kept under its code, so only the code is promised. */
  lemma SyncSelectsOffered(s: CurrencyState, configs: seq<CurrencyConfig>, storage: Storage)
    requires |configs| > 0
    ensures var r := SetAvailableCurrencies(s, configs, storage);
      r.current in configs && r.current.code in r.available
  {
    BuildMapSpec(configs);
  }

  /** With distinct codes the full invariant holds after every non-empty delivery. */
  lemma SyncKeepsCurrentOffered(s: CurrencyState, configs: seq<CurrencyConfig>, storage: Storage)
    requires |configs| > 0
    requires forall i, j :: 0 <= i < j < |configs| ==> configs[i].code != configs[j].code
    ensures CurrentOffered(SetAvailableCurrencies(s, configs, storage))
  {
    BuildMapSpec(configs);
    var r := SetAvailableCurrencies(s, configs, storage);
    var k :| 0 <= k < |configs| && configs[k] == r.current;
    assert LastWithCode(configs, k);
  }

  /** An empty delivery leaves nothing on offer while the fallback stays selected. */
  lemma EmptySyncOffersNothing(s: CurrencyState, storage: Storage)
    requires s.isLoading
    ensures var r := SetAvailableCurrencies(s, [], storage);
      r.available == map[] && r.current == Fallback && !CurrentOffered(r)
  {
  }

  /** `setCurrency` keeps the invariant and is idempotent. */
  lemma SetCurrencyProperties(s: CurrencyState, code: string, storage: Storage)
    requires forall c :: c in s.available ==> s.available[c].code == c
    ensures var (r, st) := SetCurrency(s, code, storage);
      && (code in s.available ==> CurrentOffered(r))
      && SetCurrency(r, code, st) == (r, st)
  {
    if code in s.available {
      var (r, st) := SetCurrency(s, code, storage);
      assert r.available[code] == r.current;
      assert st[SavedCodeKey := code] == st;
    }
  }

  /** A choice made with `setCurrency` survives a reload: a fresh store reading the updated
      storage selects the same code on its first sync, provided the code is non-empty and the
      back office still offers it. */
  lemma ChoiceSurvivesReload(s: CurrencyState, code: string, storage: Storage, configs: seq<CurrencyConfig>)
    requires code in s.available && code != ""
    requires code in BuildMap(configs)
    ensures var st := SetCurrency(s, code, storage).1;
      var r := SetAvailableCurrencies(Initial, configs, st);
      r.current.code == code && r.current == BuildMap(configs)[code]
  {
  }

  /** A later sync keeps the user's choice as long as its code is still offered. */
  lemma ResyncKeepsChoice(s: CurrencyState, configs: seq<CurrencyConfig>, storage: Storage)
    requires !s.isLoading
    requires s.current.code in BuildMap(configs)
    ensures SetAvailableCurrencies(s, configs, storage).current.code == s.current.code
  {
  }
}
