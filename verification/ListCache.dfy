/** The addon registry's list: a merge of local and registered addons, kept for ten seconds. */
module ListCache {
  import opened Text

  datatype Details = Details(baseUrl: Option<string>, uiEnabled: bool, uiBaseUrl: Option<string>, uiMode: string,
                             healthStatus: string, lastSeen: Option<string>, discoveredAt: Option<string>,
                             updatedAt: Option<string>, authMode: string, tlsWarning: Option<string>)

  datatype Registered = Registered(name: string, version: string, capabilities: seq<string>, details: Details)

  datatype Local = Local(name: string, version: string, description: string, showSidebar: bool,
                         capabilities: seq<string>, platformManaged: bool)

  datatype Entry = Entry(id: string, name: string, version: string, description: string, showSidebar: bool,
                         enabled: bool, capabilities: seq<string>, details: Details, source: string, platformManaged: bool)

  /** The registry's three dictionaries. */
  datatype State = State(addons: map<string, Local>, registered: map<string, Registered>, enabled: map<string, bool>)

  const NO_DETAILS := Details(None, false, None, "server", "unknown", None, None, None, "none", None)

  predicate IsEnabled(s: State, id: string) { id !in s.enabled || s.enabled[id] }

  function Ids(s: State): set<string> { s.addons.Keys + s.registered.Keys }

  /** One addon as listed: local metadata is authoritative, the registry's details are kept. */
  function EntryOf(s: State, id: string): Entry
    requires id in Ids(s)
  {
    var on := IsEnabled(s, id);
    if id in s.addons then
      var l := s.addons[id];
      var (details, source) :=
        if id in s.registered then (s.registered[id].details, "local+registered") else (NO_DETAILS, "local");
      Entry(id, l.name, l.version, l.description, l.showSidebar, on, l.capabilities, details, source, l.platformManaged)
    else
      var r := s.registered[id];
      Entry(id, r.name, r.version, "", true, on, r.capabilities, r.details, "registered", false)
  }

  lemma {:induction false} SortExists(ids: set<string>) returns (l: seq<string>)
    ensures Ascending(l) && forall x :: x in l <==> x in ids
    decreases |ids|
  {
    if ids == {} {
      l := [];
    } else {
      var id :| id in ids;
      var rest := SortExists(ids - {id});
      InsertTextMembers(id, rest);
      InsertTextAscending(id, rest);
      l := InsertText(id, rest);
    }
  }

  ghost predicate SortedAs(l: seq<string>, ids: set<string>) { Ascending(l) && forall x :: x in l <==> x in ids }

  ghost function SortedIds(ids: set<string>): (l: seq<string>)
    ensures SortedAs(l, ids)
  {
    assert exists l :: SortedAs(l, ids) by {
      var l := SortExists(ids);
      assert SortedAs(l, ids);
    }
    var l :| SortedAs(l, ids);
    l
  }

  /** The merge, in order of id. */
  ghost function Listing(s: State): (out: seq<Entry>)
    ensures |out| == |SortedIds(Ids(s))|
    ensures forall k :: 0 <= k < |out| ==> SortedIds(Ids(s))[k] in Ids(s) && out[k] == EntryOf(s, SortedIds(Ids(s))[k])
  {
    var ids := SortedIds(Ids(s));
    seq(|ids|, k requires 0 <= k < |ids| => assert ids[k] in ids; EntryOf(s, ids[k]))
  }

  // ---------------------------------------------------------------- runs of the registry

  const TTL := 10.0

  datatype Cached = Cached(at: real, list: seq<Entry>)

  /** Calls in progress hold the list they have merged and not yet stored. */
  datatype Machine = Machine(state: State, cache: Option<Cached>, merged: map<int, seq<Entry>>)

  /**
   * A call of `list_addons` is two events, since it runs in a worker thread beside the others: it asks, and gets the
   * cached list or merges a new one; and it stores what it merged. `saved` says whether the file was written: if not,
   * the call raises before it invalidates. `Keep` is the end of the MQTT announce and health updates, of remote
   * registration, configuration and verification; `Upsert` that of the checked registration, which leaves the cache
   * alone; `Silent` a field written in passing, such as a health status.
   */
  datatype Event =
    | SetEnabled(id: string, on: bool, saved: bool)
    | Delete(id: string, saved: bool)
    | Keep(id: string, addon: Registered, saved: bool)
    | Upsert(id: string, addon: Registered)
    | Silent(next: State)
    | Ask(call: int, asked: real)
    | Store(call: int, stored: real)

  function Changed(s: State, e: Event): State {
    match e
    case SetEnabled(id, on, _) => s.(enabled := s.enabled[id := on])
    case Delete(id, _) => s.(registered := s.registered - {id})
    case Keep(id, addon, _) => s.(registered := s.registered[id := addon])
    case Upsert(id, addon) => s.(registered := s.registered[id := addon])
    case Silent(next) => next
    case _ => s
  }

  predicate Invalidates(s: State, e: Event) {
    match e
    case SetEnabled(_, _, saved) => saved
    case Delete(id, saved) => id in s.registered && saved
    case Keep(_, _, saved) => saved
    case _ => false
  }

  predicate Hit(m: Machine, asked: real) { m.cache.Some? && asked - m.cache.value.at <= TTL }

  /** The list a call that asks now is going to return. */
  ghost function Answer(m: Machine, asked: real): seq<Entry> {
    if Hit(m, asked) then m.cache.value.list else Listing(m.state)
  }

  /** A call stores only what it has merged. */
  predicate Stores(m: Machine, e: Event) { e.Store? && e.call in m.merged }

  ghost function Step(m: Machine, e: Event): Machine {
    match e
    case Ask(call, asked) => if Hit(m, asked) then m else m.(merged := m.merged[call := Listing(m.state)])
    case Store(call, stored) =>
      if call in m.merged then Machine(m.state, Some(Cached(stored, m.merged[call])), m.merged - {call}) else m
    case _ => Machine(Changed(m.state, e), if Invalidates(m.state, e) then None else m.cache, m.merged)
  }

  ghost function After(start: State, run: seq<Event>): Machine {
    if run == [] then Machine(start, None, map[]) else Step(After(start, run[..|run| - 1]), run[|run| - 1])
  }

  /** The list that the call asking at event `k` of the run returns. */
  ghost function Returned(start: State, run: seq<Event>, k: nat): seq<Entry>
    requires k < |run| && run[k].Ask?
  {
    Answer(After(start, run[..k]), run[k].asked)
  }

  ghost predicate InvalidatedAt(start: State, run: seq<Event>, k: nat)
    requires k < |run|
  {
    Invalidates(After(start, run[..k]).state, run[k])
  }

  ghost predicate StoredAt(start: State, run: seq<Event>, k: nat)
    requires k < |run|
  {
    Stores(After(start, run[..k]), run[k])
  }

  /** Event `j` asked and merged this list, for a call that has not stored it by event `k`. */
  ghost predicate MergedBy(start: State, run: seq<Event>, j: nat, k: nat, call: int, list: seq<Entry>)
    requires k <= |run|
  {
    && j < k && run[j].Ask? && run[j].call == call && list == Listing(After(start, run[..j]).state)
    && forall x :: j < x < k ==> !(run[x].Store? && run[x].call == call)
  }

  lemma {:induction false} MergeHasSource(start: State, run: seq<Event>, k: nat, call: int) returns (j: nat)
    requires k <= |run| && call in After(start, run[..k]).merged
    ensures MergedBy(start, run, j, k, call, After(start, run[..k]).merged[call])
    decreases k
  {
    assert run[..0] == [];
    var n := k - 1;
    AfterNext(start, run, n);
    if run[n].Ask? && run[n].call == call && !Hit(After(start, run[..n]), run[n].asked) {
      j := n;
    } else {
      j := MergeHasSource(start, run, n, call);
    }
  }

  lemma AfterNext(start: State, run: seq<Event>, n: nat)
    requires n < |run|
    ensures After(start, run[..n + 1]) == Step(After(start, run[..n]), run[n])
  {
    assert run[..n + 1][..n] == run[..n];
  }

  /** Event `s` stored the list now cached, which the same call had merged at event `j`; nothing has touched it since. */
  ghost predicate CachedBy(start: State, run: seq<Event>, j: nat, s: nat, k: nat, c: Cached)
    requires k <= |run|
  {
    && j < s < k && StoredAt(start, run, s) && run[s].stored == c.at
    && MergedBy(start, run, j, s, run[s].call, c.list)
    && forall x :: s < x < k ==> !InvalidatedAt(start, run, x) && !StoredAt(start, run, x)
  }

  lemma StoreIsSource(start: State, run: seq<Event>, n: nat) returns (j: nat)
    requires n < |run| && StoredAt(start, run, n)
    ensures After(start, run[..n + 1]).cache.Some?
    ensures CachedBy(start, run, j, n, n + 1, After(start, run[..n + 1]).cache.value)
  {
    AfterNext(start, run, n);
    j := MergeHasSource(start, run, n, run[n].call);
  }

  lemma CacheKept(start: State, run: seq<Event>, n: nat)
    requires n < |run| && !StoredAt(start, run, n)
    ensures var before, after := After(start, run[..n]).cache, After(start, run[..n + 1]).cache;
            after == if InvalidatedAt(start, run, n) then None else before
  {
    AfterNext(start, run, n);
  }

  lemma {:induction false} CacheHasSource(start: State, run: seq<Event>, k: nat) returns (j: nat, s: nat)
    requires k <= |run| && After(start, run[..k]).cache.Some?
    ensures CachedBy(start, run, j, s, k, After(start, run[..k]).cache.value)
    decreases k
  {
    assert run[..0] == [];
    var n := k - 1;
    if StoredAt(start, run, n) {
      s := n;
      j := StoreIsSource(start, run, n);
    } else {
      CacheKept(start, run, n);
      j, s := CacheHasSource(start, run, n);
    }
  }

  /**
   * Every list returned is the merge as it stood when one call asked: the call itself, or one that stored its list at
   * most ten seconds before; and no invalidating change has come since that list was stored.
   */
  lemma BoundedStaleness(start: State, run: seq<Event>, k: nat) returns (j: nat, s: nat)
    requires k < |run| && run[k].Ask?
    ensures j <= k && run[j].Ask? && Returned(start, run, k) == Listing(After(start, run[..j]).state)
    ensures j < k ==> j < s < k && run[s].Store? && run[s].call == run[j].call && run[k].asked - run[s].stored <= 10.0
    ensures j < k ==> forall x :: s < x < k ==> !InvalidatedAt(start, run, x)
  {
    if Hit(After(start, run[..k]), run[k].asked) {
      j, s := CacheHasSource(start, run, k);
    } else {
      j, s := k, k;
    }
  }

  /** A list merged before event `i` is stored after it, and still good when event `k` asks. */
  ghost predicate LateStore(start: State, run: seq<Event>, i: nat, s: nat, k: nat)
    requires k < |run| && run[k].Ask?
  {
    && i < s < k && StoredAt(start, run, s) && run[k].asked - run[s].stored <= TTL
    && forall x :: s < x < k ==> !InvalidatedAt(start, run, x) && !StoredAt(start, run, x)
  }

  lemma {:induction false} StoreStays(start: State, run: seq<Event>, s: nat, k: nat)
    requires s < k <= |run| && StoredAt(start, run, s)
    requires forall x :: s < x < k ==> !InvalidatedAt(start, run, x) && !StoredAt(start, run, x)
    ensures var cache := After(start, run[..k]).cache; cache.Some? && cache.value.at == run[s].stored
    decreases k
  {
    var n := k - 1;
    AfterNext(start, run, n);
    if s < n {
      CacheKept(start, run, n);
      assert !InvalidatedAt(start, run, n) && !StoredAt(start, run, n);
      StoreStays(start, run, s, n);
    }
  }

  lemma {:induction false} CachedSince(start: State, run: seq<Event>, i: nat, k: nat) returns (s: nat)
    requires i < k <= |run| && InvalidatedAt(start, run, i) && After(start, run[..k]).cache.Some?
    ensures i < s < k && StoredAt(start, run, s) && After(start, run[..k]).cache.value.at == run[s].stored
    ensures forall x :: s < x < k ==> !InvalidatedAt(start, run, x) && !StoredAt(start, run, x)
    decreases k
  {
    var n := k - 1;
    AfterNext(start, run, n);
    if StoredAt(start, run, n) {
      s := n;
    } else {
      CacheKept(start, run, n);
      assert i < n && !InvalidatedAt(start, run, n);
      s := CachedSince(start, run, i, n);
    }
  }

  lemma HitAfterChange(start: State, run: seq<Event>, i: nat, k: nat) returns (s: nat, j: nat)
    requires i < k < |run| && InvalidatedAt(start, run, i) && run[k].Ask? && Hit(After(start, run[..k]), run[k].asked)
    requires forall x :: i < x < k ==> !run[x].Ask?
    ensures LateStore(start, run, i, s, k)
    ensures j < i && run[j].Ask? && Returned(start, run, k) == Listing(After(start, run[..j]).state)
  {
    s := CachedSince(start, run, i, k);
    var t: nat;
    j, t := CacheHasSource(start, run, k);
    AskIsNoChange(start, run, i);
  }

  lemma AskIsNoChange(start: State, run: seq<Event>, i: nat)
    requires i < |run| && InvalidatedAt(start, run, i)
    ensures !run[i].Ask?
  {}

  lemma LateStoreHit(start: State, run: seq<Event>, i: nat, s: nat, k: nat)
    requires k < |run| && run[k].Ask? && LateStore(start, run, i, s, k)
    ensures Hit(After(start, run[..k]), run[k].asked)
  {
    StoreStays(start, run, s, k);
  }

  /**
   * The first call to ask after an invalidating change merges afresh if and only if no call stores a list in between
   * that is still good; such a list was merged before the change.
   */
  lemma FreshAfterInvalidation(start: State, run: seq<Event>, i: nat, k: nat)
    requires i < k < |run| && InvalidatedAt(start, run, i) && run[k].Ask?
    requires forall x :: i < x < k ==> !run[x].Ask?
    ensures var hit := Hit(After(start, run[..k]), run[k].asked);
            && (hit <==> exists s: nat :: LateStore(start, run, i, s, k))
            && (!hit ==> Returned(start, run, k) == Listing(After(start, run[..k]).state))
            && (hit ==> exists j :: 0 <= j < i && run[j].Ask? && Returned(start, run, k) == Listing(After(start, run[..j]).state))
  {
    if Hit(After(start, run[..k]), run[k].asked) {
      var s, j := HitAfterChange(start, run, i, k);
    } else {
      forall s: nat ensures !LateStore(start, run, i, s, k) {
        if LateStore(start, run, i, s, k) { LateStoreHit(start, run, i, s, k); }
      }
    }
  }

  /** Calls that do not overlap a change: whoever asks between the two events of a call is that call. */
  predicate Undisturbed(run: seq<Event>) {
    forall k :: 0 <= k < |run| && run[k].Store? ==> k > 0 && run[k - 1].Ask? && run[k - 1].call == run[k].call
  }

  /** With every call undisturbed, as when all run on one thread, an invalidating change is seen by the next call. */
  lemma FreshWhenUndisturbed(start: State, run: seq<Event>, i: nat, k: nat)
    requires Undisturbed(run)
    requires i < k < |run| && InvalidatedAt(start, run, i) && run[k].Ask?
    requires forall x :: i < x < k ==> !run[x].Ask?
    ensures Returned(start, run, k) == Listing(After(start, run[..k]).state)
  {
    FreshAfterInvalidation(start, run, i, k);
    forall s | i < s < k ensures !run[s].Store? {
      assert !run[s - 1].Ask?;
    }
  }

  /** A change that arrives between the two events of a call is hidden from the next one. */
  lemma LateStoreHides(s: State, id: string, on: bool, asked: real, stored: real, next: real)
    requires next - stored <= TTL
    ensures var run := [Ask(0, asked), SetEnabled(id, on, true), Store(0, stored), Ask(1, next)];
            && InvalidatedAt(s, run, 1)
            && Returned(s, run, 3) == Listing(s) && After(s, run[..3]).state == s.(enabled := s.enabled[id := on])
  {
    var run := [Ask(0, asked), SetEnabled(id, on, true), Store(0, stored), Ask(1, next)];
    assert run[..0] == [] && run[..1][..0] == [] && run[..2][..1] == run[..1] && run[..3][..2] == run[..2];
    assert After(s, run[..1]) == Machine(s, None, map[0 := Listing(s)]);
    assert After(s, run[..2]) == Machine(s.(enabled := s.enabled[id := on]), None, map[0 := Listing(s)]);
    assert After(s, run[..3]).cache == Some(Cached(stored, Listing(s)));
  }

  lemma ListedExactly(s: State, e: Entry)
    ensures e in Listing(s) <==> e.id in Ids(s) && e == EntryOf(s, e.id)
  {
    var ids := SortedIds(Ids(s));
    if e.id in Ids(s) && e == EntryOf(s, e.id) {
      assert e.id in ids;
      var k :| 0 <= k < |ids| && ids[k] == e.id;
      assert Listing(s)[k] == e;
    }
  }

  /** What an entry says of its addon: local metadata first, the registry's details wherever it has them. */
  lemma ListedSays(s: State, e: Entry)
    requires e in Listing(s)
    ensures e.enabled <==> (e.id in s.enabled ==> s.enabled[e.id])
    ensures e.details == if e.id in s.registered then s.registered[e.id].details
                         else Details(None, false, None, "server", "unknown", None, None, None, "none", None)
    ensures e.id in s.addons ==>
      var l := s.addons[e.id];
      && (e.name, e.version, e.description, e.showSidebar) == (l.name, l.version, l.description, l.showSidebar)
      && (e.capabilities, e.platformManaged) == (l.capabilities, l.platformManaged)
      && e.source == if e.id in s.registered then "local+registered" else "local"
    ensures e.id !in s.addons ==>
      && e.id in s.registered
      && var r := s.registered[e.id];
         && (e.name, e.version, e.description, e.showSidebar) == (r.name, r.version, "", true)
         && (e.capabilities, e.platformManaged) == (r.capabilities, false) && e.source == "registered"
  {
    ListedExactly(s, e);
  }

  lemma EntrySwitched(s: State, id: string, on: bool, saved: bool, x: string)
    requires x in Ids(s)
    ensures var next := Changed(s, SetEnabled(id, on, saved));
            Ids(next) == Ids(s) && EntryOf(next, x) == if x == id then EntryOf(s, x).(enabled := on) else EntryOf(s, x)
  {}

  /** Switching an addon on or off shows in its own entry and in no other. */
  lemma SetEnabledShows(s: State, id: string, on: bool, saved: bool, e: Entry)
    requires e in Listing(s)
    ensures (if e.id == id then e.(enabled := on) else e) in Listing(Changed(s, SetEnabled(id, on, saved)))
    ensures |Listing(Changed(s, SetEnabled(id, on, saved)))| == |Listing(s)|
  {
    ListedExactly(s, e);
    EntrySwitched(s, id, on, saved, e.id);
    ListedExactly(Changed(s, SetEnabled(id, on, saved)), if e.id == id then e.(enabled := on) else e);
  }

  /** In every run an addon is listed as it was last switched, whatever else happened to the registry since. */
  lemma {:induction false} LastSwitchShows(start: State, run: seq<Event>, k: nat, e: Entry)
    requires k < |run| && run[k].SetEnabled? && run[k].id == e.id
    requires forall x :: k < x < |run| ==> !run[x].Silent? && !(run[x].SetEnabled? && run[x].id == e.id)
    requires e in Listing(After(start, run).state)
    ensures e.enabled == run[k].on
  {
    ListedSays(After(start, run).state, e);
    SwitchStays(start, run, k);
  }

  lemma {:induction false} SwitchStays(start: State, run: seq<Event>, k: nat)
    requires k < |run| && run[k].SetEnabled?
    requires forall x :: k < x < |run| ==> !run[x].Silent? && !(run[x].SetEnabled? && run[x].id == run[k].id)
    ensures var s := After(start, run).state; run[k].id in s.enabled && s.enabled[run[k].id] == run[k].on
    decreases |run|
  {
    var n := |run| - 1;
    if k < n {
      assert run[..n][k] == run[k];
      SwitchStays(start, run[..n], k);
    }
  }

  /** A checked registration is not invalidating: asked for again, the list shows the new addon only once it expired. */
  lemma UpsertShowsAfterExpiry(s: State, id: string, addon: Registered, stored: real, asked: real, e: Entry)
    requires id !in Ids(s) && e == EntryOf(Changed(s, Upsert(id, addon)), id)
    ensures var run := [Ask(0, stored), Store(0, stored), Upsert(id, addon), Ask(1, asked)];
            e in Returned(s, run, 3) <==> asked - stored > 10.0
  {
    var run := [Ask(0, stored), Store(0, stored), Upsert(id, addon), Ask(1, asked)];
    assert run[..0] == [] && run[..1][..0] == [] && run[..2][..1] == run[..1] && run[..3][..2] == run[..2];
    assert After(s, run[..1]) == Machine(s, None, map[0 := Listing(s)]);
    assert After(s, run[..2]).state == s && After(s, run[..2]).cache == Some(Cached(stored, Listing(s)));
    assert After(s, run[..3]).state == Changed(s, Upsert(id, addon));
    assert After(s, run[..3]).cache == Some(Cached(stored, Listing(s)));
    ListedExactly(s, e);
    ListedExactly(Changed(s, Upsert(id, addon)), e);
  }

  // ---------------------------------------------------------------- the registry itself

  /** Any way of putting the merge in order of id gives the merge. */
  lemma ListingUnique(s: State, ids: seq<string>, out: seq<Entry>)
    requires SortedAs(ids, Ids(s)) && |out| == |ids|
    requires forall k :: 0 <= k < |ids| ==> ids[k] in Ids(s) && out[k] == EntryOf(s, ids[k])
    ensures out == Listing(s)
  {
    AscendingUnique(ids, SortedIds(Ids(s)));
  }

  class AddonRegistry {
    var addons: map<string, Local>
    var registered: map<string, Registered>
    var enabled: map<string, bool>
    var cache: Option<Cached>

    function Tables(): State reads this { State(addons, registered, enabled) }

    ghost function Value(): Machine reads this { Machine(Tables(), cache, map[]) }

    constructor (start: State)
      ensures Value() == Machine(start, None, map[])
    {
      addons, registered, enabled, cache := start.addons, start.registered, start.enabled, None;
    }

    method DoSetEnabled(id: string, on: bool, saved: bool) returns (ok: bool)
      modifies this
      ensures ok == saved && Value() == Step(old(Value()), SetEnabled(id, on, saved))
    {
      enabled := enabled[id := on];
      if !saved { return false; }
      cache := None;
      return true;
    }

    method DeleteRegistered(id: string, saved: bool) returns (existed: bool)
      modifies this
      ensures existed == (id in old(registered)) && Value() == Step(old(Value()), Delete(id, saved))
    {
      existed := id in registered;
      if existed {
        registered := registered - {id};
        if saved { cache := None; }
      }
      assert old(registered) - {id} == registered;
    }

    method StoreRegistered(id: string, addon: Registered, saved: bool)
      modifies this
      ensures Value() == Step(old(Value()), Keep(id, addon, saved))
    {
      registered := registered[id := addon];
      if saved { cache := None; }
    }

    method UpsertRegistered(id: string, addon: Registered)
      modifies this
      ensures Value() == Step(old(Value()), Upsert(id, addon))
    {
      registered := registered[id := addon];
    }

    method MergeRegistered() returns (out: map<string, Entry>)
      ensures out.Keys == registered.Keys
      ensures forall id :: id in registered ==>
        out[id] == var r := registered[id];
                   Entry(id, r.name, r.version, "", true, IsEnabled(Tables(), id), r.capabilities, r.details, "registered",
                         id in addons && addons[id].platformManaged)
    {
      out := map[];
      var keys := registered.Keys;
      while keys != {}
        invariant keys <= registered.Keys && out.Keys == registered.Keys - keys
        invariant forall id :: id in out ==>
          out[id] == var r := registered[id];
                     Entry(id, r.name, r.version, "", true, IsEnabled(Tables(), id), r.capabilities, r.details,
                           "registered", id in addons && addons[id].platformManaged)
        decreases |keys|
      {
        var id :| id in keys;
        keys := keys - {id};
        var r := registered[id];
        out := out[id := Entry(id, r.name, r.version, "", true, IsEnabled(Tables(), id), r.capabilities, r.details,
                               "registered", id in addons && addons[id].platformManaged)];
      }
    }

    method MergeLocal(remote: map<string, Entry>) returns (out: map<string, Entry>)
      requires remote.Keys == registered.Keys
      requires forall id :: id in registered ==> remote[id].id == id && remote[id].details == registered[id].details
      requires forall id :: id in registered && id !in addons ==> remote[id] == EntryOf(Tables(), id)
      ensures out.Keys == Ids(Tables())
      ensures forall id :: id in out ==> out[id] == EntryOf(Tables(), id)
    {
      out := remote;
      var keys := addons.Keys;
      while keys != {}
        invariant keys <= addons.Keys && out.Keys == registered.Keys + (addons.Keys - keys)
        invariant forall id :: id in out ==> out[id] == if id in keys then remote[id] else EntryOf(Tables(), id)
        decreases |keys|
      {
        var id :| id in keys;
        keys := keys - {id};
        var l, on := addons[id], IsEnabled(Tables(), id);
        if id in out {
          out := out[id := out[id].(name := l.name, version := l.version, description := l.description,
                                    showSidebar := l.showSidebar, capabilities := l.capabilities,
                                    platformManaged := l.platformManaged, enabled := on,
                                    source := "local+registered")];
        } else {
          out := out[id := Entry(id, l.name, l.version, l.description, l.showSidebar, on, l.capabilities, NO_DETAILS,
                                 "local", l.platformManaged)];
        }
      }
    }

    method InOrder(out: map<string, Entry>) returns (list: seq<Entry>)
      requires out.Keys == Ids(Tables()) && forall id :: id in out ==> out[id] == EntryOf(Tables(), id)
      ensures list == Listing(Tables())
    {
      var ids: seq<string> := [];
      var keys := out.Keys;
      while keys != {}
        invariant keys <= out.Keys && SortedAs(ids, out.Keys - keys)
        decreases |keys|
      {
        var id :| id in keys;
        InsertTextMembers(id, ids);
        InsertTextAscending(id, ids);
        keys := keys - {id};
        ids := InsertText(id, ids);
      }
      assert forall k :: 0 <= k < |ids| ==> ids[k] in ids;
      list := seq(|ids|, k requires 0 <= k < |ids| && ids[k] in out => out[ids[k]]);
      ListingUnique(Tables(), ids, list);
    }

    /** A call that nothing disturbs; `asked` and `stored` are its two readings of the clock. */
    method ListAddons(asked: real, stored: real) returns (list: seq<Entry>)
      modifies this`cache
      ensures list == Answer(old(Value()), asked)
      ensures Value() == Step(Step(old(Value()), Ask(0, asked)), Store(0, stored))
    {
      if cache.Some? && !(asked - cache.value.at > TTL) { return cache.value.list; }
      assert map[][0 := Listing(Tables())] - {0} == map[];
      var out := MergeRegistered();
      out := MergeLocal(out);
      list := InOrder(out);
      cache := Some(Cached(stored, list));
    }
  }
}
