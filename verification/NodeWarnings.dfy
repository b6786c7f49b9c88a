/** Warnings about installed nodes that turn offline or degraded, one poll of the registrations after another. */
module NodeWarnings {
  import opened Text
  import ComposeFile

  /** The two threshold settings as the environment gives them; None when unset. */
  datatype Settings = Settings(stale: Option<string>, inactive: Option<string>)

  function AtLeast(low: int, n: int): int { if n > low then n else low }

  function ReadSetting(raw: string, low: int, default: int): int {
    match ParseInt(Strip(raw)) case Some(n) => AtLeast(low, n) case None => default
  }

  function StaleAfter(s: Settings): int { ReadSetting(if s.stale.Some? then s.stale.value else "300", 30, 300) }

  function InactiveAfter(s: Settings): int {
    AtLeast(ReadSetting(if s.inactive.Some? then s.inactive.value else "1800", 60, 1800), StaleAfter(s) + 1)
  }

  /** What MQTT knows of a node: its own report, and when the report came; no time is zero. */
  datatype Snapshot = Snapshot(reported: string, at: real)

  /** A health status: None in the code is `Unknown`, and the two bad ones are told apart from any other text. */
  datatype Status = Unknown | Offline | Degraded | Named(text: string)

  function StatusOf(text: string): Status {
    if text == "" then Unknown
    else if text == "offline" then Offline
    else if text == "degraded" then Degraded
    else Named(text)
  }

  function Reported(s: Snapshot): Status { StatusOf(ComposeFile.Lower(Strip(s.reported))) }

  /** Whole seconds since the report, never negative. */
  function Age(s: Snapshot, now: real): int {
    if now - s.at < 0.0 then 0 else (now - s.at).Floor
  }

  datatype AgeClass = Fresh | Stale | Inactive

  function ClassOf(c: Settings, age: int): AgeClass {
    if age > InactiveAfter(c) then Inactive else if age > StaleAfter(c) then Stale else Fresh
  }

  function EffectiveHealth(c: Settings, snapshot: Option<Snapshot>, now: real): Status {
    if snapshot.None? then Unknown
    else if snapshot.value.at > 0.0 then
      match ClassOf(c, Age(snapshot.value, now))
      case Inactive => Offline
      case Stale => Degraded
      case Fresh => Reported(snapshot.value)
    else Reported(snapshot.value)
  }

  predicate Bad(status: Status) { status.Offline? || status.Degraded? }

  /** One registration as a poll finds it. */
  datatype Entry = Entry(nodeId: string, trust: string, ready: bool, snapshot: Option<Snapshot>, now: real)

  datatype Warning = Warning(node: string, status: Status)

  predicate Trusted(e: Entry) { ComposeFile.Lower(Strip(e.trust)) == "trusted" }

  type Memory = map<string, Status>

  datatype Result = Result(memory: Memory, warnings: seq<Warning>)

  /** What a poll acts on: the node, and its status unless the node is passed over. */
  datatype Fact = Fact(id: string, acted: Option<Status>)

  function FactOf(c: Settings, e: Entry): Fact {
    Fact(Strip(e.nodeId), if Trusted(e) && e.ready then Some(EffectiveHealth(c, e.snapshot, e.now)) else None)
  }

  function FactsOf(c: Settings, entries: seq<Entry>): seq<Fact> {
    if entries == [] then [] else FactsOf(c, entries[..|entries| - 1]) + [FactOf(c, entries[|entries| - 1])]
  }

  function Visit(r: Result, f: Fact): Result {
    if f.id == "" then r
    else
      match f.acted
      case None => r.(memory := r.memory - {f.id})
      case Some(status) =>
        var warns := Bad(status) && !(f.id in r.memory && r.memory[f.id] == status);
        Result(r.memory[f.id := status], r.warnings + if warns then [Warning(f.id, status)] else [])
  }

  function Scan(memory: Memory, facts: seq<Fact>): Result {
    if facts == [] then Result(memory, []) else Visit(Scan(memory, facts[..|facts| - 1]), facts[|facts| - 1])
  }

  function Ids(facts: seq<Fact>): set<string> {
    if facts == [] then {}
    else Ids(facts[..|facts| - 1]) + if facts[|facts| - 1].id == "" then {} else {facts[|facts| - 1].id}
  }

  function Kept(memory: Memory, current: set<string>): Memory { map id | id in memory && id in current :: memory[id] }

  /** One whole poll. */
  function Poll(memory: Memory, facts: seq<Fact>): Result {
    var r := Scan(memory, facts);
    r.(memory := Kept(r.memory, Ids(facts)))
  }

  // ---------------------------------------------------------------- what one poll saw of a node

  datatype View = Absent | PassedOver | Health(status: Status)

  function ViewOf(facts: seq<Fact>, id: string): View {
    if facts == [] then Absent
    else
      var f := facts[|facts| - 1];
      if id != "" && f.id == id then
        match f.acted case None => PassedOver case Some(status) => Health(status)
      else ViewOf(facts[..|facts| - 1], id)
  }

  predicate UniqueIds(facts: seq<Fact>) {
    forall i, j :: 0 <= i < j < |facts| && facts[i].id == facts[j].id ==> facts[i].id == ""
  }

  lemma {:induction false} SeenIsListed(facts: seq<Fact>, id: string)
    ensures id in Ids(facts) <==> !ViewOf(facts, id).Absent?
    decreases |facts|
  {
    if facts != [] { SeenIsListed(facts[..|facts| - 1], id); }
  }

  lemma {:induction false} ScanMemory(memory: Memory, facts: seq<Fact>, id: string)
    ensures var m, v := Scan(memory, facts).memory, ViewOf(facts, id);
            match v
            case Absent => (id in m <==> id in memory) && (id in m ==> m[id] == memory[id])
            case PassedOver => id !in m
            case Health(status) => id in m && m[id] == status
    decreases |facts|
  {
    if facts != [] { ScanMemory(memory, facts[..|facts| - 1], id); }
  }

  /** Warned of by the scan: in a bad state now, and not remembered in that state. */
  predicate News(memory: Memory, facts: seq<Fact>, w: Warning) {
    && ViewOf(facts, w.node) == Health(w.status)
    && Bad(w.status)
    && !(w.node in memory && memory[w.node] == w.status)
  }

  lemma {:induction false} ScanWarnings(memory: Memory, facts: seq<Fact>, w: Warning)
    requires UniqueIds(facts)
    ensures multiset(Scan(memory, facts).warnings)[w] == if News(memory, facts, w) then 1 else 0
    decreases |facts|
  {
    if facts != [] {
      var n := |facts| - 1;
      ScanWarnings(memory, facts[..n], w);
      ScanMemory(memory, facts[..n], facts[n].id);
      if facts[n].id == w.node && w.node != "" { NotBefore(facts, n); }
    }
  }

  lemma NotBefore(facts: seq<Fact>, n: nat)
    requires UniqueIds(facts) && n < |facts| && facts[n].id != ""
    ensures ViewOf(facts[..n], facts[n].id).Absent?
  {
    SeenIsListed(facts[..n], facts[n].id);
    NotListed(facts[..n], facts[n].id);
  }

  lemma {:induction false} NotListed(facts: seq<Fact>, id: string)
    requires forall k :: 0 <= k < |facts| ==> facts[k].id != id
    ensures id !in Ids(facts)
    decreases |facts|
  {
    if facts != [] { NotListed(facts[..|facts| - 1], id); }
  }

  /** After a poll the memory is exactly what that poll saw: nothing older, and nobody who is not registered. */
  lemma MemoryIsLastView(memory: Memory, facts: seq<Fact>, id: string)
    ensures var m, v := Poll(memory, facts).memory, ViewOf(facts, id);
            (id in m <==> v.Health?) && (id in m ==> m[id] == v.status && id in Ids(facts))
  {
    ScanMemory(memory, facts, id);
    SeenIsListed(facts, id);
  }

  // ---------------------------------------------------------------- a run of polls

  function Run(polls: seq<seq<Fact>>): Result {
    if polls == [] then Result(map[], []) else Poll(Run(polls[..|polls| - 1]).memory, polls[|polls| - 1])
  }

  /** The warnings of poll `n`. */
  function WarningsAt(polls: seq<seq<Fact>>, n: nat): seq<Warning>
    requires n < |polls|
  {
    Run(polls[..n + 1]).warnings
  }

  /** A node enters a bad state at poll `n`: it is in it now and the poll before did not see it there. */
  predicate Enters(polls: seq<seq<Fact>>, n: nat, w: Warning)
    requires n < |polls|
  {
    && Bad(w.status)
    && ViewOf(polls[n], w.node) == Health(w.status)
    && (n > 0 ==> ViewOf(polls[n - 1], w.node) != Health(w.status))
  }

  /** Each entry into offline or degraded is warned of exactly once, and nothing else ever is. */
  lemma WarnsOnEntry(polls: seq<seq<Fact>>, n: nat, w: Warning)
    requires n < |polls| && UniqueIds(polls[n])
    ensures multiset(WarningsAt(polls, n))[w] == if Enters(polls, n, w) then 1 else 0
  {
    var before := Run(polls[..n]).memory;
    assert polls[..n + 1][..n] == polls[..n];
    ScanWarnings(before, polls[n], w);
    if n > 0 {
      assert polls[..n][..n - 1] == polls[..n - 1];
      MemoryIsLastView(Run(polls[..n - 1]).memory, polls[n - 1], w.node);
    }
  }

  lemma WarnedMeansEntered(polls: seq<seq<Fact>>, n: nat, w: Warning)
    requires n < |polls| && UniqueIds(polls[n]) && w in WarningsAt(polls, n)
    ensures Enters(polls, n, w)
  {
    WarnsOnEntry(polls, n, w);
    assert w in multiset(WarningsAt(polls, n));
  }

  /** Between two warnings that say the same there is a poll that saw the node otherwise, or not at all. */
  lemma WarningsSeparated(polls: seq<seq<Fact>>, i: nat, j: nat, w: Warning) returns (k: nat)
    requires i < j < |polls| && UniqueIds(polls[i]) && UniqueIds(polls[j])
    requires w in WarningsAt(polls, i) && w in WarningsAt(polls, j)
    ensures i < k < j && ViewOf(polls[k], w.node) != Health(w.status)
  {
    WarnedMeansEntered(polls, i, w);
    WarnedMeansEntered(polls, j, w);
    k := j - 1;
  }

  // ---------------------------------------------------------------- health by age

  function Rank(a: AgeClass): nat { match a case Fresh => 0 case Stale => 1 case Inactive => 2 }

  /** By the age of its report a node only gets worse, whatever the settings. */
  lemma AgeOnlyWorsens(c: Settings, s: Snapshot, now: real, later: real)
    requires now <= later
    ensures Rank(ClassOf(c, Age(s, now))) <= Rank(ClassOf(c, Age(s, later)))
  {}

  /** And never skips a stage: there is an age for each class, in that order. */
  lemma EveryStageExists(c: Settings)
    ensures var a := StaleAfter(c);
            && 30 <= a < InactiveAfter(c)
            && ClassOf(c, a).Fresh? && ClassOf(c, a + 1).Stale? && ClassOf(c, InactiveAfter(c) + 1).Inactive?
  {}

  function Severity(status: Status): nat {
    match status case Offline => 2 case Degraded => 1 case _ => 0
  }

  /**
   * The effective health is not monotone: with no new report it gets better exactly when the node itself had reported
   * offline and that report turns stale.
   */
  lemma ImprovesExactlyWhen(c: Settings, s: Snapshot, now: real, later: real)
    requires now <= later
    ensures Severity(EffectiveHealth(c, Some(s), later)) < Severity(EffectiveHealth(c, Some(s), now))
            <==> s.at > 0.0 && Reported(s).Offline?
                 && ClassOf(c, Age(s, now)).Fresh? && ClassOf(c, Age(s, later)).Stale?
  {
    AgeOnlyWorsens(c, s, now, later);
  }

  /** Under default settings: an offline report five minutes old is offline, one second later it is degraded. */
  lemma OfflineTurnsDegraded()
    ensures var c, s := Settings(None, None), Snapshot("offline", 1.0);
            EffectiveHealth(c, Some(s), 301.0).Offline? && EffectiveHealth(c, Some(s), 302.0).Degraded?
  {
    DefaultThresholds();
    OfflineReport();
    DefaultStages(Snapshot("offline", 1.0));
  }

  lemma OfflineReport()
    ensures Reported(Snapshot("offline", 1.0)).Offline?
  {
    assert Strip("offline") == "offline";
    assert ComposeFile.Lower("offline") == "offline";
  }

  lemma DefaultStages(s: Snapshot)
    requires s.at == 1.0 && StaleAfter(Settings(None, None)) == 300 && InactiveAfter(Settings(None, None)) == 1800
    ensures ClassOf(Settings(None, None), Age(s, 301.0)).Fresh? && ClassOf(Settings(None, None), Age(s, 302.0)).Stale?
  {}

  lemma DefaultThresholds()
    ensures StaleAfter(Settings(None, None)) == 300 && InactiveAfter(Settings(None, None)) == 1800
  {
    IntRoundTrip(300);
    IntRoundTrip(1800);
    assert DigitsOf(3) == "3" && DigitsOf(30) == "30" && DigitsOf(300) == "300";
    assert DigitsOf(1) == "1" && DigitsOf(18) == "18" && DigitsOf(180) == "180" && DigitsOf(1800) == "1800";
    StripFixed("300");
    StripFixed("1800");
  }

  // ---------------------------------------------------------------- warnings, said of the registrations

  function Max(a: int, b: int): int { if a > b then a else b }

  /** The thresholds: five and thirty minutes unless set to numbers, at least 30 and 60 seconds, and the second larger. */
  lemma ThresholdsExactly(c: Settings, n: int, m: int)
    ensures c.stale.None? || ParseInt(c.stale.value).None? ==> StaleAfter(c) == 300
    ensures c.stale == Some(IntText(n)) ==> StaleAfter(c) == Max(30, n)
    ensures c.inactive.None? || ParseInt(c.inactive.value).None? ==> InactiveAfter(c) == Max(1800, StaleAfter(c) + 1)
    ensures c.inactive == Some(IntText(m)) ==> InactiveAfter(c) == Max(Max(60, m), StaleAfter(c) + 1)
  {
    DefaultThresholds();
    IntRoundTrip(n);
    IntRoundTrip(m);
    if c.stale.Some? { StripClean(c.stale.value); }
    if c.inactive.Some? { StripClean(c.inactive.value); }
  }

  /** The node itself reported this word, in letters of either case and with space around it or not. */
  predicate Says(e: Entry, word: string) { e.snapshot.Some? && ComposeFile.Lower(Strip(e.snapshot.value.reported)) == word }

  /** More than that many whole seconds have passed since the report; a report without a time does not age. */
  predicate OlderThan(e: Entry, seconds: int) {
    e.snapshot.Some? && e.snapshot.value.at > 0.0 && e.now - e.snapshot.value.at >= (seconds + 1) as real
  }

  predicate IsOffline(c: Settings, e: Entry) {
    OlderThan(e, InactiveAfter(c)) || (Says(e, "offline") && !OlderThan(e, StaleAfter(c)))
  }

  predicate IsDegraded(c: Settings, e: Entry) {
    !OlderThan(e, InactiveAfter(c)) && (OlderThan(e, StaleAfter(c)) || Says(e, "degraded"))
  }

  lemma StatusIs(c: Settings, e: Entry)
    ensures EffectiveHealth(c, e.snapshot, e.now).Offline? <==> IsOffline(c, e)
    ensures EffectiveHealth(c, e.snapshot, e.now).Degraded? <==> IsDegraded(c, e)
  {}

  /** Otherwise the status is what the node itself reports, and unknown when it reports nothing. */
  lemma OtherStatus(c: Settings, e: Entry)
    requires !IsOffline(c, e) && !IsDegraded(c, e)
    ensures EffectiveHealth(c, e.snapshot, e.now)
            == if e.snapshot.None? || Says(e, "") then Unknown else Named(ComposeFile.Lower(Strip(e.snapshot.value.reported)))
  {}

  /** This registration is reason enough for the warning: trusted, ready, and in that state. */
  predicate CallsFor(c: Settings, e: Entry, w: Warning) {
    && w.node != "" && Strip(e.nodeId) == w.node
    && ComposeFile.Lower(Strip(e.trust)) == "trusted" && e.ready
    && ((w.status.Offline? && IsOffline(c, e)) || (w.status.Degraded? && IsDegraded(c, e)))
  }

  ghost predicate InTrouble(c: Settings, entries: seq<Entry>, w: Warning) { exists e :: e in entries && CallsFor(c, e, w) }

  predicate OneEach(entries: seq<Entry>) {
    forall i, j :: 0 <= i < j < |entries| && Strip(entries[i].nodeId) == Strip(entries[j].nodeId) ==> Strip(entries[i].nodeId) == ""
  }

  lemma {:induction false} FactsAre(c: Settings, entries: seq<Entry>)
    ensures |FactsOf(c, entries)| == |entries|
    ensures forall k :: 0 <= k < |entries| ==> FactsOf(c, entries)[k] == FactOf(c, entries[k])
    decreases |entries|
  {
    if entries != [] { FactsAre(c, entries[..|entries| - 1]); }
  }

  lemma ActedOn(c: Settings, e: Entry, w: Warning)
    requires w.node != ""
    ensures CallsFor(c, e, w) <==> Bad(w.status) && FactOf(c, e) == Fact(w.node, Some(w.status))
  {
    StatusIs(c, e);
  }

  lemma {:induction false} TroubleIsView(c: Settings, entries: seq<Entry>, w: Warning)
    requires OneEach(entries)
    ensures InTrouble(c, entries, w) <==> Bad(w.status) && ViewOf(FactsOf(c, entries), w.node) == Health(w.status)
    decreases |entries|
  {
    if entries != [] {
      var n := |entries| - 1;
      TroubleIsView(c, entries[..n], w);
      LastOrBefore(c, entries, w);
      if w.node != "" {
        ActedOn(c, entries[n], w);
        if Strip(entries[n].nodeId) == w.node {
          FactsAre(c, entries[..n]);
          NotListed(FactsOf(c, entries[..n]), w.node);
          SeenIsListed(FactsOf(c, entries[..n]), w.node);
        }
      }
    } else {
      NoTrouble(c, w);
    }
  }

  lemma NoTrouble(c: Settings, w: Warning)
    ensures !InTrouble(c, [], w)
  {}

  lemma LastOrBefore(c: Settings, entries: seq<Entry>, w: Warning)
    requires entries != []
    ensures var n := |entries| - 1;
            InTrouble(c, entries, w) <==> CallsFor(c, entries[n], w) || InTrouble(c, entries[..n], w)
  {
    var n := |entries| - 1;
    assert forall e :: e in entries <==> e == entries[n] || e in entries[..n];
  }

  function AllFacts(c: Settings, polls: seq<seq<Entry>>): (facts: seq<seq<Fact>>)
    ensures |facts| == |polls| && forall k :: 0 <= k < |polls| ==> facts[k] == FactsOf(c, polls[k])
  {
    seq(|polls|, k requires 0 <= k < |polls| => FactsOf(c, polls[k]))
  }

  lemma FactsUnique(c: Settings, entries: seq<Entry>)
    requires OneEach(entries)
    ensures UniqueIds(FactsOf(c, entries))
  {
    FactsAre(c, entries);
  }

  /**
   * Over every run of polls, a warning is sent once exactly when some trusted and ready registration gives reason for it
   * and none did in the poll before. An untrusted node, or one that is not ready, is never warned of.
   */
  lemma WarnsExactly(c: Settings, polls: seq<seq<Entry>>, n: nat, w: Warning)
    requires n < |polls| && OneEach(polls[n]) && (n > 0 ==> OneEach(polls[n - 1]))
    ensures multiset(WarningsAt(AllFacts(c, polls), n))[w]
            == if InTrouble(c, polls[n], w) && (n == 0 || !InTrouble(c, polls[n - 1], w)) then 1 else 0
  {
    FactsUnique(c, polls[n]);
    TroubleIsView(c, polls[n], w);
    if n > 0 { TroubleIsView(c, polls[n - 1], w); }
    WarnsOnEntry(AllFacts(c, polls), n, w);
  }

  // ---------------------------------------------------------------- the service

  lemma ScanMore(c: Settings, memory: Memory, entries: seq<Entry>, i: nat)
    requires i < |entries|
    ensures var r, f := Scan(memory, FactsOf(c, entries[..i])), FactOf(c, entries[i]);
            var v := Visit(Result(r.memory, []), f);
            && Scan(memory, FactsOf(c, entries[..i + 1])) == Result(v.memory, r.warnings + v.warnings)
            && Ids(FactsOf(c, entries[..i + 1])) == Ids(FactsOf(c, entries[..i])) + if f.id == "" then {} else {f.id}
  {
    assert entries[..i + 1][..i] == entries[..i];
    ScanStep(memory, FactsOf(c, entries[..i]), FactOf(c, entries[i]));
  }

  lemma ScanStep(memory: Memory, facts: seq<Fact>, f: Fact)
    ensures var r := Scan(memory, facts);
            var v := Visit(Result(r.memory, []), f);
            && Scan(memory, facts + [f]) == Result(v.memory, r.warnings + v.warnings)
            && Ids(facts + [f]) == Ids(facts) + if f.id == "" then {} else {f.id}
  {
    assert (facts + [f])[..|facts|] == facts;
    assert Scan(memory, facts).warnings + [] == Scan(memory, facts).warnings;
  }

  class NodeMonitor {
    var lastHealth: Memory

    constructor ()
      ensures lastHealth == map[]
    {
      lastHealth := map[];
    }

    method VisitNode(c: Settings, e: Entry) returns (news: seq<Warning>)
      modifies this
      ensures Result(lastHealth, news) == Visit(Result(old(lastHealth), []), FactOf(c, e))
    {
      news := [];
      var id := Strip(e.nodeId);
      if id == "" { return; }
      if !Trusted(e) || !e.ready {
        lastHealth := lastHealth - {id};
        return;
      }
      var status := EffectiveHealth(c, e.snapshot, e.now);
      if !Bad(status) {
        lastHealth := lastHealth[id := status];
        return;
      }
      var known := id in lastHealth && lastHealth[id] == status;
      lastHealth := lastHealth[id := status];
      if known { return; }
      news := [Warning(id, status)];
    }

    method PollOnce(c: Settings, entries: seq<Entry>) returns (results: seq<Warning>)
      modifies this
      ensures Result(lastHealth, results) == Poll(old(lastHealth), FactsOf(c, entries))
    {
      results := [];
      var current: set<string> := {};
      for i := 0 to |entries|
        invariant Result(lastHealth, results) == Scan(old(lastHealth), FactsOf(c, entries[..i]))
        invariant current == Ids(FactsOf(c, entries[..i]))
      {
        ScanMore(c, old(lastHealth), entries, i);
        if Strip(entries[i].nodeId) != "" { current := current + {Strip(entries[i].nodeId)}; }
        var news := VisitNode(c, entries[i]);
        results := results + news;
      }
      assert entries[..|entries|] == entries;
      Forget(current);
    }

    method Forget(current: set<string>)
      modifies this
      ensures lastHealth == Kept(old(lastHealth), current)
    {
      var keys := lastHealth.Keys;
      while keys != {}
        invariant keys <= lastHealth.Keys <= old(lastHealth).Keys
        invariant forall id :: id in old(lastHealth) && (id in keys || id in current)
                               ==> id in lastHealth
        invariant forall id :: id in lastHealth ==> lastHealth[id] == old(lastHealth)[id] && (id in keys || id in current)
        decreases |keys|
      {
        var id :| id in keys;
        keys := keys - {id};
        if id !in current { lastHealth := lastHealth - {id}; }
      }
    }
  }
}
