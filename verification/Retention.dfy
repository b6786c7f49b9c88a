/** Pruning of old version directories after a tick. */
module Retention {
  import opened Text
  import opened SupervisorState

  const DEFAULT_KEEP_VERSIONS := 3
  const MIN_KEEP_VERSIONS := 2

  /** `_retention_keep_versions` on the raw environment value. */
  function KeepVersions(raw: string): (n: nat)
    ensures n >= MIN_KEEP_VERSIONS
  {
    if Strip(raw) == "" then DEFAULT_KEEP_VERSIONS
    else
      match ParseInt(Strip(raw))
      case None => DEFAULT_KEEP_VERSIONS
      case Some(n) => if n > MIN_KEEP_VERSIONS then n else MIN_KEEP_VERSIONS
  }

  /** Three unless set to a number, and never fewer than two. */
  lemma KeepVersionsExactly(raw: string, n: int)
    ensures (forall k :: 0 <= k < |raw| ==> IsSpace(raw[k])) || ParseInt(raw).None? ==> KeepVersions(raw) == 3
    ensures raw == IntText(n) ==> KeepVersions(raw) == if n < 2 then 2 else n
  {
    StripBlank(raw);
    StripClean(raw);
    IntRoundTrip(n);
  }

  datatype Entry = Entry(name: string, mtime: int)

  /** The directories met in listing order. */
  function Listed(order: seq<string>, versions: map<string, VersionDir>): seq<Entry> {
    if order == [] then []
    else (if order[0] in versions then [Entry(order[0], versions[order[0]].mtime)] else []) + Listed(order[1..], versions)
  }

  function InsertNewest(e: Entry, sorted: seq<Entry>): seq<Entry> {
    if sorted == [] || e.mtime >= sorted[0].mtime then [e] + sorted else [sorted[0]] + InsertNewest(e, sorted[1..])
  }

  /** `sort(key=mtime, reverse=True)`, which is stable. */
  function NewestFirst(entries: seq<Entry>): seq<Entry> {
    if entries == [] then [] else InsertNewest(entries[0], NewestFirst(entries[1..]))
  }

  function Entries(order: seq<string>, versions: map<string, VersionDir>): seq<Entry> {
    NewestFirst(Listed(order, versions))
  }

  function Protected(active: Option<string>, previous: Option<string>): set<string> {
    (if active.Some? && active.value != "" then {active.value} else {})
    + (if previous.Some? && previous.value != "" then {previous.value} else {})
  }

  /** The first loop: names are added until the set is full. */
  function KeepSet(keep: set<string>, entries: seq<Entry>, keepVersions: nat): set<string>
    decreases |entries|
  {
    if entries == [] || |keep| >= keepVersions then keep
    else KeepSet(keep + {entries[0].name}, entries[1..], keepVersions)
  }

  /** The second loop: every entry outside the set goes. */
  function Pruned(entries: seq<Entry>, keep: set<string>): seq<string> {
    if entries == [] then []
    else (if entries[0].name in keep then [] else [entries[0].name]) + Pruned(entries[1..], keep)
  }

  function Names(entries: seq<Entry>): set<string> { set e | e in entries :: e.name }

  predicate Descending(entries: seq<Entry>) {
    forall i, j :: 0 <= i < j < |entries| ==> entries[i].mtime >= entries[j].mtime
  }

  predicate Distinct(entries: seq<Entry>) {
    forall i, j :: 0 <= i < j < |entries| ==> entries[i].name != entries[j].name
  }

  lemma SortedCons(e: Entry, tail: seq<Entry>)
    requires Descending(tail) && Distinct(tail)
    requires forall x :: x in tail ==> e.mtime >= x.mtime && e.name != x.name
    ensures Descending([e] + tail) && Distinct([e] + tail)
  {
    var r := [e] + tail;
    assert forall k :: 0 < k < |r| ==> r[k] == tail[k - 1] && tail[k - 1] in tail;
  }

  lemma SortedTail(s: seq<Entry>)
    requires s != [] && Descending(s) && Distinct(s)
    ensures Descending(s[1..]) && Distinct(s[1..])
    ensures forall x :: x in s[1..] ==> s[0].mtime >= x.mtime && s[0].name != x.name
    ensures forall x :: x in s <==> x == s[0] || x in s[1..]
  {
    assert s == [s[0]] + s[1..];
    forall x | x in s[1..] ensures s[0].mtime >= x.mtime && s[0].name != x.name {
      var i :| 0 <= i < |s| - 1 && s[1..][i] == x;
      assert s[i + 1] == x;
    }
  }

  lemma {:induction false} InsertKeeps(e: Entry, sorted: seq<Entry>)
    requires Descending(sorted) && Distinct(sorted) && e.name !in Names(sorted)
    ensures var r := InsertNewest(e, sorted);
            && Descending(r) && Distinct(r)
            && (forall x :: x in r <==> x == e || x in sorted)
  {
    assert forall x :: x in sorted ==> x.name in Names(sorted);
    if sorted == [] {
    } else if e.mtime >= sorted[0].mtime {
      SortedTail(sorted);
      SortedCons(e, sorted);
    } else {
      SortedTail(sorted);
      InsertKeeps(e, sorted[1..]);
      SortedCons(sorted[0], InsertNewest(e, sorted[1..]));
    }
  }

  predicate DistinctNames(order: seq<string>) {
    forall i, j :: 0 <= i < j < |order| ==> order[i] != order[j]
  }

  lemma {:induction false} ListedNames(order: seq<string>, versions: map<string, VersionDir>)
    requires DistinctNames(order)
    ensures var l := Listed(order, versions);
            && Distinct(l)
            && (forall e :: e in l <==> e.name in order && e.name in versions && e.mtime == versions[e.name].mtime)
  {
    if order != [] {
      ListedNames(order[1..], versions);
      var l := Listed(order[1..], versions);
      assert order == [order[0]] + order[1..];
      forall e | e in l ensures e.name != order[0] {
        var i :| 0 <= i < |order[1..]| && order[1..][i] == e.name;
        assert order[i + 1] == e.name;
      }
      assert forall k :: 0 <= k < |l| ==> l[k] in l;
    }
  }

  lemma {:induction false} SortKeeps(entries: seq<Entry>)
    requires Distinct(entries)
    ensures var r := NewestFirst(entries);
            Descending(r) && Distinct(r) && (forall x :: x in r <==> x in entries)
  {
    if entries != [] {
      SortKeeps(entries[1..]);
      assert entries == [entries[0]] + entries[1..];
      assert forall i :: 0 <= i < |entries[1..]| ==> entries[1..][i] == entries[i + 1] && entries[i + 1].name != entries[0].name;
      InsertKeeps(entries[0], NewestFirst(entries[1..]));
    }
  }

  /** Index of a name among the first `k` entries. */
  predicate NamedBefore(entries: seq<Entry>, k: int, n: string) {
    exists i :: 0 <= i < k && i < |entries| && entries[i].name == n
  }

  /** The keep set is the protected names and a newest prefix, and is full unless everything was taken. */
  lemma {:induction false} KeepIsPrefix(keep: set<string>, entries: seq<Entry>, keepVersions: nat) returns (k: nat)
    decreases |entries|
    ensures k <= |entries|
    ensures forall n :: n in KeepSet(keep, entries, keepVersions) <==> n in keep || NamedBefore(entries, k, n)
    ensures k == |entries| || |KeepSet(keep, entries, keepVersions)| >= keepVersions
  {
    if entries == [] || |keep| >= keepVersions {
      k := 0;
    } else {
      var rest := KeepIsPrefix(keep + {entries[0].name}, entries[1..], keepVersions);
      k := rest + 1;
      forall n ensures NamedBefore(entries, k, n) <==> n == entries[0].name || NamedBefore(entries[1..], rest, n) {
        if NamedBefore(entries[1..], rest, n) {
          var i :| 0 <= i < rest && i < |entries[1..]| && entries[1..][i].name == n;
          assert entries[i + 1].name == n;
        }
        if NamedBefore(entries, k, n) && n != entries[0].name {
          var i :| 0 <= i < k && i < |entries| && entries[i].name == n;
          assert entries[1..][i - 1].name == n;
        }
      }
    }
  }

  lemma {:induction false} KeepBound(keep: set<string>, entries: seq<Entry>, keepVersions: nat)
    requires |keep| <= keepVersions
    ensures |KeepSet(keep, entries, keepVersions)| <= keepVersions
    decreases |entries|
  {
    if entries != [] && |keep| < keepVersions {
      var grown := keep + {entries[0].name};
      if entries[0].name in keep { assert grown == keep; }
      KeepBound(grown, entries[1..], keepVersions);
    }
  }

  lemma {:induction false} PrunedAre(entries: seq<Entry>, keep: set<string>)
    ensures forall n :: n in Pruned(entries, keep) <==> n in Names(entries) && n !in keep
  {
    if entries != [] {
      PrunedAre(entries[1..], keep);
      assert entries == [entries[0]] + entries[1..];
      assert Names(entries) == {entries[0].name} + Names(entries[1..]);
    }
  }

  /** `rmtree` on each entry outside the keep set; a directory in `stuck` stays. */
  function Delete(versions: map<string, VersionDir>, entries: seq<Entry>, keep: set<string>, stuck: set<string>)
    : map<string, VersionDir>
    decreases |entries|
  {
    if entries == [] then versions
    else
      var n := entries[0].name;
      Delete(if n in keep || n in stuck then versions else versions - {n}, entries[1..], keep, stuck)
  }

  /** Both loops, taken one entry further. */
  lemma NextEntry(versions: map<string, VersionDir>, entries: seq<Entry>, i: nat, keep: set<string>, stuck: set<string>)
    requires i < |entries|
    ensures var n := entries[i].name;
            && Pruned(entries[i..], keep) == (if n in keep then [] else [n]) + Pruned(entries[i + 1..], keep)
            && Delete(versions, entries[i..], keep, stuck)
               == Delete(if n in keep || n in stuck then versions else versions - {n}, entries[i + 1..], keep, stuck)
  {
    assert entries[i..][1..] == entries[i + 1..];
  }

  lemma {:induction false} DeleteLeaves(versions: map<string, VersionDir>, entries: seq<Entry>, keep: set<string>, stuck: set<string>)
    ensures var left := Delete(versions, entries, keep, stuck);
            && (forall v :: v in left <==> v in versions && (v !in Names(entries) || v in keep || v in stuck))
            && (forall v :: v in left ==> left[v] == versions[v])
    decreases |entries|
  {
    if entries != [] {
      var n := entries[0].name;
      DeleteLeaves(if n in keep || n in stuck then versions else versions - {n}, entries[1..], keep, stuck);
      NamesCons(entries[0], entries[1..]);
      assert entries == [entries[0]] + entries[1..];
    }
  }

  lemma NamesCons(e: Entry, tail: seq<Entry>)
    ensures Names([e] + tail) == {e.name} + Names(tail)
  {
    assert forall x :: x in [e] + tail <==> x == e || x in tail;
  }

  /** The directories left when every delete works; `stuck` names the ones whose delete fails. */
  function Survivors(versions: map<string, VersionDir>, order: seq<string>,
                     active: Option<string>, previous: Option<string>, keepVersions: nat, stuck: set<string>)
    : map<string, VersionDir>
  {
    var entries := Entries(order, versions);
    Delete(versions, entries, KeepSet(Protected(active, previous), entries, keepVersions), stuck)
  }

  /** Cleanup never removes the active or the previous version, whatever was listed and whatever deletes fail. */
  lemma CleanupProtects(versions: map<string, VersionDir>, order: seq<string>,
                        active: Option<string>, previous: Option<string>, keepVersions: nat, stuck: set<string>)
    ensures var left := Survivors(versions, order, active, previous, keepVersions, stuck);
            && left.Keys <= versions.Keys
            && (forall v :: v in left ==> left[v] == versions[v])
            && (forall v :: v in versions && v in Protected(active, previous) ==> v in left)
  {
    var entries := Entries(order, versions);
    var keep := KeepSet(Protected(active, previous), entries, keepVersions);
    var _ := KeepIsPrefix(Protected(active, previous), entries, keepVersions);
    DeleteLeaves(versions, entries, keep, stuck);
  }

  lemma EntriesAreAll(versions: map<string, VersionDir>, order: seq<string>)
    requires DistinctNames(order) && forall v :: v in versions ==> v in order
    ensures var es := Entries(order, versions);
            && Descending(es) && Distinct(es) && Names(es) == versions.Keys
            && (forall e :: e in es ==> e.name in versions && e.mtime == versions[e.name].mtime)
  {
    ListedNames(order, versions);
    SortKeeps(Listed(order, versions));
    forall v | v in versions ensures v in Names(Entries(order, versions)) {
      assert Entry(v, versions[v].mtime) in Entries(order, versions);
    }
  }

  /** A kept name outside the protected ones was taken before any name that is left out. */
  lemma KeptIsNewer(entries: seq<Entry>, safe: set<string>, keepVersions: nat, a: Entry, b: Entry)
    requires Descending(entries) && a in entries && b in entries
    requires a.name in KeepSet(safe, entries, keepVersions) && a.name !in safe
    requires Distinct(entries) && b.name !in KeepSet(safe, entries, keepVersions)
    ensures a.mtime >= b.mtime
  {
    var k := KeepIsPrefix(safe, entries, keepVersions);
    var i :| 0 <= i < k && i < |entries| && entries[i].name == a.name;
    var i' :| 0 <= i' < |entries| && entries[i'] == a;
    var j :| 0 <= j < |entries| && entries[j] == b;
    assert i == i';
    assert j < k ==> NamedBefore(entries, k, b.name);
  }

  lemma LeftKeys(versions: map<string, VersionDir>, order: seq<string>,
                 active: Option<string>, previous: Option<string>, keepVersions: nat)
    requires DistinctNames(order) && forall v :: v in versions ==> v in order
    ensures Survivors(versions, order, active, previous, keepVersions, {}).Keys
         == versions.Keys * KeepSet(Protected(active, previous), Entries(order, versions), keepVersions)
  {
    EntriesAreAll(versions, order);
    var entries := Entries(order, versions);
    var keep := KeepSet(Protected(active, previous), entries, keepVersions);
    DeleteLeaves(versions, entries, keep, {});
  }

  lemma KeepSize(entries: seq<Entry>, active: Option<string>, previous: Option<string>, keepVersions: nat)
    requires keepVersions >= MIN_KEEP_VERSIONS
    ensures var keep := KeepSet(Protected(active, previous), entries, keepVersions);
            && |keep| <= keepVersions
            && (!(Names(entries) <= keep) ==> |keep| == keepVersions)
  {
    ProtectedSize(active, previous);
    KeepBound(Protected(active, previous), entries, keepVersions);
    var k := KeepIsPrefix(Protected(active, previous), entries, keepVersions);
    if k == |entries| {
      forall n | n in Names(entries) ensures NamedBefore(entries, k, n) {
        var e :| e in entries && e.name == n;
        var i :| 0 <= i < |entries| && entries[i] == e;
      }
    }
  }

  /**
   * With a complete listing and working deletes, exactly the keep set stays, at most `keepVersions` directories,
   * and nothing goes unless the keep set is full.
   */
  lemma RetentionSize(versions: map<string, VersionDir>, order: seq<string>,
                      active: Option<string>, previous: Option<string>, keepVersions: nat)
    requires keepVersions >= MIN_KEEP_VERSIONS && DistinctNames(order)
    requires forall v :: v in versions ==> v in order
    ensures var left := Survivors(versions, order, active, previous, keepVersions, {});
            var keep := KeepSet(Protected(active, previous), Entries(order, versions), keepVersions);
            && left.Keys == versions.Keys * keep
            && |left.Keys| <= keepVersions
            && (left.Keys != versions.Keys ==> |keep| == keepVersions)
  {
    var entries := Entries(order, versions);
    var keep := KeepSet(Protected(active, previous), entries, keepVersions);
    LeftKeys(versions, order, active, previous, keepVersions);
    KeepSize(entries, active, previous, keepVersions);
    Subset(versions.Keys * keep, keep);
    EntriesAreAll(versions, order);
  }

  /** What stays without being protected is at least as new as anything that goes. */
  lemma RetentionAge(versions: map<string, VersionDir>, order: seq<string>,
                     active: Option<string>, previous: Option<string>, keepVersions: nat, a: string, b: string)
    requires DistinctNames(order)
    requires forall v :: v in versions ==> v in order
    requires a in versions && a !in Protected(active, previous) && b in versions
    requires a in Survivors(versions, order, active, previous, keepVersions, {})
    requires b !in Survivors(versions, order, active, previous, keepVersions, {})
    ensures versions[a].mtime >= versions[b].mtime
  {
    LeftKeys(versions, order, active, previous, keepVersions);
    EntriesAreAll(versions, order);
    assert a in Survivors(versions, order, active, previous, keepVersions, {}).Keys;
    assert b !in Survivors(versions, order, active, previous, keepVersions, {}).Keys;
    NewerThan(Entries(order, versions), Protected(active, previous), keepVersions, versions, a, b);
  }

  lemma NewerThan(entries: seq<Entry>, safe: set<string>, keepVersions: nat, versions: map<string, VersionDir>, a: string, b: string)
    requires Descending(entries) && Distinct(entries) && Names(entries) == versions.Keys
    requires forall e :: e in entries ==> e.name in versions && e.mtime == versions[e.name].mtime
    requires a in versions && b in versions && a !in safe
    requires a in KeepSet(safe, entries, keepVersions) && b !in KeepSet(safe, entries, keepVersions)
    ensures versions[a].mtime >= versions[b].mtime
  {
    assert a in Names(entries) && b in Names(entries);
    var ea :| ea in entries && ea.name == a;
    var eb :| eb in entries && eb.name == b;
    KeptIsNewer(entries, safe, keepVersions, ea, eb);
  }

  lemma ProtectedSize(active: Option<string>, previous: Option<string>)
    ensures |Protected(active, previous)| <= 2
  {
    var p := Protected(active, previous);
    if active.Some? && previous.Some? { Subset(p, {active.value, previous.value}); }
    else if active.Some? { Subset(p, {active.value}); }
    else if previous.Some? { Subset(p, {previous.value}); }
  }
}
