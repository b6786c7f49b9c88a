/**
 * The onboarding limiter as its callers run it: in worker threads and without a lock, so that the statements of
 * attempts of one key may alternate.
 */
module LimiterThreads {
  import opened Text
  import opened SlidingWindow

  /** One statement of one attempt: reading the clock, filtering the bucket, putting the result back, and the rest. */
  datatype Step =
    | Start(id: int, now: real)
    | Filter(id: int)
    | Assign(id: int)
    | Look(id: int)
    | Append(id: int)

  /** Where an attempt stands; `now` is the time it read. */
  datatype Phase = Started(now: real) | Filtered(now: real, kept: seq<real>) | Assigned(now: real) | Passed(now: real)

  /**
   * The bucket and the attempts under way, and for the record: who has ever overlapped another, and the admissions of
   * attempts that never did, and of those that did.
   */
  datatype Bucket = Bucket(times: seq<real>, open: map<int, Phase>, clock: real, seen: set<int>,
                           overlapped: set<int>, clean: seq<real>, dirty: seq<real>)

  const EMPTY := Bucket([], map[], 0.0, {}, {}, [], [])

  function Take(r: Rule, b: Bucket, s: Step): Option<Bucket> {
    match s
    case Start(id, now) =>
      if id in b.seen || now < b.clock then None
      else Some(b.(open := b.open[id := Started(now)], clock := now, seen := b.seen + {id},
                   overlapped := if b.open == map[] then b.overlapped else b.overlapped + b.open.Keys + {id}))
    case Filter(id) =>
      if id in b.open && b.open[id].Started? then
        Some(b.(open := b.open[id := Filtered(b.open[id].now, Keep(r, b.times, b.open[id].now))]))
      else None
    case Assign(id) =>
      if id in b.open && b.open[id].Filtered? then
        Some(b.(times := b.open[id].kept, open := b.open[id := Assigned(b.open[id].now)]))
      else None
    case Look(id) =>
      if id in b.open && b.open[id].Assigned? then
        Some(b.(open := if |b.times| >= r.limit then b.open - {id} else b.open[id := Passed(b.open[id].now)]))
      else None
    case Append(id) =>
      if id in b.open && b.open[id].Passed? then
        var now := b.open[id].now;
        var ended := b.(times := b.times + [now], open := b.open - {id});
        Some(if id in b.overlapped then ended.(dirty := b.dirty + [now]) else ended.(clean := b.clean + [now]))
      else None
  }

  /** The bucket after a run of statements; None if some statement could not come then. */
  function After(r: Rule, run: seq<Step>): Option<Bucket> {
    if run == [] then Some(EMPTY)
    else
      match After(r, run[..|run| - 1])
      case None => None
      case Some(b) => Take(r, b, run[|run| - 1])
  }

  // ---------------------------------------------------------------- what overlapping attempts cannot undo

  /** Every still counting admission of `clean` stands in the list. */
  ghost predicate Covers(r: Rule, times: seq<real>, clean: seq<real>, now: real) {
    forall t :: Fresh(r, t, now) ==> multiset(clean)[t] <= multiset(times)[t]
  }

  /** The statements of an attempt on its own leave nothing between its look and its append. */
  predicate LookedWell(r: Rule, b: Bucket, id: int)
    requires id in b.open
  {
    id !in b.overlapped ==>
      b.open[id].now == b.clock && (b.open[id].Passed? ==> |Keep(r, b.clean, b.clock)| < r.limit)
  }

  ghost predicate Sound(r: Rule, b: Bucket) {
    && Sorted(b.clean) && NotAfter(b.clean, b.clock) && (r.limit >= 1 ==> Spaced(r, b.clean))
    && Covers(r, b.times, b.clean, b.clock)
    && (forall id :: id in b.open ==> id in b.seen && b.open[id].now <= b.clock && LookedWell(r, b, id))
    && (forall id :: id in b.open && b.open[id].Filtered? ==> Covers(r, b.open[id].kept, b.clean, b.clock))
    && (forall id, other :: id in b.open && other in b.open && id != other ==> id in b.overlapped)
  }

  lemma {:induction false} KeepMultiset(r: Rule, times: seq<real>, now: real, t: real)
    ensures multiset(Keep(r, times, now))[t] == if Fresh(r, t, now) then multiset(times)[t] else 0
    decreases |times|
  {
    if times != [] {
      var n := |times| - 1;
      KeepMultiset(r, times[..n], now, t);
      assert times == times[..n] + [times[n]];
    }
  }

  lemma FilterCovers(r: Rule, times: seq<real>, clean: seq<real>, own: real, now: real)
    requires Covers(r, times, clean, now) && own <= now
    ensures Covers(r, Keep(r, times, own), clean, now)
  {
    forall t | Fresh(r, t, now) ensures multiset(clean)[t] <= multiset(Keep(r, times, own))[t] {
      KeepMultiset(r, times, own, t);
    }
  }

  lemma SmallerMultiset<T>(a: multiset<T>, b: multiset<T>)
    requires a <= b
    ensures |a| <= |b|
  {
    assert b == a + (b - a);
  }

  /** A list that covers the clean admissions is at least as long as those that still count. */
  lemma CoverSize(r: Rule, times: seq<real>, clean: seq<real>, now: real)
    requires Covers(r, times, clean, now)
    ensures |Keep(r, clean, now)| <= |times|
  {
    var kept := multiset(Keep(r, clean, now));
    forall t ensures kept[t] <= multiset(times)[t] { KeepMultiset(r, clean, now, t); }
    SmallerMultiset(kept, multiset(times));
  }

  lemma LaterCovers(r: Rule, times: seq<real>, clean: seq<real>, now: real, later: real)
    requires Covers(r, times, clean, now) && now <= later
    ensures Covers(r, times, clean, later)
  {}

  lemma StartSound(r: Rule, b: Bucket, id: int, now: real)
    requires Usable(r) && Sound(r, b) && Take(r, b, Start(id, now)).Some?
    ensures Sound(r, Take(r, b, Start(id, now)).value)
  {
    var c := Take(r, b, Start(id, now)).value;
    LaterCovers(r, b.times, b.clean, b.clock, now);
    forall x | x in c.open && c.open[x].Filtered? ensures Covers(r, c.open[x].kept, c.clean, c.clock) {
      LaterCovers(r, b.open[x].kept, b.clean, b.clock, now);
    }
    forall x | x in c.open ensures x in c.seen && c.open[x].now <= c.clock && LookedWell(r, c, x) {
      if x != id { assert x in b.open.Keys; }
    }
  }

  lemma FilterSound(r: Rule, b: Bucket, id: int)
    requires Usable(r) && Sound(r, b) && Take(r, b, Filter(id)).Some?
    ensures Sound(r, Take(r, b, Filter(id)).value)
  {
    FilterCovers(r, b.times, b.clean, b.open[id].now, b.clock);
  }

  lemma LookSound(r: Rule, b: Bucket, id: int)
    requires Usable(r) && Sound(r, b) && Take(r, b, Look(id)).Some?
    ensures Sound(r, Take(r, b, Look(id)).value)
  {
    CoverSize(r, b.times, b.clean, b.clock);
  }

  lemma DirtyAppendSound(r: Rule, b: Bucket, id: int)
    requires Usable(r) && Sound(r, b) && Take(r, b, Append(id)).Some? && id in b.overlapped
    ensures Sound(r, Take(r, b, Append(id)).value)
  {
    var c := Take(r, b, Append(id)).value;
    forall t | Fresh(r, t, c.clock) ensures multiset(c.clean)[t] <= multiset(c.times)[t] {
      assert multiset(b.clean)[t] <= multiset(b.times)[t];
    }
  }

  lemma CleanAppendSound(r: Rule, b: Bucket, id: int)
    requires Usable(r) && Sound(r, b) && Take(r, b, Append(id)).Some? && id !in b.overlapped
    ensures Sound(r, Take(r, b, Append(id)).value)
  {
    var c := Take(r, b, Append(id)).value;
    assert LookedWell(r, b, id);
    SpacedStep(r, b.clean, b.clock);
    forall x ensures x !in c.open { assert x in b.open && x != id ==> id in b.overlapped; }
    forall t | Fresh(r, t, c.clock) ensures multiset(c.clean)[t] <= multiset(c.times)[t] {
      assert multiset(b.clean)[t] <= multiset(b.times)[t];
    }
  }

  lemma {:induction false} RunSound(r: Rule, run: seq<Step>)
    requires Usable(r) && After(r, run).Some?
    ensures Sound(r, After(r, run).value)
    decreases |run|
  {
    if run != [] {
      var n := |run| - 1;
      RunSound(r, run[..n]);
      var b := After(r, run[..n]).value;
      match run[n]
      case Start(id, now) => StartSound(r, b, id, now);
      case Filter(id) => FilterSound(r, b, id);
      case Assign(id) =>
      case Look(id) => LookSound(r, b, id);
      case Append(id) => if id in b.overlapped { DirtyAppendSound(r, b, id); } else { CleanAppendSound(r, b, id); }
    }
  }

  /**
   * However the statements alternate, and whatever the overlapping attempts lose: admissions of attempts that overlap
   * no other keep to the limit in every window, so a window holds at most the limit and besides the admissions of
   * attempts that did overlap.
   */
  lemma BoundBesideOverlap(r: Rule, run: seq<Step>, w: Window)
    requires Usable(r) && After(r, run).Some? && Narrow(r, w)
    ensures var b := After(r, run).value;
            Count(b.clean, w) <= r.limit
  {
    RunSound(r, run);
    SpacedCount(r, After(r, run).value.clean, w);
  }

  lemma {:induction false} DirtyOverlapped(r: Rule, run: seq<Step>)
    requires After(r, run).Some?
    ensures After(r, run).value.dirty != [] ==> After(r, run).value.overlapped != {}
    decreases |run|
  {
    if run != [] { DirtyOverlapped(r, run[..|run| - 1]); }
  }

  // ---------------------------------------------------------------- a run that does overlap

  function Alone(id: int, now: real): seq<Step> { [Start(id, now), Filter(id), Assign(id), Look(id), Append(id)] }

  /** Attempts one after the other, numbered from zero. */
  function Serial(n: nat, now: real): seq<Step> {
    if n == 0 then [] else Serial(n - 1, now) + Alone(n - 1, now)
  }

  lemma Extend(r: Rule, run: seq<Step>, s: Step)
    ensures After(r, run + [s]) == if After(r, run).None? then None else Take(r, After(r, run).value, s)
  {
    assert (run + [s])[..|run|] == run;
  }

  lemma ExtendFive(r: Rule, run: seq<Step>, a: Step, b: Step, c: Step, d: Step, e: Step)
    ensures run + [a, b, c, d, e] == run + [a] + [b] + [c] + [d] + [e]
  {}

  predicate Idle(b: Bucket, n: nat) { b.open == map[] && b.overlapped == {} && forall id :: id in b.seen ==> 0 <= id < n }

  /** One attempt on its own prunes the bucket, and extends it if it has room: what the limiter's method does. */
  lemma AttemptAlone(r: Rule, run: seq<Step>, n: nat, now: real)
    requires Usable(r) && After(r, run).Some? && Idle(After(r, run).value, n) && After(r, run).value.clock <= now
    requires |Keep(r, After(r, run).value.times, now)| < r.limit
    ensures After(r, run + Alone(n, now)).Some?
    ensures var b, c := After(r, run).value, After(r, run + Alone(n, now)).value;
            && Idle(c, n + 1) && c.clock == now && c.times == Keep(r, b.times, now) + [now]
            && c.clean == b.clean + [now] && c.dirty == b.dirty
  {
    ExtendFive(r, run, Start(n, now), Filter(n), Assign(n), Look(n), Append(n));
    var r1 := run + [Start(n, now)];
    Extend(r, run, Start(n, now));
    Extend(r, r1, Filter(n));
    Extend(r, r1 + [Filter(n)], Assign(n));
    Extend(r, r1 + [Filter(n)] + [Assign(n)], Look(n));
    Extend(r, r1 + [Filter(n)] + [Assign(n)] + [Look(n)], Append(n));
    var c := After(r, run + Alone(n, now)).value;
    assert c.open == map[];
  }

  /** And refused it only prunes. */
  lemma RefusedAlone(r: Rule, run: seq<Step>, n: nat, now: real)
    requires Usable(r) && After(r, run).Some? && Idle(After(r, run).value, n) && After(r, run).value.clock <= now
    requires |Keep(r, After(r, run).value.times, now)| >= r.limit
    ensures After(r, run + [Start(n, now)] + [Filter(n)] + [Assign(n)] + [Look(n)]).Some?
    ensures var b, c := After(r, run).value, After(r, run + [Start(n, now)] + [Filter(n)] + [Assign(n)] + [Look(n)]).value;
            Idle(c, n + 1) && c.clock == now && c.times == Keep(r, b.times, now) && c.clean == b.clean && c.dirty == b.dirty
  {
    var r1 := run + [Start(n, now)];
    Extend(r, run, Start(n, now));
    Extend(r, r1, Filter(n));
    Extend(r, r1 + [Filter(n)], Assign(n));
    Extend(r, r1 + [Filter(n)] + [Assign(n)], Look(n));
    assert After(r, r1 + [Filter(n)] + [Assign(n)] + [Look(n)]).value.open == map[];
  }

  lemma {:induction false} SerialFills(r: Rule, n: nat, now: real)
    requires Usable(r) && n <= r.limit && now >= 0.0
    ensures After(r, Serial(n, now)).Some?
    ensures var b := After(r, Serial(n, now)).value;
            Idle(b, n) && b.clock <= now && b.times == Copies(now, n) && b.clean == Copies(now, n) && b.dirty == []
    decreases n
  {
    if n > 0 {
      SerialFills(r, n - 1, now);
      KeepAlike(r, Copies(now, n - 1), now, now);
      AttemptAlone(r, Serial(n - 1, now), n - 1, now);
    }
  }

  /** Two attempts that both look before either appends. */
  function Together(a: int, b: int, now: real): seq<Step> {
    [Start(a, now), Start(b, now), Filter(a), Assign(a), Look(a)] + [Filter(b), Assign(b), Look(b), Append(a), Append(b)]
  }

  lemma FirstHalf(r: Rule, run: seq<Step>, n: nat, now: real)
    requires Usable(r) && After(r, run).Some? && Idle(After(r, run).value, n) && After(r, run).value.clock <= now
    requires |Keep(r, After(r, run).value.times, now)| < r.limit
    ensures var next := After(r, run + [Start(n, now), Start(n + 1, now), Filter(n), Assign(n), Look(n)]);
            var b := After(r, run).value;
            && next.Some? && next.value.times == Keep(r, b.times, now)
            && next.value.open == map[n := Passed(now), n + 1 := Started(now)] && next.value.overlapped == {n, n + 1}
            && next.value.clean == b.clean && next.value.dirty == b.dirty
  {
    ExtendFive(r, run, Start(n, now), Start(n + 1, now), Filter(n), Assign(n), Look(n));
    var r1 := run + [Start(n, now)];
    var r2 := r1 + [Start(n + 1, now)];
    Extend(r, run, Start(n, now));
    Extend(r, r1, Start(n + 1, now));
    Extend(r, r2, Filter(n));
    Extend(r, r2 + [Filter(n)], Assign(n));
    Extend(r, r2 + [Filter(n)] + [Assign(n)], Look(n));
  }

  lemma SecondHalf(r: Rule, run: seq<Step>, n: nat, now: real)
    requires Usable(r) && After(r, run).Some?
    requires var b := After(r, run).value;
             && b.open == map[n := Passed(now), n + 1 := Started(now)] && b.overlapped == {n, n + 1}
             && |Keep(r, b.times, now)| < r.limit
    ensures var next := After(r, run + [Filter(n + 1), Assign(n + 1), Look(n + 1), Append(n), Append(n + 1)]);
            var b := After(r, run).value;
            && next.Some? && next.value.clean == b.clean && next.value.dirty == b.dirty + [now] + [now]
            && next.value.overlapped == {n, n + 1}
  {
    ExtendFive(r, run, Filter(n + 1), Assign(n + 1), Look(n + 1), Append(n), Append(n + 1));
    var r1 := run + [Filter(n + 1)];
    var r2 := r1 + [Assign(n + 1)];
    Extend(r, run, Filter(n + 1));
    Extend(r, r1, Assign(n + 1));
    Extend(r, r2, Look(n + 1));
    Extend(r, r2 + [Look(n + 1)], Append(n));
    Extend(r, r2 + [Look(n + 1)] + [Append(n)], Append(n + 1));
  }

  lemma TogetherAdmits(r: Rule, before: seq<Step>, n: nat, now: real)
    requires Usable(r) && After(r, before).Some? && Idle(After(r, before).value, n) && After(r, before).value.clock <= now
    requires var kept := Keep(r, After(r, before).value.times, now);
             |kept| < r.limit && Keep(r, kept, now) == kept
    ensures After(r, before + Together(n, n + 1, now)).Some?
    ensures var b, c := After(r, before).value, After(r, before + Together(n, n + 1, now)).value;
            c.clean == b.clean && c.dirty == b.dirty + [now] + [now] && c.overlapped == {n, n + 1}
  {
    var first := [Start(n, now), Start(n + 1, now), Filter(n), Assign(n), Look(n)];
    var second := [Filter(n + 1), Assign(n + 1), Look(n + 1), Append(n), Append(n + 1)];
    FirstHalf(r, before, n, now);
    SecondHalf(r, before + first, n, now);
    assert before + Together(n, n + 1, now) == before + first + second;
  }

  lemma OverflowFrom(r: Rule, w: Window, before: seq<Step>, n: nat, now: real)
    requires Usable(r) && n == r.limit - 1 && Inside(w, now) && After(r, before).Some?
    requires var b := After(r, before).value;
             Idle(b, n) && b.clock <= now && b.times == Copies(now, n) && b.clean == Copies(now, n) && b.dirty == []
    ensures var c := After(r, before + Together(n, n + 1, now));
            && c.Some? && c.value.overlapped == {n, n + 1}
            && Count(c.value.clean, w) + Count(c.value.dirty, w) == r.limit + 1
  {
    KeepAlike(r, Copies(now, n), now, now);
    TogetherAdmits(r, before, n, now);
    BurstInside(w, now, n);
    CountTwo(w, now);
  }

  /** For every limit: two attempts that overlap once the bucket lacks one to be full are both admitted. */
  lemma OverlapOverflows(r: Rule, w: Window, now: real) returns (run: seq<Step>)
    requires Usable(r) && Inside(w, now) && now >= 0.0
    ensures After(r, run).Some? && |After(r, run).value.overlapped| == 2
    ensures var b := After(r, run).value; Count(b.clean, w) + Count(b.dirty, w) == r.limit + 1
  {
    var before := Serial(r.limit - 1, now);
    SerialFills(r, r.limit - 1, now);
    OverflowFrom(r, w, before, r.limit - 1, now);
    run := before + Together(r.limit - 1, r.limit, now);
  }

  lemma CountTwo(w: Window, now: real)
    requires Inside(w, now)
    ensures Count([] + [now] + [now], w) == 2
  {
    var two := [] + [now] + [now];
    assert two[..1] == [now] && [now][..0] == [] && two[1] == now;
    assert Count([now], w) == Count([now][..0], w) + 1;
  }

  /** Every run in which attempts overlap, if they may, keeps to the limit in this window. */
  ghost predicate BoundedRuns(r: Rule, w: Window, mayOverlap: bool) {
    forall run :: After(r, run).Some? && (mayOverlap || After(r, run).value.overlapped == {})
                  ==> Count(After(r, run).value.clean, w) + Count(After(r, run).value.dirty, w) <= r.limit
  }

  /** The limiter bounds its windows if and only if no two attempts of one key overlap. */
  lemma BoundedExactlyAlone(r: Rule, w: Window, now: real, mayOverlap: bool)
    requires Usable(r) && Narrow(r, w) && Inside(w, now) && now >= 0.0
    ensures BoundedRuns(r, w, mayOverlap) <==> !mayOverlap
  {
    if mayOverlap {
      var run := OverlapOverflows(r, w, now);
      assert After(r, run).Some?;
    } else {
      forall run | After(r, run).Some? && After(r, run).value.overlapped == {}
        ensures Count(After(r, run).value.clean, w) + Count(After(r, run).value.dirty, w) <= r.limit
      {
        BoundBesideOverlap(r, run, w);
        DirtyOverlapped(r, run);
      }
    }
  }
}
