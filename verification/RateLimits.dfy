/**
 * Sliding windows: what a limiter admits, and why a pruned buffer may stand in for its whole history of admissions.
 * A rule is closed when a time exactly one window old still counts.
 */
module SlidingWindow {

  datatype Rule = Rule(closed: bool, window: real, limit: int)

  predicate Usable(r: Rule) { r.window > 0.0 && r.limit >= 1 }

  predicate Fresh(r: Rule, t: real, now: real) { if r.closed then t >= now - r.window else t > now - r.window }

  function Keep(r: Rule, times: seq<real>, now: real): seq<real> {
    if times == [] then []
    else
      var n := |times| - 1;
      Keep(r, times[..n], now) + if Fresh(r, times[n], now) then [times[n]] else []
  }

  /** The buffer after attempts at the given times: pruned, then extended if it has room. */
  function Buffer(r: Rule, times: seq<real>): seq<real> {
    if times == [] then []
    else
      var n := |times| - 1;
      var b := Keep(r, Buffer(r, times[..n]), times[n]);
      if |b| >= r.limit then b else b + [times[n]]
  }

  /** Whether an attempt is refused, decided on the buffer alone. */
  predicate Refuses(r: Rule, times: seq<real>, now: real) { |Keep(r, Buffer(r, times), now)| >= r.limit }

  /** Every admission so far; nothing in the code keeps this. */
  function Admitted(r: Rule, times: seq<real>): seq<real> {
    if times == [] then []
    else
      var n := |times| - 1;
      Admitted(r, times[..n]) + if Refuses(r, times[..n], times[n]) then [] else [times[n]]
  }

  predicate Sorted(times: seq<real>) { forall i, j :: 0 <= i < j < |times| ==> times[i] <= times[j] }

  predicate NotAfter(times: seq<real>, now: real) { forall i :: 0 <= i < |times| ==> times[i] <= now }

  /** A stretch of time, each end in or out. */
  datatype Window = Window(lo: real, hi: real, loIn: bool, hiIn: bool)

  predicate Inside(w: Window, t: real) { (w.lo < t || (w.loIn && w.lo == t)) && (t < w.hi || (w.hiIn && w.hi == t)) }

  function Count(times: seq<real>, w: Window): nat {
    if times == [] then 0
    else Count(times[..|times| - 1], w) + if Inside(w, times[|times| - 1]) then 1 else 0
  }

  /** No longer than the rule's window; of exactly that length only with an end left out, or under a closed rule. */
  predicate Narrow(r: Rule, w: Window) {
    w.hi - w.lo < r.window || (w.hi - w.lo == r.window && (r.closed || !w.loIn || !w.hiIn))
  }

  /** The window of the rule that ends now. */
  function Ending(r: Rule, now: real): Window { Window(now - r.window, now, r.closed, true) }

  lemma {:induction false} KeepTwice(r: Rule, times: seq<real>, early: real, late: real)
    requires early <= late
    ensures Keep(r, Keep(r, times, early), late) == Keep(r, times, late)
    decreases |times|
  {
    if times != [] {
      var n := |times| - 1;
      KeepTwice(r, times[..n], early, late);
      var k := Keep(r, times[..n], early);
      if Fresh(r, times[n], early) { assert (k + [times[n]])[..|k|] == k; } else { assert k + [] == k; }
    }
  }

  lemma {:induction false} AdmittedSorted(r: Rule, times: seq<real>, now: real)
    requires Sorted(times) && NotAfter(times, now)
    ensures Sorted(Admitted(r, times)) && NotAfter(Admitted(r, times), now)
    decreases |times|
  {
    if times != [] {
      var n := |times| - 1;
      AdmittedSorted(r, times[..n], times[n]);
    }
  }

  /** The buffer is the whole history of admissions, cut to the window that ended at the last attempt. */
  lemma {:induction false} BufferIsWindow(r: Rule, times: seq<real>)
    requires Usable(r) && Sorted(times)
    ensures Buffer(r, times) == if times == [] then [] else Keep(r, Admitted(r, times), times[|times| - 1])
    decreases |times|, 0
  {
    if times != [] {
      var n := |times| - 1;
      BufferStandsIn(r, times[..n], times[n]);
      var h := Admitted(r, times[..n]);
      assert (h + [times[n]])[..|h|] == h;
      assert h + [] == h;
    }
  }

  /** At any later moment, pruning the buffer gives what pruning the whole history would give. */
  lemma {:induction false} BufferStandsIn(r: Rule, times: seq<real>, now: real)
    requires Usable(r) && Sorted(times) && NotAfter(times, now)
    ensures Keep(r, Buffer(r, times), now) == Keep(r, Admitted(r, times), now)
    decreases |times|, 1
  {
    BufferIsWindow(r, times);
    if times != [] { KeepTwice(r, Admitted(r, times), times[|times| - 1], now); }
  }

  lemma {:induction false} KeepCounts(r: Rule, times: seq<real>, now: real)
    requires NotAfter(times, now)
    ensures |Keep(r, times, now)| == Count(times, Ending(r, now))
    decreases |times|
  {
    if times != [] { KeepCounts(r, times[..|times| - 1], now); }
  }

  /** An attempt is refused exactly when the window that ends with it already holds the limit. */
  lemma RefusedExactlyWhenFull(r: Rule, times: seq<real>, now: real)
    requires Usable(r) && Sorted(times) && NotAfter(times, now)
    ensures Refuses(r, times, now) <==> Count(Admitted(r, times), Ending(r, now)) >= r.limit
  {
    BufferStandsIn(r, times, now);
    AdmittedSorted(r, times, now);
    KeepCounts(r, Admitted(r, times), now);
  }

  lemma {:induction false} KeepAtLeast(r: Rule, times: seq<real>, i: nat, now: real)
    requires Sorted(times) && i < |times| && Fresh(r, times[i], now)
    ensures |Keep(r, times, now)| >= |times| - i
    decreases |times|
  {
    var n := |times| - 1;
    if i < n { KeepAtLeast(r, times[..n], i, now); }
  }

  /** Any two admissions that lie `limit` apart in the history lie a whole window apart in time. */
  predicate Spaced(r: Rule, h: seq<real>)
    requires r.limit >= 1
  {
    forall j :: r.limit <= j < |h| ==> !Fresh(r, h[j - r.limit], h[j])
  }

  lemma {:induction false} AdmittedSpaced(r: Rule, times: seq<real>)
    requires Usable(r) && Sorted(times)
    ensures Spaced(r, Admitted(r, times))
    decreases |times|
  {
    if times != [] {
      var n := |times| - 1;
      AdmittedSpaced(r, times[..n]);
      AdmittedSorted(r, times[..n], times[n]);
      BufferStandsIn(r, times[..n], times[n]);
      SpacedStep(r, Admitted(r, times[..n]), times[n]);
    }
  }

  lemma SpacedStep(r: Rule, h: seq<real>, now: real)
    requires Usable(r) && Sorted(h) && Spaced(r, h)
    ensures |Keep(r, h, now)| < r.limit ==> Spaced(r, h + [now])
  {
    if |h| >= r.limit && Fresh(r, h[|h| - r.limit], now) { KeepAtLeast(r, h, |h| - r.limit, now); }
    var g := h + [now];
    forall j | r.limit <= j < |g| && |Keep(r, h, now)| < r.limit ensures !Fresh(r, g[j - r.limit], g[j]) {
      if j < |h| { assert !Fresh(r, h[j - r.limit], h[j]); }
    }
  }

  lemma {:induction false} CountAtMost(times: seq<real>, w: Window, i: nat)
    requires i <= |times| && forall k :: 0 <= k < i ==> !Inside(w, times[k])
    ensures Count(times, w) <= |times| - i
    decreases |times|
  {
    if |times| > i { CountAtMost(times[..|times| - 1], w, i); }
    else if times != [] { CountAtMost(times[..|times| - 1], w, i - 1); }
  }

  lemma {:induction false} SpacedCount(r: Rule, h: seq<real>, w: Window)
    requires Usable(r) && Sorted(h) && Spaced(r, h) && Narrow(r, w)
    ensures Count(h, w) <= r.limit
    decreases |h|
  {
    if h != [] {
      var n := |h| - 1;
      SpacedCount(r, h[..n], w);
      if Inside(w, h[n]) && |h| > r.limit {
        var from := |h| - r.limit;
        forall k | 0 <= k < from ensures !Inside(w, h[k]) {
          assert !Fresh(r, h[n - r.limit], h[n]);
          assert k == n - r.limit || h[k] <= h[n - r.limit];
        }
        CountAtMost(h, w, from);
      } else if |h| <= r.limit {
        CountAtMost(h, w, 0);
      }
    }
  }

  /** No window anywhere in a run, wherever it begins or ends, holds more admissions than the limit. */
  lemma WindowBound(r: Rule, times: seq<real>, w: Window)
    requires Usable(r) && Sorted(times) && Narrow(r, w)
    ensures Count(Admitted(r, times), w) <= r.limit
  {
    AdmittedSpaced(r, times);
    if times != [] { AdmittedSorted(r, times, times[|times| - 1]); }
    SpacedCount(r, Admitted(r, times), w);
  }

  function Copies(t: real, n: nat): (times: seq<real>)
    ensures |times| == n && forall k :: 0 <= k < n ==> times[k] == t
  {
    if n == 0 then [] else Copies(t, n - 1) + [t]
  }

  lemma {:induction false} KeepAlike(r: Rule, times: seq<real>, t: real, now: real)
    requires forall k :: 0 <= k < |times| ==> times[k] == t
    ensures Keep(r, times, now) == if Fresh(r, t, now) then times else []
    decreases |times|
  {
    if times != [] {
      KeepAlike(r, times[..|times| - 1], t, now);
      assert times == times[..|times| - 1] + [times[|times| - 1]];
    }
  }

  lemma {:induction false} BurstAdmitted(r: Rule, t: real, n: nat)
    requires Usable(r) && n <= r.limit
    ensures Buffer(r, Copies(t, n)) == Copies(t, n) && Admitted(r, Copies(t, n)) == Copies(t, n)
    decreases n
  {
    if n > 0 {
      BurstAdmitted(r, t, n - 1);
      KeepAlike(r, Copies(t, n - 1), t, t);
      assert Copies(t, n)[..n - 1] == Copies(t, n - 1);
    }
  }

  lemma {:induction false} BurstInside(w: Window, t: real, n: nat)
    requires Inside(w, t)
    ensures Count(Copies(t, n), w) == n
    decreases n
  {
    if n > 0 {
      BurstInside(w, t, n - 1);
      assert Copies(t, n)[..n - 1] == Copies(t, n - 1);
    }
  }

  lemma SortedBurst(early: real, late: real, n: nat)
    requires early <= late
    ensures Sorted(Copies(early, n) + [late])
  {}

  lemma BurstGone(r: Rule, early: real, late: real)
    requires Usable(r) && !Fresh(r, early, late)
    ensures !Refuses(r, Copies(early, r.limit), late) && Admitted(r, Copies(early, r.limit)) == Copies(early, r.limit)
  {
    BurstAdmitted(r, early, r.limit);
    KeepAlike(r, Copies(early, r.limit), early, late);
  }

  /** A full burst, and one more attempt when all of it has just gone stale: all are admitted. */
  lemma Overflow(r: Rule, w: Window, early: real, late: real)
    requires Usable(r) && early <= late && !Fresh(r, early, late) && Inside(w, early) && Inside(w, late)
    ensures var times := Copies(early, r.limit) + [late];
            Sorted(times) && Count(Admitted(r, times), w) == r.limit + 1
  {
    SortedBurst(early, late, r.limit);
    BurstInside(w, early, r.limit);
    BurstGone(r, early, late);
    AdmittedMore(r, Copies(early, r.limit), late);
    CountMore(Copies(early, r.limit), late, w);
  }

  lemma AdmittedMore(r: Rule, times: seq<real>, now: real)
    ensures Admitted(r, times + [now]) == Admitted(r, times) + if Refuses(r, times, now) then [] else [now]
  {
    assert (times + [now])[..|times|] == times;
  }

  lemma CountMore(times: seq<real>, t: real, w: Window)
    ensures Count(times + [t], w) == Count(times, w) + if Inside(w, t) then 1 else 0
  {
    assert (times + [t])[..|times|] == times;
  }

  /** Every run keeps to the limit in this window. */
  ghost predicate Bounded(r: Rule, w: Window) {
    forall times :: Sorted(times) ==> Count(Admitted(r, times), w) <= r.limit
  }

  /**
   * And only such windows are safe: a longer one can hold more, and so can one of exactly the rule's length with both
   * its ends in, if the rule is open.
   */
  lemma BoundedExactly(r: Rule, w: Window)
    requires Usable(r) && w.lo < w.hi
    ensures Bounded(r, w) <==> Narrow(r, w)
  {
    if Narrow(r, w) {
      forall times | Sorted(times) ensures Count(Admitted(r, times), w) <= r.limit { WindowBound(r, times, w); }
    } else {
      var slack := (w.hi - w.lo - r.window) / 4.0;
      var early, late := w.lo + slack, w.hi - slack;
      assert early <= late && !Fresh(r, early, late) && Inside(w, early) && Inside(w, late);
      Overflow(r, w, early, late);
      var times := Copies(early, r.limit) + [late];
      assert Sorted(times) && Count(Admitted(r, times), w) > r.limit;
    }
  }
}

/** The two limiters: request times per key, pruned at every attempt. */
module RateLimits {
  import opened SlidingWindow

  datatype Attempt = Attempt(key: string, now: real)

  function Times(log: seq<Attempt>, key: string): seq<real> {
    if log == [] then []
    else
      var n := |log| - 1;
      Times(log[..n], key) + if log[n].key == key then [log[n].now] else []
  }

  predicate InOrder(log: seq<Attempt>) { forall i, j :: 0 <= i < j < |log| ==> log[i].now <= log[j].now }

  predicate Before(log: seq<Attempt>, now: real) { forall i :: 0 <= i < |log| ==> log[i].now <= now }

  function Bucket(m: map<string, seq<real>>, key: string): seq<real> { if key in m then m[key] else [] }

  lemma {:induction false} TimesSorted(log: seq<Attempt>, key: string, now: real)
    requires InOrder(log) && Before(log, now)
    ensures Sorted(Times(log, key)) && NotAfter(Times(log, key), now)
    decreases |log|
  {
    if log != [] { TimesSorted(log[..|log| - 1], key, log[|log| - 1].now); }
  }

  lemma TimesExtend(log: seq<Attempt>, a: Attempt, key: string)
    ensures Times(log + [a], key) == Times(log, key) + if a.key == key then [a.now] else []
  {
    assert (log + [a])[..|log|] == log;
  }

  lemma BufferExtend(r: Rule, times: seq<real>, now: real)
    ensures var b := Keep(r, Buffer(r, times), now);
            Buffer(r, times + [now]) == if |b| >= r.limit then b else b + [now]
  {
    assert (times + [now])[..|times|] == times;
  }

  const WINDOW := 60.0

  /** Buffers in step with the log: each key's buffer depends on that key's attempts alone. */
  ghost predicate InStep(m: map<string, seq<real>>, rules: string -> Rule, log: seq<Attempt>) {
    forall key :: Bucket(m, key) == Buffer(rules(key), Times(log, key))
  }

  lemma StaysInStep(m: map<string, seq<real>>, rules: string -> Rule, log: seq<Attempt>, key: string, now: real)
    requires InStep(m, rules, log)
    ensures var b := Keep(rules(key), Bucket(m, key), now);
            InStep(m[key := if |b| >= rules(key).limit then b else b + [now]], rules, log + [Attempt(key, now)])
  {
    var a := Attempt(key, now);
    var b := Keep(rules(key), Bucket(m, key), now);
    var next := m[key := if |b| >= rules(key).limit then b else b + [now]];
    forall k ensures Bucket(next, k) == Buffer(rules(k), Times(log + [a], k)) {
      TimesExtend(log, a, k);
      BufferExtend(rules(k), Times(log, k), now);
      assert k != key ==> Times(log, k) + [] == Times(log, k);
    }
  }

  lemma {:induction false} DropStale(r: Rule, times: seq<real>, now: real)
    requires Sorted(times) && times != [] && !Fresh(r, times[0], now)
    ensures Keep(r, times, now) == Keep(r, times[1..], now)
    decreases |times|
  {
    var n := |times| - 1;
    if n == 0 {
      assert times[..0] == [] && times[1..] == [];
    } else {
      DropStale(r, times[..n], now);
      assert times[..n][1..] == times[1..][..n - 1];
      assert times[1..][n - 1] == times[n];
    }
  }

  lemma {:induction false} AllFresh(r: Rule, times: seq<real>, now: real)
    requires Sorted(times) && (times != [] ==> Fresh(r, times[0], now))
    ensures Keep(r, times, now) == times
    decreases |times|
  {
    if times != [] {
      var n := |times| - 1;
      if n == 0 { assert times[..0] == []; } else { AllFresh(r, times[..n], now); }
      assert times == times[..n] + [times[n]];
    }
  }

  lemma {:induction false} KeepSorted(r: Rule, times: seq<real>, now: real)
    requires Sorted(times)
    ensures Sorted(Keep(r, times, now))
    ensures forall t :: t in Keep(r, times, now) ==> t in times
    decreases |times|
  {
    if times != [] {
      var n := |times| - 1;
      KeepSorted(r, times[..n], now);
      forall i | 0 <= i < |Keep(r, times[..n], now)| ensures Keep(r, times[..n], now)[i] <= times[n] {
        assert Keep(r, times[..n], now)[i] in Keep(r, times[..n], now);
      }
    }
  }

  lemma BufferSorted(r: Rule, times: seq<real>)
    requires Usable(r) && Sorted(times)
    ensures Sorted(Buffer(r, times))
  {
    BufferIsWindow(r, times);
    if times != [] {
      AdmittedSorted(r, times, times[|times| - 1]);
      KeepSorted(r, Admitted(r, times), times[|times| - 1]);
    }
  }

  /** What one attempt needs to know of the buffers: the answer, and that they stay in step. */
  lemma Answer(m: map<string, seq<real>>, rules: string -> Rule, log: seq<Attempt>, key: string, now: real)
    requires Usable(rules(key)) && InOrder(log) && Before(log, now) && InStep(m, rules, log)
    ensures var r, times, bucket := rules(key), Times(log, key), Bucket(m, key);
            && Sorted(bucket)
            && (|Keep(r, bucket, now)| >= r.limit <==> Count(Admitted(r, times), Ending(r, now)) >= r.limit)
  {
    TimesSorted(log, key, now);
    BufferSorted(rules(key), Times(log, key));
    RefusedExactlyWhenFull(rules(key), Times(log, key), now);
  }

  /** Whatever attempts of other keys run between, no window anywhere holds more of a key's admissions than its limit. */
  lemma NoWindowOverflows(rules: string -> Rule, log: seq<Attempt>, key: string, w: Window)
    requires Usable(rules(key)) && InOrder(log) && Narrow(rules(key), w)
    ensures Count(Admitted(rules(key), Times(log, key)), w) <= rules(key).limit
  {
    if log != [] { TimesSorted(log, key, log[|log| - 1].now); }
    WindowBound(rules(key), Times(log, key), w);
  }

  /** The public boundary's limiter: deques over a minute; a time exactly one minute old is dropped. */
  class BoundaryLimiter {
    var requestTimes: map<string, seq<real>>
    const limits: string -> int
    ghost const rules: string -> Rule
    ghost var log: seq<Attempt>

    ghost predicate Valid() reads this {
      && (forall key :: rules(key) == Rule(false, 60.0, limits(key)) && limits(key) >= 1)
      && InOrder(log)
      && InStep(requestTimes, rules, log)
    }

    constructor (limits: string -> int)
      requires forall key :: limits(key) >= 1
      ensures Valid() && log == [] && this.limits == limits
    {
      this.limits := limits;
      this.rules := key => Rule(false, 60.0, limits(key));
      requestTimes := map[];
      log := [];
    }

    static method PopStale(queue: seq<real>, ghost r: Rule, now: real) returns (times: seq<real>)
      requires Sorted(queue) && !r.closed && r.window == 60.0
      ensures times == Keep(r, queue, now)
    {
      var cutoff := now - WINDOW;
      times := queue;
      while times != [] && times[0] <= cutoff
        invariant Sorted(times) && Keep(r, times, now) == Keep(r, queue, now)
        decreases |times|
      {
        DropStale(r, times, now);
        times := times[1..];
      }
      AllFresh(r, times, now);
    }

    /** Refused exactly when the minute ending now already holds the limit of this key's admissions. */
    method RateLimited(key: string, now: real) returns (limited: bool)
      requires Valid() && Before(log, now)
      modifies this
      ensures Valid() && log == old(log) + [Attempt(key, now)]
      ensures limited <==> Count(Admitted(rules(key), Times(old(log), key)), Ending(rules(key), now)) >= limits(key)
    {
      Answer(requestTimes, rules, log, key, now);
      StaysInStep(requestTimes, rules, log, key, now);
      var times := if key in requestTimes then requestTimes[key] else [];
      times := PopStale(times, rules(key), now);
      limited := |times| >= limits(key);
      if !limited { times := times + [now]; }
      requestTimes := requestTimes[key := times];
      log := log + [Attempt(key, now)];
    }
  }

  function AtLeastOne(n: int): (r: int)
    ensures r >= 1 && r >= n && (r == 1 || r == n)
  {
    if n > 1 then n else 1
  }

  /** The onboarding limiter: lists per key; a time exactly one window old still counts. */
  class OnboardingLimiter {
    var windows: map<string, seq<real>>
    const limits: string -> int
    const seconds: string -> int
    ghost const rules: string -> Rule
    ghost var log: seq<Attempt>

    ghost predicate Valid() reads this {
      && (forall key :: rules(key) == Rule(true, AtLeastOne(seconds(key)) as real, AtLeastOne(limits(key))))
      && InOrder(log)
      && InStep(windows, rules, log)
    }

    constructor (limits: string -> int, seconds: string -> int)
      ensures Valid() && log == [] && this.limits == limits && this.seconds == seconds
    {
      this.limits := limits;
      this.seconds := seconds;
      this.rules := key => Rule(true, AtLeastOne(seconds(key)) as real, AtLeastOne(limits(key)));
      windows := map[];
      log := [];
    }

    static method StillCounting(bucket: seq<real>, ghost r: Rule, now: real, window: real) returns (kept: seq<real>)
      requires r.closed && r.window == window
      ensures kept == Keep(r, bucket, now)
    {
      var start := now - window;
      kept := [];
      for i := 0 to |bucket|
        invariant kept == Keep(r, bucket[..i], now)
      {
        assert bucket[..i + 1][..i] == bucket[..i];
        if bucket[i] >= start { kept := kept + [bucket[i]]; }
      }
      assert bucket[..|bucket|] == bucket;
    }

    /**
     * One attempt that no other of its key disturbs: admitted exactly when the window ending now, its far end included,
     * holds fewer admissions than the limit.
     */
    method RateLimit(key: string, now: real) returns (allowed: bool)
      requires Valid() && Before(log, now)
      modifies this
      ensures Valid() && log == old(log) + [Attempt(key, now)]
      ensures allowed <==> Count(Admitted(rules(key), Times(old(log), key)), Ending(rules(key), now)) < rules(key).limit
    {
      Answer(windows, rules, log, key, now);
      StaysInStep(windows, rules, log, key, now);
      var bucket := if key in windows then windows[key] else [];
      bucket := StillCounting(bucket, rules(key), now, AtLeastOne(seconds(key)) as real);
      allowed := |bucket| < AtLeastOne(limits(key));
      if allowed { bucket := bucket + [now]; }
      windows := windows[key := bucket];
      log := log + [Attempt(key, now)];
    }
  }
}
