/** The MQTT runtime supervision loop: one pass after another, any awaited call of which may raise. */
module MqttSupervision {
  import opened Text
  import ComposeFile

  /** What a call did. One that raised may have done its work before. */
  datatype Call = Fine | Raised(error: string, done: bool)

  datatype Check = Status(healthy: bool, reason: Option<string>) | Broke(error: string)

  /** What one pass meets: which parts are present, and what each call answers. Telemetry is its three calls in one. */
  datatype Calls = Calls(runtime: bool, reconciler: bool, audit: bool, telemetry: bool, noisy: bool,
                         check: Check, ensure: Check, reconcile: Call, ensureAgain: Check,
                         getState: Call, update: Call, append: Call, emit: Call,
                         publish: Call, measure: Call, evaluate: Call)

  datatype Setup = Setup(requiresSetup: bool, complete: bool, status: string, brokerMode: string, direct: bool,
                         error: Option<string>, authorityMode: string, ready: bool)

  /** The loop's three variables. */
  datatype Memory = Memory(healthy: Option<bool>, warned: Option<string>, error: Option<string>)

  const AT_START := Memory(None, None, None)

  /**
   * What an observer of the loop sees, in order. A report is noted when it was delivered; its call may have raised all
   * the same.
   */
  datatype Note =
    | Checked(healthy: bool)      // the status a pass settled on
    | Warned(reason: string, returned: bool)  // a warning was delivered
    | Down(reason: string)        // the unhealthy branch was completed
    | WentOnline(returned: bool)  // an online report was delivered
    | Settled                     // the healthy branch was completed
    | ErrorSeen(error: string)    // the pass ended in an exception
    | ErrorTried(error: string)   // and its error report was attempted

  const UNHEALTHY := "runtime_unhealthy"

  function OrDefault(reason: Option<string>): string {
    if reason.Some? && reason.value != "" then reason.value else UNHEALTHY
  }

  function ReasonOf(reason: Option<string>): string {
    var r := Strip(OrDefault(reason));
    if r == "" then UNHEALTHY else r
  }

  predicate ConfigMissing(reason: Option<string>) {
    reason.Some? && "config_missing" <= ComposeFile.Lower(reason.value)
  }

  /** The health check, the attempt to start, and the one repair of a missing configuration. */
  function FinalStatus(c: Calls): Check {
    if c.check.Broke? || c.check.healthy then c.check
    else if c.ensure.Broke? || c.ensure.healthy then c.ensure
    else if ConfigMissing(c.ensure.reason) && c.reconciler then
      if c.reconcile.Raised? then Broke(c.reconcile.error) else c.ensureAgain
    else c.ensure
  }

  function Degraded(s: Setup, reason: Option<string>): Setup {
    s.(complete := false, status := "degraded", error := Some(OrDefault(reason)), ready := false)
  }

  function Restored(s: Setup): Setup { s.(complete := true, status := "ready", error := None, ready := true) }

  predicate NeedsRestoring(s: Setup) { s.status == "degraded" && s.error.Some? && s.error.value != "" }

  /** The store after an update call. */
  function Updated(s: Setup, next: Setup, call: Call): Setup { if call.Fine? || call.done then next else s }

  datatype Outcome = Outcome(memory: Memory, setup: Setup, notes: seq<Note>, error: Option<string>)

  function ErrorOf(call: Call): Option<string> { if call.Raised? then Some(call.error) else None }

  function Rest(c: Calls): Option<string> {
    if c.telemetry && c.measure.Raised? then Some(c.measure.error)
    else if c.noisy then ErrorOf(c.evaluate) else None
  }

  predicate WarnsNow(service: bool, m: Memory, reason: string) {
    service && (m.healthy != Some(false) || m.warned != Some(reason))
  }

  predicate OnlineNow(service: bool, m: Memory) { service && (m.healthy == Some(false) || m.error.Some?) }

  /** The unhealthy branch: `next` is the degraded setup, `r` the reason to report. */
  function UnhealthyBranch(service: bool, m: Memory, s: Setup, next: Setup, r: string, c: Calls): Outcome {
    var s1 := Updated(s, next, c.update);
    if c.update.Raised? then Outcome(m, s1, [Checked(false)], Some(c.update.error))
    else if c.audit && c.append.Raised? then Outcome(m, s1, [Checked(false)], Some(c.append.error))
    else if WarnsNow(service, m, r) then
      if c.emit.Raised? then
        Outcome(m, s1, [Checked(false)] + if c.emit.done then [Warned(r, false)] else [], Some(c.emit.error))
      else Outcome(Memory(Some(false), Some(r), None), s1, [Checked(false), Warned(r, true), Down(r)], Rest(c))
    else Outcome(Memory(Some(false), Some(r), None), s1, [Checked(false), Down(r)], Rest(c))
  }

  function AfterHealthy(c: Calls): Option<string> {
    if c.reconciler && c.publish.Raised? then Some(c.publish.error) else Rest(c)
  }

  /** The healthy branch: `fix` is the restored setup, when the stored one is degraded. */
  function HealthyBranch(service: bool, m: Memory, s: Setup, fix: Option<Setup>, c: Calls): Outcome {
    var s1 := if fix.Some? then Updated(s, fix.value, c.update) else s;
    if fix.Some? && c.update.Raised? then Outcome(m, s1, [Checked(true)], Some(c.update.error))
    else if OnlineNow(service, m) then
      if c.emit.Raised? then
        Outcome(m, s1, [Checked(true)] + if c.emit.done then [WentOnline(false)] else [], Some(c.emit.error))
      else Outcome(Memory(Some(true), None, None), s1, [Checked(true), WentOnline(true), Settled], AfterHealthy(c))
    else Outcome(Memory(Some(true), None, None), s1, [Checked(true), Settled], AfterHealthy(c))
  }

  function FixOf(s: Setup): Option<Setup> { if NeedsRestoring(s) then Some(Restored(s)) else None }

  /** The body of the try block. */
  function Body(service: bool, m: Memory, s: Setup, c: Calls): Outcome {
    if !c.runtime then Outcome(m, s, [], Rest(c))
    else
      match FinalStatus(c)
      case Broke(e) => Outcome(m, s, [], Some(e))
      case Status(healthy, reason) =>
        if c.getState.Raised? then Outcome(m, s, [Checked(healthy)], Some(c.getState.error))
        else if healthy then HealthyBranch(service, m, s, FixOf(s), c)
        else UnhealthyBranch(service, m, s, Degraded(s, reason), ReasonOf(reason), c)
  }

  /** One pass: the body, and the handler when it raised. */
  function Pass(service: bool, m: Memory, s: Setup, c: Calls): Outcome {
    var o := Body(service, m, s, c);
    match o.error
    case None => o
    case Some(e) =>
      var tried := if service && o.memory.error != Some(e) then [ErrorTried(e)] else [];
      o.(memory := o.memory.(healthy := Some(false), error := Some(e)), notes := o.notes + [ErrorSeen(e)] + tried)
  }

  /** A pass, with whatever others did to the stored setup before it. */
  datatype Round = Round(calls: Calls, outside: Option<Setup>)

  function Before(s: Setup, r: Round): Setup { if r.outside.Some? then r.outside.value else s }

  datatype Progress = Progress(memory: Memory, setup: Setup, notes: seq<Note>)

  function Run(service: bool, start: Setup, rounds: seq<Round>): Progress {
    if rounds == [] then Progress(AT_START, start, [])
    else
      var n := |rounds| - 1;
      var p := Run(service, start, rounds[..n]);
      var o := Pass(service, p.memory, Before(p.setup, rounds[n]), rounds[n].calls);
      Progress(o.memory, o.setup, p.notes + o.notes)
  }

  // ---------------------------------------------------------------- reading the trace

  /**
   * The reason warned of, in a call that returned, since the loop last settled, whether anything went wrong since the last online report or
   * settling, whether the status settled on last was healthy, and whether every note so far was in order.
   */
  datatype Tracker = Tracker(warned: Option<string>, armed: bool, well: bool, proper: bool)

  function Track(t: Tracker, note: Note): Tracker {
    match note
    case Checked(healthy) => t.(armed := t.armed || !healthy, well := healthy)
    case Warned(r, returned) =>
      t.(warned := if returned then Some(r) else t.warned, well := false,
         proper := t.proper && t.warned != Some(r) && !t.well)
    case Down(_) => t.(proper := t.proper && !t.well)
    case WentOnline(_) => t.(armed := false, proper := t.proper && t.armed && t.well)
    case Settled => t.(warned := None, armed := false, proper := t.proper && t.well)
    case ErrorSeen(_) => t.(armed := true)
    case ErrorTried(_) => t
  }

  const UNTRACKED := Tracker(None, false, false, true)

  function TrackAll(t: Tracker, notes: seq<Note>): Tracker
    decreases |notes|
  {
    if notes == [] then t else TrackAll(Track(t, notes[0]), notes[1..])
  }

  lemma {:induction false} TrackAppend(t: Tracker, a: seq<Note>, b: seq<Note>)
    ensures TrackAll(t, a + b) == TrackAll(TrackAll(t, a), b)
    decreases |a|
  {
    if a == [] {
      assert a + b == b;
    } else {
      assert (a + b)[1..] == a[1..] + b;
      TrackAppend(Track(t, a[0]), a[1..], b);
    }
  }

  lemma TrackFew(t: Tracker, a: Note, b: Note, c: Note)
    ensures TrackAll(t, [a]) == Track(t, a)
    ensures TrackAll(t, [a, b]) == Track(Track(t, a), b)
    ensures TrackAll(t, [a, b, c]) == Track(Track(Track(t, a), b), c)
  {
    assert [a, b, c][1..] == [b, c] && [b, c][1..] == [c] && [a, b][1..] == [b];
    assert TrackAll(Track(t, a), [b]) == Track(Track(t, a), b);
    assert TrackAll(Track(t, a), [b, c]) == TrackAll(Track(Track(t, a), b), [c]);
    assert TrackAll(Track(Track(t, a), b), [c]) == Track(Track(Track(t, a), b), c);
  }

  /** The loop's variables say the same as the trace. */
  predicate InStep(service: bool, m: Memory, t: Tracker) {
    && t.proper
    && (m.warned.Some? ==> m.healthy == Some(false))
    && (service ==> m.warned == t.warned)
    && (t.armed <==> m.healthy == Some(false) || m.error.Some?)
  }

  predicate Halfway(service: bool, m: Memory, t: Tracker, raised: bool) {
    && t.proper
    && (m.warned.Some? ==> m.healthy == Some(false))
    && (service ==> m.warned == t.warned)
    && (!raised ==> (t.armed <==> m.healthy == Some(false) || m.error.Some?))
  }

  lemma UnhealthyInStep(service: bool, m: Memory, s: Setup, next: Setup, r: string, c: Calls, t: Tracker)
    requires InStep(service, m, t)
    ensures var o := UnhealthyBranch(service, m, s, next, r, c);
            Halfway(service, o.memory, TrackAll(t, o.notes), o.error.Some?)
  {
    TrackFew(t, Checked(false), Warned(r, true), Down(r));
    TrackFew(t, Checked(false), Warned(r, false), Settled);
    TrackFew(t, Checked(false), Down(r), Settled);
  }

  lemma HealthyInStep(service: bool, m: Memory, s: Setup, fix: Option<Setup>, c: Calls, t: Tracker)
    requires InStep(service, m, t)
    ensures var o := HealthyBranch(service, m, s, fix, c);
            Halfway(service, o.memory, TrackAll(t, o.notes), o.error.Some?)
  {
    TrackFew(t, Checked(true), WentOnline(true), Settled);
    TrackFew(t, Checked(true), WentOnline(false), Settled);
    TrackFew(t, Checked(true), Settled, Settled);
  }

  lemma BodyInStep(service: bool, m: Memory, s: Setup, c: Calls, t: Tracker)
    requires InStep(service, m, t)
    ensures var o := Body(service, m, s, c); Halfway(service, o.memory, TrackAll(t, o.notes), o.error.Some?)
  {
    var status := FinalStatus(c);
    if c.runtime && status.Status? {
      TrackFew(t, Checked(status.healthy), Settled, Settled);
      if status.healthy {
        HealthyInStep(service, m, s, FixOf(s), c, t);
      } else {
        UnhealthyInStep(service, m, s, Degraded(s, status.reason), ReasonOf(status.reason), c, t);
      }
    }
  }

  lemma PassInStep(service: bool, m: Memory, s: Setup, c: Calls, t: Tracker)
    requires InStep(service, m, t)
    ensures var o := Pass(service, m, s, c); InStep(service, o.memory, TrackAll(t, o.notes))
  {
    BodyInStep(service, m, s, c, t);
    var b := Body(service, m, s, c);
    if b.error.Some? {
      var e := b.error.value;
      var u := TrackAll(t, b.notes);
      TrackFew(u, ErrorSeen(e), ErrorTried(e), Settled);
      TrackAppend(t, b.notes, [ErrorSeen(e)]);
      TrackAppend(t, b.notes, [ErrorSeen(e), ErrorTried(e)]);
      assert b.notes + [ErrorSeen(e)] + [ErrorTried(e)] == b.notes + [ErrorSeen(e), ErrorTried(e)];
      assert b.notes + [ErrorSeen(e)] + [] == b.notes + [ErrorSeen(e)];
    }
  }

  /** Over every run the variables summarize the trace, and every report in it was in order. */
  lemma {:induction false} RunInStep(service: bool, start: Setup, rounds: seq<Round>)
    ensures var p := Run(service, start, rounds); InStep(service, p.memory, TrackAll(UNTRACKED, p.notes))
    decreases |rounds|
  {
    if rounds != [] {
      var n := |rounds| - 1;
      RunInStep(service, start, rounds[..n]);
      var p := Run(service, start, rounds[..n]);
      var s := Before(p.setup, rounds[n]);
      PassInStep(service, p.memory, s, rounds[n].calls, TrackAll(UNTRACKED, p.notes));
      TrackAppend(UNTRACKED, p.notes, Pass(service, p.memory, s, rounds[n].calls).notes);
    }
  }

  lemma {:induction false} ProperPrefix(notes: seq<Note>, k: nat)
    requires k < |notes| && TrackAll(UNTRACKED, notes).proper
    ensures TrackAll(UNTRACKED, notes[..k + 1]) == Track(TrackAll(UNTRACKED, notes[..k]), notes[k])
    ensures TrackAll(UNTRACKED, notes[..k + 1]).proper
  {
    TrackFew(TrackAll(UNTRACKED, notes[..k]), notes[k], notes[k], notes[k]);
    TrackAppend(UNTRACKED, notes[..k], [notes[k]]);
    assert notes[..k + 1] == notes[..k] + [notes[k]];
    TrackAppend(UNTRACKED, notes[..k + 1], notes[k + 1..]);
    assert notes == notes[..k + 1] + notes[k + 1..];
    if !TrackAll(UNTRACKED, notes[..k + 1]).proper {
      StaysImproper(TrackAll(UNTRACKED, notes[..k + 1]), notes[k + 1..]);
    }
  }

  lemma {:induction false} StaysImproper(t: Tracker, notes: seq<Note>)
    requires !t.proper
    ensures !TrackAll(t, notes).proper
    decreases |notes|
  {
    if notes != [] { StaysImproper(Track(t, notes[0]), notes[1..]); }
  }

  /** An armed trace has a failed check or an error that no online report and no settling follows. */
  lemma {:induction false} ArmedMeans(notes: seq<Note>, k: nat) returns (c: nat)
    requires k <= |notes| && TrackAll(UNTRACKED, notes).proper && TrackAll(UNTRACKED, notes[..k]).armed
    ensures c < k && (notes[c] == Checked(false) || notes[c].ErrorSeen?)
    ensures forall x :: c < x < k ==> !notes[x].WentOnline? && !notes[x].Settled?
    decreases k
  {
    assert notes[..0] == [];
    ProperPrefix(notes, k - 1);
    if notes[k - 1] == Checked(false) || notes[k - 1].ErrorSeen? { c := k - 1; } else { c := ArmedMeans(notes, k - 1); }
  }

  /** A trace that is well has a healthy check that no warning follows. */
  lemma {:induction false} WellMeans(notes: seq<Note>, k: nat) returns (c: nat)
    requires k <= |notes| && TrackAll(UNTRACKED, notes).proper && TrackAll(UNTRACKED, notes[..k]).well
    ensures c < k && notes[c] == Checked(true) && forall x :: c < x < k ==> !notes[x].Warned?
    decreases k
  {
    assert notes[..0] == [];
    ProperPrefix(notes, k - 1);
    if notes[k - 1].Checked? { c := k - 1; } else { c := WellMeans(notes, k - 1); }
  }

  lemma {:induction false} WarnedUntilSettled(notes: seq<Note>, i: nat, k: nat)
    requires i < k <= |notes| && TrackAll(UNTRACKED, notes).proper && notes[i].Warned? && notes[i].returned
    requires forall x :: i < x < k ==> !notes[x].Warned? && !notes[x].Settled?
    ensures TrackAll(UNTRACKED, notes[..k]).warned == Some(notes[i].reason)
    decreases k
  {
    ProperPrefix(notes, k - 1);
    if i < k - 1 { WarnedUntilSettled(notes, i, k - 1); }
  }

  lemma {:induction false} SettledBetween(notes: seq<Note>, i: nat, k: nat) returns (c: nat)
    requires i < k <= |notes| && exists x :: i < x < k && notes[x].Settled?
    ensures i < c < k && notes[c].Settled?
  {
    c :| i < c < k && notes[c].Settled?;
  }

  /**
   * Two warnings delivered in a row with the same reason have a healthy check between them, in every run, unless the
   * call that delivered the first one raised.
   */
  lemma WarningsSeparated(service: bool, start: Setup, rounds: seq<Round>, i: nat, j: nat) returns (c: nat)
    requires var notes := Run(service, start, rounds).notes;
             && i < j < |notes| && notes[i].Warned? && notes[j].Warned? && notes[i].returned
             && notes[j].reason == notes[i].reason
             && forall x :: i < x < j ==> !notes[x].Warned?
    ensures i < c < j && Run(service, start, rounds).notes[c] == Checked(true)
  {
    var notes := Run(service, start, rounds).notes;
    RunInStep(service, start, rounds);
    ProperPrefix(notes, j);
    if forall x :: i < x < j ==> !notes[x].Settled? {
      WarnedUntilSettled(notes, i, j);
      assert false;
    }
    var k := SettledBetween(notes, i, j);
    ProperPrefix(notes, k);
    c := WellMeans(notes, k);
  }

  lemma NextRound(service: bool, start: Setup, rounds: seq<Round>, r: Round)
    ensures var p := Run(service, start, rounds);
            var o := Pass(service, p.memory, Before(p.setup, r), r.calls);
            Run(service, start, rounds + [r]) == Progress(o.memory, o.setup, p.notes + o.notes)
  {
    assert (rounds + [r])[..|rounds|] == rounds;
  }

  /** And then it is repeated at once, by the next pass of the same kind: no check between them is a healthy one. */
  lemma RaisedWarningRepeats(c: Calls, start: Setup)
    requires c.runtime && FinalStatus(c).Status? && !FinalStatus(c).healthy
    requires c.getState.Fine? && c.update.Fine? && c.append.Fine? && c.emit.Raised? && c.emit.done
    ensures var r, e := ReasonOf(FinalStatus(c).reason), c.emit.error;
            Run(true, start, [] + [Round(c, None)] + [Round(c, None)]).notes
            == [] + [Checked(false), Warned(r, false), ErrorSeen(e), ErrorTried(e)]
                  + [Checked(false), Warned(r, false), ErrorSeen(e)]
  {
    var e := c.emit.error;
    NextRound(true, start, [], Round(c, None));
    RaisingPass(AT_START, start, c);
    NextRound(true, start, [] + [Round(c, None)], Round(c, None));
    RaisingPass(Memory(Some(false), None, Some(e)), Pass(true, AT_START, start, c).setup, c);
  }

  lemma RaisingPass(m: Memory, s: Setup, c: Calls)
    requires c.runtime && FinalStatus(c).Status? && !FinalStatus(c).healthy
    requires c.getState.Fine? && c.update.Fine? && c.append.Fine? && c.emit.Raised? && c.emit.done
    requires m.warned.None?
    ensures var r, e := ReasonOf(FinalStatus(c).reason), c.emit.error;
            var o := Pass(true, m, s, c);
            && o.memory == Memory(Some(false), None, Some(e))
            && o.notes == if m.error == Some(e) then [Checked(false), Warned(r, false), ErrorSeen(e)]
                           else [Checked(false), Warned(r, false), ErrorSeen(e), ErrorTried(e)]
  {}

  /** Every online report has an unhealthy check or an error before it, since the previous report or since the start. */
  lemma OnlineIsNews(service: bool, start: Setup, rounds: seq<Round>, j: nat) returns (c: nat)
    requires j < |Run(service, start, rounds).notes| && Run(service, start, rounds).notes[j].WentOnline?
    ensures var notes := Run(service, start, rounds).notes;
            && c < j && (notes[c] == Checked(false) || notes[c].ErrorSeen?)
            && forall x :: c < x < j ==> !notes[x].WentOnline? && !notes[x].Settled?
  {
    RunInStep(service, start, rounds);
    ProperPrefix(Run(service, start, rounds).notes, j);
    c := ArmedMeans(Run(service, start, rounds).notes, j);
  }

  /** No call of the pass up to its reports raises. */
  predicate CallsSucceed(c: Calls) { c.getState.Fine? && c.update.Fine? && c.append.Fine? && c.emit.Fine? }

  /** And no news is kept back: an unhealthy pass warns unless just this reason was warned of since the last settling. */
  lemma WarnsExactlyWhenNew(service: bool, start: Setup, rounds: seq<Round>, s: Setup, c: Calls)
    requires c.runtime && FinalStatus(c).Status? && !FinalStatus(c).healthy && CallsSucceed(c)
    ensures var p := Run(service, start, rounds);
            var r := ReasonOf(FinalStatus(c).reason);
            Warned(r, true) in Pass(service, p.memory, s, c).notes
            <==> service && TrackAll(UNTRACKED, p.notes).warned != Some(r)
  {
    RunInStep(service, start, rounds);
  }

  /** A healthy pass reports online exactly when something went wrong since the loop last settled. */
  lemma OnlineExactlyWhenNew(service: bool, start: Setup, rounds: seq<Round>, s: Setup, c: Calls)
    requires c.runtime && FinalStatus(c).Status? && FinalStatus(c).healthy && CallsSucceed(c)
    ensures var p := Run(service, start, rounds);
            WentOnline(true) in Pass(service, p.memory, s, c).notes <==> service && TrackAll(UNTRACKED, p.notes).armed
  {
    RunInStep(service, start, rounds);
  }

  // ---------------------------------------------------------------- the stored setup

  predicate FoundUnhealthy(c: Calls) { c.runtime && FinalStatus(c).Status? && !FinalStatus(c).healthy }

  predicate FoundHealthy(c: Calls) { c.runtime && FinalStatus(c).Status? && FinalStatus(c).healthy }

  lemma DegradedKeeps(s: Setup, reason: Option<string>)
    requires NeedsRestoring(s)
    ensures NeedsRestoring(Degraded(s, reason)) && Restored(Degraded(s, reason)) == Restored(s)
  {}

  lemma PassKeepsDegraded(service: bool, m: Memory, s: Setup, c: Calls)
    requires NeedsRestoring(s) && !FoundHealthy(c)
    ensures NeedsRestoring(Pass(service, m, s, c).setup) && Restored(Pass(service, m, s, c).setup) == Restored(s)
  {
    if FoundUnhealthy(c) { DegradedKeeps(s, FinalStatus(c).reason); }
  }

  lemma RoundKeepsDegraded(service: bool, start: Setup, past: seq<Round>, r: Round, s: Setup)
    requires var now := Run(service, start, past).setup; NeedsRestoring(now) && Restored(now) == Restored(s)
    requires r.outside.None? && !FoundHealthy(r.calls)
    ensures var next := Run(service, start, past + [r]).setup; NeedsRestoring(next) && Restored(next) == Restored(s)
  {
    var p := Run(service, start, past);
    PassKeepsDegraded(service, p.memory, p.setup, r.calls);
    NextRound(service, start, past, r);
  }

  lemma Snoc<T>(a: seq<T>, b: seq<T>)
    requires b != []
    ensures a + b == a + b[..|b| - 1] + [b[|b| - 1]]
  {}

  lemma {:induction false} StaysDegraded(service: bool, start: Setup, before: seq<Round>, between: seq<Round>, s: Setup)
    requires NeedsRestoring(Run(service, start, before).setup) && Restored(Run(service, start, before).setup) == Restored(s)
    requires forall k :: 0 <= k < |between| ==> between[k].outside.None? && !FoundHealthy(between[k].calls)
    ensures var now := Run(service, start, before + between).setup;
            NeedsRestoring(now) && Restored(now) == Restored(s)
    decreases |between|
  {
    if between == [] {
      assert before + between == before;
    } else {
      var n := |between| - 1;
      StaysDegraded(service, start, before, between[..n], s);
      RoundKeepsDegraded(service, start, before + between[..n], between[n], s);
      Snoc(before, between);
    }
  }

  lemma BadRound(service: bool, start: Setup, past: seq<Round>, r: Round)
    requires FoundUnhealthy(r.calls) && r.calls.getState.Fine? && r.calls.update.Fine?
    ensures var s, next := Before(Run(service, start, past).setup, r), Run(service, start, past + [r]).setup;
            NeedsRestoring(next) && Restored(next) == Restored(s)
  {
    NextRound(service, start, past, r);
    assert Run(service, start, past + [r]).setup
        == Degraded(Before(Run(service, start, past).setup, r), FinalStatus(r.calls).reason);
  }

  lemma GoodRound(service: bool, start: Setup, past: seq<Round>, r: Round)
    requires r.outside.None? && FoundHealthy(r.calls) && r.calls.getState.Fine? && r.calls.update.Fine?
    requires NeedsRestoring(Run(service, start, past).setup)
    ensures Run(service, start, past + [r]).setup == Restored(Run(service, start, past).setup)
  {
    NextRound(service, start, past, r);
  }

  /**
   * A setup the loop wrote as degraded is set back to ready by the next healthy pass whose calls succeed, however many
   * unhealthy or raising passes lie between; all else in it is as it was before.
   */
  lemma DegradedIsRestored(service: bool, start: Setup, before: seq<Round>, bad: Round, between: seq<Round>, good: Round)
    requires FoundUnhealthy(bad.calls) && bad.calls.getState.Fine? && bad.calls.update.Fine?
    requires forall k :: 0 <= k < |between| ==> between[k].outside.None? && !FoundHealthy(between[k].calls)
    requires good.outside.None? && FoundHealthy(good.calls) && good.calls.getState.Fine? && good.calls.update.Fine?
    ensures var s := Before(Run(service, start, before).setup, bad);
            Run(service, start, before + [bad] + between + [good]).setup
            == Setup(s.requiresSetup, true, "ready", s.brokerMode, s.direct, None, s.authorityMode, true)
  {
    BadRound(service, start, before, bad);
    StaysDegraded(service, start, before + [bad], between, Before(Run(service, start, before).setup, bad));
    GoodRound(service, start, before + [bad] + between, good);
  }

  // ---------------------------------------------------------------- what one pass does

  predicate Ill(status: Check) { status.Status? && !status.healthy }

  /** The reason starts with `config_missing`, in letters of either case. */
  predicate Missing(reason: Option<string>) {
    reason.Some? && |reason.value| >= 14 && ComposeFile.Lower(reason.value[..14]) == "config_missing"
  }

  /** The call whose answer a pass goes by: the check, the first start, or the start after the reconcile. */
  predicate Decides(c: Calls, answer: Check) {
    if !Ill(c.check) then answer == c.check
    else if !Ill(c.ensure) || !c.reconciler || !Missing(c.ensure.reason) then answer == c.ensure
    else c.reconcile.Fine? && answer == c.ensureAgain
  }

  predicate ReconcileFails(c: Calls) {
    Ill(c.check) && Ill(c.ensure) && c.reconciler && Missing(c.ensure.reason) && c.reconcile.Raised?
  }

  lemma {:induction false} LowerFront(s: string, n: nat)
    requires n <= |s|
    ensures |ComposeFile.Lower(s)| == |s| && ComposeFile.Lower(s)[..n] == ComposeFile.Lower(s[..n])
  {}

  lemma MissingIs(reason: Option<string>)
    ensures Missing(reason) <==> ConfigMissing(reason)
  {
    if reason.Some? && |reason.value| >= 14 { LowerFront(reason.value, 14); }
  }

  lemma DecidesIs(c: Calls, answer: Check)
    ensures Decides(c, answer) ==> FinalStatus(c) == answer
    ensures ReconcileFails(c) ==> FinalStatus(c) == Broke(c.reconcile.error)
  {
    if Ill(c.ensure) { MissingIs(c.ensure.reason); }
  }

  /** The pass was ended by the exception `e` before it settled on anything. */
  predicate EndedBy(service: bool, m: Memory, s: Setup, o: Outcome, e: string) {
    && o.setup == s && o.memory == Memory(Some(false), m.warned, Some(e))
    && o.notes == if service && m.error != Some(e) then [ErrorSeen(e), ErrorTried(e)] else [ErrorSeen(e)]
  }

  function Named(reason: Option<string>): string {
    if reason.Some? && Strip(reason.value) != "" then Strip(reason.value) else "runtime_unhealthy"
  }

  predicate WroteDegraded(s: Setup, now: Setup, reason: Option<string>) {
    now == Setup(s.requiresSetup, false, "degraded", s.brokerMode, s.direct,
                 Some(if reason.Some? && reason.value != "" then reason.value else "runtime_unhealthy"), s.authorityMode, false)
  }

  predicate WroteReady(s: Setup, now: Setup) {
    now == if s.status == "degraded" && s.error.Some? && s.error.value != ""
           then Setup(s.requiresSetup, true, "ready", s.brokerMode, s.direct, None, s.authorityMode, true) else s
  }

  predicate NeverWell(o: Outcome, reason: Option<string>) {
    && o.notes != [] && o.notes[0] == Checked(false)
    && forall n :: n in o.notes ==> && n != Checked(true) && !n.WentOnline? && !n.Settled?
                                    && (n.Warned? || n.Down? ==> n.reason == Named(reason))
  }

  predicate NeverIll(o: Outcome) {
    o.notes != [] && o.notes[0] == Checked(true) && forall n :: n in o.notes ==> n != Checked(false) && !n.Warned? && !n.Down?
  }

  /** What a pass makes of the answer it goes by. */
  predicate FollowsFrom(service: bool, m: Memory, s: Setup, c: Calls, answer: Check, o: Outcome) {
    match answer
    case Broke(e) => EndedBy(service, m, s, o, e)
    case Status(healthy, reason) =>
      if healthy then
        && NeverIll(o)
        && (c.getState.Fine? && c.update.Fine? ==> WroteReady(s, o.setup))
        && (CallsSucceed(c) ==> Settled in o.notes)
      else
        && NeverWell(o, reason)
        && (c.getState.Fine? && c.update.Fine? ==> WroteDegraded(s, o.setup, reason))
        && (CallsSucceed(c) ==> Down(Named(reason)) in o.notes && o.memory.warned == Some(Named(reason)))
  }

  lemma NamedIs(reason: Option<string>)
    ensures ReasonOf(reason) == Named(reason)
  {
    StripFixed(UNHEALTHY);
    if reason == Some("") { assert Strip("") == ""; }
  }

  lemma BodyIsWell(service: bool, m: Memory, s: Setup, c: Calls)
    requires FoundHealthy(c)
    ensures var o := Body(service, m, s, c);
            && NeverIll(o)
            && (c.getState.Fine? && c.update.Fine? ==> WroteReady(s, o.setup))
            && (CallsSucceed(c) ==> Settled in o.notes)
  {
    OneToThree(Checked(true), WentOnline(true), Settled);
    OneToThree(Checked(true), WentOnline(false), Settled);
    OneToThree(Checked(true), Settled, Settled);
  }

  lemma BodyIsIll(service: bool, m: Memory, s: Setup, c: Calls, reason: Option<string>)
    requires FoundUnhealthy(c) && FinalStatus(c).reason == reason && ReasonOf(reason) == Named(reason)
    ensures var o := Body(service, m, s, c);
            && NeverWell(o, reason)
            && (c.getState.Fine? && c.update.Fine? ==> WroteDegraded(s, o.setup, reason))
            && (CallsSucceed(c) ==> Down(Named(reason)) in o.notes && o.memory.warned == Some(Named(reason)))
  {
    var r := Named(reason);
    OneToThree(Checked(false), Warned(r, true), Down(r));
    OneToThree(Checked(false), Warned(r, false), Settled);
    OneToThree(Checked(false), Down(r), Settled);
  }

  lemma OneToThree(a: Note, b: Note, c: Note)
    ensures forall n :: n in [a] <==> n == a
    ensures forall n :: n in [a, b] <==> n == a || n == b
    ensures forall n :: n in [a, b, c] <==> n == a || n == b || n == c
  {}

  /** The handler only adds the two error notes behind what is there. */
  lemma HandlerAdds(notes: seq<Note>, e: string, tries: bool)
    ensures var all := notes + [ErrorSeen(e)] + if tries then [ErrorTried(e)] else [];
            forall n :: n in all <==> n in notes || n == ErrorSeen(e) || (tries && n == ErrorTried(e))
  {}

  /**
   * A pass goes by the check if that is healthy, else by the first start, and after a missing configuration was
   * repaired by the second one: it then writes, warns and settles as the source says, or ends in the exception.
   */
  lemma PassFollows(service: bool, m: Memory, s: Setup, c: Calls, answer: Check)
    requires c.runtime
    ensures Decides(c, answer) ==> FollowsFrom(service, m, s, c, answer, Pass(service, m, s, c))
    ensures ReconcileFails(c) ==> EndedBy(service, m, s, Pass(service, m, s, c), c.reconcile.error)
  {
    DecidesIs(c, answer);
    var b := Body(service, m, s, c);
    if Decides(c, answer) && answer.Status? {
      NamedIs(answer.reason);
      if answer.healthy { BodyIsWell(service, m, s, c); } else { BodyIsIll(service, m, s, c, answer.reason); }
      if b.error.Some? { HandlerAdds(b.notes, b.error.value, service && b.memory.error != b.error); }
    }
  }

  /** The calls behind the settling, each reached only if none before it raised, in their order. */
  function Afterwards(c: Calls, publishes: bool): seq<Call> {
    (if publishes && c.reconciler then [c.publish] else [])
    + (if c.telemetry then [c.measure] else []) + if c.noisy then [c.evaluate] else []
  }

  predicate FirstRaised(calls: seq<Call>, e: string) {
    exists k :: 0 <= k < |calls| && calls[k].Raised? && calls[k].error == e && forall j :: 0 <= j < k ==> calls[j].Fine?
  }

  predicate AllFine(calls: seq<Call>) { forall k :: 0 <= k < |calls| ==> calls[k].Fine? }

  lemma LateFine(c: Calls, publishes: bool)
    ensures AllFine(Afterwards(c, publishes)) <==> && (publishes && c.reconciler ==> c.publish.Fine?)
                                                   && (c.telemetry ==> c.measure.Fine?) && (c.noisy ==> c.evaluate.Fine?)
  {
    var late := Afterwards(c, publishes);
    if AllFine(late) {
      if publishes && c.reconciler { assert late[0] == c.publish; }
      if c.noisy { assert late[|late| - 1] == c.evaluate; }
      if c.telemetry { assert late[if publishes && c.reconciler then 1 else 0] == c.measure; }
    }
  }

  lemma LateRaised(c: Calls, publishes: bool, e: string)
    requires FirstRaised(Afterwards(c, publishes), e)
    ensures (if publishes then AfterHealthy(c) else Rest(c)) == Some(e)
  {
    var late := Afterwards(c, publishes);
    var k :| 0 <= k < |late| && late[k].Raised? && late[k].error == e && forall j :: 0 <= j < k ==> late[j].Fine?;
    assert k > 0 ==> late[0].Fine?;
    assert k > 1 ==> late[1].Fine?;
  }

  /**
   * A pass whose reports went out ends in the first exception behind them, and that one is what the loop remembers;
   * without one it ends as it settled.
   */
  lemma LateErrorsShow(service: bool, m: Memory, s: Setup, c: Calls, answer: Check, e: string)
    requires CallsSucceed(c) && (c.runtime ==> answer.Status? && Decides(c, answer))
    ensures var o, late := Pass(service, m, s, c), Afterwards(c, c.runtime && answer.healthy);
            && (FirstRaised(late, e) ==> o.error == Some(e) && o.memory.error == Some(e) && o.memory.healthy == Some(false)
                                         && ErrorSeen(e) in o.notes)
            && (AllFine(late) ==> o.error.None? && forall n :: n in o.notes ==> !n.ErrorSeen? && !n.ErrorTried?)
            && (AllFine(late) && c.runtime ==> o.memory.healthy == Some(answer.healthy) && o.memory.error.None?)
  {
    DecidesIs(c, answer);
    LateFine(c, c.runtime && answer.healthy);
    if FirstRaised(Afterwards(c, c.runtime && answer.healthy), e) { LateRaised(c, c.runtime && answer.healthy, e); }
  }

  /** An early exception ends the pass before anything is remembered of it. */
  lemma EarlyErrorsShow(service: bool, m: Memory, s: Setup, c: Calls, answer: Check)
    requires c.runtime && answer.Status? && Decides(c, answer)
    ensures var o := Pass(service, m, s, c);
            && (c.getState.Raised? ==> o.setup == s && o.memory == Memory(Some(false), m.warned, Some(c.getState.error)))
            && (c.getState.Fine? && c.update.Raised? && (!answer.healthy || NeedsRestoring(s)) ==>
                o.memory == Memory(Some(false), m.warned, Some(c.update.error)))
            && (c.getState.Fine? && c.update.Fine? && !answer.healthy && c.audit && c.append.Raised? ==>
                o.memory == Memory(Some(false), m.warned, Some(c.append.error)))
  {
    DecidesIs(c, answer);
  }

  // ---------------------------------------------------------------- the loop itself

  class SupervisionLoop {
    const service: bool
    var lastHealthy: Option<bool>
    var lastWarning: Option<string>
    var lastError: Option<string>
    var setup: Setup
    var notes: seq<Note>

    ghost function Remembered(): Memory reads this { Memory(lastHealthy, lastWarning, lastError) }

    constructor (service: bool, setup: Setup)
      ensures Remembered() == AT_START && this.setup == setup && notes == [] && this.service == service
    {
      this.service, this.setup, notes := service, setup, [];
      lastHealthy, lastWarning, lastError := None, None, None;
    }

    method Update(next: Setup, call: Call) returns (error: Option<string>)
      modifies this`setup
      ensures setup == Updated(old(setup), next, call) && error == ErrorOf(call)
    {
      if call.Fine? || call.done { setup := next; }
      error := ErrorOf(call);
    }

    method OnUnhealthy(c: Calls, next: Setup, degraded: string) returns (error: Option<string>)
      modifies this
      ensures Outcome(Remembered(), setup, notes, error)
              == var o := UnhealthyBranch(service, old(Remembered()), old(setup), next, degraded, c);
                 o.(notes := old(notes) + o.notes)
    {
      notes := notes + [Checked(false)];
      error := Update(next, c.update);
      if error.Some? { return; }
      if c.audit && c.append.Raised? { return Some(c.append.error); }
      if service && (lastHealthy != Some(false) || lastWarning != Some(degraded)) {
        if c.emit.Fine? || c.emit.done { notes := notes + [Warned(degraded, c.emit.Fine?)]; }
        if c.emit.Raised? { return Some(c.emit.error); }
      }
      lastHealthy := Some(false);
      lastWarning := Some(degraded);
      lastError := None;
      notes := notes + [Down(degraded)];
      error := Rest(c);
    }

    method OnHealthy(c: Calls, fix: Option<Setup>) returns (error: Option<string>)
      modifies this
      ensures Outcome(Remembered(), setup, notes, error)
              == var o := HealthyBranch(service, old(Remembered()), old(setup), fix, c);
                 o.(notes := old(notes) + o.notes)
    {
      notes := notes + [Checked(true)];
      if fix.Some? {
        error := Update(fix.value, c.update);
        if error.Some? { return; }
      }
      if service && (lastHealthy == Some(false) || lastError.Some?) {
        if c.emit.Fine? || c.emit.done { notes := notes + [WentOnline(c.emit.Fine?)]; }
        if c.emit.Raised? { return Some(c.emit.error); }
      }
      lastHealthy := Some(true);
      lastWarning := None;
      lastError := None;
      notes := notes + [Settled];
      if c.reconciler && c.publish.Raised? { return Some(c.publish.error); }
      error := Rest(c);
    }

    /** The try block. */
    method TryPass(c: Calls) returns (error: Option<string>)
      modifies this
      ensures Outcome(Remembered(), setup, notes, error)
              == var o := Body(service, old(Remembered()), old(setup), c); o.(notes := old(notes) + o.notes)
    {
      assert notes + [] == notes;
      if !c.runtime { return Rest(c); }
      var status := c.check;
      if status.Status? && !status.healthy {
        status := c.ensure;
        if status.Status? && !status.healthy && ConfigMissing(status.reason) && c.reconciler {
          if c.reconcile.Raised? { return Some(c.reconcile.error); }
          status := c.ensureAgain;
        }
      }
      if status.Broke? { return Some(status.error); }
      if c.getState.Raised? {
        notes := notes + [Checked(status.healthy)];
        return Some(c.getState.error);
      }
      if status.healthy {
        error := OnHealthy(c, if setup.status == "degraded" && setup.error.Some? && setup.error.value != ""
                              then Some(Restored(setup)) else None);
      } else {
        error := OnUnhealthy(c, Degraded(setup, status.reason), ReasonOf(status.reason));
      }
    }

    method OnePass(c: Calls)
      modifies this
      ensures var o := Pass(service, old(Remembered()), old(setup), c);
              Remembered() == o.memory && setup == o.setup && notes == old(notes) + o.notes
    {
      var error := TryPass(c);
      if error.Some? {
        var reason := error.value;
        notes := notes + [ErrorSeen(reason)];
        if service && lastError != Some(reason) { notes := notes + [ErrorTried(reason)]; }
        lastHealthy := Some(false);
        lastError := Some(reason);
      }
    }

    /** Any finite stretch of the endless loop. */
    method Supervise(rounds: seq<Round>)
      requires Remembered() == AT_START && notes == []
      modifies this
      ensures Progress(Remembered(), setup, notes) == Run(service, old(setup), rounds)
    {
      for i := 0 to |rounds|
        invariant Progress(Remembered(), setup, notes) == Run(service, old(setup), rounds[..i])
      {
        assert rounds[..i + 1][..i] == rounds[..i];
        if rounds[i].outside.Some? { setup := rounds[i].outside.value; }
        OnePass(rounds[i].calls);
      }
      assert rounds[..|rounds|] == rounds;
    }
  }
}
