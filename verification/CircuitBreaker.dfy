/** The addon proxy's circuit breaker, for one addon with fixed tuning, under requests that interleave at every wait. */
module CircuitBreaker {
  import opened Text

  datatype Tuning = Tuning(retries: nat, threshold: int, openSeconds: int, registered: bool)

  predicate Usable(t: Tuning) { t.threshold >= 1 && t.openSeconds >= 1 }

  /** `blocked` is a registered addon's health status being one of those that shut the UI out. */
  datatype State = State(failures: nat, openUntil: real, blocked: bool)

  const FRESH := State(0, 0.0, false)

  predicate Open(s: State, now: real) { now < s.openUntil }

  function Failed(t: Tuning, s: State, now: real): State {
    var n := s.failures + 1;
    if n >= t.threshold then State(n, now + t.openSeconds as real, s.blocked || t.registered)
    else s.(failures := n)
  }

  function Succeeded(t: Tuning, s: State): State { State(0, 0.0, s.blocked && !t.registered) }

  function Looked(s: State, now: real): State { if Open(s, now) then s else s.(openUntil := 0.0) }

  // ---------------------------------------------------------------- interleaved requests

  /** Where a request that passed its gate stands; `attempt` counts from zero. */
  datatype Phase = Ready(attempt: nat) | Waiting(attempt: nat) | Reading(attempt: nat) | Done

  datatype Event =
    | Gate(id: int, ui: bool, now: real)     // the checks before the first attempt
    | Send(id: int)
    | Reply(id: int, ok: bool, now: real)    // a response arrived; ok is a status below 500
    | Caught(id: int, now: real)             // an exception that the handlers count as a failure
    | Leave(id: int)                         // a return, or an exception passed on
    | Health(blocked: bool)                  // a health report from elsewhere

  datatype Outcome = Outcome(ok: bool, at: real)

  datatype Machine = Machine(circuit: State, requests: map<int, Phase>, clock: real)

  predicate GateOpens(t: Tuning, s: State, ui: bool, now: real) { !(ui && t.registered && s.blocked) && !Open(s, now) }

  function PassGate(t: Tuning, m: Machine, e: Event): Machine
    requires e.Gate?
  {
    var s := if e.ui && t.registered && m.circuit.blocked then m.circuit else Looked(m.circuit, e.now);
    Machine(s, m.requests[e.id := if GateOpens(t, m.circuit, e.ui, e.now) then Ready(0) else Done], e.now)
  }

  /** After a counted failure: the next attempt, or the end of the loop. */
  function Again(t: Tuning, attempt: nat, otherwise: Phase): Phase {
    if attempt < t.retries then Ready(attempt + 1) else otherwise
  }

  function Answered(t: Tuning, m: Machine, e: Event, attempt: nat): Machine
    requires e.Reply?
  {
    if e.ok then Machine(Succeeded(t, m.circuit), m.requests[e.id := Reading(attempt)], e.now)
    else Machine(Failed(t, m.circuit, e.now), m.requests[e.id := Again(t, attempt, Reading(attempt))], e.now)
  }

  function Handled(t: Tuning, m: Machine, e: Event, attempt: nat): Machine
    requires e.Caught?
  {
    Machine(Failed(t, m.circuit, e.now), m.requests[e.id := Again(t, attempt, Done)], e.now)
  }

  /** One atomic stretch of one request, or None when that request cannot take it now. */
  function Step(t: Tuning, m: Machine, e: Event): Option<Machine> {
    match e
    case Gate(id, ui, now) => if id !in m.requests && now >= m.clock then Some(PassGate(t, m, e)) else None
    case Send(id) =>
      if id in m.requests && m.requests[id].Ready? then
        Some(m.(requests := m.requests[id := Waiting(m.requests[id].attempt)]))
      else None
    case Reply(id, ok, now) =>
      if id in m.requests && m.requests[id].Waiting? && now >= m.clock then
        Some(Answered(t, m, e, m.requests[id].attempt))
      else None
    case Caught(id, now) =>
      if id in m.requests && (m.requests[id].Waiting? || m.requests[id].Reading?) && now >= m.clock then
        Some(Handled(t, m, e, m.requests[id].attempt))
      else None
    case Leave(id) =>
      if id in m.requests && (m.requests[id].Waiting? || m.requests[id].Reading?) then
        Some(m.(requests := m.requests[id := Done]))
      else None
    case Health(b) => Some(m.(circuit := m.circuit.(blocked := b)))
  }

  /** Each event is allowed just when the code can take it: any answer to a send, and an exception or an end behind one. */
  lemma NothingHeldBack(t: Tuning, m: Machine, id: int, ok: bool, ui: bool, now: real)
    ensures Step(t, m, Gate(id, ui, now)).Some? <==> id !in m.requests && now >= m.clock
    ensures Step(t, m, Send(id)).Some? <==> id in m.requests && m.requests[id].Ready?
    ensures Step(t, m, Reply(id, ok, now)).Some? <==> id in m.requests && m.requests[id].Waiting? && now >= m.clock
    ensures Step(t, m, Leave(id)).Some? <==> id in m.requests && (m.requests[id].Waiting? || m.requests[id].Reading?)
    ensures Step(t, m, Caught(id, now)).Some? <==> Step(t, m, Leave(id)).Some? && now >= m.clock
    ensures Step(t, m, Send(id)).Some? ==> Step(t, m, Send(id)).value.requests[id] == Waiting(m.requests[id].attempt)
    ensures Step(t, m, Leave(id)).Some? ==> Step(t, m, Leave(id)).value.requests[id] == Done
    ensures Step(t, m, Health(ok)).Some? && Step(t, m, Health(ok)).value.circuit.blocked == ok
  {}

  /** The state after a run from a fresh circuit; None if some event could not happen. */
  function After(t: Tuning, run: seq<Event>): Option<Machine> {
    if run == [] then Some(Machine(FRESH, map[], 0.0))
    else
      match After(t, run[..|run| - 1])
      case None => None
      case Some(m) => Step(t, m, run[|run| - 1])
  }

  /** Every run starts with nothing recorded, at the time nought, and goes on event by event. */
  lemma RunsStart(t: Tuning, run: seq<Event>, e: Event)
    ensures After(t, []) == Some(Machine(State(0, 0.0, false), map[], 0.0))
    ensures After(t, run + [e]) == match After(t, run) case None => None case Some(m) => Step(t, m, e)
  {
    assert (run + [e])[..|run|] == run;
  }

  // ---------------------------------------------------------------- what the run recorded

  function Outcomes(run: seq<Event>): seq<Outcome> {
    if run == [] then []
    else
      var n := |run| - 1;
      Outcomes(run[..n]) +
      match run[n]
      case Reply(_, ok, now) => [Outcome(ok, now)]
      case Caught(_, now) => [Outcome(false, now)]
      case _ => []
  }

  /** How many outcomes at the end are failures. */
  function Trailing(os: seq<Outcome>): nat {
    if os == [] || os[|os| - 1].ok then 0 else Trailing(os[..|os| - 1]) + 1
  }

  predicate LastFailed(os: seq<Outcome>, n: nat) {
    n <= |os| && forall k :: |os| - n <= k < |os| ==> !os[k].ok
  }

  lemma {:induction false} TrailingMeaning(os: seq<Outcome>, n: nat)
    ensures n <= Trailing(os) <==> LastFailed(os, n)
    decreases |os|
  {
    if os != [] && n > 0 {
      var front, last := os[..|os| - 1], os[|os| - 1];
      TrailingMeaning(front, n - 1);
      if !last.ok && LastFailed(front, n - 1) {
        assert forall k :: |os| - n <= k < |os| - 1 ==> os[k] == front[k];
      }
      if LastFailed(os, n) {
        assert !last.ok && forall k :: |front| - (n - 1) <= k < |front| ==> front[k] == os[k];
      }
    }
  }

  /** Open by the record alone: enough failures at the end, the last of them recent. */
  predicate OpenByRecord(t: Tuning, os: seq<Outcome>, now: real) {
    os != [] && Trailing(os) >= t.threshold && now < os[|os| - 1].at + t.openSeconds as real
  }

  ghost predicate Agrees(t: Tuning, m: Machine, os: seq<Outcome>) {
    && m.clock >= 0.0
    && m.circuit.failures == Trailing(os)
    && (os != [] ==> os[|os| - 1].at <= m.clock)
    && (forall now :: now >= m.clock ==> (Open(m.circuit, now) <==> OpenByRecord(t, os, now)))
  }

  lemma RecordStep(t: Tuning, m: Machine, os: seq<Outcome>, ok: bool, now: real, requests: map<int, Phase>)
    requires Usable(t) && Agrees(t, m, os) && now >= m.clock
    ensures var s := if ok then Succeeded(t, m.circuit) else Failed(t, m.circuit, now);
            Agrees(t, Machine(s, requests, now), os + [Outcome(ok, now)])
  {
    var next := os + [Outcome(ok, now)];
    assert next[..|os|] == os;
    var s := if ok then Succeeded(t, m.circuit) else Failed(t, m.circuit, now);
    assert s.failures == Trailing(next);
    forall x | x >= now ensures Open(s, x) <==> OpenByRecord(t, next, x) {
      assert Open(m.circuit, x) <==> OpenByRecord(t, os, x);
    }
  }

  /**
   * The two fields of the circuit are exactly a summary of the run: it is open when and only when the outcomes
   * recorded last are `threshold` failures and fewer than `openSeconds` have passed since the very last one.
   */
  lemma {:induction false} CircuitIsRecord(t: Tuning, run: seq<Event>)
    requires Usable(t) && After(t, run).Some?
    ensures Agrees(t, After(t, run).value, Outcomes(run))
    decreases |run|
  {
    if run != [] {
      var n := |run| - 1;
      CircuitIsRecord(t, run[..n]);
      var m, e, os := After(t, run[..n]).value, run[n], Outcomes(run[..n]);
      assert os + [] == os;
      match e
      case Reply(_, ok, now) => RecordStep(t, m, os, ok, now, After(t, run).value.requests);
      case Caught(_, now) => RecordStep(t, m, os, false, now, After(t, run).value.requests);
      case _ =>
    }
  }

  /** An open circuit means the last `threshold` outcomes all failed. */
  lemma OpenMeansFailures(t: Tuning, run: seq<Event>, now: real)
    requires Usable(t) && After(t, run).Some? && now >= After(t, run).value.clock
    requires Open(After(t, run).value.circuit, now)
    ensures var os := Outcomes(run);
            |os| >= t.threshold && forall k :: |os| - t.threshold <= k < |os| ==> !os[k].ok
  {
    CircuitIsRecord(t, run);
    TrailingMeaning(Outcomes(run), t.threshold);
  }

  // ---------------------------------------------------------------- sends

  function Sends(run: seq<Event>, id: int): nat {
    if run == [] then 0
    else Sends(run[..|run| - 1], id) + if run[|run| - 1] == Send(id) then 1 else 0
  }

  /** Sends made so far by a request in a given phase, at most. */
  predicate SendsFit(t: Tuning, p: Phase, n: nat) {
    match p
    case Ready(a) => n == a && a <= t.retries
    case Waiting(a) => n == a + 1 && a <= t.retries
    case Reading(a) => n == a + 1 && a <= t.retries
    case Done => n <= t.retries + 1
  }

  predicate Admits(t: Tuning, run: seq<Event>, i: int, id: int)
    requires 0 <= i < |run|
  {
    && run[i].Gate? && run[i].id == id
    && After(t, run[..i]).Some?
    && GateOpens(t, After(t, run[..i]).value.circuit, run[i].ui, run[i].now)
  }

  /** The gate that let the request in, if any did. */
  function AdmittedAt(t: Tuning, run: seq<Event>, id: int): (i: Option<nat>)
    ensures i.Some? ==> i.value < |run| && Admits(t, run, i.value, id)
  {
    if run == [] then None
    else
      var n := |run| - 1;
      var before := AdmittedAt(t, run[..n], id);
      if before.Some? then
        assert run[..n][..before.value] == run[..before.value];
        before
      else if Admits(t, run, n, id) then Some(n) else None
  }

  lemma {:induction false} RequestsFit(t: Tuning, run: seq<Event>, id: int)
    requires After(t, run).Some?
    ensures var m := After(t, run).value;
            && (id in m.requests ==> SendsFit(t, m.requests[id], Sends(run, id)))
            && (id in m.requests && !m.requests[id].Done? ==> AdmittedAt(t, run, id).Some?)
            && (id !in m.requests ==> Sends(run, id) == 0)
    decreases |run|
  {
    if run != [] { RequestsFit(t, run[..|run| - 1], id); }
  }

  /** A request sends upstream at most `retries + 1` times. */
  lemma SendsBounded(t: Tuning, run: seq<Event>, id: int)
    requires After(t, run).Some?
    ensures Sends(run, id) <= t.retries + 1
  {
    RequestsFit(t, run, id);
  }

  /** Every send belongs to a request whose gate, earlier in the run, found the circuit closed. */
  lemma SendsWereAdmitted(t: Tuning, run: seq<Event>, j: nat)
    requires After(t, run).Some? && j < |run| && run[j].Send?
    ensures AdmittedAt(t, run[..j], run[j].id).Some?
    ensures var i := AdmittedAt(t, run[..j], run[j].id).value;
            && i < j && run[i].Gate? && run[i].id == run[j].id
            && After(t, run[..i]).Some? && !Open(After(t, run[..i]).value.circuit, run[i].now)
  {
    PrefixRuns(t, run, j + 1);
    assert run[..j + 1][..j] == run[..j];
    RequestsFit(t, run[..j], run[j].id);
    var i := AdmittedAt(t, run[..j], run[j].id).value;
    assert run[..j][..i] == run[..i];
  }

  lemma {:induction false} PrefixRuns(t: Tuning, run: seq<Event>, k: nat)
    requires After(t, run).Some? && k <= |run|
    ensures After(t, run[..k]).Some?
    decreases |run|
  {
    if k == |run| {
      assert run[..k] == run;
    } else {
      PrefixRuns(t, run[..|run| - 1], k);
      assert run[..|run| - 1][..k] == run[..k];
    }
  }

  // ---------------------------------------------------------------- a registered addon's UI

  predicate Quiet(m: Machine) { forall id :: id in m.requests ==> m.requests[id].Done? }

  /** The events of a time in which only the UI is asked and no health report arrives. */
  predicate OnlyUi(run: seq<Event>) { forall e :: e in run ==> !e.Health? && (e.Gate? ==> e.ui) }

  /**
   * For a registered addon an opened circuit does not close for the UI by itself: once no request is under way, UI
   * requests alone never reach the addon again, however long they wait.
   */
  lemma {:induction false} UiStaysShut(t: Tuning, past: seq<Event>, more: seq<Event>)
    requires t.registered && After(t, past).Some? && After(t, past + more).Some? && OnlyUi(more)
    requires After(t, past).value.circuit.blocked && Quiet(After(t, past).value)
    ensures After(t, past + more).value.circuit.blocked && Quiet(After(t, past + more).value)
    ensures forall e :: e in more ==> !e.Send?
    decreases |more|
  {
    if more == [] {
      assert past + more == past;
    } else {
      var n := |more| - 1;
      assert (past + more)[..|past| + n] == past + more[..n];
      assert more[n] in more;
      PrefixRuns(t, past + more, |past| + n);
      UiStaysShut(t, past, more[..n]);
      assert more == more[..n] + [more[n]];
    }
  }

  /** An API request gets through as soon as the time is up, and one good answer opens the UI again. */
  lemma ApiReopens(t: Tuning, run: seq<Event>, id: int, now: real)
    requires Usable(t) && After(t, run).Some?
    requires var m := After(t, run).value; id !in m.requests && now >= m.clock
    requires Outcomes(run) != [] ==> now >= Outcomes(run)[|Outcomes(run)| - 1].at + t.openSeconds as real
    ensures After(t, run + [Gate(id, false, now), Send(id), Reply(id, true, now)]).Some?
    ensures var m := After(t, run + [Gate(id, false, now), Send(id), Reply(id, true, now)]).value;
            forall later, ui :: later >= now && t.registered ==> GateOpens(t, m.circuit, ui, later)
  {
    CircuitIsRecord(t, run);
    assert GateOpens(t, After(t, run).value.circuit, false, now);
    AfterMore(t, run, Gate(id, false, now));
    AfterMore(t, run + [Gate(id, false, now)], Send(id));
    AfterMore(t, run + [Gate(id, false, now)] + [Send(id)], Reply(id, true, now));
    assert run + [Gate(id, false, now)] + [Send(id)] + [Reply(id, true, now)]
      == run + [Gate(id, false, now), Send(id), Reply(id, true, now)];
  }

  lemma AfterMore(t: Tuning, run: seq<Event>, e: Event)
    ensures After(t, run + [e]) == if After(t, run).None? then None else Step(t, After(t, run).value, e)
  {
    assert (run + [e])[..|run|] == run;
  }

  // ---------------------------------------------------------------- the object and its retry loop

  datatype Answer = Good | Bad | Exception

  /** The machine from any state. */
  function Follow(t: Tuning, m: Machine, run: seq<Event>): Option<Machine> {
    if run == [] then Some(m)
    else
      match Follow(t, m, run[..|run| - 1])
      case None => None
      case Some(n) => Step(t, n, run[|run| - 1])
  }

  lemma FollowMore(t: Tuning, m: Machine, run: seq<Event>, e: Event)
    requires Follow(t, m, run).Some?
    ensures Follow(t, m, run + [e]) == Step(t, Follow(t, m, run).value, e)
    ensures forall id :: Sends(run + [e], id) == Sends(run, id) + if e == Send(id) then 1 else 0
  {
    assert (run + [e])[..|run|] == run;
  }

  /** One attempt of a request that is ready: a send, and what came of it. */
  lemma Attempted(t: Tuning, start: Machine, run: seq<Event>, m: Machine, e: Event, now: real)
    requires Follow(t, start, run) == Some(m) && 0 in m.requests && m.requests[0].Ready? && m.clock <= now
    requires (e.Reply? || e.Caught?) && e.id == 0 && e.now == now
    ensures var next := run + [Send(0)] + [e];
            var a := m.requests[0].attempt;
            var good := e.Reply? && e.ok;
            && Follow(t, start, next).Some? && Sends(next, 0) == Sends(run, 0) + 1
            && var n := Follow(t, start, next).value;
               && n.circuit == (if good then Succeeded(t, m.circuit) else Failed(t, m.circuit, now))
               && n.clock == now && 0 in n.requests
               && (!good && a < t.retries ==> n.requests[0] == Ready(a + 1))
  {
    FollowMore(t, start, run, Send(0));
    FollowMore(t, start, run + [Send(0)], e);
  }

  /** The attempts stop at the first good answer, and only there before they are used up. */
  ghost predicate AttemptsUsed(t: Tuning, answers: nat -> Answer, sends: nat) {
    && 1 <= sends <= t.retries + 1
    && (forall k: nat :: k < sends - 1 ==> answers(k) != Good)
    && (sends <= t.retries ==> answers(sends - 1) == Good)
  }

  /** What the attempts leave: nothing after a good last one, and otherwise as many more failures as attempts. */
  function AfterAttempts(t: Tuning, s: State, answers: nat -> Answer, times: nat -> real, sends: nat): State
    requires sends >= 1
  {
    if answers(sends - 1) == Good then State(0, 0.0, s.blocked && !t.registered)
    else
      var failures := s.failures + sends;
      if failures >= t.threshold then State(failures, times(sends - 1) + t.openSeconds as real, s.blocked || t.registered)
      else State(failures, s.openUntil, s.blocked)
  }

  class AddonCircuit {
    const tuning: Tuning
    var failures: nat
    var openUntil: real
    var blocked: bool

    ghost function Value(): State reads this { State(failures, openUntil, blocked) }

    constructor (tuning: Tuning)
      ensures Value() == FRESH && this.tuning == tuning
    {
      this.tuning := tuning;
      failures, openUntil, blocked := 0, 0.0, false;
    }

    method OpenCircuit(now: real)
      modifies this
      ensures Value() == Failed(tuning, old(Value()), now)
    {
      failures := failures + 1;
      if failures >= tuning.threshold {
        openUntil := now + tuning.openSeconds as real;
        if tuning.registered { blocked := true; }
      }
    }

    method RecordSuccess()
      modifies this
      ensures Value() == Succeeded(tuning, old(Value()))
    {
      failures := 0;
      openUntil := 0.0;
      if tuning.registered { blocked := false; }
    }

    method IsCircuitOpen(now: real) returns (open: bool)
      requires openUntil >= 0.0
      modifies this`openUntil
      ensures open == Open(old(Value()), now) && Value() == Looked(old(Value()), now)
    {
      if now < openUntil { return true; }
      if openUntil > 0.0 { openUntil := 0.0; }
      return false;
    }

    /** The checks before the first attempt. */
    method PassedGate(ui: bool, now: real) returns (passed: bool)
      requires openUntil >= 0.0
      modifies this`openUntil
      ensures passed == GateOpens(tuning, old(Value()), ui, now)
      ensures Value() == PassGate(tuning, Machine(old(Value()), map[], now), Gate(0, ui, now)).circuit
    {
      if ui && tuning.registered && blocked { return false; }
      var open := IsCircuitOpen(now);
      return !open;
    }

    /** The retry loop, from a state in which the request is ready for its first attempt. */
    method Retry(answers: nat -> Answer, times: nat -> real,
                 ghost start: Machine, ghost entered: seq<Event>, ghost first: Machine)
      returns (sends: nat, ghost run: seq<Event>)
      requires Follow(tuning, start, entered) == Some(first) && first.circuit == Value() && Sends(entered, 0) == 0
      requires 0 in first.requests && first.requests[0] == Ready(0) && first.clock <= times(0)
      requires forall j: nat, k: nat :: j <= k ==> times(j) <= times(k)
      modifies this
      ensures Follow(tuning, start, run).Some? && Follow(tuning, start, run).value.circuit == Value()
      ensures 1 <= sends == Sends(run, 0) <= tuning.retries + 1
      ensures AttemptsUsed(tuning, answers, sends)
      ensures Value() == AfterAttempts(tuning, old(Value()), answers, times, sends)
    {
      ghost var m := first;
      run := entered;
      sends := 0;
      while sends <= tuning.retries
        invariant sends <= tuning.retries + 1
        invariant Follow(tuning, start, run) == Some(m) && m.circuit == Value() && sends == Sends(run, 0)
        invariant sends <= tuning.retries ==> 0 in m.requests && m.requests[0] == Ready(sends) && m.clock <= times(sends)
        invariant forall k: nat :: k < sends ==> answers(k) != Good
        invariant sends > 0 ==> Value() == AfterAttempts(tuning, old(Value()), answers, times, sends)
        invariant sends == 0 ==> Value() == old(Value())
      {
        var now, answer := times(sends), answers(sends);
        ghost var e := if answer == Exception then Caught(0, now) else Reply(0, answer == Good, now);
        Attempted(tuning, start, run, m, e, now);
        run := run + [Send(0)] + [e];
        m := Follow(tuning, start, run).value;
        sends := sends + 1;
        if answer == Good {
          RecordSuccess();
          return;
        }
        OpenCircuit(now);
      }
    }

    /**
     * One request that no other interrupts. `answers` gives what each attempt meets: a good reply, a bad reply or an
     * exception. Whatever they are, what it does to the circuit is a run of the machine with that many sends.
     */
    method Forward(ui: bool, gate: real, answers: nat -> Answer, times: nat -> real)
      returns (sends: nat, ghost run: seq<Event>)
      requires openUntil >= 0.0
      requires gate <= times(0) && forall j: nat, k: nat :: j <= k ==> times(j) <= times(k)
      modifies this
      ensures var m := Machine(old(Value()), map[], gate);
              && Follow(tuning, m, run).Some?
              && Follow(tuning, m, run).value.circuit == Value()
              && sends == Sends(run, 0) <= tuning.retries + 1
              && (sends > 0 <==> GateOpens(tuning, old(Value()), ui, gate))
      ensures sends > 0 ==> AttemptsUsed(tuning, answers, sends)
      ensures sends > 0 ==> Value() == AfterAttempts(tuning, old(Value()).(openUntil := 0.0), answers, times, sends)
      ensures sends == 0 ==> failures == old(failures) && blocked == old(blocked)
    {
      ghost var start := Machine(Value(), map[], gate);
      FollowMore(tuning, start, [], Gate(0, ui, gate));
      run := [] + [Gate(0, ui, gate)];
      sends := 0;
      var passed := PassedGate(ui, gate);
      if passed { sends, run := Retry(answers, times, start, run, Follow(tuning, start, run).value); }
    }
  }
}
