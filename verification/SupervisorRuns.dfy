/** Whole runs of the supervisor: rollback honesty, and safety of `current` under crashes. */
module SupervisorRuns {
  import opened Text
  import opened ComposeFile
  import opened SupervisorState
  import opened Reconciler
  import opened Retention
  import opened TickSafety
  import opened PostReconcile

  // ---------------------------------------------------------------- one tick

  lemma StartMachineSafe(root: string, w: World, d: Desired, o: Oracle)
    ensures var m := StartMachine(root, w, d, o);
            var noop := IsNoop(d, PriorOf(w.runtime));
            && TrailSafe(w, m) && StateSafe(w, m.world)
            && m.world.current == (if m.ok && !noop then Some(Version(d)) else w.current)
            && (!m.ok ==> forall i :: 0 <= i < |m.trail| ==> m.trail[i].current == w.current)
            && (m.ok && noop ==> Calm(w, m.world))
  {
    var prior := PriorOf(w.runtime);
    var v := Version(d);
    var m0 := Begin(w);
    var m1 := Step(m0, WithVersion(w, v), o.fault);
    StepCalm(m0, WithVersion(w, v), o.fault);
    CalmIsSafe(w, m0, m1);
    if m1.ok && IsNoop(d, prior) {
      var m2 := NoopRefresh(m1, root, d, o);
      NoopCalm(m1, root, d, o);
      CalmIsSafe(w, m1, m2);
      CalmThen(m0, m1, m2);
    } else {
      var m2 := Prepare(m1, root, d, prior, o);
      PrepareCalm(m1, root, d, prior, o);
      CalmIsSafe(w, m1, m2);
      if m2.ok {
        assert v in m2.world.versions.Keys;
        var m3 := Launch(m2, root, d, prior, o);
        LaunchIsSafe(w, m2, root, d, prior, o);
        LaunchLogs(m2, root, d, prior, o);
        if m3.ok { ActivateIsSafe(w, m3, v, o); }
      }
    }
  }

  lemma NoopCalm(m: Machine, root: string, d: Desired, o: Oracle)
    ensures CalmStage(m, NoopRefresh(m, root, d, o))
  {
    var v := Version(d);
    if StaleRestartPolicy(ComposeOf(m.world, v)) {
      EnsureCalm(m, root, v, d, PrimaryService(d, TreeOf(m.world, v)), o);
    }
  }

  lemma SaveSafe(w: World, m: Machine, rt: RuntimeState)
    requires TrailSafe(w, m) && StateSafe(w, m.world)
    requires m.world.current.Some? || forall i :: 0 <= i < |m.trail| ==> m.trail[i].current.None?
    ensures TrailSafe(w, Save(m, rt))
  {
    var m' := Save(m, rt);
    forall i | 0 <= i < |m'.trail| ensures StateSafe(w, m'.trail[i]) {
      if i < |m.trail| { assert m'.trail[i] == m.trail[i]; }
    }
  }

  /** The record a tick leaves, and where it leaves the link. */
  ghost predicate Reported(w: World, d: Desired, t: Tick) {
    var v, w' := Version(d), t.machine.world;
    || (w'.runtime == w.runtime && w'.current == w.current && IsNoop(d, PriorOf(w.runtime)))
    || (exists rt ::
          && w'.runtime == Saved(rt)
          && (rt.state == Running ==> w'.current == Some(v) == rt.activeVersion && v in w'.versions)
          && (rt.state == Running || w'.current == w.current)
          && (rt.rollbackAvailable ==> rt.previousVersion == w.current && w.current.Some?)
          && (rt.state == Running && rt.rollbackAvailable ==> rt.previousVersion != Some(v)))
  }

  lemma TickSafe(root: string, w: World, d: Desired, o: Oracle)
    ensures var t := Reconcile(root, w, d, o);
            TrailSafe(w, t.machine) && StateSafe(w, t.machine.world) && Reported(w, d, t)
  {
    if d.desiredState == "stopped" {
      StopSafe(root, w, d, o);
    } else {
      StartSafe(root, w, d, o);
    }
  }

  lemma StartSafe(root: string, w: World, d: Desired, o: Oracle)
    ensures var t := StartTick(root, w, d, o);
            TrailSafe(w, t.machine) && StateSafe(w, t.machine.world) && Reported(w, d, t)
  {
    var prior := PriorOf(w.runtime);
    var m := StartMachine(root, w, d, o);
    StartMachineSafe(root, w, d, o);
    if !m.ok {
      FailSafe(w, m, d, prior, NewRuntime(d.addonId), o);
    } else if !IsNoop(d, prior) {
      var rt := StartRecord(root, d, prior, w.current, m.world);
      SaveSafe(w, m, rt);
      VersionKept(root, w, d, o);
      assert Save(m, rt).world.runtime == Saved(rt);
    }
  }

  /** After a successful start the started version's directory is there. */
  lemma VersionKept(root: string, w: World, d: Desired, o: Oracle)
    requires var m := StartMachine(root, w, d, o); m.ok && !IsNoop(d, PriorOf(w.runtime))
    ensures Version(d) in StartMachine(root, w, d, o).world.versions
  {
    var prior := PriorOf(w.runtime);
    var m1 := Step(Begin(w), WithVersion(w, Version(d)), o.fault);
    var m2 := Prepare(m1, root, d, prior, o);
    PrepareCalm(m1, root, d, prior, o);
    assert Version(d) in m2.world.versions.Keys;
    LaunchLogs(m2, root, d, prior, o);
    ActivateLinks(Launch(m2, root, d, prior, o), Version(d), o);
  }

  lemma FailSafe(w: World, m: Machine, d: Desired, prior: Option<RuntimeState>, rt: RuntimeState, o: Oracle)
    requires TrailSafe(w, m) && StateSafe(w, m.world) && m.world.current == w.current
    requires forall i :: 0 <= i < |m.trail| ==> m.trail[i].current == w.current
    ensures var t := Fail(m, d, prior, rt, w.current, o);
            TrailSafe(w, t.machine) && StateSafe(w, t.machine.world) && Reported(w, d, t)
  {
    var failed := ErrorRecord(rt, w.current, o.message);
    SaveSafe(w, m, failed);
    assert Save(m, failed).world.runtime == Saved(failed);
  }

  lemma StepKeepsLink(w: World, m: Machine, s: World, fault: Option<nat>)
    requires TrailSafe(w, m) && StateSafe(w, m.world) && m.world.current == w.current
    requires forall i :: 0 <= i < |m.trail| ==> m.trail[i].current == w.current
    requires StateSafe(w, s) && s.current == w.current
    ensures var m' := Step(m, s, fault);
            && TrailSafe(w, m') && StateSafe(w, m'.world) && m'.world.current == w.current
            && (forall i :: 0 <= i < |m'.trail| ==> m'.trail[i].current == w.current)
  {
    var m' := Step(m, s, fault);
    forall i | 0 <= i < |m'.trail| ensures StateSafe(w, m'.trail[i]) && m'.trail[i].current == w.current {
      if i < |m.trail| { assert m'.trail[i] == m.trail[i]; }
    }
  }

  lemma StopMachineSafe(root: string, w: World, d: Desired, o: Oracle)
    ensures var m := StopMachine(root, w, d, o);
            && TrailSafe(w, m) && StateSafe(w, m.world) && m.world.current == w.current
            && (forall i :: 0 <= i < |m.trail| ==> m.trail[i].current == w.current)
            && (m.ok ==> m.world.runtime == Saved(StopRecord(d, StopFiles(root, w))))
  {
    var files := StopFiles(root, w);
    if files != [] { StepKeepsLink(w, Begin(w), WithCommand(w, Down(files, d.project, o.downOk)), o.fault); }
    var m := DownMachine(root, w, d, o);
    StepKeepsLink(w, m, m.world.(runtime := Saved(StopRecord(d, files))), o.fault);
  }

  lemma StopSafe(root: string, w: World, d: Desired, o: Oracle)
    ensures var t := StopTick(root, w, d, o);
            TrailSafe(w, t.machine) && StateSafe(w, t.machine.world) && Reported(w, d, t)
  {
    var m := StopMachine(root, w, d, o);
    StopMachineSafe(root, w, d, o);
    if !m.ok { FailSafe(w, m, d, PriorOf(w.runtime), StopReached(root, w, d, o), o); }
  }

  // ---------------------------------------------------------------- runs

  /** One thing that happens to an addon directory. */
  datatype Event =
    | Outside(dirs: map<string, VersionDir>)  // anyone else adds or rewrites version directories
    | Ran(desired: Option<Desired>, o: Oracle, order: seq<string>, keepVersions: nat, stuck: set<string>)
    | Crashed(during: Desired, o: Oracle, at: nat)  // the process stops inside the tick

  /** Every state an event takes the directory through, the last one being where it leaves it. */
  function Visited(root: string, w: World, e: Event): (states: seq<World>)
    ensures |states| >= 1
  {
    match e
    case Outside(dirs) => [w.(versions := w.versions + dirs)]
    case Ran(None, _, _, _, _) => [w]
    case Ran(Some(d), o, order, keepVersions, stuck) =>
      var t := Reconcile(root, w, d, o);
      t.machine.trail + [Hooks(t.machine.world, t.result, order, keepVersions, stuck)]
    case Crashed(d, o, at) =>
      var trail := Reconcile(root, w, d, o).machine.trail;
      if at < |trail| then trail[..at] + [trail[at]] else trail + [Reconcile(root, w, d, o).machine.world]
  }

  function Last(states: seq<World>): World requires |states| >= 1 { states[|states| - 1] }

  function After(root: string, w: World, e: Event): World { Last(Visited(root, w, e)) }

  lemma AfterRan(root: string, w: World, d: Desired, o: Oracle, order: seq<string>, keepVersions: nat, stuck: set<string>)
    ensures var t := Reconcile(root, w, d, o);
            After(root, w, Ran(Some(d), o, order, keepVersions, stuck)) == Hooks(t.machine.world, t.result, order, keepVersions, stuck)
  {}

  function Run(root: string, w: World, events: seq<Event>): World
    decreases |events|
  {
    if events == [] then w else Run(root, After(root, w, events[0]), events[1..])
  }

  function Trace(root: string, w: World, events: seq<Event>): seq<World>
    decreases |events|
  {
    if events == [] then [w] else [w] + Visited(root, w, events[0]) + Trace(root, After(root, w, events[0]), events[1..])
  }

  // ---------------------------------------------------------------- crash safety of `current`

  /** `current` is absent or names a version whose compose_up had returned success. */
  predicate LinkSafe(w: World) { w.current.Some? ==> Launched(w.commands, w.current.value) }

  lemma StateKeepsLink(w: World, s: World)
    requires LinkSafe(w) && StateSafe(w, s)
    ensures LinkSafe(s)
  {
    if s.current == w.current && w.current.Some? { LaunchedStays(w.commands, s.commands, w.current.value); }
  }

  /** Present in one of these states, present in all later ones. */
  predicate NeverLost(states: seq<World>) {
    forall i, j :: 0 <= i < j < |states| && states[i].current.Some? ==> states[j].current.Some?
  }

  predicate AllLinkSafe(states: seq<World>) { forall i :: 0 <= i < |states| ==> LinkSafe(states[i]) }

  // ---------------------------------------------------------------- the last state of a tick

  predicate Ends(m: Machine) { |m.trail| >= 1 && m.trail[|m.trail| - 1] == m.world }

  lemma StepEnds(m: Machine, w: World, fault: Option<nat>)
    requires Ends(m)
    ensures Ends(Step(m, w, fault))
  {}

  lemma TextEnds(m: Machine, v: string, printed: Option<string>, o: Oracle)
    requires Ends(m)
    ensures Ends(EnsureText(m, v, printed, o))
  {}

  lemma NoopEnds(root: string, w: World, d: Desired, o: Oracle)
    requires IsNoop(d, PriorOf(w.runtime)) && StartMachine(root, w, d, o).ok
    ensures Ends(StartMachine(root, w, d, o))
  {
    var m1 := Step(Begin(w), WithVersion(w, Version(d)), o.fault);
    StepEnds(Begin(w), WithVersion(w, Version(d)), o.fault);
    TextEnds(m1, Version(d), Printed(root, Version(d), d, PrimaryService(d, TreeOf(m1.world, Version(d))), o.policy), o);
  }

  lemma StopEnds(root: string, w: World, d: Desired, o: Oracle)
    requires StopMachine(root, w, d, o).ok
    ensures Ends(StopMachine(root, w, d, o))
  {
    var files := StopFiles(root, w);
    StepEnds(Begin(w), WithCommand(w, Down(files, d.project, o.downOk)), o.fault);
  }

  lemma SaveEnds(m: Machine, rt: RuntimeState)
    ensures Ends(Save(m, rt))
  {}

  /** A tick leaves the directory in the last state it went through. */
  lemma TickEnds(root: string, w: World, d: Desired, o: Oracle)
    ensures Ends(Reconcile(root, w, d, o).machine)
  {
    if d.desiredState == "stopped" {
      SaveEnds(StopMachine(root, w, d, o), ErrorRecord(StopReached(root, w, d, o), w.current, o.message));
      if StopMachine(root, w, d, o).ok { StopEnds(root, w, d, o); }
    } else {
      var m := StartMachine(root, w, d, o);
      SaveEnds(m, ErrorRecord(NewRuntime(d.addonId), w.current, o.message));
      SaveEnds(m, StartRecord(root, d, PriorOf(w.runtime), w.current, m.world));
      if m.ok && IsNoop(d, PriorOf(w.runtime)) { NoopEnds(root, w, d, o); }
    }
  }

  lemma TrailThen(w: World, m: Machine, x: World)
    requires LinkSafe(w) && TrailSafe(w, m) && StateSafe(w, m.world)
    requires m.trail[|m.trail| - 1].current == m.world.current
    requires x.current == m.world.current && x.commands == m.world.commands
    ensures AllLinkSafe(m.trail + [x]) && NeverLost([w] + (m.trail + [x])) && LinkSafe(x)
  {
    TrailLinkSafe(w, m);
    StateKeepsLink(w, m.world);
    var all := [w] + (m.trail + [x]);
    forall i, j | 0 <= i < j < |all| && all[i].current.Some? ensures all[j].current.Some? {
      var i' := if i == 0 then 0 else i - 1;
      assert i < |all| - 1 && all[i] == m.trail[i'];
      if j < |all| - 1 {
        assert all[j] == m.trail[j - 1];
      } else {
        assert i' < |m.trail| - 1 ==> m.trail[|m.trail| - 1].current.Some?;
      }
    }
  }

  lemma TickTrail(root: string, w: World, d: Desired, o: Oracle)
    ensures var m := Reconcile(root, w, d, o).machine;
            TrailSafe(w, m) && StateSafe(w, m.world) && Ends(m)
  {
    TickSafe(root, w, d, o);
    TickEnds(root, w, d, o);
  }

  lemma RanSafe(root: string, w: World, d: Desired, o: Oracle, x: World)
    requires LinkSafe(w)
    requires var m := Reconcile(root, w, d, o).machine; x.current == m.world.current && x.commands == m.world.commands
    ensures var m := Reconcile(root, w, d, o).machine;
            AllLinkSafe(m.trail + [x]) && NeverLost([w] + (m.trail + [x]))
  {
    TickTrail(root, w, d, o);
    TrailThen(w, Reconcile(root, w, d, o).machine, x);
  }

  lemma PrefixKeeps(states: seq<World>, n: nat, w: World)
    requires n <= |states| && AllLinkSafe(states) && NeverLost([w] + states)
    ensures AllLinkSafe(states[..n]) && NeverLost([w] + states[..n])
  {
    var part, all := [w] + states[..n], [w] + states;
    assert forall i :: 0 <= i < |part| ==> part[i] == all[i];
  }

  /** What a crash leaves seen is the front of what the whole tick goes through. */
  lemma CrashedSafe(w: World, trail: seq<World>, last: World, seen: seq<World>)
    requires AllLinkSafe(trail + [last]) && NeverLost([w] + (trail + [last]))
    requires |seen| <= |trail| + 1 && seen == (trail + [last])[..|seen|]
    ensures AllLinkSafe(seen) && NeverLost([w] + seen)
  {
    var full := trail + [last];
    PrefixKeeps(full, |seen|, w);
  }

  lemma VisitedSafe(root: string, w: World, e: Event)
    requires LinkSafe(w)
    ensures AllLinkSafe(Visited(root, w, e)) && NeverLost([w] + Visited(root, w, e))
  {
    if e.Ran? && e.desired.Some? {
      var t := Reconcile(root, w, e.desired.value, e.o);
      RanSafe(root, w, e.desired.value, e.o, Hooks(t.machine.world, t.result, e.order, e.keepVersions, e.stuck));
    } else if e.Crashed? {
      var m := Reconcile(root, w, e.during, e.o).machine;
      RanSafe(root, w, e.during, e.o, m.world);
      CrashSeen(m.trail, m.world, e.at);
      CrashedSafe(w, m.trail, m.world, Visited(root, w, e));
    }
  }

  lemma CrashSeen(trail: seq<World>, last: World, at: nat)
    ensures at < |trail| ==> trail[..at] + [trail[at]] == (trail + [last])[..at + 1]
    ensures trail + [last] == (trail + [last])[..|trail| + 1]
  {}

  lemma TrailLinkSafe(w: World, m: Machine)
    requires LinkSafe(w) && TrailSafe(w, m)
    ensures AllLinkSafe(m.trail)
  {
    forall i | 0 <= i < |m.trail| ensures LinkSafe(m.trail[i]) { StateKeepsLink(w, m.trail[i]); }
  }

  /** Two stretches that meet in one state. */
  lemma Joined(head: seq<World>, tail: seq<World>)
    requires |head| >= 1 && |tail| >= 1 && tail[0] == head[|head| - 1]
    requires AllLinkSafe(head) && AllLinkSafe(tail) && NeverLost(head) && NeverLost(tail)
    ensures AllLinkSafe(head + tail) && NeverLost(head + tail)
  {
    var all := head + tail;
    forall i, j | 0 <= i < j < |all| && all[i].current.Some? ensures all[j].current.Some? {
      if j >= |head| {
        assert all[j] == tail[j - |head|];
        if i < |head| {
          assert head[|head| - 1].current.Some?;
          assert tail[0].current.Some?;
        } else {
          assert all[i] == tail[i - |head|];
        }
      }
    }
  }

  lemma {:induction false} TraceSafe(root: string, w: World, events: seq<Event>)
    requires LinkSafe(w)
    ensures AllLinkSafe(Trace(root, w, events)) && NeverLost(Trace(root, w, events))
    decreases |events|
  {
    if events != [] {
      var w' := After(root, w, events[0]);
      VisitedSafe(root, w, events[0]);
      TraceSafe(root, w', events[1..]);
      TraceStarts(root, w', events[1..]);
      Joined([w] + Visited(root, w, events[0]), Trace(root, w', events[1..]));
    }
  }

  lemma TraceStarts(root: string, w: World, events: seq<Event>)
    ensures Trace(root, w, events) != [] && Trace(root, w, events)[0] == w
  {}

  /**
   * From a directory nobody has started yet, through any ticks, hooks, outside writes and crashes at any point:
   * `current` is absent or names a launched version, and once present it is never absent again.
   */
  lemma CrashSafety(root: string, w: World, events: seq<Event>)
    requires w.current.None?
    ensures AllLinkSafe(Trace(root, w, events)) && NeverLost(Trace(root, w, events))
  {
    TraceSafe(root, w, events);
  }

  // ---------------------------------------------------------------- rollback honesty

  predicate Named(v: Option<string>) { v.Some? && v.value != "" }

  /** What the recorded state promises about the directory. */
  predicate Honest(w: World) {
    && (w.current.Some? ==> Named(w.current) && w.current.value in w.versions)
    && (w.runtime.Saved? ==>
          var rt := w.runtime.record;
          && (rt.rollbackAvailable ==> Named(rt.previousVersion) && rt.previousVersion.value in w.versions)
          && (rt.state == Running ==> Named(rt.activeVersion) && rt.activeVersion == w.current)
          && (rt.state == Running && rt.rollbackAvailable ==> rt.previousVersion != rt.activeVersion))
  }

  predicate NoCrash(e: Event) { !e.Crashed? }

  lemma VersionNamed(d: Desired)
    ensures Version(d) != ""
  {}

  lemma TickKeepsHonest(root: string, w: World, d: Desired, o: Oracle)
    requires Honest(w)
    ensures Honest(Reconcile(root, w, d, o).machine.world)
  {
    TickSafe(root, w, d, o);
    VersionNamed(d);
    var w' := Reconcile(root, w, d, o).machine.world;
    assert forall v :: v in w.versions ==> v in w.versions.Keys && v in w'.versions.Keys;
  }

  /** What a tick reports as running is what it recorded. */
  lemma ResultIsRecord(root: string, w: World, d: Desired, o: Oracle)
    ensures var t := Reconcile(root, w, d, o);
            t.result.finalState == Running ==>
              && t.machine.world.runtime.Saved?
              && var rt := t.machine.world.runtime.record;
                 rt.state == Running && t.result.activeVersion == rt.activeVersion && t.result.previousVersion == rt.previousVersion
  {
    if d.desiredState != "stopped" {
      var m := StartMachine(root, w, d, o);
      if m.ok && IsNoop(d, PriorOf(w.runtime)) { StartMachineSafe(root, w, d, o); }
    }
  }

  /** What the event of a tick says about the link and the record it left. */
  predicate EventTellsLink(w: World, v: string, t: Tick) {
    var w', event := t.machine.world, Emitted(t.result);
    && (event == Some(AddonUpdated) <==> w.current.Some? && w'.current != w.current)
    && (event == Some(AddonFailed) <==> w'.runtime.Saved? && w'.runtime.record.state == Failed)
    && (event == Some(AddonStarted) ==> w'.current == Some(v) && (w.current.None? || w.current == w'.current))
  }

  lemma FailEvent(w: World, m: Machine, d: Desired, prior: Option<RuntimeState>, rt: RuntimeState, previous: Option<string>, o: Oracle)
    requires m.world.current == w.current
    ensures EventTellsLink(w, Version(d), Fail(m, d, prior, rt, previous, o))
  {}

  lemma StopEvent(root: string, w: World, d: Desired, o: Oracle)
    ensures EventTellsLink(w, Version(d), StopTick(root, w, d, o))
  {
    StopMachineSafe(root, w, d, o);
    FailEvent(w, StopMachine(root, w, d, o), d, PriorOf(w.runtime), StopReached(root, w, d, o), w.current, o);
  }

  /** The record already reads as it will after a start of `v`, though `current` points elsewhere. */
  predicate RecordAhead(w: World, v: string) {
    && w.runtime.Saved? && w.current.Some? && w.current != Some(v)
    && var rt := w.runtime.record;
       rt.state == Running && rt.activeVersion == Some(v) && rt.previousVersion == w.current
  }

  lemma StartedEvent(root: string, w: World, m: Machine, d: Desired)
    requires w.current != Some("") && m.world.current == Some(Version(d))
    ensures var prior := PriorOf(w.runtime);
            EventTellsLink(w, Version(d), Finish(m, d, prior, StartRecord(root, d, prior, w.current, m.world)))
            <==> !RecordAhead(w, Version(d))
  {
    VersionNamed(d);
  }

  lemma NoopEvent(w: World, m: Machine, d: Desired)
    requires IsNoop(d, PriorOf(w.runtime)) && m.world.current == w.current && m.world.runtime == w.runtime
    ensures var prior := PriorOf(w.runtime); EventTellsLink(w, Version(d), Tick(m, BuildResult(d, prior.value, prior)))
  {}

  /** A start that is carried out, as against a no-op or a failure. */
  predicate Starts(root: string, w: World, d: Desired, o: Oracle) {
    d.desiredState != "stopped" && StartMachine(root, w, d, o).ok && !IsNoop(d, PriorOf(w.runtime))
  }

  lemma StartEvent(root: string, w: World, d: Desired, o: Oracle)
    requires w.current != Some("") && d.desiredState != "stopped"
    ensures EventTellsLink(w, Version(d), StartTick(root, w, d, o)) <==> !(Starts(root, w, d, o) && RecordAhead(w, Version(d)))
  {
    var m := StartMachine(root, w, d, o);
    StartMachineSafe(root, w, d, o);
    if !m.ok {
      FailEvent(w, m, d, PriorOf(w.runtime), NewRuntime(d.addonId), w.current, o);
    } else if IsNoop(d, PriorOf(w.runtime)) {
      NoopEvent(w, m, d);
    } else {
      StartedEvent(root, w, m, d);
    }
  }

  /**
   * What the lifecycle events mean: an update is reported exactly when the tick moved `current` from one version to
   * another, a failure exactly when it left an error record, and a start only with the link in place and not moved
   * away from another version. This holds of a tick if and only if it is not a start whose outcome the record had
   * foretold; then the update goes unreported. A link's target always has a name.
   */
  lemma EventsExactly(root: string, w: World, d: Desired, o: Oracle)
    requires w.current != Some("")
    ensures EventTellsLink(w, Version(d), Reconcile(root, w, d, o))
            <==> !(Starts(root, w, d, o) && RecordAhead(w, Version(d)))
  {
    if d.desiredState == "stopped" { StopEvent(root, w, d, o); } else { StartEvent(root, w, d, o); }
  }

  /** An honest directory has no such record: every event there means what it says. */
  lemma HonestEvents(root: string, w: World, d: Desired, o: Oracle)
    requires Honest(w)
    ensures EventTellsLink(w, Version(d), Reconcile(root, w, d, o))
  {
    EventsExactly(root, w, d, o);
  }

  // ---------------------------------------------------------------- a crash between the link and the record

  lemma LinkedEnds(m: Machine, v: string, o: Oracle)
    requires Activate(m, v, o).ok
    ensures Ends(Activate(m, v, o)) && Activate(m, v, o).world.runtime == m.world.runtime
    ensures Activate(m, v, o).world.versions == m.world.versions
  {}

  lemma StartKeepsRecord(root: string, w: World, d: Desired, o: Oracle)
    requires Starts(root, w, d, o)
    ensures var m := StartMachine(root, w, d, o);
            && Ends(m) && (w.runtime.Saved? ==> m.world.runtime == w.runtime)
            && w.versions.Keys <= m.world.versions.Keys && SameArtifacts(w, m.world)
  {
    var prior := PriorOf(w.runtime);
    var m1 := Step(Begin(w), WithVersion(w, Version(d)), o.fault);
    var m2 := Prepare(m1, root, d, prior, o);
    StepCalm(Begin(w), WithVersion(w, Version(d)), o.fault);
    PrepareCalm(m1, root, d, prior, o);
    CalmThen(Begin(w), m1, m2);
    LaunchLogs(m2, root, d, prior, o);
    var m3 := Launch(m2, root, d, prior, o);
    LinkedEnds(m3, Version(d), o);
  }

  /** The process stops with the link moved and the record not yet written. */
  function CrashBeforeRecord(root: string, w: World, d: Desired, o: Oracle): Event {
    Crashed(d, o, if |StartMachine(root, w, d, o).trail| > 0 then |StartMachine(root, w, d, o).trail| - 1 else 0)
  }

  /** A crash leaves the state it came in. */
  lemma CrashedAt(root: string, w: World, d: Desired, o: Oracle, at: nat)
    requires at < |Reconcile(root, w, d, o).machine.trail|
    ensures After(root, w, Crashed(d, o, at)) == Reconcile(root, w, d, o).machine.trail[at]
  {}

  lemma StartTrail(root: string, w: World, d: Desired, o: Oracle)
    requires Starts(root, w, d, o)
    ensures StartMachine(root, w, d, o).trail < Reconcile(root, w, d, o).machine.trail
  {}

  lemma CrashLeaves(root: string, w: World, d: Desired, o: Oracle)
    requires Starts(root, w, d, o) && w.runtime.Saved?
    ensures var w' := After(root, w, CrashBeforeRecord(root, w, d, o));
            w' == StartMachine(root, w, d, o).world && w'.runtime == w.runtime && w'.current == Some(Version(d))
  {
    StartKeepsRecord(root, w, d, o);
    StartMachineSafe(root, w, d, o);
    StartTrail(root, w, d, o);
    CrashedAt(root, w, d, o, |StartMachine(root, w, d, o).trail| - 1);
  }

  /**
   * How an update is lost: with `v` running and `u` before it, a start of `u` crashes before its record is written,
   * and `v` is started again. The link moves from `u` to `v` and no event is emitted.
   */
  lemma UpdateLostAfterCrash(root: string, w: World, u: Desired, o: Oracle, v: Desired, o': Oracle)
    requires Starts(root, w, u, o) && w.runtime.Saved? && Version(u) != Version(v)
    requires var rt := w.runtime.record;
             rt.state == Running && rt.activeVersion == Some(Version(v)) && rt.previousVersion == Some(Version(u))
    requires Starts(root, After(root, w, CrashBeforeRecord(root, w, u, o)), v, o')
    ensures var w1 := After(root, w, CrashBeforeRecord(root, w, u, o));
            var t := Reconcile(root, w1, v, o');
            w1.current == Some(Version(u)) && t.machine.world.current == Some(Version(v)) && Emitted(t.result).None?
  {
    CrashLeaves(root, w, u, o);
    StartMachineSafe(root, After(root, w, CrashBeforeRecord(root, w, u, o)), v, o');
  }

  lemma HooksKeepHonest(w: World, r: Result, order: seq<string>, keepVersions: nat, stuck: set<string>)
    requires Honest(w)
    requires r.finalState == Running ==>
      w.runtime.Saved? && w.runtime.record.state == Running
      && r.activeVersion == w.runtime.record.activeVersion && r.previousVersion == w.runtime.record.previousVersion
    ensures Honest(Hooks(w, r, order, keepVersions, stuck))
  {
    if r.finalState == Running {
      CleanupProtects(w.versions, order, r.activeVersion, r.previousVersion, keepVersions, stuck);
    }
  }

  /**
   * Over every run of ticks with their hooks, the desired state changing freely, with any docker, tar or file-system
   * failure: an available rollback names a version whose directory is there, and a running record names the version
   * that `current` points at, different from the rollback target.
   */
  lemma {:induction false} RollbackHonesty(root: string, w: World, events: seq<Event>)
    requires Honest(w)
    requires forall e :: e in events ==> NoCrash(e)
    ensures Honest(Run(root, w, events))
    decreases |events|
  {
    if events != [] {
      var e := events[0];
      assert e in events;
      var w' := After(root, w, e);
      assert Honest(w') by {
        if e.Ran? && e.desired.Some? {
          var t := Reconcile(root, w, e.desired.value, e.o);
          TickKeepsHonest(root, w, e.desired.value, e.o);
          ResultIsRecord(root, w, e.desired.value, e.o);
          HooksKeepHonest(t.machine.world, t.result, e.order, e.keepVersions, e.stuck);
        }
      }
      RollbackHonesty(root, w', events[1..]);
    }
  }
}
