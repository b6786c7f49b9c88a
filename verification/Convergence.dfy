/** A tick that works reaches the desired state, and a reached state is then left alone. */
module Convergence {
  import opened Text
  import opened ComposeFile
  import opened SupervisorState
  import opened Reconciler
  import opened Retention
  import opened SupervisorRuns
  import opened PostReconcile
  import opened ComposeCache
  import TickSafety

  /** Nothing raises and every command succeeds. */
  predicate AllWorks(o: Oracle) { o.fault.None? && o.tarOk && o.buildOk && o.upOk && o.downOk }

  predicate WantsStop(d: Desired) { d.desiredState == "stopped" }

  /** What a start cannot do without: the artifact, and ports that print. */
  predicate Startable(w: World, d: Desired) { ArtifactOf(w, Version(d)).Some? && Printable(d.ports) }

  lemma ExtractWorks(m: Machine, v: string, a: Artifact, o: Oracle)
    requires m.ok && AllWorks(o)
    ensures Extract(m, v, a, o).ok
  {}

  lemma PrepareWorks(m: Machine, root: string, d: Desired, prior: Option<RuntimeState>, o: Oracle)
    requires m.ok && AllWorks(o) && ArtifactOf(m.world, Version(d)).Some? && Printable(d.ports)
    ensures Prepare(m, root, d, prior, o).ok
  {
    var v := Version(d);
    var m1 := Extract(m, v, ArtifactOf(m.world, v).value, o);
    ExtractWorks(m, v, ArtifactOf(m.world, v).value, o);
    var g := DigestOf(d, TreeOf(m1.world, v));
    EnsureWorks(DropStale(m1, v, d, prior, g, o), root, v, d, g.service, o);
  }

  lemma TextWorks(m: Machine, v: string, printed: Option<string>, o: Oracle)
    requires m.ok && o.fault.None? && printed.Some?
    ensures EnsureText(m, v, printed, o).ok
  {}

  lemma EnsureWorks(m: Machine, root: string, v: string, d: Desired, service: string, o: Oracle)
    requires m.ok && o.fault.None? && Printable(d.ports)
    ensures Ensure(m, root, v, d, service, o).ok
  {
    TextWorks(m, v, Printed(root, v, d, service, o.policy), o);
  }

  lemma StartWorks(root: string, w: World, d: Desired, o: Oracle)
    requires AllWorks(o) && Printable(d.ports)
    requires IsNoop(d, PriorOf(w.runtime)) || ArtifactOf(w, Version(d)).Some?
    ensures StartMachine(root, w, d, o).ok
  {
    var prior := PriorOf(w.runtime);
    var m1 := Step(Begin(w), WithVersion(w, Version(d)), o.fault);
    if IsNoop(d, prior) {
      EnsureWorks(m1, root, Version(d), d, PrimaryService(d, TreeOf(m1.world, Version(d))), o);
    } else {
      assert ArtifactOf(m1.world, Version(d)) == ArtifactOf(w, Version(d));
      PrepareWorks(m1, root, d, prior, o);
      var m2 := Prepare(m1, root, d, prior, o);
      LaunchWorks(m2, root, d, prior, o);
      ActivateWorks(Launch(m2, root, d, prior, o), Version(d), o);
    }
  }

  lemma LaunchWorks(m: Machine, root: string, d: Desired, prior: Option<RuntimeState>, o: Oracle)
    requires m.ok && AllWorks(o)
    ensures Launch(m, root, d, prior, o).ok
  {}

  lemma ActivateWorks(m: Machine, v: string, o: Oracle)
    requires m.ok && AllWorks(o)
    ensures Activate(m, v, o).ok
  {}

  /** Either the tick acts, or the link already points at the wanted version. */
  predicate LinkInOrder(w: World, d: Desired) { IsNoop(d, PriorOf(w.runtime)) ==> w.current == Some(Version(d)) }

  /**
   * From any prior record and any link, one tick in which everything works records and reports the desired state and
   * version. It leaves `current` at that version if and only if the record did not already stand for it while the
   * link pointed elsewhere.
   */
  lemma Converges(root: string, w: World, d: Desired, o: Oracle)
    requires AllWorks(o) && (WantsStop(d) || Startable(w, d))
    ensures var t := Reconcile(root, w, d, o);
            var w' := t.machine.world;
            && w'.runtime.Saved? && w'.runtime.record.state == t.result.finalState
            && (WantsStop(d) ==> t.result.finalState == Stopped)
            && (!WantsStop(d) ==> (
                  && t.result.finalState == Running
                  && t.result.activeVersion == Some(Version(d)) == w'.runtime.record.activeVersion
                  && (w'.current == Some(Version(d)) <==> LinkInOrder(w, d))
                  && (Revision(d).Some? ==> Settled(w', d))))
  {
    if WantsStop(d) {
      StopForgets(root, w, d, o);
    } else {
      StartWorks(root, w, d, o);
      StartMachineSafe(root, w, d, o);
    }
  }

  /** An honest directory, which every run without a crash leaves, always converges in full. */
  lemma HonestConverges(root: string, w: World, d: Desired, o: Oracle)
    requires Honest(w) && AllWorks(o) && !WantsStop(d) && Startable(w, d)
    ensures Reconcile(root, w, d, o).machine.world.current == Some(Version(d))
  {
    Converges(root, w, d, o);
  }

  // ---------------------------------------------------------------- quiescence

  /** The record already stands for this desired state. */
  predicate Settled(w: World, d: Desired) { !WantsStop(d) && IsNoop(d, PriorOf(w.runtime)) }

  /** A tick on a settled directory does nothing that shows. */
  lemma SettledTick(root: string, w: World, d: Desired, o: Oracle)
    requires Settled(w, d) && o.fault.None? && Printable(d.ports)
    ensures var t := Reconcile(root, w, d, o);
            var w' := t.machine.world;
            && w'.runtime == w.runtime && w'.current == w.current && w'.commands == w.commands
            && !t.result.changed && Emitted(t.result).None? && t.result.finalState == Running
  {
    var v := Version(d);
    var m1 := Step(Begin(w), WithVersion(w, v), o.fault);
    var service := PrimaryService(d, TreeOf(m1.world, v));
    EnsureQuiet(m1, root, v, d, service, o);
    EnsureWorks(m1, root, v, d, service, o);
  }

  /** Later ticks with the desired state unchanged and no file-system fault, with anything written outside between them. */
  predicate Idle(d: Desired, events: seq<Event>) {
    forall e :: e in events ==> e.Outside? || (e.Ran? && (e.desired.Some? ==> e.desired.value == d && e.o.fault.None?))
  }

  /** No such tick reports a change or emits an event. */
  predicate SilentThroughout(root: string, w: World, events: seq<Event>)
    decreases |events|
  {
    events == []
    || (&& (events[0].Ran? && events[0].desired.Some? ==>
              var r := Reconcile(root, w, events[0].desired.value, events[0].o).result;
              !r.changed && Emitted(r).None?)
        && SilentThroughout(root, After(root, w, events[0]), events[1..]))
  }

  lemma {:induction false} StaysSettled(root: string, w: World, d: Desired, events: seq<Event>)
    requires Settled(w, d) && Printable(d.ports) && Idle(d, events)
    ensures var w' := Run(root, w, events);
            && w'.runtime == w.runtime && w'.current == w.current && w'.commands == w.commands
            && SilentThroughout(root, w, events)
    decreases |events|
  {
    if events != [] {
      var e := events[0];
      assert e in events;
      if e.Ran? && e.desired.Some? {
        SettledTick(root, w, d, e.o);
        AfterRan(root, w, d, e.o, e.order, e.keepVersions, e.stuck);
      }
      StaysSettled(root, After(root, w, e), d, events[1..]);
    }
  }

  /**
   * Convergence then quiescence, with a nonblank revision and running desired, from any prior record and link: after
   * one tick in which everything works, every later tick issues no docker command, leaves the record and `current`
   * alone, and reports nothing, with or without a force rebuild. `current` then rests at the wanted version if and
   * only if it was in order to begin with.
   */
  lemma ConvergesThenRests(root: string, w: World, d: Desired, o: Oracle,
                           order: seq<string>, keepVersions: nat, stuck: set<string>, events: seq<Event>)
    requires !WantsStop(d) && Revision(d).Some? && AllWorks(o) && Startable(w, d) && Idle(d, events)
    ensures var w1 := After(root, w, Ran(Some(d), o, order, keepVersions, stuck));
            var w2 := Run(root, w1, events);
            && w1.runtime.Saved? && w1.runtime.record.state == Running
            && w1.runtime.record.activeVersion == Some(Version(d))
            && w2.runtime == w1.runtime && w2.current == w1.current && w2.commands == w1.commands
            && (w2.current == Some(Version(d)) <==> LinkInOrder(w, d))
            && SilentThroughout(root, w1, events)
  {
    Converges(root, w, d, o);
    AfterRan(root, w, d, o, order, keepVersions, stuck);
    StaysSettled(root, After(root, w, Ran(Some(d), o, order, keepVersions, stuck)), d, events);
  }

  /**
   * How the link comes to be out of order: with `d1` settled, a start of another version crashes before its record is
   * written, and the desired state goes back to `d1`. The next tick takes the record's word: it reports `d1` running
   * and unchanged, issues no command, and `current` stays at the other version for ever.
   */
  lemma RevertAfterCrash(root: string, w: World, d1: Desired, d2: Desired, o: Oracle, o': Oracle, events: seq<Event>)
    requires Settled(w, d1) && Version(d2) != Version(d1) && Starts(root, w, d2, o)
    requires o'.fault.None? && Printable(d1.ports) && Idle(d1, events)
    ensures var w1 := After(root, w, CrashBeforeRecord(root, w, d2, o));
            var t := Reconcile(root, w1, d1, o');
            && t.result.finalState == Running && t.result.activeVersion == Some(Version(d1)) && !t.result.changed
            && t.machine.world.commands == w1.commands && t.machine.world.current == Some(Version(d2))
            && Run(root, w1, events).current == Some(Version(d2)) && Run(root, w1, events).commands == w1.commands
  {
    CrashLeaves(root, w, d2, o);
    var w1 := After(root, w, CrashBeforeRecord(root, w, d2, o));
    SettledTick(root, w1, d1, o');
    StaysSettled(root, w1, d1, events);
    NoopResult(root, w1, d1, o');
  }

  lemma NoopResult(root: string, w: World, d: Desired, o: Oracle)
    requires Settled(w, d) && Reconcile(root, w, d, o).result.finalState == Running
    ensures Reconcile(root, w, d, o).result.activeVersion == Some(Version(d))
  {}

  /**
   * Resting depends on the revision exactly: after a start that worked, the next tick with the same desired state
   * issues a docker command if and only if the revision is blank.
   */
  lemma RestsExactlyWithRevision(root: string, w: World, d: Desired, o: Oracle, o': Oracle)
    requires !WantsStop(d) && Printable(d.ports) && AllWorks(o')
    requires StartMachine(root, w, d, o).ok
    ensures var w1 := Reconcile(root, w, d, o).machine.world;
            var w2 := Reconcile(root, w1, d, o').machine.world;
            w2.commands == w1.commands <==> Revision(d).Some?
  {
    var w1 := Reconcile(root, w, d, o).machine.world;
    if Revision(d).Some? {
      if IsNoop(d, PriorOf(w.runtime)) { StartMachineSafe(root, w, d, o); }
      SettledTick(root, w1, d, o');
    } else {
      ArtifactStays(root, w, d, o);
      StartWorks(root, w1, d, o');
      CommandsGrow(root, w1, d, o');
    }
  }

  lemma ArtifactStays(root: string, w: World, d: Desired, o: Oracle)
    requires Starts(root, w, d, o)
    ensures ArtifactOf(StartMachine(root, w, d, o).world, Version(d)).Some?
  {
    var m1 := Step(Begin(w), WithVersion(w, Version(d)), o.fault);
    assert ArtifactOf(m1.world, Version(d)).Some? ==> ArtifactOf(w, Version(d)).Some?;
    StartKeepsRecord(root, w, d, o);
  }

  lemma CommandsGrow(root: string, w: World, d: Desired, o: Oracle)
    requires !IsNoop(d, PriorOf(w.runtime)) && StartMachine(root, w, d, o).ok
    ensures |StartMachine(root, w, d, o).world.commands| > |w.commands|
  {
    var prior := PriorOf(w.runtime);
    var m1 := Step(Begin(w), WithVersion(w, Version(d)), o.fault);
    var m2 := Prepare(m1, root, d, prior, o);
    TickSafety.PrepareCalm(m1, root, d, prior, o);
    ActivateKeeps(Launch(m2, root, d, prior, o), Version(d), o);
  }

  /** A stopped addon is not left alone: each later stop tick runs `down` again on the files its record keeps. */
  lemma StopRepeats(root: string, w: World, d: Desired, o: Oracle)
    requires WantsStop(d) && AllWorks(o) && StopFiles(root, w) != []
    ensures var w1 := Reconcile(root, w, d, o).machine.world;
            && StopFiles(root, w1) == StopFiles(root, w)
            && |Reconcile(root, w1, d, o).machine.world.commands| == |w1.commands| + 1
  {
    var files := StopFiles(root, w);
    var w1 := Reconcile(root, w, d, o).machine.world;
    assert w1.runtime == Saved(StopRecord(d, files));
    NonBlankTwice(files, root, w);
  }

  lemma {:induction false} NonBlankIdempotent(paths: seq<string>)
    ensures NonBlank(NonBlank(paths)) == NonBlank(paths)
  {
    if paths != [] {
      NonBlankIdempotent(paths[1..]);
      if Strip(paths[0]) != "" {
        var tail := NonBlank(paths[1..]);
        assert ([paths[0]] + tail)[1..] == tail;
      } else {
        assert NonBlank(paths) == NonBlank(paths[1..]);
      }
    }
  }

  lemma NonBlankTwice(files: seq<string>, root: string, w: World)
    requires files == StopFiles(root, w) && files != []
    ensures NonBlank(files) == files
  {
    var prior := PriorOf(w.runtime);
    if prior.Some? && prior.value.filesInUse != [] {
      NonBlankIdempotent(prior.value.filesInUse);
    } else {
      var path := root + "/current/docker-compose.yml";
      StripKeepsInk(path, |root|);
      assert files == [path] && files[1..] == [];
    }
  }

  /** Stripping a text with a visible character leaves something. */
  lemma StripKeepsInk(s: string, k: nat)
    requires k < |s| && !IsSpace(s[k])
    ensures Strip(s) != ""
  {
    TrimLeftClean(s, IsSpace);
    var l := TrimLeft(s, IsSpace);
    assert s[k] == l[k - (|s| - |l|)];
    TrimRightClean(l, IsSpace);
  }
}
