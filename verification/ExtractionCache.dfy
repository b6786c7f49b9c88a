/** The extracted tree and its marker agree, at every moment of every run. */
module ExtractionCache {
  import opened Text
  import opened ComposeFile
  import opened SupervisorState
  import opened Reconciler
  import opened Retention
  import opened SupervisorRuns

  /** A marker that holds the hash of an artifact sits in a full extraction of that artifact. */
  predicate TreeHonest(t: Option<Tree>) {
    t.Some? && t.value.marker.HashOf? ==> t.value.files == t.value.marker.artifact.files
  }

  predicate TreesHonest(w: World) { forall v :: v in w.versions ==> TreeHonest(w.versions[v].tree) }

  predicate AllHonest(m: Machine) {
    TreesHonest(m.world) && forall i :: 0 <= i < |m.trail| ==> TreesHonest(m.trail[i])
  }

  predicate FullTree(t: Option<Tree>, a: Artifact) { t == Some(Tree(a.files, HashOf(a))) }

  lemma StepHonest(m: Machine, w: World, fault: Option<nat>)
    requires AllHonest(m) && (m.ok ==> TreesHonest(w))
    ensures AllHonest(Step(m, w, fault))
  {
    var m' := Step(m, w, fault);
    forall i | 0 <= i < |m'.trail| ensures TreesHonest(m'.trail[i]) {
      if i < |m.trail| { assert m'.trail[i] == m.trail[i]; }
    }
  }

  lemma UnpackHonest(m: Machine, v: string, a: Artifact, o: Oracle)
    requires AllHonest(m)
    requires m.ok ==> v in m.world.versions && TreeOf(m.world, v) == Some(EMPTY_TREE)
    ensures var m' := Unpack(m, v, a, o);
            AllHonest(m') && (m'.ok ==> FullTree(TreeOf(m'.world, v), a))
  {
    var m1 := Step(m, Unpacked(m.world, v, Part(a, o.tarPartial)), o.fault);
    StepHonest(m, Unpacked(m.world, v, Part(a, o.tarPartial)), o.fault);
    if o.tarOk {
      var m2 := Step(m1, Unpacked(m1.world, v, a.files), o.fault);
      StepHonest(m1, Unpacked(m1.world, v, a.files), o.fault);
      assert m2.ok ==> TreeOf(m2.world, v) == Some(Tree(a.files, NoMarker)) by {
        assert map[] + Part(a, o.tarPartial) + a.files == a.files;
      }
      var m3 := Step(m2, Marked(m2.world, v, Torn), o.fault);
      StepHonest(m2, Marked(m2.world, v, Torn), o.fault);
      StepHonest(m3, Marked(m3.world, v, HashOf(a)), o.fault);
    }
  }

  /**
   * Extraction with a removal that works: honest at every step, whether tar fails, a step raises or the process
   * stops; and a normal return leaves the tree extracted from the current artifact.
   */
  lemma ExtractHonest(m: Machine, v: string, a: Artifact, o: Oracle)
    requires AllHonest(m) && v in m.world.versions && o.removalLeaves.None?
    ensures var m' := Extract(m, v, a, o);
            AllHonest(m') && (m'.ok ==> FullTree(TreeOf(m'.world, v), a))
  {
    var t := TreeOf(m.world, v);
    if t.None? {
      StepHonest(m, WithTree(m.world, v, Some(EMPTY_TREE)), o.fault);
      var made := MakeTree(m, v, o);
      UnpackHonest(made, v, a, o);
      StepHonest(Unpack(made, v, a, o), Unpack(made, v, a, o).world, o.fault);
    } else if t.value.marker != HashOf(a) {
      var removed := Step(m, WithTree(m.world, v, None), o.fault);
      StepHonest(m, WithTree(m.world, v, None), o.fault);
      StepHonest(removed, WithTree(removed.world, v, Some(EMPTY_TREE)), o.fault);
      var made := MakeTree(removed, v, o);
      UnpackHonest(made, v, a, o);
      StepHonest(Unpack(made, v, a, o), Unpack(made, v, a, o).world, o.fault);
    } else {
      assert TreeHonest(m.world.versions[v].tree);
      StepHonest(m, m.world, o.fault);
    }
  }

  /** Whether a refresh is due, which removes the old tree first. */
  predicate Refreshes(t: Option<Tree>, a: Artifact) { t.Some? && t.value.marker != HashOf(a) }

  /**
   * When nothing raises, the tree is the artifact's exactly if the removal, which ignores its own errors, left no
   * file that the archive does not overwrite.
   */
  lemma ExtractionExact(m: Machine, v: string, a: Artifact, o: Oracle)
    requires m.ok && v in m.world.versions && TreeHonest(TreeOf(m.world, v))
    requires o.fault.None? && o.tarOk
    ensures var t := TreeOf(m.world, v);
            FullTree(TreeOf(Extract(m, v, a, o).world, v), a)
            <==> (Refreshes(t, a) && o.removalLeaves.Some? ==> o.removalLeaves.value.files.Keys <= a.files.Keys)
  {
    var t := TreeOf(m.world, v);
    if t.None? || (t.value.marker != HashOf(a) && o.removalLeaves.None?) {
      UnpackAll(if t.None? then MakeTree(m, v, o) else MakeTree(Step(m, WithTree(m.world, v, None), o.fault), v, o), v, a, o, map[]);
      assert map[] + a.files == a.files;
    } else if t.value.marker != HashOf(a) {
      var left := o.removalLeaves.value;
      UnpackAll(MakeTree(Step(m, WithTree(m.world, v, o.removalLeaves), o.fault), v, o), v, a, o, left.files);
      if left.files.Keys <= a.files.Keys {
        assert left.files + a.files == a.files;
      } else {
        var n :| n in left.files && n !in a.files;
        assert n in left.files + a.files;
      }
    }
  }

  lemma UnpackAll(m: Machine, v: string, a: Artifact, o: Oracle, base: map<string, string>)
    requires m.ok && v in m.world.versions && TreeOf(m.world, v).Some? && TreeOf(m.world, v).value.files == base
    requires o.fault.None? && o.tarOk
    ensures TreeOf(Unpack(m, v, a, o).world, v) == Some(Tree(base + a.files, HashOf(a)))
  {
    assert base + Part(a, o.tarPartial) + a.files == base + a.files;
  }

  // ---------------------------------------------------------------- whole ticks and runs

  lemma TextHonest(m: Machine, v: string, printed: Option<string>, o: Oracle)
    requires AllHonest(m)
    ensures AllHonest(EnsureText(m, v, printed, o))
  {
    var m0 := if m.world.runtime.Missing? then Step(m, m.world.(runtime := Unreadable), o.fault) else m;
    StepHonest(m, m.world.(runtime := Unreadable), o.fault);
    var m1 := Step(m0, m0.world, o.fault);
    StepHonest(m0, m0.world, o.fault);
    var m2 := Step(m1, WithCompose(m1.world, v, Some("")), o.fault);
    StepHonest(m1, WithCompose(m1.world, v, Some("")), o.fault);
    StepHonest(m2, WithCompose(m2.world, v, printed), o.fault);
  }

  lemma EnsureHonest(m: Machine, root: string, v: string, d: Desired, service: string, o: Oracle)
    requires AllHonest(m)
    ensures AllHonest(Ensure(m, root, v, d, service, o))
  {
    TextHonest(m, v, Printed(root, v, d, service, o.policy), o);
  }

  lemma DropStaleHonest(m: Machine, v: string, d: Desired, prior: Option<RuntimeState>, digest: Digest, o: Oracle)
    requires AllHonest(m)
    ensures AllHonest(DropStale(m, v, d, prior, digest, o))
  {
    var m1 := DropIf(m, v, ForceNow(d, prior), o);
    StepHonest(m, WithCompose(m.world, v, None), o.fault);
    var m2 := DropIf(m1, v, DigestChanged(prior, v, digest), o);
    StepHonest(m1, WithCompose(m1.world, v, None), o.fault);
    StepHonest(m2, WithCompose(m2.world, v, None), o.fault);
  }

  lemma PrepareHonest(m: Machine, root: string, d: Desired, prior: Option<RuntimeState>, o: Oracle)
    requires AllHonest(m) && o.removalLeaves.None?
    ensures AllHonest(Prepare(m, root, d, prior, o))
  {
    var v := Version(d);
    var a := ArtifactOf(m.world, v);
    if m.ok && a.Some? {
      ExtractHonest(m, v, a.value, o);
      var m1 := Extract(m, v, a.value, o);
      if m1.ok {
        var digest := DigestOf(d, TreeOf(m1.world, v));
        DropStaleHonest(m1, v, d, prior, digest, o);
        EnsureHonest(DropStale(m1, v, d, prior, digest, o), root, v, d, digest.service, o);
      }
    }
  }

  lemma LaunchHonest(m: Machine, root: string, d: Desired, prior: Option<RuntimeState>, o: Oracle)
    requires AllHonest(m)
    ensures AllHonest(Launch(m, root, d, prior, o))
  {
    var v := Version(d);
    var files := ComposePaths(root, v, ActiveGroups(Groups(d), TreeOf(m.world, v)));
    var rebuild := VersionTransition(prior, v) || ForceNow(d, prior);
    StepHonest(m, WithCommand(m.world, Build(files, d.project, o.buildOk)), o.fault);
    var m1 := if rebuild then Step(m, WithCommand(m.world, Build(files, d.project, o.buildOk)), o.fault) else m;
    StepHonest(m1, WithCommand(m1.world, Up(v, files, d.project, rebuild, ComposeOf(m1.world, v), o.upOk)), o.fault);
  }

  lemma ActivateHonest(m: Machine, v: string, o: Oracle)
    requires AllHonest(m)
    ensures AllHonest(Activate(m, v, o))
  {
    StepHonest(m, m.world.(next := None), o.fault);
    var m1 := if m.world.next.Some? then Step(m, m.world.(next := None), o.fault) else m;
    StepHonest(m1, m1.world.(next := Some(v)), o.fault);
    var m2 := Step(m1, m1.world.(next := Some(v)), o.fault);
    StepHonest(m2, m2.world.(current := m2.world.next, next := None), o.fault);
  }

  lemma StartMachineHonest(root: string, w: World, d: Desired, o: Oracle)
    requires TreesHonest(w) && o.removalLeaves.None?
    ensures AllHonest(StartMachine(root, w, d, o))
  {
    var prior := PriorOf(w.runtime);
    var m1 := Step(Begin(w), WithVersion(w, Version(d)), o.fault);
    StepHonest(Begin(w), WithVersion(w, Version(d)), o.fault);
    if m1.ok && IsNoop(d, prior) {
      EnsureHonest(m1, root, Version(d), d, PrimaryService(d, TreeOf(m1.world, Version(d))), o);
    } else {
      var m2 := Prepare(m1, root, d, prior, o);
      PrepareHonest(m1, root, d, prior, o);
      if m2.ok {
        LaunchHonest(m2, root, d, prior, o);
        ActivateHonest(Launch(m2, root, d, prior, o), Version(d), o);
      }
    }
  }

  lemma StopMachineHonest(root: string, w: World, d: Desired, o: Oracle)
    requires TreesHonest(w)
    ensures AllHonest(StopMachine(root, w, d, o))
  {
    var files := StopFiles(root, w);
    StepHonest(Begin(w), WithCommand(w, Down(files, d.project, o.downOk)), o.fault);
    var m := DownMachine(root, w, d, o);
    StepHonest(m, m.world.(runtime := Saved(StopRecord(d, files))), o.fault);
  }

  lemma SaveHonest(m: Machine, rt: RuntimeState)
    requires AllHonest(m)
    ensures AllHonest(Save(m, rt))
  {
    var m' := Save(m, rt);
    forall i | 0 <= i < |m'.trail| ensures TreesHonest(m'.trail[i]) {
      if i < |m.trail| { assert m'.trail[i] == m.trail[i]; }
    }
  }

  lemma TickHonest(root: string, w: World, d: Desired, o: Oracle)
    requires TreesHonest(w) && o.removalLeaves.None?
    ensures AllHonest(Reconcile(root, w, d, o).machine)
  {
    var prior := PriorOf(w.runtime);
    if d.desiredState == "stopped" {
      StopMachineHonest(root, w, d, o);
      SaveHonest(StopMachine(root, w, d, o), ErrorRecord(StopReached(root, w, d, o), w.current, o.message));
    } else {
      var m := StartMachine(root, w, d, o);
      StartMachineHonest(root, w, d, o);
      SaveHonest(m, ErrorRecord(NewRuntime(d.addonId), w.current, o.message));
      SaveHonest(m, StartRecord(root, d, prior, w.current, m.world));
    }
  }

  /** Removals work, and nobody else plants a tree whose marker lies. */
  predicate FairEvent(e: Event) {
    match e
    case Outside(dirs) => forall v :: v in dirs ==> TreeHonest(dirs[v].tree)
    case Ran(_, o, _, _, _) => o.removalLeaves.None?
    case Crashed(_, o, _) => o.removalLeaves.None?
  }

  predicate AllStatesHonest(states: seq<World>) { forall i :: 0 <= i < |states| ==> TreesHonest(states[i]) }

  lemma VisitedHonest(root: string, w: World, e: Event)
    requires TreesHonest(w) && FairEvent(e)
    ensures AllStatesHonest(Visited(root, w, e))
  {
    if e.Ran? && e.desired.Some? {
      var t := Reconcile(root, w, e.desired.value, e.o);
      TickHonest(root, w, e.desired.value, e.o);
      CleanupProtects(t.machine.world.versions, e.order, t.result.activeVersion, t.result.previousVersion, e.keepVersions, e.stuck);
    } else if e.Crashed? {
      TickHonest(root, w, e.during, e.o);
    }
  }

  /** Through any run of ticks, tar failures and crashes, a marker with hash h always sits in a full extraction of h. */
  lemma {:induction false} MarkersNeverLie(root: string, w: World, events: seq<Event>)
    requires TreesHonest(w) && forall e :: e in events ==> FairEvent(e)
    ensures AllStatesHonest(Trace(root, w, events))
    decreases |events|
  {
    if events != [] {
      assert events[0] in events;
      VisitedHonest(root, w, events[0]);
      MarkersNeverLie(root, After(root, w, events[0]), events[1..]);
      var head := [w] + Visited(root, w, events[0]);
      var tail := Trace(root, After(root, w, events[0]), events[1..]);
      assert Trace(root, w, events) == head + tail;
      forall i | 0 <= i < |head + tail| ensures TreesHonest((head + tail)[i]) {}
    }
  }
}
