/** The supervisor as it runs: an object whose fields are the addon directory, updated in place. */
module AddonDirectory {
  import opened Text
  import opened ComposeFile
  import opened SupervisorState
  import opened Reconciler
  import opened Retention
  import opened PostReconcile

  /** Whether the last call returned or raised. */
  datatype Outcome = Pass | Thrown {
    predicate IsFailure() { Thrown? }
    function PropagateFailure(): Outcome requires Thrown? { this }
  }

  class Supervisor {
    const root: string
    var runtime: RuntimeFile
    var current: Option<string>
    var next: Option<string>
    var versions: map<string, VersionDir>
    var commands: seq<Command>
    var steps: nat               // steps taken in this tick, which is where a fault is placed
    ghost var trail: seq<World>  // every state since the tick began

    constructor (root: string, w: World)
      ensures this.root == root && Disk() == w && Valid()
    {
      this.root := root;
      runtime, current, next, versions, commands := w.runtime, w.current, w.next, w.versions, w.commands;
      steps, trail := 1, [w];
    }

    function Disk(): World
      reads this
    {
      World(runtime, current, next, versions, commands)
    }

    ghost predicate Valid()
      reads this
    {
      steps == |trail|
    }

    /** The tick so far, as the specification sees it. */
    ghost function Now(r: Outcome): Machine
      reads this
    {
      Machine(Disk(), trail, r.Pass?)
    }

    /** A file-system step that leaves the modelled state as it is. */
    method Touch(o: Oracle) returns (r: Outcome)
      requires Valid()
      modifies this
      ensures Valid() && Now(r) == Step(old(Now(Pass)), old(Disk()), o.fault)
    {
      if o.fault == Some(steps) { return Thrown; }
      Record();
      return Pass;
    }

    ghost method Note()
      modifies this`trail
      ensures trail == old(trail) + [Disk()]
    {
      trail := trail + [Disk()];
    }

    method Record()
      requires Valid()
      modifies this`steps, this`trail
      ensures Valid() && trail == old(trail) + [Disk()]
    {
      steps := steps + 1;
      Note();
    }

    method MakeVersion(v: string, o: Oracle) returns (r: Outcome)
      requires Valid()
      modifies this
      ensures Valid() && Now(r) == Step(old(Now(Pass)), WithVersion(old(Disk()), v), o.fault)
    {
      if o.fault == Some(steps) { return Thrown; }
      if v !in versions { versions := versions[v := EMPTY_DIR]; }
      Record();
      return Pass;
    }

    method SetTree(v: string, t: Option<Tree>, o: Oracle) returns (r: Outcome)
      requires Valid()
      modifies this
      ensures Valid() && Now(r) == Step(old(Now(Pass)), WithTree(old(Disk()), v, t), o.fault)
    {
      if o.fault == Some(steps) { return Thrown; }
      if v in versions { versions := versions[v := versions[v].(tree := t)]; }
      Record();
      return Pass;
    }

    method SetCompose(v: string, text: Option<string>, o: Oracle) returns (r: Outcome)
      requires Valid()
      modifies this
      ensures Valid() && Now(r) == Step(old(Now(Pass)), WithCompose(old(Disk()), v, text), o.fault)
    {
      if o.fault == Some(steps) { return Thrown; }
      if v in versions { versions := versions[v := versions[v].(compose := text)]; }
      Record();
      return Pass;
    }

    method SetRuntime(f: RuntimeFile, o: Oracle) returns (r: Outcome)
      requires Valid()
      modifies this
      ensures Valid() && Now(r) == Step(old(Now(Pass)), old(Disk()).(runtime := f), o.fault)
    {
      if o.fault == Some(steps) { return Thrown; }
      runtime := f;
      Record();
      return Pass;
    }

    /** A docker command; a failing one still happened. */
    method Issue(c: Command, o: Oracle) returns (r: Outcome)
      requires Valid()
      modifies this
      ensures Valid() && Now(r) == Step(old(Now(Pass)), WithCommand(old(Disk()), c), o.fault)
    {
      if o.fault == Some(steps) { return Thrown; }
      commands := commands + [c];
      Record();
      return Pass;
    }

    // -------------------------------------------------------------- ensure_extracted

    method RunTar(v: string, a: Artifact, o: Oracle) returns (r: Outcome)
      requires Valid()
      modifies this
      ensures Valid() && Now(r) == Unpack(old(Now(Pass)), v, a, o)
    {
      var t := TreeOf(Disk(), v);
      if t.Some? {
        :- SetTree(v, Some(t.value.(files := t.value.files + Part(a, o.tarPartial))), o);
      } else {
        :- Touch(o);
      }
      if !o.tarOk { return Thrown; }
      t := TreeOf(Disk(), v);
      if t.Some? {
        :- SetTree(v, Some(t.value.(files := t.value.files + a.files)), o);
      } else {
        :- Touch(o);
      }
      :- WriteMarker(v, Torn, o);
      r := WriteMarker(v, HashOf(a), o);
    }

    method WriteMarker(v: string, marker: Marker, o: Oracle) returns (r: Outcome)
      requires Valid()
      modifies this
      ensures Valid() && Now(r) == Step(old(Now(Pass)), Marked(old(Disk()), v, marker), o.fault)
    {
      var t := TreeOf(Disk(), v);
      if t.Some? {
        r := SetTree(v, Some(t.value.(marker := marker)), o);
      } else {
        r := Touch(o);
      }
    }

    method EnsureTreeDir(v: string, o: Oracle) returns (r: Outcome)
      requires Valid()
      modifies this
      ensures Valid() && Now(r) == MakeTree(old(Now(Pass)), v, o)
    {
      if TreeOf(Disk(), v).Some? {
        r := Touch(o);
      } else {
        r := SetTree(v, Some(EMPTY_TREE), o);
      }
    }

    method EnsureExtracted(v: string, a: Artifact, o: Oracle) returns (r: Outcome)
      requires Valid()
      modifies this
      ensures Valid() && Now(r) == Extract(old(Now(Pass)), v, a, o)
    {
      var t := TreeOf(Disk(), v);
      if t.Some? {
        if t.value.marker != HashOf(a) {
          :- SetTree(v, o.removalLeaves, o);
          :- EnsureTreeDir(v, o);
          :- RunTar(v, a, o);
        }
      } else {
        :- EnsureTreeDir(v, o);
        :- RunTar(v, a, o);
      }
      r := Touch(o);
    }

    // -------------------------------------------------------------- ensure_compose_files

    method EnsureComposeFiles(v: string, d: Desired, service: string, o: Oracle) returns (r: Outcome)
      requires Valid()
      modifies this
      ensures Valid() && Now(r) == Ensure(old(Now(Pass)), root, v, d, service, o)
    {
      if runtime.Missing? {
        :- SetRuntime(Unreadable, o);
      }
      :- Touch(o);
      if !Printable(d.ports) { return Thrown; }
      var existing := ComposeOf(Disk(), v);
      if existing.Some? && !MustRewrite(existing.value, o.policy) { return Pass; }
      :- SetCompose(v, Some(""), o);
      r := SetCompose(v, Some(Render(SetupFor(root, v, d, service, o.policy))), o);
    }

    method UnlinkStaleCompose(v: string, d: Desired, prior: Option<RuntimeState>, digest: Digest, o: Oracle) returns (r: Outcome)
      requires Valid()
      modifies this
      ensures Valid() && Now(r) == DropStale(old(Now(Pass)), v, d, prior, digest, o)
    {
      if ComposeOf(Disk(), v).Some? && ForceNow(d, prior) {
        :- SetCompose(v, None, o);
      }
      if ComposeOf(Disk(), v).Some? && DigestChanged(prior, v, digest) {
        :- SetCompose(v, None, o);
      }
      if ComposeOf(Disk(), v).Some? {
        var existing := ComposeServiceBuildFlags(ComposeOf(Disk(), v).value);
        if digest.service !in existing {
          :- SetCompose(v, None, o);
        }
      }
      return Pass;
    }

    // -------------------------------------------------------------- reconcile_one

    method PrepareVersion(d: Desired, prior: Option<RuntimeState>, o: Oracle) returns (r: Outcome)
      requires Valid()
      modifies this
      ensures Valid() && Now(r) == Prepare(old(Now(Pass)), root, d, prior, o)
    {
      var v := Version(d);
      var a := ArtifactOf(Disk(), v);
      if a.None? { return Thrown; }
      :- EnsureExtracted(v, a.value, o);
      var digest := DigestOf(d, TreeOf(Disk(), v));
      :- UnlinkStaleCompose(v, d, prior, digest, o);
      r := EnsureComposeFiles(v, d, digest.service, o);
    }

    method ComposeUp(d: Desired, prior: Option<RuntimeState>, o: Oracle) returns (r: Outcome)
      requires Valid()
      modifies this
      ensures Valid() && Now(r) == Launch(old(Now(Pass)), root, d, prior, o)
    {
      var v := Version(d);
      var files := ComposePaths(root, v, ActiveGroups(Groups(d), TreeOf(Disk(), v)));
      var rebuild := VersionTransition(prior, v) || ForceNow(d, prior);
      if rebuild {
        :- Issue(Build(files, d.project, o.buildOk), o);
        if !o.buildOk { return Thrown; }
      }
      :- Issue(Up(v, files, d.project, rebuild, ComposeOf(Disk(), v), o.upOk), o);
      if !o.upOk { return Thrown; }
      return Pass;
    }

    method ActivateCurrentSymlink(v: string, o: Oracle) returns (r: Outcome)
      requires Valid()
      modifies this
      ensures Valid() && Now(r) == Activate(old(Now(Pass)), v, o)
    {
      if next.Some? {
        if o.fault == Some(steps) { return Thrown; }
        next := None;
        Record();
      }
      if o.fault == Some(steps) { return Thrown; }
      next := Some(v);
      Record();
      if o.fault == Some(steps) { return Thrown; }
      current, next := next, None;
      Record();
      return Pass;
    }

    method TryStart(d: Desired, prior: Option<RuntimeState>, o: Oracle) returns (r: Outcome)
      requires Valid() && trail == [Disk()] && prior == PriorOf(runtime)
      modifies this
      ensures Valid() && Now(r) == StartMachine(root, old(Disk()), d, o)
    {
      var v := Version(d);
      :- MakeVersion(v, o);
      if IsNoop(d, prior) {
        if StaleRestartPolicy(ComposeOf(Disk(), v)) {
          :- EnsureComposeFiles(v, d, PrimaryService(d, TreeOf(Disk(), v)), o);
        }
        return Pass;
      }
      :- PrepareVersion(d, prior, o);
      :- ComposeUp(d, prior, o);
      r := ActivateCurrentSymlink(v, o);
    }

    method WriteRuntime(rt: RuntimeState)
      requires Valid()
      modifies this
      ensures Valid() && Disk() == old(Disk()).(runtime := Saved(rt)) && trail == old(trail) + [Disk()]
    {
      runtime := Saved(rt);
      Record();
    }

    method StopAddon(d: Desired, files: seq<string>, o: Oracle) returns (r: Outcome, rt: RuntimeState)
      requires Valid() && trail == [Disk()] && files == StopFiles(root, Disk())
      modifies this
      ensures Valid()
      ensures var w := old(Disk());
              var t := StopTick(root, w, d, o);
              if r.Pass? then Now(r) == t.machine && t.result == BuildResult(d, rt, PriorOf(w.runtime))
              else t == Fail(Now(r), d, PriorOf(w.runtime), rt, w.current, o)
    {
      rt := NewRuntime(d.addonId);
      if files != [] {
        r := Issue(Down(files, d.project, o.downOk), o);
        if r.Thrown? { return; }
        if !o.downOk { return Thrown, rt; }
      }
      rt := StopRecord(d, files);
      r := SetRuntime(Saved(rt), o);
    }

    /** `reconcile_one`: None when there is no desired state on file. */
    method ReconcileOne(desired: Option<Desired>, o: Oracle) returns (result: Option<Result>)
      modifies this
      ensures desired.None? ==> result.None? && Disk() == old(Disk())
      ensures desired.Some? ==>
        var t := Reconcile(root, old(Disk()), desired.value, o);
        result == Some(t.result) && Disk() == t.machine.world && trail == t.machine.trail
    {
      if desired.None? { return None; }
      var d := desired.value;
      steps, trail := 1, [Disk()];
      var prior := PriorOf(runtime);
      var previousVersion := current;
      var rt := NewRuntime(d.addonId);
      if d.desiredState == "stopped" {
        var files := StopFiles(root, Disk());
        var r, stopped := StopAddon(d, files, o);
        if r.Pass? { return Some(BuildResult(d, stopped, prior)); }
        rt := stopped;
      } else {
        var r := TryStart(d, prior, o);
        if r.Pass? {
          if IsNoop(d, prior) { return Some(BuildResult(d, prior.value, prior)); }
          rt := StartRecord(root, d, prior, previousVersion, Disk());
          WriteRuntime(rt);
          return Some(BuildResult(d, rt, prior));
        }
      }
      rt := ErrorRecord(rt, previousVersion, o.message);
      WriteRuntime(rt);
      return Some(BuildResult(d, rt, prior));
    }

    // -------------------------------------------------------------- run_post_reconcile_hooks

    /** The loop that fills the keep set. */
    method FillKeepSet(safe: set<string>, entries: seq<Entry>, keepVersions: nat) returns (keepSet: set<string>)
      ensures keepSet == KeepSet(safe, entries, keepVersions)
    {
      keepSet := safe;
      var i := 0;
      while i < |entries|
        invariant 0 <= i <= |entries|
        invariant KeepSet(keepSet, entries[i..], keepVersions) == KeepSet(safe, entries, keepVersions)
      {
        if |keepSet| >= keepVersions { break; }
        assert entries[i..][1..] == entries[i + 1..];
        keepSet := keepSet + {entries[i].name};
        i := i + 1;
      }
    }

    /** The deleting loop; a directory in `stuck` cannot be removed. */
    method DeleteOutside(entries: seq<Entry>, keepSet: set<string>, stuck: set<string>) returns (pruned: seq<string>)
      modifies this`versions
      ensures pruned == Pruned(entries, keepSet)
      ensures versions == Delete(old(versions), entries, keepSet, stuck)
    {
      pruned := [];
      var i := 0;
      while i < |entries|
        invariant 0 <= i <= |entries|
        invariant pruned + Pruned(entries[i..], keepSet) == Pruned(entries, keepSet)
        invariant Delete(versions, entries[i..], keepSet, stuck) == Delete(old(versions), entries, keepSet, stuck)
      {
        var name := entries[i].name;
        NextEntry(versions, entries, i, keepSet, stuck);
        if name !in keepSet {
          if name !in stuck { versions := versions - {name}; }
          ghost var rest := Pruned(entries[i + 1..], keepSet);
          assert pruned + ([name] + rest) == (pruned + [name]) + rest;
          pruned := pruned + [name];
        } else {
          assert [] + Pruned(entries[i + 1..], keepSet) == Pruned(entries[i + 1..], keepSet);
        }
        i := i + 1;
      }
    }

    /** `_cleanup_old_versions`: `order` is the order of the directory listing. */
    method CleanupOldVersions(order: seq<string>, active: Option<string>, previous: Option<string>,
                              keepVersions: nat, stuck: set<string>)
      returns (keepSet: set<string>, pruned: seq<string>)
      modifies this`versions
      ensures versions == Survivors(old(versions), order, active, previous, keepVersions, stuck)
      ensures keepSet == KeepSet(Protected(active, previous), Entries(order, old(versions)), keepVersions)
      ensures pruned == Pruned(Entries(order, old(versions)), keepSet)
    {
      var entries := Entries(order, versions);
      var safe: set<string> := {};
      if active.Some? && active.value != "" { safe := safe + {active.value}; }
      if previous.Some? && previous.value != "" { safe := safe + {previous.value}; }
      assert safe == Protected(active, previous);
      keepSet := FillKeepSet(safe, entries, keepVersions);
      pruned := DeleteOutside(entries, keepSet, stuck);
    }

    /** `run_post_reconcile_hooks`. */
    method RunPostReconcileHooks(result: Result, order: seq<string>, keepVersions: nat, stuck: set<string>)
      returns (event: Option<LifecycleEvent>)
      modifies this`versions
      ensures Disk() == Hooks(old(Disk()), result, order, keepVersions, stuck)
      ensures event == Emitted(result)
    {
      if result.finalState == Running && Truthy(result.error).None? {
        var _, _ := CleanupOldVersions(order, result.activeVersion, result.previousVersion, keepVersions, stuck);
      }
      return Emitted(result);
    }
  }
}
