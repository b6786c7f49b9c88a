/** What one tick records, reports and hands to docker, said field by field. */
module TickRecords {
  import opened Text
  import opened ComposeFile
  import opened SupervisorState
  import opened Reconciler
  import opened TickSafety
  import opened SupervisorRuns
  import opened ComposeCache

  // ---------------------------------------------------------------- docker groups

  /** Some wanted group reads as `g` once stripped. */
  predicate Wants(d: Desired, g: string) { g != "" && exists raw :: raw in d.groups && Strip(raw) == g }

  lemma {:induction false} StrippedAre(raw: seq<string>, g: string)
    ensures g in StrippedNames(raw) <==> g != "" && exists x :: x in raw && Strip(x) == g
    decreases |raw|
  {
    if raw != [] {
      StrippedAre(raw[1..], g);
      assert forall x :: x in raw <==> x == raw[0] || x in raw[1..];
    }
  }

  /** The groups requested: every wanted name once, in order. */
  lemma GroupsAre(d: Desired)
    ensures Ascending(Groups(d)) && forall g :: g in Groups(d) <==> Wants(d, g)
  {
    SortedSetKeeps(StrippedNames(d.groups));
    forall g ensures g in Groups(d) <==> Wants(d, g) { StrippedAre(d.groups, g); }
  }

  predicate FileThere(tree: Option<Tree>, g: string) {
    tree.Some? && "docker-compose.group-" + g + ".yml" in tree.value.files
  }

  lemma {:induction false} ActiveAre(groups: seq<string>, tree: Option<Tree>)
    ensures forall g :: g in ActiveGroups(groups, tree) <==> g in groups && FileThere(tree, g)
    ensures forall g :: g in FailedGroups(groups, tree) <==> g in groups && !FileThere(tree, g)
    decreases |groups|
  {
    if groups != [] {
      ActiveAre(groups[1..], tree);
      assert forall g :: g in groups <==> g == groups[0] || g in groups[1..];
    }
  }

  lemma {:induction false} PathsAre(root: string, v: string, groups: seq<string>)
    ensures |GroupPaths(root, v, groups)| == |groups|
    ensures forall k :: 0 <= k < |groups| ==>
      GroupPaths(root, v, groups)[k]
      == root + "/versions/" + v + "/extracted/" + ("docker-compose.group-" + groups[k] + ".yml")
    decreases |groups|
  {
    if groups != [] { PathsAre(root, v, groups[1..]); }
  }

  /** The group's file names this service without an image or a build. */
  predicate LeavesOpen(tree: Option<Tree>, g: string, name: string) {
    FileThere(tree, g) &&
      var flags := BuildFlags(tree.value.files["docker-compose.group-" + g + ".yml"]);
      name in flags && !flags[name]
  }

  lemma {:induction false} UnresolvedAre(groups: seq<string>, tree: Option<Tree>, name: string)
    ensures name in Unresolved(groups, tree) <==> exists g :: g in groups && LeavesOpen(tree, g, name)
    decreases |groups|
  {
    if groups != [] {
      UnresolvedAre(groups[1..], tree, name);
      FirstUnresolved(groups, tree, name);
      assert forall g :: g in groups <==> g == groups[0] || g in groups[1..];
    }
  }

  lemma FirstUnresolved(groups: seq<string>, tree: Option<Tree>, name: string)
    requires groups != []
    ensures name in Unresolved(groups, tree) <==> LeavesOpen(tree, groups[0], name) || name in Unresolved(groups[1..], tree)
  {}

  /** A service that some wanted group's file leaves open. */
  ghost predicate LeftOpen(d: Desired, tree: Option<Tree>, name: string) {
    exists g :: Wants(d, g) && LeavesOpen(tree, g, name)
  }

  lemma OpenAre(d: Desired, tree: Option<Tree>)
    ensures forall name :: name in Unresolved(Groups(d), tree) <==> LeftOpen(d, tree, name)
  {
    GroupsAre(d);
    forall name ensures name in Unresolved(Groups(d), tree) <==> LeftOpen(d, tree, name) {
      UnresolvedAre(Groups(d), tree, name);
    }
  }

  ghost predicate SoleOpen(d: Desired, tree: Option<Tree>, name: string) {
    LeftOpen(d, tree, name) && forall other :: LeftOpen(d, tree, other) ==> other == name
  }

  /** The base file provides the one service left open; when none or several are, it provides the addon's own. */
  lemma PrimaryIs(d: Desired, tree: Option<Tree>, name: string)
    ensures SoleOpen(d, tree, name) ==> PrimaryService(d, tree) == name
    ensures (forall one :: !SoleOpen(d, tree, one)) ==> PrimaryService(d, tree) == d.addonId
  {
    var u := Unresolved(Groups(d), tree);
    OpenAre(d, tree);
    if SoleOpen(d, tree, name) { assert u == {name}; }
    if |u| == 1 { SoleOf(d, tree, u); }
  }

  lemma SoleOf(d: Desired, tree: Option<Tree>, u: set<string>)
    requires |u| == 1 && forall name :: name in u <==> LeftOpen(d, tree, name)
    ensures SoleOpen(d, tree, TheOne(u))
  {
    forall other | LeftOpen(d, tree, other) ensures other == TheOne(u) { OneElement(u, other, TheOne(u)); }
  }

  // ---------------------------------------------------------------- a start that is carried out

  function PinnedOrLatest(d: Desired): string {
    match d.pinned case Some(p) => (if p == "" then "latest" else p) case None => "latest"
  }

  /** The record of a start: what runs, what ran before, and whether one can go back to it. */
  lemma StartRecords(root: string, w: World, d: Desired, o: Oracle)
    requires Starts(root, w, d, o)
    ensures var w' := Reconcile(root, w, d, o).machine.world;
            && w'.runtime.Saved?
            && var rt, v := w'.runtime.record, PinnedOrLatest(d);
               && rt.addonId == d.addonId && rt.state == Running && rt.lifecycle == Running
               && rt.activeVersion == Some(v) && w'.current == Some(v) && rt.previousVersion == w.current
               && (rt.rollbackAvailable <==> w.current.Some? && w.current != Some(v))
               && rt.error.None? && rt.lastError.None?
               && (if d.revision.None? || Strip(d.revision.value) == "" then rt.revision.None? && rt.forceRevision.None?
                   else rt.revision == Some(Strip(d.revision.value))
                        && rt.forceRevision == if d.forceRebuild then rt.revision else None)
  {
    StartMachineSafe(root, w, d, o);
  }

  /** Its groups: those wanted, told apart by whether the extracted tree has their file, and the files in use. */
  lemma StartRecordsGroups(root: string, w: World, d: Desired, o: Oracle)
    requires Starts(root, w, d, o)
    ensures var w' := Reconcile(root, w, d, o).machine.world;
            && w'.runtime.Saved?
            && var rt, v, tree := w'.runtime.record, PinnedOrLatest(d), TreeOf(w', PinnedOrLatest(d));
               && Ascending(rt.requestedGroups) && (forall g :: g in rt.requestedGroups <==> Wants(d, g))
               && (forall g :: g in rt.activeGroups <==> Wants(d, g) && FileThere(tree, g))
               && (forall g :: g in rt.failedGroups <==> Wants(d, g) && !FileThere(tree, g))
               && |rt.filesInUse| == 1 + |rt.activeGroups|
               && rt.filesInUse[0] == root + "/versions/" + v + "/docker-compose.yml"
               && forall k :: 0 <= k < |rt.activeGroups| ==>
                    rt.filesInUse[k + 1]
                    == root + "/versions/" + v + "/extracted/" + ("docker-compose.group-" + rt.activeGroups[k] + ".yml")
  {
    var tree := TreeOf(StartMachine(root, w, d, o).world, Version(d));
    GroupsAre(d);
    ActiveAre(Groups(d), tree);
    PathsAre(root, Version(d), ActiveGroups(Groups(d), tree));
  }

  /** When a start rebuilds: on a change of the recorded version, or for a force rebuild not yet applied. */
  predicate Rebuilds(w: World, d: Desired) {
    var prior := if w.runtime.Saved? then Some(w.runtime.record) else None;
    || (prior.Some? && prior.value.activeVersion.Some? && Strip(prior.value.activeVersion.value) != ""
        && prior.value.activeVersion.value != PinnedOrLatest(d))
    || (d.forceRebuild && (prior.None? || d.revision.None? || Strip(d.revision.value) == ""
                           || prior.value.forceRevision != Some(Strip(d.revision.value))))
  }

  lemma PreparedTree(m: Machine, root: string, d: Desired, prior: Option<RuntimeState>, o: Oracle)
    ensures Launch(m, root, d, prior, o).world.versions == m.world.versions
  {}

  lemma LaunchSays(m: Machine, root: string, d: Desired, prior: Option<RuntimeState>, o: Oracle)
    requires m.ok && Launch(m, root, d, prior, o).ok
    ensures var rebuild := VersionTransition(prior, Version(d)) || ForceNow(d, prior);
            var files := ComposePaths(root, Version(d), ActiveGroups(Groups(d), TreeOf(m.world, Version(d))));
            && o.upOk && (rebuild ==> o.buildOk)
            && Launch(m, root, d, prior, o).world.commands
               == m.world.commands + (if rebuild then [Build(files, d.project, true)] else [])
                  + [Up(Version(d), files, d.project, rebuild, ComposeOf(m.world, Version(d)), true)]
  {}

  /**
   * The commands of a start, all of which succeeded: a build first when it rebuilds, then `up` on the recorded files
   * with the base file in place.
   */
  lemma StartCommands(root: string, w: World, d: Desired, o: Oracle)
    requires Starts(root, w, d, o)
    ensures var w' := Reconcile(root, w, d, o).machine.world;
            && o.upOk && (Rebuilds(w, d) ==> o.buildOk)
            && w'.runtime.Saved?
            && var files, v := w'.runtime.record.filesInUse, PinnedOrLatest(d);
               w'.commands == w.commands + (if Rebuilds(w, d) then [Build(files, d.project, true)] else [])
                              + [Up(v, files, d.project, Rebuilds(w, d), ComposeOf(w', v), true)]
  {
    var prior := PriorOf(w.runtime);
    var m1 := Step(Begin(w), WithVersion(w, Version(d)), o.fault);
    var m2 := Prepare(m1, root, d, prior, o);
    PrepareCalm(m1, root, d, prior, o);
    LaunchSays(m2, root, d, prior, o);
    PreparedTree(m2, root, d, prior, o);
    ActivateKeeps(Launch(m2, root, d, prior, o), Version(d), o);
  }

  /** Two digests agree only if everything that is printed or chosen from the desired state does. */
  lemma DigestPins(a: Desired, b: Desired, s: Option<Tree>, t: Option<Tree>)
    ensures DigestOf(a, s) == DigestOf(b, t)
            <==> && a.addonId == b.addonId && a.bindLocalhost == b.bindLocalhost && a.ports == b.ports
                 && a.cpu == b.cpu && a.memory == b.memory
                 && (if a.network == "" then "hexe_net" else a.network) == (if b.network == "" then "hexe_net" else b.network)
                 && (forall g :: Wants(a, g) <==> Wants(b, g))
                 && PrimaryService(a, s) == PrimaryService(b, t)
  {
    GroupsAre(a);
    GroupsAre(b);
    if forall g :: Wants(a, g) <==> Wants(b, g) { AscendingUnique(Groups(a), Groups(b)); }
  }

  /** What a start records as its digest is that of its own settings and of the tree it leaves. */
  lemma StartRecordsDigest(root: string, w: World, d: Desired, o: Oracle)
    requires Starts(root, w, d, o)
    ensures var w' := Reconcile(root, w, d, o).machine.world;
            w'.runtime.Saved? && w'.runtime.record.digest == Some(DigestOf(d, TreeOf(w', PinnedOrLatest(d))))
  {}

  // ---------------------------------------------------------------- stops, failures, results

  /** The files a stop takes down: those recorded, else the current version's, else none. */
  lemma StopTakesDown(root: string, w: World, d: Desired)
    ensures var files := StopFiles(root, w);
            if w.runtime.Saved? && w.runtime.record.filesInUse != [] then
              (forall f :: f in files <==> f in w.runtime.record.filesInUse && Strip(f) != "")
            else if w.current.Some? && ComposeOf(w, w.current.value).Some? then files == [root + "/current/docker-compose.yml"]
            else files == []
  {
    if w.runtime.Saved? { NonBlankAre(w.runtime.record.filesInUse); }
  }

  lemma {:induction false} NonBlankAre(paths: seq<string>)
    ensures forall f :: f in NonBlank(paths) <==> f in paths && Strip(f) != ""
    decreases |paths|
  {
    if paths != [] {
      NonBlankAre(paths[1..]);
      assert forall f :: f in paths <==> f == paths[0] || f in paths[1..];
    }
  }

  /** A completed stop: one `down` on those files if there are any, and the stopped record. */
  lemma StopRecords(root: string, w: World, d: Desired, o: Oracle)
    requires d.desiredState == "stopped" && StopMachine(root, w, d, o).ok
    ensures var w', files := Reconcile(root, w, d, o).machine.world, StopFiles(root, w);
            && w'.commands == w.commands + (if files == [] then [] else [Down(files, d.project, true)])
            && (files != [] ==> o.downOk)
            && w'.current == w.current && w'.runtime.Saved?
            && var rt := w'.runtime.record;
               && rt.addonId == d.addonId && rt.state == Stopped && rt.lifecycle == Stopped
               && rt.activeVersion.None? && rt.previousVersion.None? && !rt.rollbackAvailable
               && rt.error.None? && rt.lastError.None? && rt.revision == d.revision && rt.filesInUse == files
               && Ascending(rt.requestedGroups) && (forall g :: g in rt.requestedGroups <==> Wants(d, g))
               && rt.activeGroups == [] && rt.failedGroups == []
               && rt.forceRevision == if d.forceRebuild && d.revision != Some("") then d.revision else None
  {
    GroupsAre(d);
  }

  /** A tick that failed records its message, and offers to go back to whatever `current` points at. */
  lemma FailureRecords(root: string, w: World, d: Desired, o: Oracle)
    requires if d.desiredState == "stopped" then !StopMachine(root, w, d, o).ok else !StartMachine(root, w, d, o).ok
    ensures var t := Reconcile(root, w, d, o);
            && t.machine.world.runtime.Saved? && t.machine.world.current == w.current
            && var rt := t.machine.world.runtime.record;
               && rt.addonId == d.addonId && rt.state == Failed && rt.lifecycle == Failed
               && rt.error == Some(o.message) && rt.lastError == Some(o.message)
               && rt.activeVersion.None? && rt.previousVersion == w.current
               && (rt.rollbackAvailable <==> w.current.Some?)
  {
    if d.desiredState == "stopped" { StopMachineSafe(root, w, d, o); } else { StartMachineSafe(root, w, d, o); }
  }

  /**
   * Every result repeats the record on file after the tick, and says whether state, active or previous version differ
   * from the record before it.
   */
  lemma ResultSays(root: string, w: World, d: Desired, o: Oracle)
    ensures var t := Reconcile(root, w, d, o);
            && t.machine.world.runtime.Saved?
            && var rt, r := t.machine.world.runtime.record, t.result;
               && r.addonId == rt.addonId && r.desiredState == d.desiredState && r.project == d.project
               && t.machine.ok && r.finalState == rt.state && r.activeVersion == rt.activeVersion && r.previousVersion == rt.previousVersion
               && r.error == (if rt.error.Some? && rt.error != Some("") then rt.error else rt.lastError)
               && (if w.runtime.Saved? then
                     var was := w.runtime.record;
                     r.priorState == Some(was.state)
                     && (r.changed <==> (was.state, was.activeVersion, was.previousVersion)
                                        != (rt.state, rt.activeVersion, rt.previousVersion))
                   else r.priorState.None? && r.changed)
  {
    if d.desiredState != "stopped" && StartMachine(root, w, d, o).ok && IsNoop(d, PriorOf(w.runtime)) {
      StartMachineSafe(root, w, d, o);
    }
  }

  /** When nothing at all is done: the record runs this version at this revision, and no force rebuild is still due. */
  lemma NoopExactly(w: World, d: Desired)
    ensures IsNoop(d, PriorOf(w.runtime))
            <==> && w.runtime.Saved? && w.runtime.record.state == Running
                 && w.runtime.record.activeVersion == Some(PinnedOrLatest(d))
                 && d.revision.Some? && Strip(d.revision.value) != ""
                 && w.runtime.record.revision == Some(Strip(d.revision.value))
                 && (d.forceRebuild ==> w.runtime.record.forceRevision == Some(Strip(d.revision.value)))
  {}
}
