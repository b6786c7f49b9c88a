/** `reconcile_one` as a function: the states one tick passes through, and what it reports. */
module Reconciler {
  import opened Text
  import opened ComposeFile
  import opened SupervisorState

  datatype Tick = Tick(machine: Machine, result: Result)

  function PriorOf(f: RuntimeFile): Option<RuntimeState> {
    if f.Saved? then Some(f.record) else None
  }

  // ---------------------------------------------------------------- ensure_extracted

  /** The archive entries tar had already written. */
  function Part(a: Artifact, names: set<string>): map<string, string> {
    map n | n in a.files && n in names :: a.files[n]
  }

  function Unpacked(w: World, v: string, files: map<string, string>): World {
    var t := TreeOf(w, v);
    if t.Some? then WithTree(w, v, Some(t.value.(files := t.value.files + files))) else w
  }

  function Marked(w: World, v: string, marker: Marker): World {
    var t := TreeOf(w, v);
    if t.Some? then WithTree(w, v, Some(t.value.(marker := marker))) else w
  }

  const EMPTY_TREE := Tree(map[], NoMarker)

  function Unpack(m: Machine, v: string, a: Artifact, o: Oracle): Machine {
    var m1 := Step(m, Unpacked(m.world, v, Part(a, o.tarPartial)), o.fault);
    if !o.tarOk then Raise(m1)
    else
      var m2 := Step(m1, Unpacked(m1.world, v, a.files), o.fault);
      var m3 := Step(m2, Marked(m2.world, v, Torn), o.fault);
      Step(m3, Marked(m3.world, v, HashOf(a)), o.fault)
  }

  function MakeTree(m: Machine, v: string, o: Oracle): Machine {
    Step(m, if TreeOf(m.world, v).Some? then m.world else WithTree(m.world, v, Some(EMPTY_TREE)), o.fault)
  }

  /** Extraction, refreshed when the marker does not hold the hash of the artifact. */
  function Extract(m: Machine, v: string, a: Artifact, o: Oracle): Machine {
    var t := TreeOf(m.world, v);
    var m1 :=
      if t.None? then Unpack(MakeTree(m, v, o), v, a, o)
      else if t.value.marker != HashOf(a) then
        Unpack(MakeTree(Step(m, WithTree(m.world, v, o.removalLeaves), o.fault), v, o), v, a, o)
      else m;
    Step(m1, m1.world, o.fault)  // the runtime directory and the file times
  }

  // ---------------------------------------------------------------- the cached compose file

  /** What `ensure_compose_files` would write; None when a port makes `int()` raise. */
  function Printed(root: string, v: string, d: Desired, service: string, policy: Policy): Option<string> {
    if Printable(d.ports) then Some(Render(SetupFor(root, v, d, service, policy))) else None
  }

  function EnsureText(m: Machine, v: string, printed: Option<string>, o: Oracle): Machine {
    var m0 := if m.world.runtime.Missing? then Step(m, m.world.(runtime := Unreadable), o.fault) else m;
    var m1 := Step(m0, m0.world, o.fault);  // runtime.env
    if printed.None? then Raise(m1)
    else
      var existing := ComposeOf(m1.world, v);
      if existing.Some? && !MustRewrite(existing.value, o.policy) then m1
      else
        var m2 := Step(m1, WithCompose(m1.world, v, Some("")), o.fault);
        Step(m2, WithCompose(m2.world, v, printed), o.fault)
  }

  function Ensure(m: Machine, root: string, v: string, d: Desired, service: string, o: Oracle): Machine {
    EnsureText(m, v, Printed(root, v, d, service, o.policy), o)
  }

  /** Unlinking the compose file when a reason applies. */
  function DropIf(m: Machine, v: string, reason: bool, o: Oracle): Machine {
    if ComposeOf(m.world, v).Some? && reason then Step(m, WithCompose(m.world, v, None), o.fault) else m
  }

  predicate ForceApplied(d: Desired, prior: Option<RuntimeState>) {
    d.forceRebuild && Revision(d).Some? && prior.Some? && prior.value.forceRevision == Revision(d)
  }

  predicate ForceNow(d: Desired, prior: Option<RuntimeState>) { d.forceRebuild && !ForceApplied(d, prior) }

  predicate DigestChanged(prior: Option<RuntimeState>, v: string, digest: Digest) {
    prior.Some? && prior.value.activeVersion == Some(v) && prior.value.digest.Some? && prior.value.digest != Some(digest)
  }

  predicate LacksService(compose: Option<string>, service: string) {
    compose.Some? && service !in BuildFlags(compose.value)
  }

  function DropStale(m: Machine, v: string, d: Desired, prior: Option<RuntimeState>, digest: Digest, o: Oracle): Machine {
    var m1 := DropIf(m, v, ForceNow(d, prior), o);
    var m2 := DropIf(m1, v, DigestChanged(prior, v, digest), o);
    DropIf(m2, v, LacksService(ComposeOf(m2.world, v), digest.service), o)
  }

  // ---------------------------------------------------------------- starting

  predicate VersionTransition(prior: Option<RuntimeState>, v: string) {
    && prior.Some? && prior.value.activeVersion.Some? && Strip(prior.value.activeVersion.value) != ""
    && prior.value.activeVersion != Some(v)
  }

  /** The two no-op branches: same version and revision, and no force rebuild that is still due. */
  predicate IsNoop(d: Desired, prior: Option<RuntimeState>) {
    && prior.Some? && prior.value.state == Running && prior.value.activeVersion == Some(Version(d))
    && Revision(d).Some? && prior.value.revision == Revision(d)
    && (!d.forceRebuild || ForceApplied(d, prior))
  }

  predicate StaleRestartPolicy(compose: Option<string>) {
    compose.Some? && (Contains(compose.value, "restart: unless-stopped") || Contains(compose.value, "restart: always"))
  }

  function NoopRefresh(m: Machine, root: string, d: Desired, o: Oracle): Machine {
    var v := Version(d);
    if StaleRestartPolicy(ComposeOf(m.world, v)) then
      Ensure(m, root, v, d, PrimaryService(d, TreeOf(m.world, v)), o)
    else m
  }

  /** From the artifact to a compose file that is ready to hand over. */
  function Prepare(m: Machine, root: string, d: Desired, prior: Option<RuntimeState>, o: Oracle): Machine {
    var v := Version(d);
    var a := ArtifactOf(m.world, v);
    if !m.ok || a.None? then Raise(m)
    else
      var m1 := Extract(m, v, a.value, o);
      if !m1.ok then m1
      else
        var digest := DigestOf(d, TreeOf(m1.world, v));
        Ensure(DropStale(m1, v, d, prior, digest, o), root, v, d, digest.service, o)
  }

  function Launch(m: Machine, root: string, d: Desired, prior: Option<RuntimeState>, o: Oracle): Machine {
    var v := Version(d);
    var files := ComposePaths(root, v, ActiveGroups(Groups(d), TreeOf(m.world, v)));
    var rebuild := VersionTransition(prior, v) || ForceNow(d, prior);
    var m1 := if rebuild then Step(m, WithCommand(m.world, Build(files, d.project, o.buildOk)), o.fault) else m;
    if rebuild && !o.buildOk then Raise(m1)
    else
      var m2 := Step(m1, WithCommand(m1.world, Up(v, files, d.project, rebuild, ComposeOf(m1.world, v), o.upOk)), o.fault);
      if !o.upOk then Raise(m2) else m2
  }

  /** `activate_current_symlink`: the last step replaces `current` atomically. */
  function Activate(m: Machine, v: string, o: Oracle): Machine {
    var m1 := if m.world.next.Some? then Step(m, m.world.(next := None), o.fault) else m;
    var m2 := Step(m1, m1.world.(next := Some(v)), o.fault);
    Step(m2, m2.world.(current := m2.world.next, next := None), o.fault)
  }

  function StartRecord(root: string, d: Desired, prior: Option<RuntimeState>, previous: Option<string>, w: World): RuntimeState {
    var v := Version(d);
    var tree := TreeOf(w, v);
    var active := ActiveGroups(Groups(d), tree);
    NewRuntime(d.addonId).(
      state := Running, lifecycle := Running, activeVersion := Some(v), previousVersion := previous,
      rollbackAvailable := previous.Some? && previous != Some(v),
      revision := Revision(d), digest := Some(DigestOf(d, tree)),
      requestedGroups := Groups(d), activeGroups := active, failedGroups := FailedGroups(Groups(d), tree),
      filesInUse := ComposePaths(root, v, active),
      forceRevision := if d.forceRebuild && Revision(d).Some? then Revision(d) else None)
  }

  /** The handler overwrites what it sets; fields `rt` had been given before the exception stay. */
  function ErrorRecord(rt: RuntimeState, previous: Option<string>, message: string): RuntimeState {
    rt.(state := Failed, lifecycle := Failed, error := Some(message), lastError := Some(message),
        previousVersion := previous, rollbackAvailable := previous.Some?)
  }

  function Truthy(o: Option<string>): Option<string> { if o == Some("") then None else o }

  function BuildResult(d: Desired, rt: RuntimeState, prior: Option<RuntimeState>): Result {
    Result(rt.addonId, d.desiredState, rt.state, rt.activeVersion, rt.previousVersion,
           prior.None? || prior.value.state != rt.state || prior.value.activeVersion != rt.activeVersion
           || prior.value.previousVersion != rt.previousVersion,
           if prior.Some? then Some(prior.value.state) else None,
           if Truthy(rt.error).Some? then rt.error else rt.lastError, d.project)
  }

  /** The closing `write_json_atomic`. */
  function Save(m: Machine, rt: RuntimeState): Machine {
    var w := m.world.(runtime := Saved(rt));
    Machine(w, m.trail + [w], true)
  }

  function Finish(m: Machine, d: Desired, prior: Option<RuntimeState>, rt: RuntimeState): Tick {
    Tick(Save(m, rt), BuildResult(d, rt, prior))
  }

  function Fail(m: Machine, d: Desired, prior: Option<RuntimeState>, rt: RuntimeState, previous: Option<string>, o: Oracle): Tick {
    Finish(m, d, prior, ErrorRecord(rt, previous, o.message))
  }

  /** All of a start tick up to the activated link. */
  function StartMachine(root: string, w: World, d: Desired, o: Oracle): Machine {
    var prior := PriorOf(w.runtime);
    var m1 := Step(Begin(w), WithVersion(w, Version(d)), o.fault);
    if m1.ok && IsNoop(d, prior) then NoopRefresh(m1, root, d, o)
    else
      var m2 := Prepare(m1, root, d, prior, o);
      if !m2.ok then m2
      else
        var m3 := Launch(m2, root, d, prior, o);
        if !m3.ok then m3 else Activate(m3, Version(d), o)
  }

  function StartTick(root: string, w: World, d: Desired, o: Oracle): Tick {
    var prior := PriorOf(w.runtime);
    var m := StartMachine(root, w, d, o);
    if !m.ok then Fail(m, d, prior, NewRuntime(d.addonId), w.current, o)
    else if IsNoop(d, prior) then Tick(m, BuildResult(d, prior.value, prior))
    else Finish(m, d, prior, StartRecord(root, d, prior, w.current, m.world))
  }

  // ---------------------------------------------------------------- stopping

  function NonBlank(paths: seq<string>): seq<string> {
    if paths == [] then []
    else (if Strip(paths[0]) != "" then [paths[0]] else []) + NonBlank(paths[1..])
  }

  function StopFiles(root: string, w: World): seq<string> {
    var prior := PriorOf(w.runtime);
    if prior.Some? && prior.value.filesInUse != [] then NonBlank(prior.value.filesInUse)
    else if w.current.Some? && ComposeOf(w, w.current.value).Some? then [root + "/current/docker-compose.yml"]
    else []
  }

  function StopRecord(d: Desired, files: seq<string>): RuntimeState {
    NewRuntime(d.addonId).(
      state := Stopped, lifecycle := Stopped, revision := d.revision, requestedGroups := Groups(d), filesInUse := files,
      forceRevision := if d.forceRebuild && d.revision.Some? && d.revision.value != "" then d.revision else None)
  }

  /** A stop tick up to the end of `compose_down`. */
  function DownMachine(root: string, w: World, d: Desired, o: Oracle): Machine {
    var files := StopFiles(root, w);
    if files == [] then Begin(w)
    else
      var m := Step(Begin(w), WithCommand(w, Down(files, d.project, o.downOk)), o.fault);
      if o.downOk then m else Raise(m)
  }

  /** A stop tick up to its own record. */
  function StopMachine(root: string, w: World, d: Desired, o: Oracle): Machine {
    var m := DownMachine(root, w, d, o);
    Step(m, m.world.(runtime := Saved(StopRecord(d, StopFiles(root, w)))), o.fault)
  }

  /** What `rt` holds when the stop branch raises: the stopped record is filled in only after `compose_down`. */
  function StopReached(root: string, w: World, d: Desired, o: Oracle): RuntimeState {
    if DownMachine(root, w, d, o).ok then StopRecord(d, StopFiles(root, w)) else NewRuntime(d.addonId)
  }

  function StopTick(root: string, w: World, d: Desired, o: Oracle): Tick {
    var prior := PriorOf(w.runtime);
    var m := StopMachine(root, w, d, o);
    if m.ok then Tick(m, BuildResult(d, StopRecord(d, StopFiles(root, w)), prior))
    else Fail(m, d, prior, StopReached(root, w, d, o), w.current, o)
  }

  /** One tick with a desired state on file. */
  function Reconcile(root: string, w: World, d: Desired, o: Oracle): Tick {
    if d.desiredState == "stopped" then StopTick(root, w, d, o) else StartTick(root, w, d, o)
  }
}
