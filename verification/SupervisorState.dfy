/** What the supervisor reads and writes: desired state, runtime record, version directories, docker commands. */
module SupervisorState {
  import opened Text
  import opened ComposeFile

  datatype Phase = Installing | Running | Stopped | Failed | Other(name: string)

  datatype Desired = Desired(
    addonId: string, desiredState: string, revision: Option<string>, forceRebuild: bool,
    groups: seq<string>, pinned: Option<string>, project: string,
    network: string, ports: seq<Port>, bindLocalhost: bool, cpu: Option<string>, memory: Option<string>)

  /** The payload of `_compose_input_digest`. */
  datatype ComposeInput = ComposeInput(
    addonId: string, network: string, bindLocalhost: bool, ports: seq<Port>,
    cpu: Option<string>, memory: Option<string>, groups: seq<string>)

  /** SHA-256 of the payload and the service name, taken to be injective. */
  datatype Digest = Digest(input: ComposeInput, service: string)

  datatype RuntimeState = RuntimeState(
    addonId: string, state: Phase, lifecycle: Phase,
    activeVersion: Option<string>, previousVersion: Option<string>, rollbackAvailable: bool,
    error: Option<string>, lastError: Option<string>,
    revision: Option<string>, digest: Option<Digest>, forceRevision: Option<string>,
    requestedGroups: seq<string>, activeGroups: seq<string>, failedGroups: seq<string>,
    filesInUse: seq<string>)

  /** `RuntimeState.new`: every tick starts from this, whatever was recorded before. */
  function NewRuntime(addonId: string): RuntimeState {
    RuntimeState(addonId, Installing, Other("unknown"), None, None, false, None, None, None, None, None, [], [], [], [])
  }

  datatype RuntimeFile = Missing | Unreadable | Saved(record: RuntimeState)

  datatype Artifact = Artifact(files: map<string, string>)

  /** Contents of `.artifact.sha256`: nothing yet, not a hash, or the hash of an artifact. */
  datatype Marker = NoMarker | Torn | HashOf(artifact: Artifact)

  datatype Tree = Tree(files: map<string, string>, marker: Marker)

  datatype VersionDir = VersionDir(mtime: int, artifact: Option<Artifact>, tree: Option<Tree>, compose: Option<string>)

  datatype Command =
    | Build(files: seq<string>, project: string, ok: bool)
    | Up(version: string, files: seq<string>, project: string, recreate: bool, base: Option<string>, ok: bool)
    | Down(files: seq<string>, project: string, ok: bool)

  /** One addon's directory, and the docker commands issued for it so far. */
  datatype World = World(
    runtime: RuntimeFile, current: Option<string>, next: Option<string>,
    versions: map<string, VersionDir>, commands: seq<Command>)

  /** What the outside does during one tick. */
  datatype Oracle = Oracle(
    fault: Option<nat>,           // the file-system step that raises, counted from the start of the tick
    message: string,              // text of the exception, should there be one
    policy: Policy,               // restart policy in the environment
    removalLeaves: Option<Tree>,  // what `rmtree(ignore_errors=True)` left of the extracted tree
    tarPartial: set<string>,      // entries tar had written when it was half-way
    tarOk: bool, buildOk: bool, upOk: bool, downOk: bool)

  datatype Result = Result(
    addonId: string, desiredState: string, finalState: Phase,
    activeVersion: Option<string>, previousVersion: Option<string>, changed: bool,
    priorState: Option<Phase>, error: Option<string>, project: string)

  // ---------------------------------------------------------------- reading the desired state

  function Version(d: Desired): string {
    if d.pinned.Some? && d.pinned.value != "" then d.pinned.value else "latest"
  }

  /** `str(desired_revision or "").strip() or None`. */
  function Revision(d: Desired): Option<string> {
    var r := if d.revision.Some? then Strip(d.revision.value) else "";
    if r == "" then None else Some(r)
  }

  function StrippedNames(raw: seq<string>): seq<string> {
    if raw == [] then [] else (if Strip(raw[0]) == "" then [] else [Strip(raw[0])]) + StrippedNames(raw[1..])
  }

  /** The sorted set of non-blank group names. */
  function Groups(d: Desired): seq<string> { SortedSet(StrippedNames(d.groups)) }

  function NetworkOf(d: Desired): string { if d.network != "" then d.network else "hexe_net" }

  function InputOf(d: Desired): ComposeInput {
    ComposeInput(d.addonId, NetworkOf(d), d.bindLocalhost, d.ports, d.cpu, d.memory, Groups(d))
  }

  // ---------------------------------------------------------------- paths and lookups

  function VersionPath(root: string, v: string): string { root + "/versions/" + v }

  function GroupFile(group: string): string { "docker-compose.group-" + group + ".yml" }

  function TreeOf(w: World, v: string): Option<Tree> {
    if v in w.versions then w.versions[v].tree else None
  }

  function ComposeOf(w: World, v: string): Option<string> {
    if v in w.versions then w.versions[v].compose else None
  }

  function ArtifactOf(w: World, v: string): Option<Artifact> {
    if v in w.versions then w.versions[v].artifact else None
  }

  predicate HasGroup(tree: Option<Tree>, group: string) {
    tree.Some? && GroupFile(group) in tree.value.files
  }

  function ActiveGroups(groups: seq<string>, tree: Option<Tree>): seq<string> {
    if groups == [] then []
    else (if HasGroup(tree, groups[0]) then [groups[0]] else []) + ActiveGroups(groups[1..], tree)
  }

  function FailedGroups(groups: seq<string>, tree: Option<Tree>): seq<string> {
    if groups == [] then []
    else (if HasGroup(tree, groups[0]) then [] else [groups[0]]) + FailedGroups(groups[1..], tree)
  }

  /** Services that some active group file names without saying how to run them. */
  function Unresolved(groups: seq<string>, tree: Option<Tree>): set<string> {
    if groups == [] then {}
    else
      var rest := Unresolved(groups[1..], tree);
      if !HasGroup(tree, groups[0]) then rest
      else
        var flags := BuildFlags(tree.value.files[GroupFile(groups[0])]);
        (set s | s in flags && !flags[s]) + rest
  }

  lemma OneElement<T>(u: set<T>, a: T, b: T)
    requires |u| == 1 && a in u && b in u
    ensures a == b
  {
    if a != b {
      assert {a, b} <= u;
      assert |{a, b}| <= |u| by { Subset({a, b}, u); }
    }
  }

  lemma {:induction false} Subset<T>(a: set<T>, b: set<T>)
    requires a <= b
    ensures |a| <= |b|
  {
    if x :| x in a { Subset(a - {x}, b - {x}); }
  }

  function TheOne(u: set<string>): (s: string)
    requires |u| == 1
    ensures s in u
  {
    assert forall a, b :: a in u && b in u ==> a == b by {
      forall a, b | a in u && b in u ensures a == b { OneElement(u, a, b); }
    }
    var s :| s in u; s
  }

  /** `_resolve_primary_service_name`. */
  function PrimaryService(d: Desired, tree: Option<Tree>): string {
    var u := Unresolved(Groups(d), tree);
    if |u| == 1 then TheOne(u) else d.addonId
  }

  function DigestOf(d: Desired, tree: Option<Tree>): Digest {
    Digest(InputOf(d), PrimaryService(d, tree))
  }

  function SetupFor(root: string, v: string, d: Desired, service: string, policy: Policy): Setup {
    var dir := VersionPath(root, v);
    Setup(service, policy, dir + "/extracted", dir + "/runtime.env", NetworkOf(d),
          root + "/desired.json", root + "/runtime.json", dir + "/docker-compose.yml",
          d.bindLocalhost, d.ports, d.cpu, d.memory)
  }

  function GroupPaths(root: string, v: string, groups: seq<string>): seq<string> {
    if groups == [] then []
    else [VersionPath(root, v) + "/extracted/" + GroupFile(groups[0])] + GroupPaths(root, v, groups[1..])
  }

  function ComposePaths(root: string, v: string, active: seq<string>): seq<string> {
    [VersionPath(root, v) + "/docker-compose.yml"] + GroupPaths(root, v, active)
  }

  // ---------------------------------------------------------------- single changes to the directory

  function WithDir(w: World, v: string, dir: VersionDir): World { w.(versions := w.versions[v := dir]) }

  function WithTree(w: World, v: string, t: Option<Tree>): World {
    if v in w.versions then WithDir(w, v, w.versions[v].(tree := t)) else w
  }

  function WithCompose(w: World, v: string, c: Option<string>): World {
    if v in w.versions then WithDir(w, v, w.versions[v].(compose := c)) else w
  }

  function WithCommand(w: World, c: Command): World { w.(commands := w.commands + [c]) }

  const EMPTY_DIR := VersionDir(0, None, None, None)

  /** `mkdir(exist_ok=True)` of a version directory. */
  function WithVersion(w: World, v: string): World {
    if v in w.versions then w else WithDir(w, v, EMPTY_DIR)
  }

  /** A tick in progress: every state the directory has been in, and whether an exception is pending. */
  datatype Machine = Machine(world: World, trail: seq<World>, ok: bool)

  function Begin(w: World): Machine { Machine(w, [w], true) }

  /** One file-system step or command. A fault raises instead of doing it; a pending exception skips it. */
  function Step(m: Machine, w: World, fault: Option<nat>): Machine {
    if !m.ok then m
    else if fault == Some(|m.trail|) then m.(ok := false)
    else Machine(w, m.trail + [w], true)
  }

  function Raise(m: Machine): Machine { m.(ok := false) }
}
