/** Which settings the compose file handed to docker was printed from. */
module ComposeCache {
  import opened Text
  import opened ComposeFile
  import opened ComposeFixpoint
  import opened SupervisorState
  import opened Reconciler
  import opened Retention
  import opened SupervisorRuns
  import opened PostReconcile

  /** What is printed, given the payload of a digest. */
  function SetupFrom(root: string, v: string, g: Digest, policy: Policy): Setup {
    var dir := VersionPath(root, v);
    Setup(g.service, policy, dir + "/extracted", dir + "/runtime.env", g.input.network,
          root + "/desired.json", root + "/runtime.json", dir + "/docker-compose.yml",
          g.input.bindLocalhost, g.input.ports, g.input.cpu, g.input.memory)
  }

  /** The text was printed from the settings behind this digest, under some restart policy. */
  ghost predicate Fresh(text: string, root: string, v: string, g: Digest) {
    Printable(g.input.ports) && exists p: Policy :: text == Render(SetupFrom(root, v, g, p))
  }

  // ---------------------------------------------------------------- one start tick

  /** The file that survives the reasons to unlink it. */
  function Kept(existing: Option<string>, v: string, d: Desired, prior: Option<RuntimeState>, g: Digest): Option<string> {
    if existing.None? || ForceNow(d, prior) || DigestChanged(prior, v, g) || LacksService(existing, g.service) then None
    else existing
  }

  lemma UnpackLeavesCompose(m: Machine, v: string, a: Artifact, o: Oracle)
    requires v in m.world.versions
    ensures var m' := Unpack(m, v, a, o); v in m'.world.versions && ComposeOf(m'.world, v) == ComposeOf(m.world, v)
  {}

  lemma ExtractLeavesCompose(m: Machine, v: string, a: Artifact, o: Oracle)
    requires v in m.world.versions
    ensures var m' := Extract(m, v, a, o); v in m'.world.versions && ComposeOf(m'.world, v) == ComposeOf(m.world, v)
  {
    var t := TreeOf(m.world, v);
    if t.None? {
      UnpackLeavesCompose(MakeTree(m, v, o), v, a, o);
    } else if t.value.marker != HashOf(a) {
      UnpackLeavesCompose(MakeTree(Step(m, WithTree(m.world, v, o.removalLeaves), o.fault), v, o), v, a, o);
    }
  }

  lemma DropsAre(m: Machine, v: string, d: Desired, prior: Option<RuntimeState>, g: Digest, o: Oracle)
    requires m.ok && v in m.world.versions
    ensures var m' := DropStale(m, v, d, prior, g, o);
            && v in m'.world.versions && TreeOf(m'.world, v) == TreeOf(m.world, v)
            && (m'.ok ==> ComposeOf(m'.world, v) == Kept(ComposeOf(m.world, v), v, d, prior, g))
  {}

  lemma TextIs(m: Machine, v: string, printed: Option<string>, o: Oracle)
    requires m.ok && v in m.world.versions
    ensures var m', existing := EnsureText(m, v, printed, o), ComposeOf(m.world, v);
            && v in m'.world.versions && TreeOf(m'.world, v) == TreeOf(m.world, v)
            && (m'.ok ==> printed.Some?
                          && ComposeOf(m'.world, v)
                             == if existing.Some? && !MustRewrite(existing.value, o.policy) then existing else printed)
  {}

  lemma EnsuredIs(m: Machine, root: string, v: string, d: Desired, service: string, o: Oracle)
    requires m.ok && v in m.world.versions
    ensures var m' := Ensure(m, root, v, d, service, o);
            && v in m'.world.versions && TreeOf(m'.world, v) == TreeOf(m.world, v)
            && (m'.ok ==> (
                  && Printable(d.ports)
                  && ComposeOf(m'.world, v) == Some(Ensured(ComposeOf(m.world, v), SetupFor(root, v, d, service, o.policy)))))
  {
    TextIs(m, v, Printed(root, v, d, service, o.policy), o);
  }

  /** After the preparing stage: the digest it used, and the file it leaves. */
  lemma PreparedIs(m: Machine, root: string, d: Desired, prior: Option<RuntimeState>, o: Oracle)
    requires var v := Version(d); m.ok && v in m.world.versions && Prepare(m, root, d, prior, o).ok
    ensures var v, m' := Version(d), Prepare(m, root, d, prior, o);
            var g := DigestOf(d, TreeOf(m'.world, v));
            && v in m'.world.versions && Printable(d.ports)
            && ComposeOf(m'.world, v)
               == Some(Ensured(Kept(ComposeOf(m.world, v), v, d, prior, g), SetupFor(root, v, d, g.service, o.policy)))
  {
    var v := Version(d);
    var a := ArtifactOf(m.world, v).value;
    var m1 := Extract(m, v, a, o);
    ExtractLeavesCompose(m, v, a, o);
    var g := DigestOf(d, TreeOf(m1.world, v));
    var m2 := DropStale(m1, v, d, prior, g, o);
    DropsAre(m1, v, d, prior, g, o);
    if m2.ok { EnsuredIs(m2, root, v, d, g.service, o); }
  }

  lemma BegunIs(w: World, v: string, o: Oracle)
    ensures var m := Step(Begin(w), WithVersion(w, v), o.fault);
            m.ok ==> v in m.world.versions && ComposeOf(m.world, v) == ComposeOf(w, v)
  {}

  /** A completed start: the tree, the file on disk and the file handed over are those of the preparing stage. */
  lemma StartedIs(root: string, w: World, d: Desired, o: Oracle)
    requires var m := StartMachine(root, w, d, o); m.ok && !IsNoop(d, PriorOf(w.runtime))
    ensures var v, prior, m := Version(d), PriorOf(w.runtime), StartMachine(root, w, d, o);
            var g := DigestOf(d, TreeOf(m.world, v));
            var text := Ensured(Kept(ComposeOf(w, v), v, d, prior, g), SetupFor(root, v, d, g.service, o.policy));
            && v in m.world.versions && Printable(d.ports)
            && ComposeOf(m.world, v) == Some(text)
            && HandedOver(m.world, v, text)
  {
    var v, prior := Version(d), PriorOf(w.runtime);
    var m1 := Step(Begin(w), WithVersion(w, v), o.fault);
    BegunIs(w, v, o);
    var m2 := Prepare(m1, root, d, prior, o);
    PreparedIs(m1, root, d, prior, o);
    var m3 := Launch(m2, root, d, prior, o);
    LaunchHands(m2, root, d, prior, o);
    ActivateKeeps(m3, v, o);
  }

  /** The last docker command is a successful `up` with this base file. */
  predicate HandedOver(w: World, v: string, text: string) {
    && |w.commands| > 0
    && var last := w.commands[|w.commands| - 1];
       last.Up? && last.version == v && last.base == Some(text) && last.ok
  }

  lemma LaunchHands(m: Machine, root: string, d: Desired, prior: Option<RuntimeState>, o: Oracle)
    requires m.ok && ComposeOf(m.world, Version(d)).Some?
    ensures var m' := Launch(m, root, d, prior, o);
            && m'.world.versions == m.world.versions
            && (m'.ok ==> HandedOver(m'.world, Version(d), ComposeOf(m.world, Version(d)).value))
  {}

  lemma ActivateKeeps(m: Machine, v: string, o: Oracle)
    ensures var m' := Activate(m, v, o); m'.world.versions == m.world.versions && m'.world.commands == m.world.commands
  {}

  lemma RenderedIsFresh(root: string, v: string, d: Desired, g: Digest, policy: Policy)
    requires g.input == InputOf(d) && Printable(d.ports)
    ensures Fresh(Render(SetupFor(root, v, d, g.service, policy)), root, v, g)
  {
    assert SetupFor(root, v, d, g.service, policy) == SetupFrom(root, v, g, policy);
  }

  /** The file in place before a start, and every guard that makes the tick print it again. */
  predicate Reprinted(existing: Option<string>, v: string, d: Desired, prior: Option<RuntimeState>, g: Digest, policy: Policy) {
    Kept(existing, v, d, prior, g).None? || MustRewrite(existing.value, policy)
  }

  /**
   * Exactly when a successful start hands docker a file printed from the current settings: when one of the guards
   * fires (no file, force rebuild, recorded digest differs, service missing, stale mount, other restart policy), or
   * the cached file already came from them.
   */
  lemma HandedFreshExactly(root: string, w: World, d: Desired, o: Oracle)
    requires var m := StartMachine(root, w, d, o); m.ok && !IsNoop(d, PriorOf(w.runtime))
    ensures var v, prior, m := Version(d), PriorOf(w.runtime), StartMachine(root, w, d, o);
            var g := DigestOf(d, TreeOf(m.world, v));
            var existing := ComposeOf(w, v);
            && m.world.commands != [] && m.world.commands[|m.world.commands| - 1].Up?
            && var base := m.world.commands[|m.world.commands| - 1].base;
               && base.Some? && base == ComposeOf(m.world, v)
               && (Fresh(base.value, root, v, g)
                   <==> Reprinted(existing, v, d, prior, g, o.policy) || Fresh(existing.value, root, v, g))
  {
    var v, m := Version(d), StartMachine(root, w, d, o);
    StartedIs(root, w, d, o);
    RenderedIsFresh(root, v, d, DigestOf(d, TreeOf(m.world, v)), o.policy);
  }

  // ---------------------------------------------------------------- a stretch of ticks at one version

  /** The record says the version runs under a digest, and the cached file was printed from it. */
  ghost predicate Agrees(root: string, w: World, v: string, d: Desired) {
    && w.runtime.Saved? && ComposeOf(w, v).Some?
    && var rt, g := w.runtime.record, DigestOf(d, TreeOf(w, v));
       && rt.state == Running && rt.activeVersion == Some(v) && rt.revision == Revision(d) && rt.digest == Some(g)
       && Fresh(ComposeOf(w, v).value, root, v, g)
  }

  /** The tick is a start tick at this version that reports success. */
  predicate GoodStart(root: string, w: World, v: string, d: Desired, o: Oracle) {
    && d.desiredState != "stopped" && Version(d) == v
    && Reconcile(root, w, d, o).result.finalState == Running
  }

  lemma GoodStartOk(root: string, w: World, v: string, d: Desired, o: Oracle)
    requires GoodStart(root, w, v, d, o)
    ensures StartMachine(root, w, d, o).ok
  {}

  /** The docker log either has not moved, or ends with an `up` handed a file fresh for the recorded digest. */
  ghost predicate FreshHandover(root: string, w: World, w': World, v: string, d: Desired) {
    || w'.commands == w.commands
    || (ComposeOf(w', v).Some? && HandedOver(w', v, ComposeOf(w', v).value)
        && Fresh(ComposeOf(w', v).value, root, v, DigestOf(d, TreeOf(w', v))))
  }

  lemma StartAgrees(root: string, w: World, v: string, d: Desired, o: Oracle)
    requires GoodStart(root, w, v, d, o) && !IsNoop(d, PriorOf(w.runtime))
    requires ComposeOf(w, v).Some? ==>
      w.runtime.Saved? && w.runtime.record.activeVersion == Some(v) && w.runtime.record.digest.Some?
      && Fresh(ComposeOf(w, v).value, root, v, w.runtime.record.digest.value)
    ensures var w' := Reconcile(root, w, d, o).machine.world;
            Agrees(root, w', v, d) && FreshHandover(root, w, w', v, d)
  {
    GoodStartOk(root, w, v, d, o);
    HandedFreshExactly(root, w, d, o);
    StartedIs(root, w, d, o);
  }

  lemma NoopAgrees(root: string, w: World, v: string, d: Desired, o: Oracle)
    requires GoodStart(root, w, v, d, o) && IsNoop(d, PriorOf(w.runtime)) && Agrees(root, w, v, d)
    ensures var w' := Reconcile(root, w, d, o).machine.world;
            Agrees(root, w', v, d) && w'.commands == w.commands
  {
    GoodStartOk(root, w, v, d, o);
    var m1 := Step(Begin(w), WithVersion(w, v), o.fault);
    assert m1.ok && m1.world == w;
    var service := PrimaryService(d, TreeOf(w, v));
    if StaleRestartPolicy(ComposeOf(w, v)) {
      EnsuredIs(m1, root, v, d, service, o);
      EnsureQuiet(m1, root, v, d, service, o);
      RenderedIsFresh(root, v, d, DigestOf(d, TreeOf(w, v)), o.policy);
    }
  }

  lemma TextQuiet(m: Machine, v: string, printed: Option<string>, o: Oracle)
    requires !m.world.runtime.Missing?
    ensures var m' := EnsureText(m, v, printed, o);
            m'.world.runtime == m.world.runtime && m'.world.commands == m.world.commands && m'.world.current == m.world.current
  {}

  lemma EnsureQuiet(m: Machine, root: string, v: string, d: Desired, service: string, o: Oracle)
    requires !m.world.runtime.Missing?
    ensures var m' := Ensure(m, root, v, d, service, o);
            m'.world.runtime == m.world.runtime && m'.world.commands == m.world.commands && m'.world.current == m.world.current
  {
    TextQuiet(m, v, Printed(root, v, d, service, o.policy), o);
  }

  /** A nonblank revision names one desired content. */
  predicate SameRevisionSameContent(a: Desired, b: Desired) {
    Revision(a).Some? && Revision(a) == Revision(b) ==> a == b
  }

  lemma TickAgrees(root: string, w: World, v: string, before: Desired, d: Desired, o: Oracle)
    requires Agrees(root, w, v, before) && GoodStart(root, w, v, d, o) && SameRevisionSameContent(d, before)
    ensures var w' := Reconcile(root, w, d, o).machine.world;
            Agrees(root, w', v, d) && FreshHandover(root, w, w', v, d)
  {
    if IsNoop(d, PriorOf(w.runtime)) {
      assert d == before;
      NoopAgrees(root, w, v, d, o);
    } else {
      StartAgrees(root, w, v, d, o);
    }
  }

  /** Between the ticks others may write, but not the tree or the compose file of this version. */
  predicate LeavesVersion(w: World, v: string, dirs: map<string, VersionDir>) {
    v in dirs ==> v in w.versions && dirs[v].tree == w.versions[v].tree && dirs[v].compose == w.versions[v].compose
  }

  /** Successful start ticks at one version, each with its hooks, and harmless outside writes between them. */
  predicate Stretch(root: string, w: World, v: string, before: Desired, events: seq<Event>)
    decreases |events|
  {
    if events == [] then true
    else
      var e := events[0];
      match e
      case Crashed(_, _, _) => false
      case Outside(dirs) => LeavesVersion(w, v, dirs) && Stretch(root, After(root, w, e), v, before, events[1..])
      case Ran(None, _, _, _, _) => Stretch(root, w, v, before, events[1..])
      case Ran(Some(d), o, _, _, _) =>
        && GoodStart(root, w, v, d, o) && SameRevisionSameContent(d, before)
        && Stretch(root, After(root, w, e), v, d, events[1..])
  }

  /** After every tick of the stretch the record, the file and what docker was handed agree with that tick's settings. */
  ghost predicate AgreesThroughout(root: string, w: World, v: string, before: Desired, events: seq<Event>)
    decreases |events|
  {
    && Agrees(root, w, v, before)
    && (events != [] ==>
          var e, w' := events[0], After(root, w, events[0]);
          if e.Ran? && e.desired.Some? then
            FreshHandover(root, w, w', v, e.desired.value) && AgreesThroughout(root, w', v, e.desired.value, events[1..])
          else AgreesThroughout(root, w', v, before, events[1..]))
  }

  lemma HooksKeepAgreement(root: string, w: World, v: string, d: Desired, r: Result, order: seq<string>, keepVersions: nat, stuck: set<string>)
    requires Agrees(root, w, v, d) && r.activeVersion == Some(v) && v != ""
    ensures var w' := Hooks(w, r, order, keepVersions, stuck);
            && Agrees(root, w', v, d) && w'.commands == w.commands
            && ComposeOf(w', v) == ComposeOf(w, v) && TreeOf(w', v) == TreeOf(w, v)
  {
    CleanupProtects(w.versions, order, r.activeVersion, r.previousVersion, keepVersions, stuck);
  }

  lemma {:induction false} StretchAgrees(root: string, w: World, v: string, before: Desired, events: seq<Event>)
    requires v != "" && Agrees(root, w, v, before) && Stretch(root, w, v, before, events)
    ensures AgreesThroughout(root, w, v, before, events)
    decreases |events|
  {
    if events != [] {
      var e, w' := events[0], After(root, w, events[0]);
      if e.Ran? && e.desired.Some? {
        RanAgrees(root, w, v, before, e.desired.value, e.o, e.order, e.keepVersions, e.stuck);
        StretchAgrees(root, w', v, e.desired.value, events[1..]);
      } else {
        StretchAgrees(root, w', v, before, events[1..]);
      }
    }
  }

  lemma RanAgrees(root: string, w: World, v: string, before: Desired, d: Desired, o: Oracle,
                  order: seq<string>, keepVersions: nat, stuck: set<string>)
    requires v != "" && Agrees(root, w, v, before) && GoodStart(root, w, v, d, o) && SameRevisionSameContent(d, before)
    ensures var w' := After(root, w, Ran(Some(d), o, order, keepVersions, stuck));
            Agrees(root, w', v, d) && FreshHandover(root, w, w', v, d)
  {
    TickAgrees(root, w, v, before, d, o);
    RanThenHooks(root, w, v, d, o, order, keepVersions, stuck);
  }

  lemma RanThenHooks(root: string, w: World, v: string, d: Desired, o: Oracle,
                     order: seq<string>, keepVersions: nat, stuck: set<string>)
    requires var w' := Reconcile(root, w, d, o).machine.world;
             v != "" && GoodStart(root, w, v, d, o) && Agrees(root, w', v, d) && FreshHandover(root, w, w', v, d)
    ensures var w' := After(root, w, Ran(Some(d), o, order, keepVersions, stuck));
            Agrees(root, w', v, d) && FreshHandover(root, w, w', v, d)
  {
    AfterRan(root, w, d, o, order, keepVersions, stuck);
    ResultIsRecord(root, w, d, o);
    HooksAfterTick(root, w, Reconcile(root, w, d, o), v, d, order, keepVersions, stuck);
  }

  lemma HooksAfterTick(root: string, w: World, t: Tick, v: string, d: Desired, order: seq<string>, keepVersions: nat, stuck: set<string>)
    requires v != "" && Agrees(root, t.machine.world, v, d) && FreshHandover(root, w, t.machine.world, v, d)
    requires t.result.activeVersion == Some(v)
    ensures var w' := Hooks(t.machine.world, t.result, order, keepVersions, stuck);
            Agrees(root, w', v, d) && FreshHandover(root, w, w', v, d)
  {
    HooksKeepAgreement(root, t.machine.world, v, d, t.result, order, keepVersions, stuck);
  }

  /** A stretch from its very beginning: no-op ticks while there is no compose file, then from the first start on. */
  predicate OpenStretch(root: string, w: World, v: string, events: seq<Event>)
    decreases |events|
  {
    if events == [] then true
    else
      var e := events[0];
      match e
      case Crashed(_, _, _) => false
      case Outside(dirs) => (v in dirs ==> dirs[v].compose.None?) && OpenStretch(root, After(root, w, e), v, events[1..])
      case Ran(None, _, _, _, _) => OpenStretch(root, w, v, events[1..])
      case Ran(Some(d), o, _, _, _) =>
        && GoodStart(root, w, v, d, o)
        && if IsNoop(d, PriorOf(w.runtime)) then OpenStretch(root, After(root, w, e), v, events[1..])
           else Stretch(root, After(root, w, e), v, d, events[1..])
  }

  /** Nothing is handed to docker until the first start, and from then on everything agrees. */
  ghost predicate AgreesOnceStarted(root: string, w: World, v: string, events: seq<Event>)
    decreases |events|
  {
    events != [] ==>
      var e, w' := events[0], After(root, w, events[0]);
      if e.Ran? && e.desired.Some? && !IsNoop(e.desired.value, PriorOf(w.runtime)) then
        FreshHandover(root, w, w', v, e.desired.value) && AgreesThroughout(root, w', v, e.desired.value, events[1..])
      else w'.commands == w.commands && AgreesOnceStarted(root, w', v, events[1..])
  }

  lemma HooksLeaveOpen(w: World, r: Result, v: string, order: seq<string>, keepVersions: nat, stuck: set<string>)
    requires ComposeOf(w, v).None?
    ensures var w' := Hooks(w, r, order, keepVersions, stuck); ComposeOf(w', v).None? && w'.commands == w.commands
  {
    CleanupProtects(w.versions, order, r.activeVersion, r.previousVersion, keepVersions, stuck);
  }

  lemma NoopLeavesOpen(root: string, w: World, v: string, d: Desired, o: Oracle,
                       order: seq<string>, keepVersions: nat, stuck: set<string>)
    requires ComposeOf(w, v).None? && GoodStart(root, w, v, d, o) && IsNoop(d, PriorOf(w.runtime))
    ensures var w' := After(root, w, Ran(Some(d), o, order, keepVersions, stuck));
            ComposeOf(w', v).None? && w'.commands == w.commands
  {
    GoodStartOk(root, w, v, d, o);
    AfterRan(root, w, d, o, order, keepVersions, stuck);
    var t := Reconcile(root, w, d, o);
    HooksLeaveOpen(t.machine.world, t.result, v, order, keepVersions, stuck);
  }

  lemma FirstStartAgrees(root: string, w: World, v: string, d: Desired, o: Oracle,
                         order: seq<string>, keepVersions: nat, stuck: set<string>, events: seq<Event>)
    requires ComposeOf(w, v).None? && GoodStart(root, w, v, d, o) && !IsNoop(d, PriorOf(w.runtime))
    requires Stretch(root, After(root, w, Ran(Some(d), o, order, keepVersions, stuck)), v, d, events)
    ensures var w' := After(root, w, Ran(Some(d), o, order, keepVersions, stuck));
            FreshHandover(root, w, w', v, d) && AgreesThroughout(root, w', v, d, events)
  {
    VersionNamed(d);
    StartAgrees(root, w, v, d, o);
    RanThenHooks(root, w, v, d, o, order, keepVersions, stuck);
    StretchAgrees(root, After(root, w, Ran(Some(d), o, order, keepVersions, stuck)), v, d, events);
  }

  /**
   * A stretch that begins with no compose file at the version: nothing is handed to docker before the first start, and
   * from then on every file handed over was printed from settings with the digest that tick records, and the recorded
   * digest is the file's.
   */
  lemma {:induction false} CacheAgreement(root: string, w: World, v: string, events: seq<Event>)
    requires ComposeOf(w, v).None? && OpenStretch(root, w, v, events)
    ensures AgreesOnceStarted(root, w, v, events)
    decreases |events|
  {
    if events != [] {
      var e := events[0];
      if e.Ran? && e.desired.Some? {
        if IsNoop(e.desired.value, PriorOf(w.runtime)) {
          NoopLeavesOpen(root, w, v, e.desired.value, e.o, e.order, e.keepVersions, e.stuck);
          CacheAgreement(root, After(root, w, e), v, events[1..]);
        } else {
          FirstStartAgrees(root, w, v, e.desired.value, e.o, e.order, e.keepVersions, e.stuck, events[1..]);
        }
      } else {
        CacheAgreement(root, After(root, w, e), v, events[1..]);
      }
    }
  }

  // ---------------------------------------------------------------- what a stop tick forgets

  /** Two printed files that agree come from the same network. */
  lemma PrintedPinsNetwork(a: Setup, b: Setup)
    requires Printable(a.ports) && Printable(b.ports) && SingleLined(a) && SingleLined(b)
    requires Render(a) == Render(b)
    ensures a.network == b.network
  {
    LinesOneLine(a);
    LinesOneLine(b);
    SplitUnlines(Lines(a));
    SplitUnlines(Lines(b));
    NetworkLine(a);
    NetworkLine(b);
    SameTail("      - ", a.network, b.network);
  }

  lemma NetworkLine(c: Setup)
    requires Printable(c.ports)
    ensures |Lines(c)| > 11 && Lines(c)[11] == "      - " + c.network
  {
    assert FixedLines(c)[7] == "      - " + c.network;
    assert BodyLines(c)[7] == FixedLines(c)[7];
  }

  lemma SameTail(pre: string, a: string, b: string)
    requires pre + a == pre + b
    ensures a == b
  {
    assert a == (pre + a)[|pre|..] && b == (pre + b)[|pre|..];
  }

  lemma LinesOneLine(c: Setup)
    requires Printable(c.ports) && SingleLined(c)
    ensures AllOneLine(Lines(c))
  {
    BodyShape(c);
    EdgeShape(c);
    forall l | l in Lines(c) ensures NoBreak(l) {
      assert l in HeadLines(c) || l in BodyLines(c) || l in TailLines(c);
    }
  }

  /** A completed stop leaves every version directory as it was, and a record without version or digest. */
  lemma StopForgets(root: string, w: World, d: Desired, o: Oracle)
    requires StopMachine(root, w, d, o).ok
    ensures var w' := StopTick(root, w, d, o).machine.world;
            && w'.versions == w.versions && w'.runtime.Saved?
            && w'.runtime.record.state == Stopped
            && w'.runtime.record.digest.None? && w'.runtime.record.activeVersion.None?
            && !w'.runtime.record.rollbackAvailable
  {
    assert DownMachine(root, w, d, o).world.versions == w.versions;
  }

  lemma LaunchRecreates(m: Machine, root: string, d: Desired, prior: Option<RuntimeState>, o: Oracle)
    requires m.ok && Launch(m, root, d, prior, o).ok
    ensures var commands := Launch(m, root, d, prior, o).world.commands;
            && commands != [] && commands[|commands| - 1].Up?
            && (commands[|commands| - 1].recreate <==> VersionTransition(prior, Version(d)) || ForceNow(d, prior))
  {}

  /** The last command of a start, and when it rebuilds. */
  lemma StartRecreates(root: string, w: World, d: Desired, o: Oracle)
    requires Starts(root, w, d, o)
    ensures var commands, prior := StartMachine(root, w, d, o).world.commands, PriorOf(w.runtime);
            && commands != [] && commands[|commands| - 1].Up?
            && (commands[|commands| - 1].recreate <==> VersionTransition(prior, Version(d)) || ForceNow(d, prior))
  {
    var prior := PriorOf(w.runtime);
    var m2 := Prepare(Step(Begin(w), WithVersion(w, Version(d)), o.fault), root, d, prior, o);
    LaunchRecreates(m2, root, d, prior, o);
    ActivateKeeps(Launch(m2, root, d, prior, o), Version(d), o);
  }

  /**
   * A stop tick counts as having carried out a force rebuild it never did: the start after it rebuilds if and only if
   * it is forced and the stop was not, or was for another revision.
   */
  lemma StopSpendsForceRebuild(root: string, w: World, stop: Desired, o: Oracle, d: Desired, o': Oracle)
    requires stop.desiredState == "stopped" && StopMachine(root, w, stop, o).ok
    requires Starts(root, Reconcile(root, w, stop, o).machine.world, d, o')
    ensures var commands := StartMachine(root, Reconcile(root, w, stop, o).machine.world, d, o').world.commands;
            && commands != [] && commands[|commands| - 1].Up?
            && (commands[|commands| - 1].recreate
                <==> d.forceRebuild && !(stop.forceRebuild && Revision(d).Some? && stop.revision == Revision(d)))
  {
    StartRecreates(root, Reconcile(root, w, stop, o).machine.world, d, o');
    StoppedRecord(root, w, stop, o);
  }

  lemma StoppedRecord(root: string, w: World, stop: Desired, o: Oracle)
    requires stop.desiredState == "stopped" && StopMachine(root, w, stop, o).ok
    ensures Reconcile(root, w, stop, o).machine.world.runtime == Saved(StopRecord(stop, StopFiles(root, w)))
  {}

  /**
   * The record of a stop tick carries no digest, so the start after it keeps a file printed from other settings:
   * whenever only the network changed and nothing else forces a reprint, docker is handed the old network.
   */
  lemma StopForgetsDigest(root: string, w: World, was: Digest, policy: Policy, d: Desired, o: Oracle)
    requires d.desiredState != "stopped"
    requires var m := StartMachine(root, w, d, o); m.ok && !IsNoop(d, PriorOf(w.runtime))
    requires w.runtime.Saved? && w.runtime.record.digest.None?  // what StopRecord leaves
    requires !ForceNow(d, PriorOf(w.runtime)) && o.policy == policy
    requires var v := Version(d); Printable(was.input.ports) && ComposeOf(w, v) == Some(Render(SetupFrom(root, v, was, policy)))
    requires was.service == PrimaryService(d, TreeOf(StartMachine(root, w, d, o).world, Version(d)))
    requires was.input.network != NetworkOf(d)
    requires var c := SetupFrom(root, Version(d), was, policy);
             SingleLined(c) && ProperName(c.service) && Free(c, STALE_DESIRED) && Free(c, STALE_RUNTIME)
    requires NoBreak(NetworkOf(d)) && OneLine(d.cpu) && OneLine(d.memory) && PortsOneLine(d.ports)
    ensures var v, m := Version(d), StartMachine(root, w, d, o);
            && HandedOver(m.world, v, Render(SetupFrom(root, v, was, policy)))
            && !Fresh(Render(SetupFrom(root, v, was, policy)), root, v, DigestOf(d, TreeOf(m.world, v)))
  {
    var v, m := Version(d), StartMachine(root, w, d, o);
    var c := SetupFrom(root, v, was, policy);
    var g := DigestOf(d, TreeOf(m.world, v));
    PrinterParserAgree(c);
    EnsureIsFixpoint(c, None);
    StartedIs(root, w, d, o);
    forall p: Policy | Printable(g.input.ports) ensures Render(c) != Render(SetupFrom(root, v, g, p)) {
      if Render(c) == Render(SetupFrom(root, v, g, p)) { PrintedPinsNetwork(c, SetupFrom(root, v, g, p)); }
    }
  }

  /**
   * As a run: an addon whose file was printed from one network is stopped, its network is changed, and it is started
   * again at the same version. Docker is handed the old network, although the tick records the new digest.
   */
  lemma StaleAfterStop(root: string, w: World, was: Digest, policy: Policy, stop: Desired, o: Oracle, d: Desired, o': Oracle)
    requires stop.desiredState == "stopped" && StopMachine(root, w, stop, o).ok
    requires var v := Version(d); Printable(was.input.ports) && ComposeOf(w, v) == Some(Render(SetupFrom(root, v, was, policy)))
    requires d.desiredState != "stopped" && !d.forceRebuild && o'.policy == policy && was.input.network != NetworkOf(d)
    requires var w1 := Reconcile(root, w, stop, o).machine.world;
             StartMachine(root, w1, d, o').ok && was.service == PrimaryService(d, TreeOf(StartMachine(root, w1, d, o').world, Version(d)))
    requires var c := SetupFrom(root, Version(d), was, policy);
             SingleLined(c) && ProperName(c.service) && Free(c, STALE_DESIRED) && Free(c, STALE_RUNTIME)
    requires NoBreak(NetworkOf(d)) && OneLine(d.cpu) && OneLine(d.memory) && PortsOneLine(d.ports)
    ensures var v, w1 := Version(d), Reconcile(root, w, stop, o).machine.world;
            var m := StartMachine(root, w1, d, o');
            && HandedOver(m.world, v, Render(SetupFrom(root, v, was, policy)))
            && !Fresh(Render(SetupFrom(root, v, was, policy)), root, v, DigestOf(d, TreeOf(m.world, v)))
  {
    StopForgets(root, w, stop, o);
    var w1 := Reconcile(root, w, stop, o).machine.world;
    assert ComposeOf(w1, Version(d)) == ComposeOf(w, Version(d));
    StopForgetsDigest(root, w1, was, policy, d, o');
  }
}
