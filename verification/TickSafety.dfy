/** What every state inside one tick keeps, step by step. */
module TickSafety {
  import opened Text
  import opened ComposeFile
  import opened SupervisorState
  import opened Reconciler

  predicate SameArtifacts(w: World, w': World) {
    forall v :: v in w.versions && v in w'.versions ==> w'.versions[v].artifact == w.versions[v].artifact
  }

  /** A change that touches neither the links nor the docker log, and drops no version and no artifact. */
  predicate Calm(w: World, w': World) {
    && w'.current == w.current && w'.next == w.next && w'.commands == w.commands
    && w.versions.Keys <= w'.versions.Keys && SameArtifacts(w, w')
    && (w'.runtime == w.runtime || (w.runtime.Missing? && w'.runtime.Unreadable?))
  }

  /** `m'` continues `m`, and everything it went through relates to where `m` stood. */
  ghost predicate Continues(m: Machine, m': Machine, rel: (World, World) -> bool) {
    && m.trail <= m'.trail
    && rel(m.world, m'.world)
    && (forall i :: |m.trail| <= i < |m'.trail| ==> rel(m.world, m'.trail[i]))
    && (!m.ok ==> m' == m)
    && (m'.world == m.world || m'.world in m'.trail[|m.trail|..])
  }

  ghost predicate CalmStage(m: Machine, m': Machine) { Continues(m, m', Calm) }

  lemma StepCalm(m: Machine, w: World, fault: Option<nat>)
    requires Calm(m.world, w)
    ensures CalmStage(m, Step(m, w, fault))
  {
    var m' := Step(m, w, fault);
    if |m'.trail| > |m.trail| { assert m'.trail[|m.trail|..] == [w]; }
  }

  lemma CalmThen(a: Machine, b: Machine, c: Machine)
    requires CalmStage(a, b) && CalmStage(b, c)
    ensures CalmStage(a, c)
  {
    forall i | |a.trail| <= i < |c.trail| ensures Calm(a.world, c.trail[i]) {
      if i < |b.trail| { assert c.trail[i] == b.trail[i]; }
    }
    assert b.trail == c.trail[..|b.trail|];
    if c.world == b.world {
      if b.world != a.world { assert b.world in c.trail[|a.trail|..]; }
    } else {
      assert c.trail[|b.trail|..] == c.trail[|a.trail|..][|b.trail| - |a.trail|..];
    }
  }

  lemma StepThen(a: Machine, b: Machine, w: World, fault: Option<nat>)
    requires CalmStage(a, b) && Calm(b.world, w)
    ensures CalmStage(a, Step(b, w, fault))
  {
    StepCalm(b, w, fault);
    CalmThen(a, b, Step(b, w, fault));
  }

  lemma TreeCalm(w: World, v: string, files: map<string, string>, marker: Marker)
    ensures Calm(w, Unpacked(w, v, files)) && Calm(w, Marked(w, v, marker))
  {}

  lemma UnpackCalm(m: Machine, v: string, a: Artifact, o: Oracle)
    ensures CalmStage(m, Unpack(m, v, a, o))
  {
    TreeCalm(m.world, v, Part(a, o.tarPartial), NoMarker);
    StepCalm(m, Unpacked(m.world, v, Part(a, o.tarPartial)), o.fault);
    var m1 := Step(m, Unpacked(m.world, v, Part(a, o.tarPartial)), o.fault);
    TreeCalm(m1.world, v, a.files, NoMarker);
    StepThen(m, m1, Unpacked(m1.world, v, a.files), o.fault);
    var m2 := Step(m1, Unpacked(m1.world, v, a.files), o.fault);
    TreeCalm(m2.world, v, a.files, Torn);
    StepThen(m, m2, Marked(m2.world, v, Torn), o.fault);
    var m3 := Step(m2, Marked(m2.world, v, Torn), o.fault);
    TreeCalm(m3.world, v, a.files, HashOf(a));
    StepThen(m, m3, Marked(m3.world, v, HashOf(a)), o.fault);
  }

  lemma ExtractCalm(m: Machine, v: string, a: Artifact, o: Oracle)
    ensures CalmStage(m, Extract(m, v, a, o))
  {
    var t := TreeOf(m.world, v);
    var m1 := m;
    if t.None? {
      var made := MakeTree(m, v, o);
      StepCalm(m, WithTree(m.world, v, Some(EMPTY_TREE)), o.fault);
      UnpackCalm(made, v, a, o);
      m1 := Unpack(made, v, a, o);
      CalmThen(m, made, m1);
    } else if t.value.marker != HashOf(a) {
      var removed := Step(m, WithTree(m.world, v, o.removalLeaves), o.fault);
      StepCalm(m, WithTree(m.world, v, o.removalLeaves), o.fault);
      var made := MakeTree(removed, v, o);
      StepCalm(removed, if TreeOf(removed.world, v).Some? then removed.world else WithTree(removed.world, v, Some(EMPTY_TREE)), o.fault);
      CalmThen(m, removed, made);
      UnpackCalm(made, v, a, o);
      m1 := Unpack(made, v, a, o);
      CalmThen(m, made, m1);
    }
    StepCalm(m1, m1.world, o.fault);
    CalmThen(m, m1, Step(m1, m1.world, o.fault));
  }

  lemma ComposeCalm(w: World, v: string, c: Option<string>)
    ensures Calm(w, WithCompose(w, v, c))
  {}

  lemma TextCalm(m: Machine, v: string, printed: Option<string>, o: Oracle)
    ensures CalmStage(m, EnsureText(m, v, printed, o))
  {
    StepCalm(m, if m.world.runtime.Missing? then m.world.(runtime := Unreadable) else m.world, o.fault);
    var m0 := if m.world.runtime.Missing? then Step(m, m.world.(runtime := Unreadable), o.fault) else m;
    StepThen(m, m0, m0.world, o.fault);
    var m1 := Step(m0, m0.world, o.fault);
    ComposeCalm(m1.world, v, Some(""));
    StepThen(m, m1, WithCompose(m1.world, v, Some("")), o.fault);
    var m2 := Step(m1, WithCompose(m1.world, v, Some("")), o.fault);
    ComposeCalm(m2.world, v, printed);
    StepThen(m, m2, WithCompose(m2.world, v, printed), o.fault);
  }

  lemma EnsureCalm(m: Machine, root: string, v: string, d: Desired, service: string, o: Oracle)
    ensures CalmStage(m, Ensure(m, root, v, d, service, o))
  {
    TextCalm(m, v, Printed(root, v, d, service, o.policy), o);
  }

  lemma DropCalm(m: Machine, v: string, reason: bool, o: Oracle)
    ensures CalmStage(m, DropIf(m, v, reason, o))
  {
    if ComposeOf(m.world, v).Some? && reason { StepCalm(m, WithCompose(m.world, v, None), o.fault); }
  }

  lemma DropStaleCalm(m: Machine, v: string, d: Desired, prior: Option<RuntimeState>, digest: Digest, o: Oracle)
    ensures CalmStage(m, DropStale(m, v, d, prior, digest, o))
  {
    var m1 := DropIf(m, v, ForceNow(d, prior), o);
    var m2 := DropIf(m1, v, DigestChanged(prior, v, digest), o);
    DropCalm(m, v, ForceNow(d, prior), o);
    DropCalm(m1, v, DigestChanged(prior, v, digest), o);
    CalmThen(m, m1, m2);
    var reason := LacksService(ComposeOf(m2.world, v), digest.service);
    DropCalm(m2, v, reason, o);
    CalmThen(m, m2, DropIf(m2, v, reason, o));
  }

  lemma PrepareCalm(m: Machine, root: string, d: Desired, prior: Option<RuntimeState>, o: Oracle)
    ensures CalmStage(m, Prepare(m, root, d, prior, o))
  {
    var v := Version(d);
    var a := ArtifactOf(m.world, v);
    if m.ok && a.Some? {
      var m1 := Extract(m, v, a.value, o);
      ExtractCalm(m, v, a.value, o);
      if m1.ok {
        var digest := DigestOf(d, TreeOf(m1.world, v));
        var m2 := DropStale(m1, v, d, prior, digest, o);
        DropStaleCalm(m1, v, d, prior, digest, o);
        CalmThen(m, m1, m2);
        EnsureCalm(m2, root, v, d, digest.service, o);
        CalmThen(m, m2, Ensure(m2, root, v, d, digest.service, o));
      }
    }
  }

  // ---------------------------------------------------------------- docker and the link

  /** A docker `up` for this version has returned success. */
  predicate Launched(commands: seq<Command>, v: string) {
    exists i :: 0 <= i < |commands| && commands[i].Up? && commands[i].version == v && commands[i].ok
  }

  lemma LaunchedStays(a: seq<Command>, b: seq<Command>, v: string)
    requires a <= b && Launched(a, v)
    ensures Launched(b, v)
  {
    var i :| 0 <= i < |a| && a[i].Up? && a[i].version == v && a[i].ok;
    assert b[i] == a[i];
  }

  /** Only the docker log grows. */
  predicate Logged(w: World, w': World) {
    && w.commands <= w'.commands && w' == w.(commands := w'.commands)
  }

  lemma CommandLogs(m: Machine, c: Command, fault: Option<nat>)
    requires m.ok
    ensures var m' := Step(m, WithCommand(m.world, c), fault);
            Continues(m, m', Logged) && (m'.ok ==> m'.world == WithCommand(m.world, c))
  {
    var m' := Step(m, WithCommand(m.world, c), fault);
    if |m'.trail| > |m.trail| { assert m'.trail[|m.trail|..] == [m'.world]; }
  }

  lemma LogsThen(a: Machine, b: Machine, c: Machine)
    requires a.ok && Continues(a, b, Logged) && Continues(b, c, Logged)
    ensures Continues(a, c, Logged)
  {
    forall i | |a.trail| <= i < |c.trail| ensures Logged(a.world, c.trail[i]) {
      if i < |b.trail| { assert c.trail[i] == b.trail[i]; }
    }
    assert b.trail == c.trail[..|b.trail|];
    if c.world == b.world {
      if b.world != a.world { assert b.world in c.trail[|a.trail|..]; }
    } else {
      assert c.trail[|b.trail|..] == c.trail[|a.trail|..][|b.trail| - |a.trail|..];
    }
  }

  lemma LaunchLogs(m: Machine, root: string, d: Desired, prior: Option<RuntimeState>, o: Oracle)
    requires m.ok
    ensures var m' := Launch(m, root, d, prior, o);
            && Continues(m, m', Logged)
            && (m'.ok ==> Launched(m'.world.commands, Version(d)))
  {
    var v := Version(d);
    var files := ComposePaths(root, v, ActiveGroups(Groups(d), TreeOf(m.world, v)));
    var rebuild := VersionTransition(prior, v) || ForceNow(d, prior);
    var build := Build(files, d.project, o.buildOk);
    var m1 := if rebuild then Step(m, WithCommand(m.world, build), o.fault) else m;
    CommandLogs(m, build, o.fault);
    if m1.ok && !(rebuild && !o.buildOk) {
      var up := Up(v, files, d.project, rebuild, ComposeOf(m1.world, v), o.upOk);
      var m2 := Step(m1, WithCommand(m1.world, up), o.fault);
      CommandLogs(m1, up, o.fault);
      LogsThen(m, m1, m2);
      assert m2.ok ==> m2.world.commands[|m1.world.commands|] == up;
    }
  }

  /** A state of the tick is a calm or logged successor, or the link has moved to a launched version. */
  predicate Linked(w: World, v: string, w': World) {
    w' == w.(next := w'.next, current := w'.current) && (w'.current == w.current || w'.current == Some(v))
  }

  lemma ActivateLinks(m: Machine, v: string, o: Oracle)
    requires m.ok
    ensures var m' := Activate(m, v, o);
            && m.trail <= m'.trail && Linked(m.world, v, m'.world)
            && (forall i :: |m.trail| <= i < |m'.trail| ==> Linked(m.world, v, m'.trail[i]))
            && (m'.ok ==> m'.world.current == Some(v))
            && (!m'.ok ==> m'.world.current == m.world.current)
            && (!m'.ok ==> forall i :: |m.trail| <= i < |m'.trail| ==> m'.trail[i].current == m.world.current)
            && (forall i, j :: |m.trail| <= i < j < |m'.trail| && m'.trail[i].current.Some? ==> m'.trail[j].current.Some?)
  {}

  /** What holds of one tick from a state: nothing is lost on the way, and the link moves only at a launched version. */
  ghost predicate TrailSafe(w: World, m: Machine) {
    && |m.trail| >= 1 && m.trail[0] == w
    && (forall i :: 0 <= i < |m.trail| ==> StateSafe(w, m.trail[i]))
    && (forall i, j :: 0 <= i < j < |m.trail| && m.trail[i].current.Some? ==> m.trail[j].current.Some?)
  }

  predicate StateSafe(w: World, s: World) {
    && w.versions.Keys <= s.versions.Keys && w.commands <= s.commands
    && (s.current == w.current || (s.current.Some? && Launched(s.commands, s.current.value) && s.current.value in s.versions))
  }

  lemma CalmIsSafe(w: World, m: Machine, m': Machine)
    requires TrailSafe(w, m) && CalmStage(m, m') && m.world in m.trail && m.world.current == w.current
    requires forall i :: 0 <= i < |m.trail| ==> m.trail[i].current == w.current
    ensures TrailSafe(w, m') && m'.world.current == w.current && m'.world in m'.trail
    ensures forall i :: 0 <= i < |m'.trail| ==> m'.trail[i].current == w.current
  {
    assert StateSafe(w, m.world);
    forall i | 0 <= i < |m'.trail| ensures StateSafe(w, m'.trail[i]) && m'.trail[i].current == w.current {
      if i < |m.trail| { assert m'.trail[i] == m.trail[i]; }
    }
    if m'.world == m.world {
      var i :| 0 <= i < |m.trail| && m.trail[i] == m.world;
      assert m'.trail[i] == m.world;
    }
  }

  lemma LaunchIsSafe(w: World, m: Machine, root: string, d: Desired, prior: Option<RuntimeState>, o: Oracle)
    requires m.ok && TrailSafe(w, m) && m.world in m.trail && m.world.current == w.current
    requires forall i :: 0 <= i < |m.trail| ==> m.trail[i].current == w.current
    ensures var m' := Launch(m, root, d, prior, o);
            && TrailSafe(w, m') && m'.world.current == w.current && m'.world in m'.trail
            && (forall i :: 0 <= i < |m'.trail| ==> m'.trail[i].current == w.current)
            && (m'.ok ==> Launched(m'.world.commands, Version(d)))
  {
    var m' := Launch(m, root, d, prior, o);
    LaunchLogs(m, root, d, prior, o);
    assert StateSafe(w, m.world);
    forall i | 0 <= i < |m'.trail| ensures StateSafe(w, m'.trail[i]) && m'.trail[i].current == w.current {
      if i < |m.trail| { assert m'.trail[i] == m.trail[i]; }
    }
    if m'.world == m.world {
      var i :| 0 <= i < |m.trail| && m.trail[i] == m.world;
      assert m'.trail[i] == m.world;
    }
  }

  lemma ActivateIsSafe(w: World, m: Machine, v: string, o: Oracle)
    requires m.ok && TrailSafe(w, m) && m.world in m.trail && m.world.current == w.current
    requires forall i :: 0 <= i < |m.trail| ==> m.trail[i].current == w.current
    requires Launched(m.world.commands, v) && v in m.world.versions
    ensures var m' := Activate(m, v, o);
            && TrailSafe(w, m') && StateSafe(w, m'.world)
            && m'.world.current == (if m'.ok then Some(v) else w.current)
            && (!m'.ok ==> forall i :: 0 <= i < |m'.trail| ==> m'.trail[i].current == w.current)
  {
    var m' := Activate(m, v, o);
    ActivateLinks(m, v, o);
    assert StateSafe(w, m.world);
    forall i | 0 <= i < |m'.trail| ensures StateSafe(w, m'.trail[i]) {
      if i < |m.trail| { assert m'.trail[i] == m.trail[i]; }
    }
    forall i, j | 0 <= i < j < |m'.trail| && m'.trail[i].current.Some? ensures m'.trail[j].current.Some? {
      if i < |m.trail| { assert m'.trail[i] == m.trail[i]; }
      if j < |m.trail| { assert m'.trail[j] == m.trail[j]; }
    }
    forall i | 0 <= i < |m'.trail| && !m'.ok ensures m'.trail[i].current == w.current {
      if i < |m.trail| { assert m'.trail[i] == m.trail[i]; }
    }
  }
}
