/** What stands in a printed compose file, line by line, and in the files a start hands to docker. */
module ComposeContents {
  import opened Text
  import opened ComposeFile
  import opened ComposeFixpoint
  import opened SupervisorState
  import opened Reconciler
  import opened SupervisorRuns
  import opened ComposeCache

  /** The text has these lines one after the other, behind a newline. */
  ghost predicate HasLines(text: string, lines: seq<string>) {
    exists k :: StandsAt(text, "\n" + Unlines(lines), k)
  }

  lemma {:induction false} UnlinesAppend(a: seq<string>, b: seq<string>)
    ensures Unlines(a + b) == Unlines(a) + Unlines(b)
    ensures a != [] ==> Unlines(a) != "" && Unlines(a)[|Unlines(a)| - 1] == '\n'
    decreases |a|
  {
    if a == [] {
      assert a + b == b;
    } else {
      assert (a + b)[1..] == a[1..] + b;
      UnlinesAppend(a[1..], b);
    }
  }

  lemma Inside(front: string, sub: string, back: string)
    requires front != "" && front[|front| - 1] == '\n'
    ensures StandsAt(front + (sub + back), "\n" + sub, |front| - 1)
  {
    var s, k := front + (sub + back), |front| - 1;
    var window := s[k..k + |sub| + 1];
    forall i | 0 <= i < |sub| + 1 ensures window[i] == ("\n" + sub)[i] { assert window[i] == s[k + i]; }
  }

  lemma LinesStand(front: seq<string>, block: seq<string>, back: seq<string>)
    requires front != []
    ensures HasLines(Unlines(front + (block + back)), block)
  {
    UnlinesAppend(front, block + back);
    UnlinesAppend(block, back);
    var f, b, e := Unlines(front), Unlines(block), Unlines(back);
    Inside(f, b, e);
    assert StandsAt(Unlines(front + (block + back)), "\n" + b, |f| - 1);
  }

  lemma Cut<T>(s: seq<T>, i: nat, n: nat)
    requires i + n <= |s|
    ensures s == s[..i] + (s[i..i + n] + s[i + n..])
  {}

  lemma StandsIn(lines: seq<string>, front: seq<string>, block: seq<string>, back: seq<string>)
    requires front != [] && lines == front + (block + back)
    ensures HasLines(Unlines(lines), block)
  {
    LinesStand(front, block, back);
  }

  lemma SliceStands(lines: seq<string>, i: nat, block: seq<string>)
    requires 0 < i && i + |block| <= |lines| && lines[i..i + |block|] == block
    ensures HasLines(Unlines(lines), block)
  {
    var front, back := lines[..i], lines[i + |block|..];
    Cut(lines, i, |block|);
    assert lines == front + (block + back);
    StandsIn(lines, front, block, back);
  }

  lemma Middle<T>(a: seq<T>, b: seq<T>, c: seq<T>, i: nat, n: nat)
    requires i + n <= |b|
    ensures (a + b + c)[|a| + i..|a| + i + n] == b[i..i + n]
  {}

  lemma BodyStands(c: Setup, i: nat, block: seq<string>)
    requires Printable(c.ports) && i + |block| <= |BodyLines(c)| && BodyLines(c)[i..i + |block|] == block
    ensures HasLines(Render(c), block)
  {
    Middle(HeadLines(c), BodyLines(c), TailLines(c), i, |block|);
    SliceStands(Lines(c), 4 + i, block);
  }

  lemma FixedStands(c: Setup, i: nat, block: seq<string>)
    requires Printable(c.ports) && i + |block| <= 12 && FixedLines(c)[i..i + |block|] == block
    ensures HasLines(Render(c), block)
  {
    assert BodyLines(c)[i..i + |block|] == FixedLines(c)[i..i + |block|];
    BodyStands(c, i, block);
  }

  // ---------------------------------------------------------------- ports

  /** The line that publishes one port: on loopback alone, or on every interface. */
  function Published(loopback: bool, host: int, container: int, proto: Option<string>): string {
    "      - \"" + (if loopback then "127.0.0.1:" else "0.0.0.0:") + IntText(host) + ":" + IntText(container) + "/"
    + (if proto.Some? && proto.value != "" then Lower(proto.value) else "tcp") + "\""
  }

  lemma PortLineIs(loopback: bool, p: Port)
    requires p.host.Given? && p.container.Given? && p.host.number.Some? && p.container.number.Some?
    ensures !p.Skipped() && p.Printable()
    ensures PortLine(loopback, p) == Published(loopback, p.host.number.value, p.container.number.value, p.proto)
  {
    var bind, proto := HostBind(loopback), if p.proto.Some? && p.proto.value != "" then Lower(p.proto.value) else "tcp";
    assert bind + ":" == if loopback then "127.0.0.1:" else "0.0.0.0:";
    assert p.Protocol() == proto;
    Colons(bind, IntText(p.host.number.value), IntText(p.container.number.value), proto);
  }

  lemma Colons(bind: string, a: string, b: string, proto: string)
    ensures "      - \"" + bind + ":" + a + ":" + b + ("/" + proto) + "\"" == "      - \"" + (bind + ":") + a + ":" + b + "/" + proto + "\""
  {
    assert "      - \"" + bind + ":" == "      - \"" + (bind + ":");
  }

  /** A port with both its ends given as numbers. */
  predicate Usable(p: Port) {
    p.host.Given? && p.container.Given? && p.host.number.Some? && p.container.number.Some?
  }

  lemma {:induction false} PortLinesAre(loopback: bool, ports: seq<Port>, line: string)
    requires Printable(ports)
    ensures line in PortLines(loopback, ports)
            <==> exists p :: p in ports && Usable(p)
                             && line == Published(loopback, p.host.number.value, p.container.number.value, p.proto)
    decreases |ports|
  {
    if ports != [] {
      assert ports[0] in ports && ports[0].Printable();
      PortLinesAre(loopback, ports[1..], line);
      if Usable(ports[0]) { PortLineIs(loopback, ports[0]); }
      assert forall p :: p in ports <==> p == ports[0] || p in ports[1..];
    }
  }

  /** The file, line by line, as the program's template has it around the port lines. */
  function Template(c: Setup, ports: seq<string>): seq<string> {
    Top(c)
    + (if c.cpu.Some? then ["    cpus: " + c.cpu.value] else [])
    + (if c.memory.Some? && c.memory.value != "" then ["    mem_limit: " + Strip(c.memory.value)] else [])
    + (if ports == [] then [] else ["    ports:"] + ports)
    + ["", "", "networks:", "  " + c.network + ":", "    name: " + c.network]
  }

  function Top(c: Setup): seq<string> {
    ["", "services:", "  " + c.service + ":", "    build: " + c.extractedDir, "    restart: " + c.policy.Name(),
     "    privileged: false", "    security_opt:", "      - no-new-privileges:true", "    env_file:", "      - " + c.envFile,
     "    networks:", "      - " + c.network, "    volumes:", "      - " + c.desiredFile + ":/state/desired.json",
     "      - " + c.runtimeFile + ":/state/runtime.json", "      - " + c.composeFile + ":/state/docker-compose.yml:ro"]
  }

  lemma TopIs(c: Setup)
    ensures Top(c) == HeadLines(c) + FixedLines(c)
  {
    var top, lines := Top(c), HeadLines(c) + FixedLines(c);
    assert top[..4] == HeadLines(c);
    assert top[4..] == FixedLines(c);
    assert top == top[..4] + top[4..];
  }

  lemma FollowsTemplate(c: Setup)
    requires Printable(c.ports)
    ensures Lines(c) == Template(c, PortLines(c.bindLocalhost, c.ports))
  {
    var cpu := if c.cpu.Some? then ["    cpus: " + c.cpu.value] else [];
    var memory := if c.memory.Some? && c.memory.value != "" then ["    mem_limit: " + Strip(c.memory.value)] else [];
    TopIs(c);
    Regroup(HeadLines(c), FixedLines(c), cpu, memory, PortSection(c), TailLines(c));
  }

  lemma Regroup<T>(a: seq<T>, b: seq<T>, c: seq<T>, d: seq<T>, e: seq<T>, f: seq<T>)
    ensures a + (b + (c + d) + e) + f == a + b + c + d + e + f
  {}

  /**
   * The ports section: there is one just when some port has two ends, and it has a line for every such port, bound to
   * loopback or to every interface as the setup says, and no other line.
   */
  lemma PortsPublished(c: Setup) returns (lines: seq<string>)
    requires Printable(c.ports)
    ensures lines != [] ==> HasLines(Render(c), ["    ports:"] + lines)
    ensures Render(c) == Unlines(Template(c, lines))
    ensures forall line :: line in lines <==>
      exists p :: p in c.ports && Usable(p)
                  && line == Published(c.bindLocalhost, p.host.number.value, p.container.number.value, p.proto)
  {
    lines := PortLines(c.bindLocalhost, c.ports);
    FollowsTemplate(c);
    forall line ensures line in lines <==>
      exists p :: p in c.ports && Usable(p)
                  && line == Published(c.bindLocalhost, p.host.number.value, p.container.number.value, p.proto)
    {
      PortLinesAre(c.bindLocalhost, c.ports, line);
    }
    if lines != [] {
      var i := |FixedLines(c) + LimitLines(c)|;
      assert BodyLines(c)[i..i + |PortSection(c)|] == PortSection(c);
      BodyStands(c, i, PortSection(c));
    }
  }

  /** A setup is printable when `int()` takes every port that has two ends. */
  lemma PrintableExactly(ports: seq<Port>)
    ensures Printable(ports) <==> forall p :: p in ports ==> p.host.Null? || p.container.Null? || Usable(p)
  {}

  // ---------------------------------------------------------------- the other lines

  /** State is mounted for the addon: desired and runtime state writable, the compose file read-only. */
  lemma StateMounted(c: Setup)
    requires Printable(c.ports)
    ensures HasLines(Render(c), ["    volumes:", "      - " + c.desiredFile + ":/state/desired.json",
                                 "      - " + c.runtimeFile + ":/state/runtime.json",
                                 "      - " + c.composeFile + ":/state/docker-compose.yml:ro"])
  {
    FixedStands(c, 8, ["    volumes:", "      - " + c.desiredFile + ":/state/desired.json",
                       "      - " + c.runtimeFile + ":/state/runtime.json",
                       "      - " + c.composeFile + ":/state/docker-compose.yml:ro"]);
  }

  /** The service restarts as the policy says, has no privileges, and none are to be gained. */
  lemma Confined(c: Setup)
    requires Printable(c.ports)
    ensures HasLines(Render(c), ["    restart: " + c.policy.Name(), "    privileged: false", "    security_opt:",
                                 "      - no-new-privileges:true"])
  {
    FixedStands(c, 0, ["    restart: " + c.policy.Name(), "    privileged: false", "    security_opt:",
                       "      - no-new-privileges:true"]);
  }

  lemma PolicyNames(p: Policy)
    ensures RestartPolicy(p.Name()) == p
    ensures p.Name() == match p case No => "no" case OnFailure => "on-failure" case Always => "always"
                                case UnlessStopped => "unless-stopped"
  {
    StripFixed(p.Name());
    LowerFixed(p.Name());
  }

  lemma LowerFixed(s: string)
    requires forall k :: 0 <= k < |s| ==> !('A' <= s[k] <= 'Z')
    ensures Lower(s) == s
  {}

  /** The environment file, and the network inside the service. */
  lemma EnvironmentAndNetwork(c: Setup)
    requires Printable(c.ports)
    ensures HasLines(Render(c), ["    env_file:", "      - " + c.envFile, "    networks:", "      - " + c.network])
  {
    FixedStands(c, 4, ["    env_file:", "      - " + c.envFile, "    networks:", "      - " + c.network]);
  }

  /** The network as one of its own. */
  lemma NetworkDeclared(c: Setup)
    requires Printable(c.ports)
    ensures HasLines(Render(c), ["networks:", "  " + c.network + ":", "    name: " + c.network])
  {
    var n := |Lines(c)|;
    var block := ["networks:", "  " + c.network + ":", "    name: " + c.network];
    assert Lines(c)[n - 3..n] == TailLines(c)[2..5] == block;
    SliceStands(Lines(c), n - 3, block);
  }

  /** The service by its name, and where it is built from. */
  lemma ServiceAndBuild(c: Setup)
    requires Printable(c.ports)
    ensures HasLines(Render(c), ["services:", "  " + c.service + ":", "    build: " + c.extractedDir])
  {
    var block := ["services:", "  " + c.service + ":", "    build: " + c.extractedDir];
    assert Lines(c)[1..4] == HeadLines(c)[1..4] == block;
    SliceStands(Lines(c), 1, block);
  }

  /** Its limits, when there are any. */
  lemma LimitsSet(c: Setup)
    requires Printable(c.ports)
    ensures HasLines(Render(c), (if c.cpu.Some? then ["    cpus: " + c.cpu.value] else [])
                                + (if c.memory.Some? && c.memory.value != "" then ["    mem_limit: " + Strip(c.memory.value)]
                                   else []))
  {
    assert BodyLines(c)[12..12 + |LimitLines(c)|] == LimitLines(c);
    BodyStands(c, 12, LimitLines(c));
  }

  // ---------------------------------------------------------------- what docker is handed

  /** The settings of a start, written out. */
  predicate SettingsOf(c: Setup, root: string, d: Desired, v: string, service: string, policy: Policy) {
    && c.service == service && c.policy == policy && c.bindLocalhost == d.bindLocalhost && c.ports == d.ports
    && c.cpu == d.cpu && c.memory == d.memory && c.network == (if d.network == "" then "hexe_net" else d.network)
    && c.desiredFile == root + "/desired.json" && c.runtimeFile == root + "/runtime.json"
    && c.extractedDir == root + "/versions/" + v + "/extracted" && c.envFile == root + "/versions/" + v + "/runtime.env"
    && c.composeFile == root + "/versions/" + v + "/docker-compose.yml"
  }

  /** A start that finds no compose file hands docker one printed from its own desired state. */
  lemma FirstStartHands(root: string, w: World, d: Desired, o: Oracle) returns (c: Setup)
    requires Starts(root, w, d, o) && ComposeOf(w, Version(d)).None?
    ensures var m, v := StartMachine(root, w, d, o), Version(d);
            && Printable(c.ports) && HandedOver(m.world, v, Render(c))
            && SettingsOf(c, root, d, v, PrimaryService(d, TreeOf(m.world, v)), o.policy)
  {
    StartedIs(root, w, d, o);
    c := SetupFor(root, Version(d), d, PrimaryService(d, TreeOf(StartMachine(root, w, d, o).world, Version(d))), o.policy);
  }

  /** Nothing makes the file in place be printed again: its digest stands, no rebuild is due, and it reads as it should. */
  predicate Stands(text: string, w: World, d: Desired, g: Digest, policy: Policy) {
    var revision := if d.revision.Some? then Strip(d.revision.value) else "";
    && !(d.forceRebuild && !(revision != "" && w.runtime.Saved? && w.runtime.record.forceRevision == Some(revision)))
    && !(w.runtime.Saved? && w.runtime.record.activeVersion == Some(Version(d))
         && w.runtime.record.digest.Some? && w.runtime.record.digest.value != g)
    && g.service in BuildFlags(text) && Contains(text, "restart: " + policy.Name())
    && !Contains(text, "/state/desired.json:ro") && !Contains(text, "/state/runtime.json:ro")
  }

  /** A start leaves a compose file that stands as it is, and prints any other from its own desired state. */
  lemma KeptOrPrinted(root: string, w: World, d: Desired, o: Oracle) returns (c: Setup)
    requires Starts(root, w, d, o)
    ensures var m, v := StartMachine(root, w, d, o), Version(d);
            var g, existing := DigestOf(d, TreeOf(m.world, v)), ComposeOf(w, v);
            && Printable(c.ports) && SettingsOf(c, root, d, v, g.service, o.policy)
            && ComposeOf(m.world, v) == if existing.Some? && Stands(existing.value, w, d, g, o.policy) then existing
                                        else Some(Render(c))
  {
    var v := Version(d);
    var g := DigestOf(d, TreeOf(StartMachine(root, w, d, o).world, v));
    StartedIs(root, w, d, o);
    c := SetupFor(root, v, d, g.service, o.policy);
    if ComposeOf(w, v).Some? { StandsIs(ComposeOf(w, v).value, w, d, g, o.policy); }
  }

  lemma StandsIs(text: string, w: World, d: Desired, g: Digest, policy: Policy)
    ensures Stands(text, w, d, g, policy)
            <==> Kept(Some(text), Version(d), d, PriorOf(w.runtime), g).Some? && !MustRewrite(text, policy)
  {}

  /** So its ports are bound as the desired state says: on loopback alone, unless it asks otherwise. */
  lemma FirstStartPublishes(root: string, w: World, d: Desired, o: Oracle, p: Port) returns (text: string, lines: seq<string>)
    requires Starts(root, w, d, o) && ComposeOf(w, Version(d)).None? && p in d.ports && Usable(p)
    ensures HandedOver(StartMachine(root, w, d, o).world, Version(d), text) && HasLines(text, ["    ports:"] + lines)
    ensures Published(d.bindLocalhost, p.host.number.value, p.container.number.value, p.proto) in lines
  {
    var c := FirstStartHands(root, w, d, o);
    text := Render(c);
    lines := PortsPublished(c);
    assert Published(d.bindLocalhost, p.host.number.value, p.container.number.value, p.proto) in lines;
  }

  /** Whatever file a start hands over, it has the service the start is about. */
  lemma HandedHasService(root: string, w: World, d: Desired, o: Oracle)
    requires Starts(root, w, d, o)
    requires var v := Version(d);
             var service := PrimaryService(d, TreeOf(StartMachine(root, w, d, o).world, v));
             SingleLined(SetupFor(root, v, d, service, o.policy)) && ProperName(service)
    ensures var m, v := StartMachine(root, w, d, o), Version(d);
            ComposeOf(m.world, v).Some? && HandedOver(m.world, v, ComposeOf(m.world, v).value)
            && PrimaryService(d, TreeOf(m.world, v)) in BuildFlags(ComposeOf(m.world, v).value)
  {
    var m, v := StartMachine(root, w, d, o), Version(d);
    StartedIs(root, w, d, o);
    PrinterParserAgree(SetupFor(root, v, d, PrimaryService(d, TreeOf(m.world, v)), o.policy));
  }

  /** Every file a start hands over names the restart policy in force and mounts no state read-only that it may write. */
  lemma HandedPolicy(root: string, w: World, d: Desired, o: Oracle)
    requires Starts(root, w, d, o)
    requires var v := Version(d);
             var c := SetupFor(root, v, d, PrimaryService(d, TreeOf(StartMachine(root, w, d, o).world, v)), o.policy);
             Free(c, STALE_DESIRED) && Free(c, STALE_RUNTIME)
    ensures var m, v := StartMachine(root, w, d, o), Version(d);
            && ComposeOf(m.world, v).Some?
            && var text := ComposeOf(m.world, v).value;
               && HandedOver(m.world, v, text) && Contains(text, "restart: " + o.policy.Name())
               && !Contains(text, "/state/desired.json:ro") && !Contains(text, "/state/runtime.json:ro")
  {
    var m, v := StartMachine(root, w, d, o), Version(d);
    StartedIs(root, w, d, o);
    EnsureIsFixpoint(SetupFor(root, v, d, PrimaryService(d, TreeOf(m.world, v)), o.policy), None);
  }

  /** A no-op tick still brings a file with an always-restarting policy up to the policy in force. */
  lemma NoopRefreshesPolicy(root: string, w: World, d: Desired, o: Oracle)
    requires d.desiredState != "stopped" && IsNoop(d, PriorOf(w.runtime)) && StartMachine(root, w, d, o).ok
    requires var text := ComposeOf(w, Version(d));
             text.Some? && (Contains(text.value, "restart: always") || Contains(text.value, "restart: unless-stopped"))
    ensures var text := ComposeOf(Reconcile(root, w, d, o).machine.world, Version(d));
            text.Some? && Contains(text.value, "restart: " + o.policy.Name())
  {
    var v := Version(d);
    var m := Step(Begin(w), WithVersion(w, v), o.fault);
    BegunIs(w, v, o);
    var service := PrimaryService(d, TreeOf(m.world, v));
    EnsuredIs(m, root, v, d, service, o);
    RenderNamesPolicy(SetupFor(root, v, d, service, o.policy));
  }
}
