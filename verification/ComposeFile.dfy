/** The compose file: how `ensure_compose_files` prints it, when it rewrites it, and how it is read back. */
module ComposeFile {
  import opened Text

  /** A restart policy docker knows. */
  datatype Policy = No | OnFailure | Always | UnlessStopped {
    function Name(): string {
      match this
      case No => "no"
      case OnFailure => "on-failure"
      case Always => "always"
      case UnlessStopped => "unless-stopped"
    }
  }

  /** A JSON value found under `host` or `container`: absent, or its text with the outcome of `int()` on it. */
  datatype PortValue = Null | Given(json: string, number: Option<int>)

  datatype Port = Port(host: PortValue, container: PortValue, proto: Option<string>) {
    predicate Skipped() { host.Null? || container.Null? }

    /** `int()` raises on neither end. */
    predicate Printable() { Skipped() || (host.number.Some? && container.number.Some?) }

    /** `str(proto or "tcp")`, lower-cased for ASCII letters. */
    function Protocol(): string {
      if proto.Some? && proto.value != "" then Lower(proto.value) else "tcp"
    }
  }

  function Lower(s: string): (r: string)
    ensures |r| == |s|
    ensures forall k :: 0 <= k < |s| ==> r[k] == if 'A' <= s[k] <= 'Z' then s[k] + 32 as char else s[k]
  {
    if s == "" then "" else [if 'A' <= s[0] <= 'Z' then s[0] + 32 as char else s[0]] + Lower(s[1..])
  }

  /** The value of `HEXE_SUPERVISOR_COMPOSE_RESTART_POLICY`, with anything unknown read as `no`. */
  function RestartPolicy(raw: string): (p: Policy)
    ensures p.Name() == Lower(Strip(raw)) || (p == No && Lower(Strip(raw)) !in {"no", "on-failure", "always", "unless-stopped"})
  {
    var name := Lower(Strip(raw));
    if name == "on-failure" then OnFailure
    else if name == "always" then Always
    else if name == "unless-stopped" then UnlessStopped
    else No
  }

  /** Everything that is printed into the file. */
  datatype Setup = Setup(
    service: string, policy: Policy, extractedDir: string, envFile: string, network: string,
    desiredFile: string, runtimeFile: string, composeFile: string,
    bindLocalhost: bool, ports: seq<Port>, cpu: Option<string>, memory: Option<string>)

  /** No `int()` call in the port loop raises. */
  predicate Printable(ports: seq<Port>) {
    forall p :: p in ports ==> p.Printable()
  }

  function HostBind(bindLocalhost: bool): string {
    if bindLocalhost then "127.0.0.1" else "0.0.0.0"
  }

  function PortHead(bindLocalhost: bool, p: Port): string
    requires p.Printable() && !p.Skipped()
  {
    "      - \"" + HostBind(bindLocalhost) + ":" + IntText(p.host.number.value) + ":" + IntText(p.container.number.value)
  }

  function PortLine(bindLocalhost: bool, p: Port): string
    requires p.Printable() && !p.Skipped()
  {
    PortHead(bindLocalhost, p) + ("/" + p.Protocol()) + "\""
  }

  function PortLines(bindLocalhost: bool, ports: seq<Port>): seq<string>
    requires Printable(ports)
  {
    if ports == [] then []
    else
      assert ports[0].Printable();
      (if ports[0].Skipped() then [] else [PortLine(bindLocalhost, ports[0])]) + PortLines(bindLocalhost, ports[1..])
  }

  const DESIRED_MOUNT := ":/state/desired.json"
  const RUNTIME_MOUNT := ":/state/runtime.json"
  const COMPOSE_MOUNT := ":/state/docker-compose.yml:ro"

  function FixedLines(c: Setup): seq<string> {
    ["    restart: " + c.policy.Name(), "    privileged: false", "    security_opt:", "      - no-new-privileges:true",
     "    env_file:", "      - " + c.envFile, "    networks:", "      - " + c.network, "    volumes:",
     "      - " + c.desiredFile + DESIRED_MOUNT, "      - " + c.runtimeFile + RUNTIME_MOUNT,
     "      - " + c.composeFile + COMPOSE_MOUNT]
  }

  function LimitLines(c: Setup): seq<string> {
    (if c.cpu.Some? then ["    cpus: " + c.cpu.value] else [])
    + (if c.memory.Some? && c.memory.value != "" then ["    mem_limit: " + Strip(c.memory.value)] else [])
  }

  function PortSection(c: Setup): seq<string>
    requires Printable(c.ports)
  {
    var ps := PortLines(c.bindLocalhost, c.ports);
    if ps == [] then [] else ["    ports:"] + ps
  }

  function BodyLines(c: Setup): seq<string>
    requires Printable(c.ports)
  {
    FixedLines(c) + LimitLines(c) + PortSection(c)
  }

  function HeadLines(c: Setup): seq<string> {
    ["", "services:", "  " + c.service + ":", "    build: " + c.extractedDir]
  }

  function TailLines(c: Setup): seq<string> {
    ["", "", "networks:", "  " + c.network + ":", "    name: " + c.network]
  }

  function Lines(c: Setup): seq<string>
    requires Printable(c.ports)
  {
    HeadLines(c) + BodyLines(c) + TailLines(c)
  }

  function Unlines(lines: seq<string>): string {
    if lines == [] then "" else lines[0] + "\n" + Unlines(lines[1..])
  }

  /** The text `ensure_compose_files` would write. */
  function Render(c: Setup): string
    requires Printable(c.ports)
  {
    Unlines(Lines(c))
  }

  const STALE_DESIRED := "/state/desired.json:ro"
  const STALE_RUNTIME := "/state/runtime.json:ro"

  /** An existing file is rewritten for a read-only state mount or another restart policy. */
  predicate MustRewrite(existing: string, policy: Policy) {
    || Contains(existing, STALE_DESIRED) || Contains(existing, STALE_RUNTIME)
    || !Contains(existing, "restart: " + policy.Name())
  }

  /** The compose file after `ensure_compose_files`. */
  function Ensured(existing: Option<string>, c: Setup): string
    requires Printable(c.ports)
  {
    if existing.Some? && !MustRewrite(existing.value, c.policy) then existing.value else Render(c)
  }

  // ---------------------------------------------------------------- reading the file back

  /** Index of the first line break, or the length. */
  function LineEnd(s: string): (i: nat)
    ensures i <= |s|
    ensures forall k :: 0 <= k < i ==> !IsLineBreak(s[k])
    ensures i < |s| ==> IsLineBreak(s[i])
  {
    if s == "" || IsLineBreak(s[0]) then 0 else 1 + LineEnd(s[1..])
  }

  /** `text.splitlines()`. */
  function SplitLines(s: string): seq<string>
    decreases |s|
  {
    if s == "" then []
    else
      var i := LineEnd(s);
      if i == |s| then [s]
      else
        var skip := if s[i] == '\r' && i + 1 < |s| && s[i + 1] == '\n' then 2 else 1;
        [s[..i]] + SplitLines(s[i + skip..])
  }

  datatype Scan = Scan(inServices: bool, stopped: bool, current: Option<string>, hasRuntime: bool, out: map<string, bool>)

  const START := Scan(false, false, None, false, map[])

  predicate IsServiceHeader(line: string) {
    "  " <= line && !("    " <= line) && EndsWith(Strip(line), ":")
  }

  predicate IsRuntimeKey(line: string) {
    var s := Strip(line);
    "image:" <= s || "build:" <= s
  }

  function Flushed(st: Scan): map<string, bool> {
    if st.current.Some? then st.out[st.current.value := st.hasRuntime] else st.out
  }

  /** One turn of the loop over lines. */
  function ScanLine(st: Scan, line: string): Scan {
    if st.stopped then st
    else if !st.inServices then
      (if Strip(line) == "services:" then st.(inServices := true) else st)
    else if line != "" && !(" " <= line) then st.(stopped := true)
    else if IsServiceHeader(line) then
      var name := Strip(line);
      Scan(true, false, Some(name[..|name| - 1]), false, Flushed(st))
    else if st.current.Some? && st.current.value != "" && "    " <= line && IsRuntimeKey(line) then
      st.(hasRuntime := true)
    else st
  }

  function ScanAll(st: Scan, lines: seq<string>): Scan
    decreases |lines|
  {
    if lines == [] then st else ScanAll(ScanLine(st, lines[0]), lines[1..])
  }

  /** Which services of a compose file name an image or a build. */
  function BuildFlags(text: string): map<string, bool> {
    Flushed(ScanAll(START, SplitLines(text)))
  }

  lemma {:induction false} ScanAppend(st: Scan, a: seq<string>, b: seq<string>)
    ensures ScanAll(st, a + b) == ScanAll(ScanAll(st, a), b)
    decreases |a|
  {
    if a == [] {
      assert a + b == b;
    } else {
      assert (a + b)[1..] == a[1..] + b;
      ScanAppend(ScanLine(st, a[0]), a[1..], b);
    }
  }

  /** The loop of `_compose_service_build_flags`. */
  method ComposeServiceBuildFlags(text: string) returns (out: map<string, bool>)
    ensures out == BuildFlags(text)
  {
    var lines := SplitLines(text);
    var inServices := false;
    var currentService: Option<string> := None;
    var currentHasRuntime := false;
    out := map[];
    ghost var stopped := false;
    var i := 0;
    while i < |lines|
      invariant 0 <= i <= |lines|
      invariant !stopped
      invariant ScanAll(START, lines)
             == ScanAll(Scan(inServices, stopped, currentService, currentHasRuntime, out), lines[i..])
    {
      var line := lines[i];
      ghost var before := Scan(inServices, stopped, currentService, currentHasRuntime, out);
      assert lines[i..][0] == line && lines[i..][1..] == lines[i + 1..];
      i := i + 1;
      if !inServices {
        if Strip(line) == "services:" {
          inServices := true;
        }
        continue;
      }
      if line != "" && !(" " <= line) {
        ScanStopped(before.(stopped := true), lines[i..]);
        stopped := true;
        break;
      }
      if IsServiceHeader(line) {
        if currentService.Some? {
          out := out[currentService.value := currentHasRuntime];
        }
        var name := Strip(line);
        currentService := Some(name[..|name| - 1]);
        currentHasRuntime := false;
        continue;
      }
      if currentService.Some? && currentService.value != "" && "    " <= line && IsRuntimeKey(line) {
        currentHasRuntime := true;
      }
    }
    if currentService.Some? {
      out := out[currentService.value := currentHasRuntime];
    }
  }

  lemma {:induction false} ScanStopped(st: Scan, lines: seq<string>)
    requires st.stopped
    ensures ScanAll(st, lines) == st
  {
    if lines != [] { ScanStopped(st, lines[1..]); }
  }

  // ---------------------------------------------------------------- printer and parser agree

  predicate NoBreak(s: string) { forall c :: c in s ==> !IsLineBreak(c) }

  predicate OneLine(o: Option<string>) { o.Some? ==> NoBreak(o.value) }

  predicate PortsOneLine(ports: seq<Port>) { forall p :: p in ports ==> OneLine(p.proto) }

  /** Every printed value fits on one line. */
  predicate SingleLined(c: Setup) {
    && NoBreak(c.service) && NoBreak(c.extractedDir) && NoBreak(c.envFile) && NoBreak(c.network)
    && NoBreak(c.desiredFile) && NoBreak(c.runtimeFile) && NoBreak(c.composeFile)
    && OneLine(c.cpu) && OneLine(c.memory) && PortsOneLine(c.ports)
  }

  predicate ProperName(service: string) {
    service != "" && !IsSpace(service[0]) && !IsSpace(service[|service| - 1])
  }

  predicate AllOneLine(lines: seq<string>) { forall l :: l in lines ==> NoBreak(l) }

  /** A line ends at a single line break, or at a carriage return with its line feed. */
  predicate EndsLine(end: string, rest: string) {
    end == "\r\n" || (|end| == 1 && IsLineBreak(end[0]) && (end == "\r" && rest != "" ==> rest[0] != '\n'))
  }

  lemma {:induction false} LineEndIs(line: string, more: string)
    requires NoBreak(line) && more != "" && IsLineBreak(more[0])
    ensures LineEnd(line + more) == |line|
    decreases |line|
  {
    if line == "" {
      assert line + more == more;
    } else {
      assert line[0] in line && (line + more)[1..] == line[1..] + more;
      LineEndIs(line[1..], more);
    }
  }

  lemma LinesApart(line: string, end: string, rest: string)
    requires NoBreak(line) && EndsLine(end, rest)
    ensures SplitLines(line + (end + rest)) == [line] + SplitLines(rest)
  {
    var s, n := line + (end + rest), |line|;
    LineEndIs(line, end + rest);
    assert s[..n] == line && s[n..] == end + rest && (end + rest)[|end|..] == rest;
    assert s[n + |end|..] == rest && s[n] == end[0];
    assert n + 1 < |s| ==> s[n + 1] == (end + rest)[1];
  }

  lemma FirstLine(lines: seq<string>)
    requires lines != []
    ensures Unlines(lines) == lines[0] + ("\n" + Unlines(lines[1..]))
  {}

  lemma {:induction false} SplitUnlines(lines: seq<string>)
    requires AllOneLine(lines)
    ensures SplitLines(Unlines(lines)) == lines
    decreases |lines|
  {
    if lines != [] {
      var rest := lines[1..];
      assert lines[0] in lines && forall l :: l in rest ==> l in lines;
      SplitUnlines(rest);
      FirstLine(lines);
      LinesApart(lines[0], "\n", Unlines(rest));
      assert lines == [lines[0]] + rest;
    }
  }

  /** A line that neither opens a service nor ends the section. */
  predicate Inner(line: string) { line == "" || "    " <= line }

  lemma {:induction false} ScanInner(st: Scan, lines: seq<string>)
    requires st.inServices && !st.stopped && st.hasRuntime
    requires forall l :: l in lines ==> Inner(l)
    ensures ScanAll(st, lines) == st
  {
    if lines != [] {
      assert lines[0] in lines;
      ScanInner(st, lines[1..]);
    }
  }

  lemma ProtocolOneLine(p: Port)
    requires OneLine(p.proto)
    ensures NoBreak(p.Protocol())
  {
    if p.proto.Some? && p.proto.value != "" {
      assert forall k :: 0 <= k < |p.proto.value| ==> p.proto.value[k] in p.proto.value;
    }
  }

  lemma PortHeadShape(bindLocalhost: bool, p: Port)
    requires p.Printable() && !p.Skipped()
    ensures Inner(PortHead(bindLocalhost, p)) && NoBreak(PortHead(bindLocalhost, p)) && PortHead(bindLocalhost, p) != ""
  {
    var a, b := IntText(p.host.number.value), IntText(p.container.number.value);
    assert NoBreak(a) && NoBreak(b) && NoBreak(HostBind(bindLocalhost));
  }

  lemma PortLineShape(bindLocalhost: bool, p: Port)
    requires p.Printable() && !p.Skipped() && OneLine(p.proto)
    ensures var l := PortLine(bindLocalhost, p); Inner(l) && NoBreak(l)
  {
    var head := PortHead(bindLocalhost, p);
    PortHeadShape(bindLocalhost, p);
    ProtocolOneLine(p);
    assert PortLine(bindLocalhost, p) == head + ("/" + p.Protocol() + "\"");
    assert "    " <= head ==> "    " <= head + ("/" + p.Protocol() + "\"");
  }

  lemma {:induction false} PortLinesShape(bindLocalhost: bool, ports: seq<Port>)
    requires Printable(ports) && PortsOneLine(ports)
    ensures forall l :: l in PortLines(bindLocalhost, ports) ==> Inner(l) && NoBreak(l)
  {
    if ports != [] {
      assert ports[0] in ports;
      if !ports[0].Skipped() { PortLineShape(bindLocalhost, ports[0]); }
      PortLinesShape(bindLocalhost, ports[1..]);
    }
  }

  /** A line of the printed body. */
  predicate Fine(line: string) { Inner(line) && NoBreak(line) }

  lemma FineLine(pre: string, value: string, post: string)
    requires Fine(pre) && pre != "" && NoBreak(value) && NoBreak(post)
    ensures Fine(pre + value + post)
  {}

  lemma FineFlags()
    ensures Fine("    privileged: false") && Fine("    security_opt:") && Fine("    env_file:")
    ensures Fine("    networks:") && Fine("    volumes:") && Fine("    ports:")
  {}

  lemma FineKeys()
    ensures Fine("    restart: ") && Fine("      - ") && Fine("    cpus: ") && Fine("    mem_limit: ")
    ensures Fine("      - no-new-privileges:true")
  {
    FinePrivilege();
  }

  lemma FinePrivilege()
    ensures Fine("      - no-new-privileges:true")
  {}

  lemma FineMounts(p: Policy)
    ensures NoBreak(DESIRED_MOUNT) && NoBreak(RUNTIME_MOUNT) && NoBreak(COMPOSE_MOUNT) && NoBreak(p.Name())
  {}

  lemma FixedShape(c: Setup)
    requires SingleLined(c)
    ensures forall l :: l in FixedLines(c) ==> Fine(l)
  {
    FineFlags();
    FineKeys();
    FineMounts(c.policy);
    FineLine("    restart: ", c.policy.Name(), "");
    FineLine("      - ", c.envFile, "");
    FineLine("      - ", c.network, "");
    FineLine("      - ", c.desiredFile, DESIRED_MOUNT);
    FineLine("      - ", c.runtimeFile, RUNTIME_MOUNT);
    FineLine("      - ", c.composeFile, COMPOSE_MOUNT);
    assert "    restart: " + c.policy.Name() + "" == "    restart: " + c.policy.Name();
    assert "      - " + c.envFile + "" == "      - " + c.envFile;
    assert "      - " + c.network + "" == "      - " + c.network;
  }

  lemma LimitShape(c: Setup)
    requires SingleLined(c)
    ensures forall l :: l in LimitLines(c) ==> Fine(l)
  {
    FineKeys();
    if c.cpu.Some? {
      FineLine("    cpus: ", c.cpu.value, "");
      assert "    cpus: " + c.cpu.value + "" == "    cpus: " + c.cpu.value;
    }
    if c.memory.Some? {
      StripClean(c.memory.value);
      FineLine("    mem_limit: ", Strip(c.memory.value), "");
      assert "    mem_limit: " + Strip(c.memory.value) + "" == "    mem_limit: " + Strip(c.memory.value);
    }
  }

  lemma BodyShape(c: Setup)
    requires Printable(c.ports) && SingleLined(c)
    ensures forall l :: l in BodyLines(c) ==> Fine(l)
  {
    FixedShape(c);
    LimitShape(c);
    PortLinesShape(c.bindLocalhost, c.ports);
    FineFlags();
    forall l | l in BodyLines(c) ensures Fine(l) {
      assert l in FixedLines(c) || l in LimitLines(c) || l in PortSection(c);
    }
  }

  lemma EdgeShape(c: Setup)
    requires SingleLined(c)
    ensures AllOneLine(HeadLines(c)) && AllOneLine(TailLines(c))
  {
    assert NoBreak("services:") && NoBreak("    build: ") && NoBreak("networks:") && NoBreak("    name: ");
  }

  lemma TrimSpace(s: string)
    ensures TrimLeft(" " + s, IsSpace) == TrimLeft(s, IsSpace)
  {
    assert (" " + s)[1..] == s;
  }

  lemma HeaderName(service: string)
    requires ProperName(service)
    ensures Strip("  " + service + ":") == service + ":"
  {
    var named := service + ":";
    TrimSpace(named);
    TrimSpace(" " + named);
    assert "  " + service + ":" == " " + (" " + named);
    assert TrimLeft(named, IsSpace) == named;
  }

  /** Reading back the printed head leaves the service open, with its build line seen. */
  lemma ScanHead(c: Setup)
    requires ProperName(c.service)
    ensures ScanAll(START, HeadLines(c)) == Scan(true, false, Some(c.service), true, map[])
  {
    var s1 := ScanLine(START, "");
    StripFixed("services:");
    var s2 := ScanLine(s1, "services:");
    HeaderName(c.service);
    var header := "  " + c.service + ":";
    var s3 := ScanLine(s2, header);
    assert !("    " <= header) by { assert header[2] == c.service[0]; }
    assert s3 == Scan(true, false, Some(c.service), false, map[]);
    var line := "    build: " + c.extractedDir;
    BuildKey(c.extractedDir);
    assert ScanLine(s3, line) == s3.(hasRuntime := true);
    assert HeadLines(c)[1..][1..][1..][1..] == [];
    assert ScanAll(START, HeadLines(c)) == ScanAll(s1, HeadLines(c)[1..]) == ScanAll(s2, HeadLines(c)[1..][1..])
        == ScanAll(s3, HeadLines(c)[1..][1..][1..]) == ScanAll(ScanLine(s3, line), []);
  }

  lemma TrimFour(s: string)
    ensures TrimLeft("    " + s, IsSpace) == TrimLeft(s, IsSpace)
  {
    TrimSpace(s);
    TrimSpace(" " + s);
    TrimSpace(" " + (" " + s));
    TrimSpace(" " + (" " + (" " + s)));
    assert "    " + s == " " + (" " + (" " + (" " + s)));
  }

  lemma KeyKept(key: string, rest: string)
    requires ProperName(key)
    ensures key <= Strip("    " + (key + rest))
  {
    var left := key + rest;
    TrimFour(left);
    assert left[0] == key[0];
    assert TrimLeft(left, IsSpace) == left;
    TrimRightClean(left, IsSpace);
    var r := TrimRight(left, IsSpace);
    assert left[|key| - 1] == key[|key| - 1];
    assert r[..|key|] == left[..|key|] == key;
  }

  lemma BuildKey(dir: string)
    ensures IsRuntimeKey("    build: " + dir)
  {
    KeyKept("build:", " " + dir);
    assert "    build: " + dir == "    " + ("build:" + (" " + dir));
  }

  lemma ScanTail(c: Setup, st: Scan)
    requires st.inServices && !st.stopped && st.hasRuntime
    ensures ScanAll(st, TailLines(c)) == st.(stopped := true)
  {
    var tail := TailLines(c);
    assert tail == ["", ""] + tail[2..];
    ScanAppend(st, ["", ""], tail[2..]);
    ScanInner(st, ["", ""]);
    assert tail[2..][0] == "networks:";
    ScanStopped(st.(stopped := true), tail[2..][1..]);
  }

  /** Whatever the values are, reading the printed file back finds its one service, with a build. */
  lemma PrinterParserAgree(c: Setup)
    requires Printable(c.ports) && SingleLined(c) && ProperName(c.service)
    ensures BuildFlags(Render(c)) == map[c.service := true]
  {
    BodyShape(c);
    EdgeShape(c);
    SplitUnlines(Lines(c));
    var st := Scan(true, false, Some(c.service), true, map[]);
    ScanAppend(START, HeadLines(c) + BodyLines(c), TailLines(c));
    ScanAppend(START, HeadLines(c), BodyLines(c));
    ScanHead(c);
    ScanInner(st, BodyLines(c));
    ScanTail(c, st);
  }

  // ---------------------------------------------------------------- services that have something to run

  lemma ScanService(name: string)
    requires ProperName(name)
    ensures ScanAll(START, ["services:", "  " + name + ":"]) == Scan(true, false, Some(name), false, map[])
  {
    var header := "  " + name + ":";
    var lines := ["services:", header];
    StripFixed("services:");
    HeaderName(name);
    assert !("    " <= header) by { assert header[2] == name[0]; }
    var s1 := ScanLine(START, "services:");
    assert ScanLine(s1, header) == Scan(true, false, Some(name), false, map[]);
    assert lines[1..] == [header] && lines[1..][1..] == [];
    assert ScanAll(s1, lines[1..]) == ScanAll(ScanLine(s1, header), []);
  }

  /** A service of a group file has what it runs exactly when its line is an image or a build. */
  lemma KeyDecides(name: string, line: string)
    requires ProperName(name) && NoBreak(name) && NoBreak(line) && "    " <= line
    ensures BuildFlags(Unlines(["services:", "  " + name + ":"] + [line]))
         == map[name := "image:" <= Strip(line) || "build:" <= Strip(line)]
  {
    var front := ["services:", "  " + name + ":"];
    var st := Scan(true, false, Some(name), false, map[]);
    assert NoBreak("services:") && NoBreak("  " + name + ":");
    SplitUnlines(front + [line]);
    ScanService(name);
    ScanAppend(START, front, [line]);
    var last := [line];
    assert last[1..] == [] && ScanAll(st, last) == ScanAll(ScanLine(st, line), []);
  }
}
