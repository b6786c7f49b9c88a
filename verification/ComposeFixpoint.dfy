/** A compose file just printed is never rewritten by the next call with the same arguments. */
module ComposeFixpoint {
  import opened Text
  import opened ComposeFile

  /** The two texts whose presence makes an existing file stale, as far as this module uses their shape. */
  predicate StaleText(s: string) {
    && |s| > 4 && s[0] == '/' && s[|s| - 3] == ':' && s[|s| - 2] == 'r'
    && (forall j :: 0 <= j < |s| && s[j] == ':' ==> j == |s| - 3)
    && '"' !in s && '\n' !in s
  }

  lemma StaleTexts()
    ensures StaleText(STALE_DESIRED) && StaleText(STALE_RUNTIME)
  {}

  lemma {:induction false} InOneLine(lines: seq<string>, i: nat, sub: string, j: nat)
    requires i < |lines| && StandsAt(lines[i], sub, j)
    ensures Contains(Unlines(lines), sub)
  {
    var s := Unlines(lines);
    if i == 0 {
      assert s[j..j + |sub|] == lines[0][j..j + |sub|];
      assert StandsAt(s, sub, j);
    } else {
      InOneLine(lines[1..], i - 1, sub, j);
      var rest := Unlines(lines[1..]);
      var k :| 0 <= k <= |rest| - |sub| && StandsAt(rest, sub, k);
      var k' := |lines[0]| + 1 + k;
      assert s[k'..k' + |sub|] == rest[k..k + |sub|];
      assert StandsAt(s, sub, k');
    }
  }

  /** A text without a newline that is in no line is not in the whole. */
  lemma {:induction false} InNoLine(lines: seq<string>, sub: string)
    requires '\n' !in sub && sub != ""
    requires forall l :: l in lines ==> !Contains(l, sub)
    ensures !Contains(Unlines(lines), sub)
  {
    if lines != [] {
      var s, n, rest := Unlines(lines), |lines[0]|, Unlines(lines[1..]);
      InNoLine(lines[1..], sub);
      assert lines[0] in lines;
      forall k | 0 <= k <= |s| - |sub| ensures !StandsAt(s, sub, k) {
        if k + |sub| <= n {
          assert s[k..k + |sub|] == lines[0][k..k + |sub|];
          assert !StandsAt(lines[0], sub, k);
        } else if k > n {
          assert s[k..k + |sub|] == rest[k - n - 1..k - n - 1 + |sub|];
          assert !StandsAt(rest, sub, k - n - 1);
        } else {
          assert s[k..k + |sub|][n - k] == s[n] == '\n';
        }
      }
    }
  }

  /** What may follow a value on its line without completing a stale text. */
  predicate SafeEnd(post: string, sub: string) {
    && !Contains(post, sub)
    && (post == "" || post == ":" || post[0] == '"' || (|post| > 1 && post[0] == ':' && post[1] == '/'))
  }

  lemma MiddleSlice(pre: string, value: string, post: string, k: nat, n: nat)
    requires |pre| <= k && k + n <= |pre| + |value|
    ensures (pre + value + post)[k..k + n] == value[k - |pre|..k - |pre| + n]
  {
    var s := pre + value + post;
    var left, right := s[k..k + n], value[k - |pre|..k - |pre| + n];
    forall i | 0 <= i < n ensures left[i] == right[i] { assert left[i] == s[k + i] == value[k + i - |pre|]; }
  }

  lemma EndSlice(front: string, post: string, k: nat, n: nat)
    requires |front| <= k && k + n <= |front| + |post|
    ensures (front + post)[k..k + n] == post[k - |front|..k - |front| + n]
  {
    var s := front + post;
    var left, right := s[k..k + n], post[k - |front|..k - |front| + n];
    forall i | 0 <= i < n ensures left[i] == right[i] { assert left[i] == s[k + i] == post[k + i - |front|]; }
  }

  /** A line made of fixed text, a value free of the stale text, and a safe end is free of it too. */
  lemma LineFree(pre: string, value: string, post: string, sub: string)
    requires StaleText(sub) && '/' !in pre && !Contains(value, sub) && SafeEnd(post, sub)
    ensures !Contains(pre + value + post, sub)
  {
    var s := pre + value + post;
    var a, b := |pre|, |pre| + |value|;
    forall k | 0 <= k <= |s| - |sub| ensures !StandsAt(s, sub, k) {
      if k < a {
        assert s[k..k + |sub|][0] == pre[k];
      } else if k + |sub| <= b {
        MiddleSlice(pre, value, post, k, |sub|);
        assert !StandsAt(value, sub, k - a);
      } else if b <= k {
        EndSlice(pre + value, post, k, |sub|);
        assert !StandsAt(post, sub, k - b);
      } else {
        var window, j := s[k..k + |sub|], b - k;
        assert window[j] == s[b] == post[0];
        assert j + 1 < |sub| && |post| > 1 ==> window[j + 1] == s[b + 1] == post[1];
      }
    }
  }

  lemma PlainFree(line: string, sub: string)
    requires StaleText(sub) && '/' !in line
    ensures !Contains(line, sub)
  {
    forall k | 0 <= k <= |line| - |sub| ensures !StandsAt(line, sub, k) {
      assert line[k..k + |sub|][0] == line[k];
    }
  }

  predicate FreeValue(o: Option<string>, sub: string) { o.Some? ==> !Contains(o.value, sub) }

  /** No printed value carries the stale text; a protocol is printed behind a slash. */
  predicate Free(c: Setup, sub: string) {
    && !Contains(c.service, sub) && !Contains(c.extractedDir, sub) && !Contains(c.envFile, sub)
    && !Contains(c.network, sub) && !Contains(c.desiredFile, sub) && !Contains(c.runtimeFile, sub)
    && !Contains(c.composeFile, sub) && FreeValue(c.cpu, sub)
    && (c.memory.Some? ==> !Contains(Strip(c.memory.value), sub))
    && (forall p :: p in c.ports ==> !Contains("/" + p.Protocol(), sub))
  }

  lemma MountsSafe(sub: string)
    requires sub == STALE_DESIRED || sub == STALE_RUNTIME
    ensures SafeEnd(DESIRED_MOUNT, sub) && SafeEnd(RUNTIME_MOUNT, sub) && SafeEnd(COMPOSE_MOUNT, sub)
  {
    forall k | 0 <= k <= |COMPOSE_MOUNT| - |sub| ensures !StandsAt(COMPOSE_MOUNT, sub, k) {
      var window := COMPOSE_MOUNT[k..k + |sub|];
      assert window[0] == COMPOSE_MOUNT[k] && window[1] == COMPOSE_MOUNT[k + 1] && window[8] == COMPOSE_MOUNT[k + 8];
    }
  }

  lemma HeadHasNoSlash(bindLocalhost: bool, p: Port)
    requires p.Printable() && !p.Skipped()
    ensures '/' !in PortHead(bindLocalhost, p)
  {
    var a, b := IntText(p.host.number.value), IntText(p.container.number.value);
    assert '/' !in a && '/' !in b && '/' !in HostBind(bindLocalhost) && '/' !in "      - \"";
  }

  lemma PortFree(bindLocalhost: bool, p: Port, sub: string)
    requires p.Printable() && !p.Skipped() && StaleText(sub) && !Contains("/" + p.Protocol(), sub)
    ensures !Contains(PortLine(bindLocalhost, p), sub)
  {
    var head := PortHead(bindLocalhost, p);
    HeadHasNoSlash(bindLocalhost, p);
    PlainFree("\"", sub);
    LineFree(head, "/" + p.Protocol(), "\"", sub);
  }

  lemma {:induction false} PortsFree(bindLocalhost: bool, ports: seq<Port>, sub: string)
    requires Printable(ports) && StaleText(sub)
    requires forall p :: p in ports ==> !Contains("/" + p.Protocol(), sub)
    ensures forall l :: l in PortLines(bindLocalhost, ports) ==> !Contains(l, sub)
  {
    if ports != [] {
      var p := ports[0];
      assert p in ports;
      if !p.Skipped() { PortFree(bindLocalhost, p, sub); }
      PortsFree(bindLocalhost, ports[1..], sub);
    }
  }

  lemma ValueLineFree(pre: string, value: string, sub: string)
    requires StaleText(sub) && '/' !in pre && !Contains(value, sub)
    ensures !Contains(pre + value, sub)
  {
    assert !Contains("", sub);
    LineFree(pre, value, "", sub);
    assert pre + value + "" == pre + value;
  }

  lemma NamedLineFree(value: string, sub: string)
    requires StaleText(sub) && !Contains(value, sub)
    ensures !Contains("  " + value + ":", sub)
  {
    PlainFree(":", sub);
    LineFree("  ", value, ":", sub);
  }

  lemma PolicyFree(p: Policy, sub: string)
    requires StaleText(sub)
    ensures !Contains("    restart: " + p.Name(), sub)
  {
    PlainFree("    restart: " + p.Name(), sub);
  }

  lemma FlagsFree(sub: string)
    requires StaleText(sub)
    ensures !Contains("    privileged: false", sub) && !Contains("    security_opt:", sub)
    ensures !Contains("      - no-new-privileges:true", sub)
  {
    PlainFree("    privileged: false", sub);
    PlainFree("    security_opt:", sub);
    PlainFree("      - no-new-privileges:true", sub);
  }

  lemma SectionsFree(sub: string)
    requires StaleText(sub)
    ensures !Contains("    env_file:", sub) && !Contains("    networks:", sub) && !Contains("    volumes:", sub)
  {
    PlainFree("    env_file:", sub);
    PlainFree("    networks:", sub);
    PlainFree("    volumes:", sub);
  }

  lemma FixedFree(c: Setup, sub: string)
    requires sub == STALE_DESIRED || sub == STALE_RUNTIME
    requires Free(c, sub)
    ensures forall l :: l in FixedLines(c) ==> !Contains(l, sub)
  {
    StaleTexts();
    MountsSafe(sub);
    PolicyFree(c.policy, sub);
    FlagsFree(sub);
    SectionsFree(sub);
    ValueLineFree("      - ", c.envFile, sub);
    ValueLineFree("      - ", c.network, sub);
    LineFree("      - ", c.desiredFile, DESIRED_MOUNT, sub);
    LineFree("      - ", c.runtimeFile, RUNTIME_MOUNT, sub);
    LineFree("      - ", c.composeFile, COMPOSE_MOUNT, sub);
  }

  lemma EdgesFree(c: Setup, sub: string)
    requires StaleText(sub) && Free(c, sub)
    ensures forall l :: l in HeadLines(c) + TailLines(c) ==> !Contains(l, sub)
  {
    PlainFree("", sub);
    PlainFree("services:", sub);
    PlainFree("networks:", sub);
    NamedLineFree(c.service, sub);
    NamedLineFree(c.network, sub);
    ValueLineFree("    build: ", c.extractedDir, sub);
    ValueLineFree("    name: ", c.network, sub);
  }

  lemma LimitsFree(c: Setup, sub: string)
    requires StaleText(sub) && Free(c, sub)
    ensures forall l :: l in LimitLines(c) ==> !Contains(l, sub)
  {
    if c.cpu.Some? { ValueLineFree("    cpus: ", c.cpu.value, sub); }
    if c.memory.Some? { ValueLineFree("    mem_limit: ", Strip(c.memory.value), sub); }
  }

  /** Values free of a stale text give a file free of it. */
  lemma RenderFree(c: Setup, sub: string)
    requires sub == STALE_DESIRED || sub == STALE_RUNTIME
    requires Printable(c.ports) && Free(c, sub)
    ensures !Contains(Render(c), sub)
  {
    StaleTexts();
    FixedFree(c, sub);
    EdgesFree(c, sub);
    LimitsFree(c, sub);
    PortsFree(c.bindLocalhost, c.ports, sub);
    PlainFree("    ports:", sub);
    forall l | l in Lines(c) ensures !Contains(l, sub) {
      assert l in HeadLines(c) + TailLines(c) || l in FixedLines(c) || l in LimitLines(c) || l in PortSection(c);
    }
    InNoLine(Lines(c), sub);
  }

  /** The printed file always names its own restart policy. */
  lemma RenderNamesPolicy(c: Setup)
    requires Printable(c.ports)
    ensures Contains(Render(c), "restart: " + c.policy.Name())
  {
    var sub := "restart: " + c.policy.Name();
    PolicyLine(c);
    InOneLine(Lines(c), 4, sub, 4);
  }

  lemma Indented(sub: string)
    ensures StandsAt("    " + sub, sub, 4)
  {
    assert ("    " + sub)[4..4 + |sub|] == sub;
  }

  lemma PolicyLine(c: Setup)
    requires Printable(c.ports)
    ensures |Lines(c)| > 4 && StandsAt(Lines(c)[4], "restart: " + c.policy.Name(), 4)
  {
    Indented("restart: " + c.policy.Name());
    assert "    restart: " + c.policy.Name() == "    " + ("restart: " + c.policy.Name());
    FirstFixed(c);
    assert Lines(c)[4] == BodyLines(c)[0];
  }

  lemma FirstFixed(c: Setup)
    requires Printable(c.ports)
    ensures |BodyLines(c)| > 0 && BodyLines(c)[0] == "    restart: " + c.policy.Name()
  {
    assert BodyLines(c)[0] == FixedLines(c)[0];
  }

  /** A second `ensure_compose_files` with the same arguments leaves the file it wrote alone. */
  lemma EnsureIsFixpoint(c: Setup, existing: Option<string>)
    requires Printable(c.ports) && Free(c, STALE_DESIRED) && Free(c, STALE_RUNTIME)
    ensures !MustRewrite(Render(c), c.policy)
    ensures Ensured(Some(Ensured(existing, c)), c) == Ensured(existing, c)
  {
    RenderFree(c, STALE_DESIRED);
    RenderFree(c, STALE_RUNTIME);
    RenderNamesPolicy(c);
  }
}
