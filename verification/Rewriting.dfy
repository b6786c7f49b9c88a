/** Prefixing of root-relative URLs in proxied bodies: two regular-expression passes. */
module Rewriting {
  import opened Text
  import opened Utf8
  import opened ComposeFile

  predicate IsQuote(c: char) { c == '"' || c == '\'' }

  /**
   * The arguments of one rewrite, with the attribute keys of the first expression and, for `\b`, which characters
   * count as word characters.
   */
  datatype Rule = Rule(proxyPrefix: string, ignore: seq<string>, keys: seq<string>, isWord: char -> bool) {
    function Prefix(): string { TrimRight(proxyPrefix, IsSlash) }
  }

  predicate Ignores(ignore: string, path: string) {
    var n := TrimRight(ignore, IsSlash);
    n != "" && (path == n || n + "/" <= path)
  }

  predicate ShouldRewrite(r: Rule, path: string) {
    "/" <= path && path != "/" && forall p :: p in r.ignore ==> !Ignores(p, path)
  }

  function Prefixed(r: Rule, path: string): string {
    if ShouldRewrite(r, path) then r.Prefix() + path else path
  }

  /** Length of the run of non-quote characters at the front: what `[^"']*` takes. */
  function RunLen(t: string): (n: nat)
    ensures n <= |t|
    ensures forall k :: 0 <= k < n ==> !IsQuote(t[k])
    ensures n < |t| ==> IsQuote(t[n])
  {
    if t == "" || IsQuote(t[0]) then 0 else 1 + RunLen(t[1..])
  }

  // ---------------------------------------------------------------- the attribute pass

  /** Length of the first key that stands at the front, or 0. */
  function KeyLen(keys: seq<string>, t: string): (n: nat)
    ensures n <= |t|
  {
    if keys == [] then 0 else if keys[0] <= t then |keys[0]| else KeyLen(keys[1..], t)
  }

  /** The attribute expression matches here; `prev` is the character before, for the word boundary. */
  predicate AttrAt(r: Rule, prev: Option<char>, t: string) {
    var k := KeyLen(r.keys, t);
    && k > 0 && (prev.None? || !r.isWord(prev.value))
    && k + 1 < |t| && IsQuote(t[k]) && t[k + 1] == '/'
  }

  /** A match taken apart: the key, its quote, the path, and what follows. */
  function AttrKey(r: Rule, t: string): string { t[..KeyLen(r.keys, t)] }

  function FromQuote(r: Rule, t: string): string { t[KeyLen(r.keys, t)..] }

  function RunOf(t: string): string { t[..RunLen(t)] }

  function AfterRun(t: string): string { t[RunLen(t)..] }

  lemma RunSplit(t: string)
    ensures t == RunOf(t) + AfterRun(t)
    ensures forall c :: c in RunOf(t) ==> !IsQuote(c)
    ensures AfterRun(t) != "" ==> IsQuote(AfterRun(t)[0])
  {}

  /** `HTML_ROOT_URL_ATTR_RE.sub`: leftmost matches, each scan going on behind the last match. */
  function AttrPass(r: Rule, prev: Option<char>, t: string): string
    decreases |t|
  {
    if t == "" then ""
    else if AttrAt(r, prev, t) then
      var q := FromQuote(r, t);
      var path := RunOf(q[1..]);
      AttrKey(r, t) + ([q[0]] + (Prefixed(r, path) + AttrPass(r, Some(path[|path| - 1]), AfterRun(q[1..]))))
    else [t[0]] + AttrPass(r, Some(t[0]), t[1..])
  }

  // ---------------------------------------------------------------- the quoted-string pass

  /** A quote, a slash, a run without quotes, and the same quote again. */
  predicate QuotedAt(t: string) {
    && |t| > 1 && IsQuote(t[0]) && t[1] == '/'
    && var rest := AfterRun(t[1..]); rest != "" && rest[0] == t[0]
  }

  /** `ROOT_URL_STRING_RE.sub`. */
  function StringPass(r: Rule, t: string): string
    decreases |t|
  {
    if t == "" then ""
    else if QuotedAt(t) then
      [t[0]] + (Prefixed(r, RunOf(t[1..])) + ([t[0]] + StringPass(r, AfterRun(t[1..])[1..])))
    else [t[0]] + StringPass(r, t[1..])
  }

  function RewriteText(r: Rule, html: bool, t: string): string {
    StringPass(r, if html then AttrPass(r, None, t) else t)
  }

  /** `rewrite_root_relative_urls`. */
  function Rewrite(r: Rule, content: seq<Byte>, contentType: Option<string>): seq<Byte> {
    var kind := Lower(if contentType.Some? then contentType.value else "");
    var html := Contains(kind, "text/html");
    if !html && !Contains(kind, "javascript") && !Contains(kind, "text/css") then content
    else
      match Decode(content)
      case None => content
      case Some(t) => Encode(RewriteText(r, html, t))
  }

  // ---------------------------------------------------------------- when the prefix marks its own output

  /** Behind the prefix a path is ignored: the prefix is rooted, has no quote, and falls under an ignored prefix. */
  predicate SelfIgnoring(r: Rule) {
    && r.Prefix() != "" && r.Prefix()[0] == '/'
    && (forall c :: c in r.Prefix() ==> !IsQuote(c))
    && (exists p :: p in r.ignore && Ignores(p, r.Prefix()))
    && PlainKeys(r.keys)
  }

  /** The keys contain no quote and no slash. */
  predicate PlainKeys(keys: seq<string>) {
    forall k, c :: k in keys && c in k ==> !IsQuote(c) && c != '/'
  }

  lemma PrefixedOnce(r: Rule, path: string)
    requires SelfIgnoring(r) && "/" <= path
    ensures !ShouldRewrite(r, Prefixed(r, path))
    ensures "/" <= Prefixed(r, path) && Prefixed(r, path)[|Prefixed(r, path)| - 1] == path[|path| - 1]
    ensures (forall c :: c in path ==> !IsQuote(c)) ==> forall c :: c in Prefixed(r, path) ==> !IsQuote(c)
  {
    if ShouldRewrite(r, path) {
      var p :| p in r.ignore && Ignores(p, r.Prefix());
      var n := TrimRight(p, IsSlash);
      var whole := r.Prefix() + path;
      if r.Prefix() == n {
        assert whole[|n|] == '/';
        assert whole[..|n| + 1] == n + "/";
      } else {
        assert whole[..|n| + 1] == r.Prefix()[..|n| + 1] == n + "/";
      }
      assert Ignores(p, whole);
    }
  }

  // ---------------------------------------------------------------- texts that differ by inserted prefixes

  /** `u` is `t` with the prefix put in behind some quotes, at most once each, before paths that are to be rewritten. */
  ghost predicate Inserted(r: Rule, t: string, u: string)
    decreases |t|
  {
    if t == "" then u == ""
    else
      && u != "" && u[0] == t[0]
      && (Inserted(r, t[1..], u[1..]) || InsertedHere(r, t, u))
  }

  ghost predicate InsertedHere(r: Rule, t: string, u: string)
    requires t != "" && u != ""
    decreases |t|, 0
  {
    && IsQuote(t[0]) && |t| > 1 && t[1] == '/'
    && ShouldRewrite(r, RunOf(t[1..]))
    && r.Prefix() <= u[1..]
    && Inserted(r, t[1..], u[1..][|r.Prefix()|..])
  }

  lemma {:induction false} SameInserted(r: Rule, t: string)
    ensures Inserted(r, t, t)
  {
    if t != "" { SameInserted(r, t[1..]); }
  }

  /** Up to and including the first quote nothing is inserted. */
  lemma {:induction false} AgreeRun(r: Rule, t: string, u: string)
    requires Inserted(r, t, u)
    ensures RunOf(u) == RunOf(t) && RunLen(u) == RunLen(t)
    ensures AfterRun(t) == "" <==> AfterRun(u) == ""
    ensures AfterRun(t) != "" ==> AfterRun(u)[0] == AfterRun(t)[0]
    ensures Inserted(r, AfterRun(t), AfterRun(u))
  {
    if t != "" && !IsQuote(t[0]) {
      assert Inserted(r, t[1..], u[1..]);
      AgreeRun(r, t[1..], u[1..]);
      RunCons(t);
      RunCons(u);
    } else {
      RunStops(t);
      RunStops(u);
    }
  }

  lemma RunCons(t: string)
    requires t != "" && !IsQuote(t[0])
    ensures RunLen(t) == 1 + RunLen(t[1..])
    ensures RunOf(t) == [t[0]] + RunOf(t[1..]) && AfterRun(t) == AfterRun(t[1..])
  {}

  lemma RunStops(t: string)
    requires t == "" || IsQuote(t[0])
    ensures RunLen(t) == 0 && RunOf(t) == "" && AfterRun(t) == t
  {}

  /** A common run in front changes nothing about what is inserted behind it. */
  lemma {:induction false} CommonFront(r: Rule, a: string, t: string, u: string)
    requires Inserted(r, t, u)
    ensures Inserted(r, a + t, a + u)
  {
    if a == "" {
      assert a + t == t && a + u == u;
    } else {
      CommonFront(r, a[1..], t, u);
      assert (a + t)[1..] == a[1..] + t && (a + u)[1..] == a[1..] + u;
    }
  }

  lemma {:induction false} RunIs(run: string, t: string)
    requires forall c :: c in run ==> !IsQuote(c)
    requires t != "" ==> IsQuote(t[0])
    ensures RunLen(run + t) == |run| && RunOf(run + t) == run && AfterRun(run + t) == t
  {
    if run == "" {
      assert run + t == t;
    } else {
      assert (run + t)[1..] == run[1..] + t;
      assert run[0] in run;
      RunIs(run[1..], t);
    }
  }

  /** A whole path behind a quote, prefixed when it should be. */
  lemma PathInserted(r: Rule, q: char, path: string, t: string, u: string)
    requires IsQuote(q) && "/" <= path && (forall c :: c in path ==> !IsQuote(c))
    requires Inserted(r, t, u) && (t != "" ==> IsQuote(t[0]))
    ensures Inserted(r, [q] + (path + t), [q] + (Prefixed(r, path) + u))
  {
    CommonFront(r, path, t, u);
    RunIs(path, t);
    HereOrNot(r, q, path + t, path + u, path);
    assert Prefixed(r, path) + u == if ShouldRewrite(r, path) then r.Prefix() + (path + u) else path + u;
  }

  lemma HereOrNot(r: Rule, q: char, t: string, u: string, path: string)
    requires IsQuote(q) && Inserted(r, t, u) && RunOf(t) == path && "/" <= path
    ensures Inserted(r, [q] + t, [q] + u)
    ensures ShouldRewrite(r, path) ==> Inserted(r, [q] + t, [q] + (r.Prefix() + u))
  {
    assert ([q] + t)[1..] == t && ([q] + u)[1..] == u;
    var out := [q] + (r.Prefix() + u);
    assert out[1..] == r.Prefix() + u && out[1..][|r.Prefix()|..] == u;
    assert ShouldRewrite(r, path) ==> InsertedHere(r, [q] + t, out);
  }

  lemma AttrSplit(r: Rule, prev: Option<char>, t: string)
    requires AttrAt(r, prev, t)
    ensures var q := FromQuote(r, t);
            && t == AttrKey(r, t) + q && |q| > 1 && IsQuote(q[0]) && "/" <= RunOf(q[1..])
            && q == [q[0]] + (RunOf(q[1..]) + AfterRun(q[1..]))
            && |AfterRun(q[1..])| < |t|
  {
    var q := FromQuote(r, t);
    RunSplit(q[1..]);
    assert q[1] == t[KeyLen(r.keys, t) + 1];
  }

  lemma {:induction false} AttrPassInserts(r: Rule, prev: Option<char>, t: string)
    ensures Inserted(r, t, AttrPass(r, prev, t))
    decreases |t|
  {
    if t == "" {
    } else if AttrAt(r, prev, t) {
      AttrSplit(r, prev, t);
      var q := FromQuote(r, t);
      var path, rest := RunOf(q[1..]), AfterRun(q[1..]);
      RunSplit(q[1..]);
      var u := AttrPass(r, Some(path[|path| - 1]), rest);
      AttrPassInserts(r, Some(path[|path| - 1]), rest);
      PathInserted(r, q[0], path, rest, u);
      CommonFront(r, AttrKey(r, t), q, [q[0]] + (Prefixed(r, path) + u));
    } else {
      AttrPassInserts(r, Some(t[0]), t[1..]);
    }
  }

  lemma QuotedSplit(t: string)
    requires QuotedAt(t)
    ensures var rest := AfterRun(t[1..]);
            && t == [t[0]] + (RunOf(t[1..]) + ([t[0]] + rest[1..])) && "/" <= RunOf(t[1..]) && IsQuote(t[0])
            && |rest[1..]| < |t|
  {
    RunSplit(t[1..]);
    var rest := AfterRun(t[1..]);
    assert rest == [t[0]] + rest[1..];
  }

  lemma {:induction false} StringPassInserts(r: Rule, t: string)
    ensures Inserted(r, t, StringPass(r, t))
    decreases |t|
  {
    if t == "" {
    } else if QuotedAt(t) {
      QuotedSplit(t);
      RunSplit(t[1..]);
      var path, rest := RunOf(t[1..]), AfterRun(t[1..])[1..];
      var u := StringPass(r, rest);
      StringPassInserts(r, rest);
      CommonFront(r, [t[0]], rest, u);
      PathInserted(r, t[0], path, [t[0]] + rest, [t[0]] + u);
    } else {
      StringPassInserts(r, t[1..]);
    }
  }

  // ---------------------------------------------------------------- stability of the attribute pass

  /** No attribute match is left whose path is to be rewritten. */
  predicate AttrStable(r: Rule, prev: Option<char>, t: string)
    decreases |t|
  {
    if t == "" then true
    else if AttrAt(r, prev, t) then
      var q := FromQuote(r, t);
      var path := RunOf(q[1..]);
      !ShouldRewrite(r, path) && AttrStable(r, Some(path[|path| - 1]), AfterRun(q[1..]))
    else AttrStable(r, Some(t[0]), t[1..])
  }

  /** A match that is not to be rewritten, before a rest that stays as it is. */
  lemma MatchFixed(r: Rule, prev: Option<char>, t: string)
    requires AttrAt(r, prev, t)
    requires var q := FromQuote(r, t);
             var path := RunOf(q[1..]);
             !ShouldRewrite(r, path) && path != "" && AttrPass(r, Some(path[|path| - 1]), AfterRun(q[1..])) == AfterRun(q[1..])
    ensures AttrPass(r, prev, t) == t
  {
    AttrSplit(r, prev, t);
  }

  lemma StableAt(r: Rule, prev: Option<char>, t: string)
    requires AttrAt(r, prev, t) && AttrStable(r, prev, t)
    ensures var q := FromQuote(r, t);
            && |q| > 0
            && var path := RunOf(q[1..]);
               path != "" && !ShouldRewrite(r, path) && |AfterRun(q[1..])| < |t|
               && AttrStable(r, Some(path[|path| - 1]), AfterRun(q[1..]))
  {
    AttrSplit(r, prev, t);
  }

  lemma {:induction false} AttrStableFixed(r: Rule, prev: Option<char>, t: string)
    requires AttrStable(r, prev, t)
    ensures AttrPass(r, prev, t) == t
    decreases |t|
  {
    if t == "" {
    } else if AttrAt(r, prev, t) {
      StableAt(r, prev, t);
      var q := FromQuote(r, t);
      var path := RunOf(q[1..]);
      AttrStableFixed(r, Some(path[|path| - 1]), AfterRun(q[1..]));
      MatchFixed(r, prev, t);
    } else {
      AttrStableFixed(r, Some(t[0]), t[1..]);
    }
  }

  /** The characters of a key at the front contain no quote and no slash. */
  lemma {:induction false} KeyShape(keys: seq<string>, t: string)
    requires PlainKeys(keys)
    ensures forall i :: 0 <= i < KeyLen(keys, t) ==> !IsQuote(t[i]) && t[i] != '/'
  {
    if keys != [] {
      if keys[0] <= t {
        assert forall i :: 0 <= i < |keys[0]| ==> t[i] == keys[0][i] && keys[0][i] in keys[0];
        assert keys[0] in keys;
      } else {
        assert forall k :: k in keys[1..] ==> k in keys;
        KeyShape(keys[1..], t);
      }
    }
  }

  /** Which key stands at the front depends only on the characters before the first quote. */
  lemma {:induction false} SameKey(keys: seq<string>, t: string, u: string)
    requires PlainKeys(keys) && RunOf(t) == RunOf(u)
    ensures KeyLen(keys, t) == KeyLen(keys, u)
  {
    if keys != [] {
      assert forall k :: k in keys[1..] ==> k in keys;
      SameKey(keys[1..], t, u);
      KeyInRun(keys[0], t);
      KeyInRun(keys[0], u);
      assert keys[0] in keys;
    }
  }

  lemma {:induction false} KeyInRun(key: string, t: string)
    requires forall c :: c in key ==> !IsQuote(c)
    ensures key <= t <==> key <= RunOf(t)
  {
    if key <= t {
      assert forall i :: 0 <= i < |key| ==> t[i] == key[i] && key[i] in key;
      assert |key| <= RunLen(t);
      assert RunOf(t)[..|key|] == t[..|key|];
    }
    assert t == RunOf(t) + AfterRun(t);
  }

  /** A match: the key fills the run before the first quote, which a slash follows. */
  lemma AttrIs(r: Rule, prev: Option<char>, t: string)
    requires PlainKeys(r.keys)
    ensures AttrAt(r, prev, t) <==>
      && KeyLen(r.keys, t) > 0 && KeyLen(r.keys, t) == RunLen(t) && (prev.None? || !r.isWord(prev.value))
      && |AfterRun(t)| > 1 && AfterRun(t)[1] == '/'
    ensures AttrAt(r, prev, t) ==> FromQuote(r, t) == AfterRun(t)
  {
    KeyShape(r.keys, t);
  }

  /** Behind a quote, insertion keeps whether a slash follows. */
  lemma SlashBehind(r: Rule, t: string, u: string)
    requires SelfIgnoring(r) && Inserted(r, t, u) && t != "" && IsQuote(t[0])
    ensures (|t| > 1 && t[1] == '/') <==> (|u| > 1 && u[1] == '/')
  {
    if InsertedHere(r, t, u) {
      assert u[1] == u[1..][0] == r.Prefix()[0];
    }
  }

  /** Insertion neither makes nor breaks an attribute match at the front. */
  lemma SameMatch(r: Rule, prev: Option<char>, t: string, u: string)
    requires SelfIgnoring(r) && Inserted(r, t, u)
    ensures AttrAt(r, prev, t) <==> AttrAt(r, prev, u)
  {
    AgreeRun(r, t, u);
    SameKey(r.keys, t, u);
    AttrIs(r, prev, t);
    AttrIs(r, prev, u);
    if AfterRun(t) != "" { SlashBehind(r, AfterRun(t), AfterRun(u)); }
  }

  /** A quote-free run before a slash cannot start an attribute match. */
  lemma {:induction false} StableThrough(r: Rule, prev: Option<char>, prev': Option<char>, run: string, s: string)
    requires PlainKeys(r.keys)
    requires forall c :: c in run ==> !IsQuote(c)
    requires "/" <= s && AttrStable(r, prev', s)
    ensures AttrStable(r, prev, run + s)
    decreases |run|
  {
    var t := run + s;
    NoKeyBeforeSlash(r, prev, run, s);
    if run == "" {
      assert t == s;
      NoKeyBeforeSlash(r, prev', "", s);
    } else {
      assert t[1..] == run[1..] + s;
      assert forall c :: c in run[1..] ==> c in run;
      StableThrough(r, Some(t[0]), prev', run[1..], s);
    }
  }

  lemma NoKeyBeforeSlash(r: Rule, prev: Option<char>, run: string, s: string)
    requires PlainKeys(r.keys) && "/" <= s && forall c :: c in run ==> !IsQuote(c)
    ensures !AttrAt(r, prev, run + s)
  {
    var t := run + s;
    KeyShape(r.keys, t);
    assert t[|run|] == '/';
    assert forall i :: 0 <= i < |run| ==> t[i] == run[i] && run[i] in run;
  }

  /** Inserting prefixes into a stable text keeps both scanners aligned, so it stays stable. */
  lemma {:induction false} StableUnderInsertion(r: Rule, prev: Option<char>, t: string, u: string)
    requires SelfIgnoring(r) && Inserted(r, t, u) && AttrStable(r, prev, t)
    ensures AttrStable(r, prev, u)
    decreases |t|
  {
    SameMatch(r, prev, t, u);
    if t == "" {
    } else if AttrAt(r, prev, t) {
      StableMatch(r, prev, t, u);
      var q := FromQuote(r, t);
      var path := RunOf(q[1..]);
      AttrSplit(r, prev, t);
      StableUnderInsertion(r, Some(path[|path| - 1]), AfterRun(q[1..]), AfterRun(FromQuote(r, u)[1..]));
    } else if Inserted(r, t[1..], u[1..]) {
      StableUnderInsertion(r, Some(t[0]), t[1..], u[1..]);
    } else {
      var s := u[1..][|r.Prefix()|..];
      StableUnderInsertion(r, Some(t[0]), t[1..], s);
      assert u[1..] == r.Prefix() + s;
      StableThrough(r, Some(t[0]), Some(t[0]), r.Prefix(), s);
    }
  }

  /** At a stable match nothing is inserted behind the quote: the path is the same in both texts. */
  lemma StableMatch(r: Rule, prev: Option<char>, t: string, u: string)
    requires SelfIgnoring(r) && Inserted(r, t, u)
    requires AttrAt(r, prev, t) && AttrAt(r, prev, u) && !ShouldRewrite(r, RunOf(FromQuote(r, t)[1..]))
    ensures RunOf(FromQuote(r, u)[1..]) == RunOf(FromQuote(r, t)[1..])
    ensures Inserted(r, AfterRun(FromQuote(r, t)[1..]), AfterRun(FromQuote(r, u)[1..]))
  {
    AgreeRun(r, t, u);
    AttrIs(r, prev, t);
    AttrIs(r, prev, u);
    var q, q' := FromQuote(r, t), FromQuote(r, u);
    assert !InsertedHere(r, q, q');
    AgreeRun(r, q[1..], q'[1..]);
  }

  lemma StableHere(r: Rule, prev: Option<char>, t: string)
    requires AttrAt(r, prev, t)
    requires var q := FromQuote(r, t);
             var path := RunOf(q[1..]);
             path != "" && !ShouldRewrite(r, path) && AttrStable(r, Some(path[|path| - 1]), AfterRun(q[1..]))
    ensures AttrStable(r, prev, t)
  {}

  /** The rest of a match: what follows its path, and the character before that. */
  predicate RestStable(r: Rule, t: string) {
    var q := FromQuote(r, t);
    |q| > 0 && var path := RunOf(q[1..]);
      path != "" && AttrStable(r, Some(path[|path| - 1]), AttrPass(r, Some(path[|path| - 1]), AfterRun(q[1..])))
  }

  lemma MatchPassStable(r: Rule, prev: Option<char>, t: string)
    requires SelfIgnoring(r) && AttrAt(r, prev, t) && AttrAt(r, prev, AttrPass(r, prev, t)) && RestStable(r, t)
    ensures AttrStable(r, prev, AttrPass(r, prev, t))
  {
    MatchOut(r, prev, t);
    StableHere(r, prev, AttrPass(r, prev, t));
  }

  lemma PlainPassStable(r: Rule, prev: Option<char>, t: string)
    requires t != "" && !AttrAt(r, prev, t) && !AttrAt(r, prev, AttrPass(r, prev, t))
    requires AttrStable(r, Some(t[0]), AttrPass(r, Some(t[0]), t[1..]))
    ensures AttrStable(r, prev, AttrPass(r, prev, t))
  {
    assert AttrPass(r, prev, t)[1..] == AttrPass(r, Some(t[0]), t[1..]);
  }

  lemma {:induction false} AttrPassStable(r: Rule, prev: Option<char>, t: string)
    requires SelfIgnoring(r)
    ensures AttrStable(r, prev, AttrPass(r, prev, t))
    decreases |t|
  {
    AttrPassInserts(r, prev, t);
    SameMatch(r, prev, t, AttrPass(r, prev, t));
    if t == "" {
    } else if AttrAt(r, prev, t) {
      AttrSplit(r, prev, t);
      var q := FromQuote(r, t);
      var path := RunOf(q[1..]);
      AttrPassStable(r, Some(path[|path| - 1]), AfterRun(q[1..]));
      MatchPassStable(r, prev, t);
    } else {
      AttrPassStable(r, Some(t[0]), t[1..]);
      PlainPassStable(r, prev, t);
    }
  }

  /** What the attribute pass leaves of a match: the same key and quote, the path behind its prefix, the rest. */
  lemma MatchOut(r: Rule, prev: Option<char>, t: string)
    requires SelfIgnoring(r) && AttrAt(r, prev, t) && AttrAt(r, prev, AttrPass(r, prev, t))
    ensures var q, out := FromQuote(r, t), AttrPass(r, prev, t);
            var path := RunOf(q[1..]);
            var last := Some(path[|path| - 1]);
            var q' := FromQuote(r, out);
            && path != "" && |q'| > 1
            && RunOf(q'[1..]) == Prefixed(r, path) != ""
            && Prefixed(r, path)[|Prefixed(r, path)| - 1] == path[|path| - 1]
            && !ShouldRewrite(r, Prefixed(r, path))
            && AfterRun(q'[1..]) == AttrPass(r, last, AfterRun(q[1..]))
  {
    var q, out := FromQuote(r, t), AttrPass(r, prev, t);
    AttrSplit(r, prev, t);
    RunSplit(q[1..]);
    var path, rest := RunOf(q[1..]), AfterRun(q[1..]);
    var u := AttrPass(r, Some(path[|path| - 1]), rest);
    PrefixedOnce(r, path);
    AttrPassInserts(r, Some(path[|path| - 1]), rest);
    assert u != "" ==> u[0] == rest[0];
    RunIs(Prefixed(r, path), u);
    AttrPassInserts(r, prev, t);
    AgreeRun(r, t, out);
    AttrIs(r, prev, t);
    AttrIs(r, prev, out);
    assert FromQuote(r, out) == [q[0]] + (Prefixed(r, path) + u);
    assert FromQuote(r, out)[1..] == Prefixed(r, path) + u;
  }

  // ---------------------------------------------------------------- stability of the quoted-string pass

  /** No quoted string is left whose path is to be rewritten. */
  predicate StringStable(r: Rule, t: string)
    decreases |t|
  {
    if t == "" then true
    else if QuotedAt(t) then !ShouldRewrite(r, RunOf(t[1..])) && StringStable(r, AfterRun(t[1..])[1..])
    else StringStable(r, t[1..])
  }

  lemma {:induction false} StringStableFixed(r: Rule, t: string)
    requires StringStable(r, t)
    ensures StringPass(r, t) == t
    decreases |t|
  {
    if t == "" {
    } else if QuotedAt(t) {
      QuotedSplit(t);
      StringStableFixed(r, AfterRun(t[1..])[1..]);
    } else {
      StringStableFixed(r, t[1..]);
    }
  }

  lemma {:induction false} StringPassStable(r: Rule, t: string)
    requires SelfIgnoring(r)
    ensures StringStable(r, StringPass(r, t))
    decreases |t|
  {
    var out := StringPass(r, t);
    if t == "" {
    } else if QuotedAt(t) {
      QuotedSplit(t);
      RunSplit(t[1..]);
      var path, rest := RunOf(t[1..]), AfterRun(t[1..])[1..];
      var u := [t[0]] + StringPass(r, rest);
      StringPassStable(r, rest);
      PrefixedOnce(r, path);
      RunIs(Prefixed(r, path), u);
      assert out[1..] == Prefixed(r, path) + u;
      assert u[1..] == StringPass(r, rest);
    } else {
      StringPassStable(r, t[1..]);
      assert out[1..] == StringPass(r, t[1..]);
      StringPassInserts(r, t[1..]);
      AgreeRun(r, t[1..], out[1..]);
      assert |t| > 1 ==> out[1..][0] == t[1..][0];
    }
  }

  // ---------------------------------------------------------------- both passes

  /** Insertions made one after the other still prefix each path at most once. */
  lemma {:induction false} InsertedTwice(r: Rule, t: string, u: string, v: string)
    requires SelfIgnoring(r) && Inserted(r, t, u) && Inserted(r, u, v)
    ensures Inserted(r, t, v)
    decreases |t|
  {
    if t != "" {
      if Inserted(r, t[1..], u[1..]) {
        if Inserted(r, u[1..], v[1..]) {
          InsertedTwice(r, t[1..], u[1..], v[1..]);
        } else {
          AgreeRun(r, t[1..], u[1..]);
          SlashFront(r, t[1..], u[1..]);
          InsertedTwice(r, t[1..], u[1..], v[1..][|r.Prefix()|..]);
          assert InsertedHere(r, t, v);
        }
      } else {
        PrefixedIsIgnored(r, t, u);
        assert !InsertedHere(r, u, v);
        var s := u[1..][|r.Prefix()|..];
        assert u[1..] == r.Prefix() + s;
        SplitInserted(r, r.Prefix(), s, v[1..]);
        InsertedTwice(r, t[1..], s, v[1..][|r.Prefix()|..]);
        assert InsertedHere(r, t, v);
      }
    }
  }

  lemma SlashFront(r: Rule, t: string, u: string)
    requires Inserted(r, t, u)
    ensures "/" <= u <==> "/" <= t
  {}

  /** A path that was to be rewritten is no longer, once the prefix stands before it. */
  lemma BehindPrefix(r: Rule, s: string)
    requires SelfIgnoring(r) && ShouldRewrite(r, RunOf(s))
    ensures !ShouldRewrite(r, RunOf(r.Prefix() + s))
  {
    var path := RunOf(s);
    RunSplit(s);
    PrefixedOnce(r, path);
    assert r.Prefix() + s == Prefixed(r, path) + AfterRun(s);
    RunIs(Prefixed(r, path), AfterRun(s));
  }

  /** Where a prefix was inserted, the path now in place is not to be rewritten. */
  lemma PrefixedIsIgnored(r: Rule, t: string, u: string)
    requires SelfIgnoring(r) && t != "" && u != "" && InsertedHere(r, t, u)
    ensures !ShouldRewrite(r, RunOf(u[1..]))
  {
    var s := u[1..][|r.Prefix()|..];
    AgreeRun(r, t[1..], s);
    BehindPrefix(r, s);
    assert u[1..] == r.Prefix() + s;
  }

  /** Nothing is inserted inside a quote-free run. */
  lemma {:induction false} SplitInserted(r: Rule, run: string, t: string, u: string)
    requires forall c :: c in run ==> !IsQuote(c)
    requires Inserted(r, run + t, u)
    ensures run <= u && Inserted(r, t, u[|run|..])
  {
    if run == "" {
      assert run + t == t && u[0..] == u;
    } else {
      assert run[0] in run;
      assert (run + t)[1..] == run[1..] + t;
      assert forall c :: c in run[1..] ==> c in run;
      SplitInserted(r, run[1..], t, u[1..]);
      assert u[1..][|run| - 1..] == u[|run|..];
      assert u[..|run|] == [u[0]] + u[1..][..|run| - 1];
    }
  }

  /**
   * One rewrite of a body: each quoted root-relative URL gets the prefix at most once, and afterwards neither pass
   * finds a URL that is still to be prefixed.
   */
  lemma RewritesOnce(r: Rule, html: bool, t: string)
    requires SelfIgnoring(r)
    ensures var out := RewriteText(r, html, t);
            Inserted(r, t, out) && StringStable(r, out) && (html ==> AttrStable(r, None, out))
  {
    var y := if html then AttrPass(r, None, t) else t;
    var out := StringPass(r, y);
    StringPassInserts(r, y);
    StringPassStable(r, y);
    if html {
      AttrPassInserts(r, None, t);
      InsertedTwice(r, t, y, out);
      AttrPassStable(r, None, t);
      StableUnderInsertion(r, None, y, out);
    }
  }

  /** Rewriting a rewritten body changes nothing, for any body and any content type. */
  lemma RewriteIdempotent(r: Rule, content: seq<Byte>, contentType: Option<string>)
    requires SelfIgnoring(r)
    ensures Rewrite(r, Rewrite(r, content, contentType), contentType) == Rewrite(r, content, contentType)
  {
    var html := Contains(Lower(if contentType.Some? then contentType.value else ""), "text/html");
    if Decode(content).Some? {
      var t := Decode(content).value;
      var out := RewriteText(r, html, t);
      RewritesOnce(r, html, t);
      StringStableFixed(r, out);
      if html { AttrStableFixed(r, None, out); }
      assert RewriteText(r, html, out) == out;
      RoundTrip(out);
    }
  }

  // ---------------------------------------------------------------- exactly which prefixes are safe

  function Zs(n: nat): (s: string)
    ensures |s| == n && forall c :: c in s ==> c == 'z'
  {
    if n == 0 then "" else "z" + Zs(n - 1)
  }

  /** A length beyond every ignored prefix. */
  function Beyond(ignore: seq<string>): (n: nat)
    ensures n >= 1 && forall p :: p in ignore ==> |p| < n
  {
    if ignore == [] then 1
    else
      var rest := Beyond(ignore[1..]);
      assert ignore == [ignore[0]] + ignore[1..];
      if |ignore[0]| < rest then rest else |ignore[0]| + 1
  }

  /** A long path of one letter falls under an ignored prefix only if what stands before it does. */
  lemma LongPathRewritten(r: Rule, front: string, p: string)
    requires p in r.ignore && (front != "" ==> !Ignores(p, front))
    ensures !Ignores(p, front + ("/" + Zs(Beyond(r.ignore))))
  {
    var path := front + ("/" + Zs(Beyond(r.ignore)));
    var n := TrimRight(p, IsSlash);
    TrimRightClean(p, IsSlash);
    var zs := Zs(Beyond(r.ignore));
    assert forall i :: |front| < i < |path| ==> path[i] == zs[i - |front| - 1] && zs[i - |front| - 1] in zs;
    if n != "" && |n| <= |front| {
      assert |n| == |front| ==> path[..|n|] == front;
      assert |n| < |front| ==> path[..|n| + 1] == front[..|n| + 1];
    }
    assert n + "/" <= path ==> path[|n|] == (n + "/")[|n|];
  }

  /**
   * For a rooted prefix without quotes, rewriting is idempotent on every text of either kind exactly when the prefix
   * itself falls under an ignored prefix.
   */
  lemma IdempotentExactly(r: Rule, html: bool)
    requires r.Prefix() != "" && r.Prefix()[0] == '/' && (forall c :: c in r.Prefix() ==> !IsQuote(c)) && PlainKeys(r.keys)
    ensures (forall t :: RewriteText(r, html, RewriteText(r, html, t)) == RewriteText(r, html, t))
       <==> (exists p :: p in r.ignore && Ignores(p, r.Prefix()))
  {
    if exists p :: p in r.ignore && Ignores(p, r.Prefix()) {
      forall t ensures RewriteText(r, html, RewriteText(r, html, t)) == RewriteText(r, html, t) {
        RewritesOnce(r, html, t);
        StringStableFixed(r, RewriteText(r, html, t));
        if html { AttrStableFixed(r, None, RewriteText(r, html, t)); }
      }
    } else {
      PrefixedAgain(r, html);
    }
  }

  lemma PrefixedAgain(r: Rule, html: bool)
    requires r.Prefix() != "" && r.Prefix()[0] == '/' && (forall c :: c in r.Prefix() ==> !IsQuote(c)) && PlainKeys(r.keys)
    requires forall p :: p in r.ignore ==> !Ignores(p, r.Prefix())
    ensures exists t :: RewriteText(r, html, RewriteText(r, html, t)) != RewriteText(r, html, t)
  {
    var path := "/" + Zs(Beyond(r.ignore));
    var once := r.Prefix() + path;
    forall p | p in r.ignore ensures !Ignores(p, path) && !Ignores(p, once) {
      LongPathRewritten(r, "", p);
      LongPathRewritten(r, r.Prefix(), p);
      assert "" + path == path;
    }
    OneString(r, path);
    OneString(r, once);
    OneStringHasNoAttribute(r, path);
    OneStringHasNoAttribute(r, once);
    var t := ['"'] + (path + ['"']);
    assert RewriteText(r, html, t) == ['"'] + (once + ['"']);
    assert |RewriteText(r, html, RewriteText(r, html, t))| > |RewriteText(r, html, t)|;
  }

  lemma {:induction false} LastQuoteHasNoAttribute(r: Rule, prev: Option<char>, run: string)
    requires PlainKeys(r.keys) && forall c :: c in run ==> !IsQuote(c)
    ensures AttrPass(r, prev, run + ['"']) == run + ['"']
    decreases |run|
  {
    var t := run + ['"'];
    RunIs(run, ['"']);
    AttrIs(r, prev, t);
    if run == "" {
      assert t[1..] == "" && AttrPass(r, Some('"'), "") == "";
    } else {
      assert t[1..] == run[1..] + ['"'];
      LastQuoteHasNoAttribute(r, Some(run[0]), run[1..]);
    }
  }

  /** A lone quoted path is no attribute value: the first pass leaves it. */
  lemma OneStringHasNoAttribute(r: Rule, path: string)
    requires PlainKeys(r.keys) && forall c :: c in path ==> !IsQuote(c)
    ensures AttrPass(r, None, ['"'] + (path + ['"'])) == ['"'] + (path + ['"'])
  {
    var t := ['"'] + (path + ['"']);
    RunStops(t);
    AttrIs(r, None, t);
    assert t[1..] == path + ['"'];
    LastQuoteHasNoAttribute(r, Some('"'), path);
  }

  lemma OneString(r: Rule, path: string)
    requires "/" <= path && (forall c :: c in path ==> !IsQuote(c))
    ensures StringPass(r, ['"'] + (path + ['"'])) == ['"'] + (Prefixed(r, path) + ['"'])
  {
    var t := ['"'] + (path + ['"']);
    assert t[1..] == path + ['"'];
    RunIs(path, ['"']);
    assert ['"'][1..] == "";
    assert ['"'] + StringPass(r, "") == ['"'];
  }

  // ---------------------------------------------------------------- the prefixes the addon proxy uses

  const HTML_KEYS := ["src=", "href=", "action="]
  const ADDON_IGNORES := ["/addons/proxy/", "/ui/addons/"]

  function AddonRule(prefix: string, isWord: char -> bool): Rule { Rule(prefix, ADDON_IGNORES, HTML_KEYS, isWord) }

  lemma TrimSlashesOf(s: string, id: string)
    requires s != "" && s[|s| - 1] != '/'
    ensures var p := TrimRight(s + "/" + id, IsSlash); s <= p && (p == s || s + "/" <= p)
    ensures TrimRight(s + "/", IsSlash) == s
  {
    var whole := s + "/" + id;
    TrimRightClean(whole, IsSlash);
    var p := TrimRight(whole, IsSlash);
    assert whole[|s| - 1] == s[|s| - 1];
    assert p[..|s|] == whole[..|s|] == s;
    if |p| > |s| {
      assert p[..|s| + 1] == whole[..|s| + 1] == s + "/";
    } else {
      assert p == s;
    }
    assert (s + "/")[..|s|] == s;
  }

  /** Both forms of addon prefix mark their own output, for every id without a quote. */
  lemma AddonPrefixesSelfIgnore(id: string, isWord: char -> bool)
    requires forall c :: c in id ==> !IsQuote(c)
    ensures SelfIgnoring(AddonRule("/addons/proxy" + "/" + id, isWord))
    ensures SelfIgnoring(AddonRule("/ui/addons" + "/" + id, isWord))
  {
    SelfIgnoresUnder("/addons/proxy", id, isWord, 0);
    SelfIgnoresUnder("/ui/addons", id, isWord, 1);
  }

  lemma SelfIgnoresUnder(s: string, id: string, isWord: char -> bool, i: nat)
    requires i < 2 && ADDON_IGNORES[i] == s + "/" && s != "" && s[0] == '/' && s[|s| - 1] != '/'
    requires (forall c :: c in id ==> !IsQuote(c)) && (forall c :: c in s ==> !IsQuote(c))
    ensures SelfIgnoring(AddonRule(s + "/" + id, isWord))
  {
    var r := AddonRule(s + "/" + id, isWord);
    TrimSlashesOf(s, id);
    TrimRightClean(s + "/" + id, IsSlash);
    var p := r.Prefix();
    assert p[0] == s[0];
    assert forall c :: c in p ==> c in s + "/" + id;
    assert Ignores(ADDON_IGNORES[i], p);
    assert ADDON_IGNORES[i] in r.ignore;
    KeysArePlain();
  }

  lemma KeysArePlain()
    ensures PlainKeys(HTML_KEYS)
  {}

  // ---------------------------------------------------------------- what a rewrite does to a body

  function Kind(contentType: Option<string>): string { Lower(if contentType.Some? then contentType.value else "") }

  /**
   * By its content type a body is rewritten as HTML, as script or stylesheet, or not at all: prefixes are only ever
   * inserted, and afterwards nothing of that kind is left to be prefixed.
   */
  lemma RewriteByType(r: Rule, t: string, contentType: Option<string>) returns (out: string)
    requires SelfIgnoring(r)
    ensures Rewrite(r, Encode(t), contentType) == Encode(out) && Decode(Rewrite(r, Encode(t), contentType)) == Some(out)
    ensures Contains(Kind(contentType), "text/html") ==> Inserted(r, t, out) && StringStable(r, out) && AttrStable(r, None, out)
    ensures Contains(Kind(contentType), "javascript") || Contains(Kind(contentType), "text/css") ==>
      Inserted(r, t, out) && StringStable(r, out)
    ensures Contains(Kind(contentType), "text/html") || Contains(Kind(contentType), "javascript")
      || Contains(Kind(contentType), "text/css") || out == t
  {
    RoundTrip(t);
    var html := Contains(Kind(contentType), "text/html");
    if html || Contains(Kind(contentType), "javascript") || Contains(Kind(contentType), "text/css") {
      out := RewriteText(r, html, t);
      RewritesOnce(r, html, t);
    } else {
      out := t;
    }
    RoundTrip(out);
  }

  /** Bytes that are not UTF-8 are passed on, whatever their type. */
  lemma UndecodedUntouched(r: Rule, content: seq<Byte>, contentType: Option<string>)
    requires Decode(content).None?
    ensures Rewrite(r, content, contentType) == content
  {}

  /** The root itself stays, and so does a path at or below an ignored prefix. */
  predicate Stays(r: Rule, path: string) {
    path == "/" || exists p :: p in r.ignore && TrimRight(p, IsSlash) != ""
                               && (path == TrimRight(p, IsSlash) || TrimRight(p, IsSlash) + "/" <= path)
  }

  function Moved(r: Rule, path: string): string {
    if Stays(r, path) then path else TrimRight(r.proxyPrefix, IsSlash) + path
  }

  lemma MovedIsPrefixed(r: Rule, path: string)
    requires "/" <= path
    ensures Moved(r, path) == Prefixed(r, path)
  {
    assert ShouldRewrite(r, path) <==> !Stays(r, path);
  }

  lemma {:induction false} StringPassFront(r: Rule, front: string, t: string)
    requires forall c :: c in front ==> !IsQuote(c)
    ensures StringPass(r, front + t) == front + StringPass(r, t)
    decreases |front|
  {
    if front == "" {
      assert front + t == t;
    } else {
      assert front[0] in front && (front + t)[1..] == front[1..] + t;
      StringPassFront(r, front[1..], t);
    }
  }

  /** A whole quoted path in a script or stylesheet. */
  lemma QuotedPathMoved(r: Rule, q: char, path: string)
    requires (q == '"' || q == '\'') && "/" <= path && forall c :: c in path ==> c != '"' && c != '\''
    ensures RewriteText(r, false, [q] + (path + [q])) == [q] + (Moved(r, path) + [q])
  {
    MovedIsPrefixed(r, path);
    var t := [q] + (path + [q]);
    assert t[1..] == path + [q];
    RunIs(path, [q]);
    assert [q][1..] == "" && [q] + StringPass(r, "") == [q];
  }

  /** A quoted path that another quote closes is no string, and is left alone. */
  lemma UnclosedPathStays(r: Rule, q: char, path: string, other: char)
    requires IsQuote(q) && IsQuote(other) && other != q && "/" <= path && forall c :: c in path ==> !IsQuote(c)
    ensures StringPass(r, [q] + (path + [other])) == [q] + (path + [other])
  {
    var t := [q] + (path + [other]);
    assert t[1..] == path + [other];
    RunIs(path, [other]);
    StringPassFront(r, path, [other]);
    assert [other][1..] == "" && StringPass(r, [other]) == [other] + StringPass(r, "");
  }

  predicate HtmlKey(key: string) { key == "src=" || key == "href=" || key == "action=" }

  lemma KeyLetters(key: string)
    requires HtmlKey(key)
    ensures forall c :: c in key ==> !IsQuote(c) && c != '/'
    ensures |key| >= 4 && (key[0] == 's' || key[0] == 'h' || key[0] == 'a')
    ensures forall k :: 0 < k < |key| ==> key[k] != 's' && key[k] != 'h' && key[k] != 'a'
  {}

  lemma KeyCases(t: string)
    ensures KeyLen(HTML_KEYS, t) == if "src=" <= t then 4 else if "href=" <= t then 5 else if "action=" <= t then 7 else 0
  {
    var one := HTML_KEYS[1..];
    var two := one[1..];
    assert one == ["href=", "action="] && two == ["action="] && two[1..] == [];
    assert KeyLen(two, t) == if "action=" <= t then 7 else KeyLen([], t);
    assert KeyLen(one, t) == if "href=" <= t then 5 else KeyLen(two, t);
  }

  lemma KeyFound(key: string, t: string)
    requires HtmlKey(key)
    ensures KeyLen(HTML_KEYS, key + t) == |key|
  {
    var s := key + t;
    KeyCases(s);
    assert key <= s && s[0] == key[0];
  }

  lemma NoKeyFound(t: string)
    requires t != "" ==> t[0] != 's' && t[0] != 'h' && t[0] != 'a'
    ensures KeyLen(HTML_KEYS, t) == 0
  {
    KeyCases(t);
  }

  /** An attribute value at the start of a page is prefixed by the first pass, even if no quote closes it. */
  lemma AttributeMoved(prefix: string, isWord: char -> bool, key: string, q: char, path: string, other: char)
    requires HtmlKey(key) && "/" <= path && forall c :: c in path ==> c != '"' && c != '\''
    requires (q == '"' && other == '\'') || (q == '\'' && other == '"')
    requires forall c :: c in TrimRight(prefix, IsSlash) ==> !IsQuote(c)
    requires "/" <= TrimRight(prefix, IsSlash)
    ensures var r := AddonRule(prefix, isWord);
            RewriteText(r, true, key + ([q] + (path + [other]))) == key + ([q] + (Moved(r, path) + [other]))
  {
    var r := AddonRule(prefix, isWord);
    var v := [q] + (path + [other]);
    FirstPassMoves(r, key, q, path, other);
    MovedIsPrefixed(r, path);
    KeyLetters(key);
    StringPassFront(r, key, [q] + (Moved(r, path) + [other]));
    UnclosedPathStays(r, q, Moved(r, path), other);
  }

  lemma FirstPassMoves(r: Rule, key: string, q: char, path: string, other: char)
    requires r.keys == HTML_KEYS && HtmlKey(key) && IsQuote(q) && IsQuote(other)
    requires "/" <= path && forall c :: c in path ==> !IsQuote(c)
    ensures AttrPass(r, None, key + ([q] + (path + [other]))) == key + ([q] + (Prefixed(r, path) + [other]))
  {
    var v := [q] + (path + [other]);
    var t := key + v;
    KeyFound(key, v);
    assert AttrKey(r, t) == key && FromQuote(r, t) == v && v[1..] == path + [other];
    RunIs(path, [other]);
    var last := Some(path[|path| - 1]);
    AttrPassOne(r, last, other);
  }

  lemma AttrPassOne(r: Rule, prev: Option<char>, c: char)
    ensures AttrPass(r, prev, [c]) == [c]
  {
    assert [c][1..] == "" && AttrPass(r, Some(c), "") == "";
  }

  /** A longer word that ends like an attribute is none: nothing is prefixed behind it. */
  lemma WordBoundaryHolds(prefix: string, isWord: char -> bool, c: char, key: string, q: char, path: string, other: char)
    requires HtmlKey(key) && isWord(c) && !IsQuote(c)
    requires (q == '"' && other == '\'') || (q == '\'' && other == '"')
    requires "/" <= path && forall x :: x in path ==> x != '"' && x != '\''
    ensures var r := AddonRule(prefix, isWord);
            var t := [c] + (key + ([q] + (path + [other])));
            RewriteText(r, true, t) == t
  {
    var r := AddonRule(prefix, isWord);
    WordPassed(r, c, key, q, path, other);
    WordNoString(r, c, key, q, path, other);
  }

  lemma WordNoString(r: Rule, c: char, key: string, q: char, path: string, other: char)
    requires HtmlKey(key) && !IsQuote(c) && IsQuote(q) && IsQuote(other) && other != q
    requires "/" <= path && (forall x :: x in path ==> !IsQuote(x))
    ensures var t := [c] + (key + ([q] + (path + [other]))); StringPass(r, t) == t
  {
    KeyLetters(key);
    UnclosedPathStays(r, q, path, other);
    StringPassFront(r, key, [q] + (path + [other]));
    StringPassFront(r, [c], key + ([q] + (path + [other])));
  }

  lemma WordPassed(r: Rule, c: char, key: string, q: char, path: string, other: char)
    requires r.keys == HTML_KEYS && HtmlKey(key) && r.isWord(c) && IsQuote(q) && IsQuote(other)
    requires "/" <= path && (forall x :: x in path ==> !IsQuote(x))
    ensures var t := [c] + (key + ([q] + (path + [other]))); AttrPass(r, None, t) == t
  {
    var v := [q] + (path + [other]);
    AttrPassQuiet(r, Some(q), path, other);
    assert v[1..] == path + [other];
    QuietKey(r, Some(c), key, v, 0);
    var t := key + v;
    assert key[0..] + v == t && t[|key|] == v[0] && t[|key| + 1..] == v[1..];
    PastQuiet(r, Some(c), t, |key|);
    FirstNotKey(r, c, key, v);
    assert ([c] + t)[1..] == t;
    StepOver(r, None, [c] + t);
  }

  lemma FirstNotKey(r: Rule, c: char, key: string, v: string)
    requires r.keys == HTML_KEYS && HtmlKey(key)
    ensures !AttrAt(r, None, [c] + (key + v))
  {
    var t := [c] + (key + v);
    KeyLetters(key);
    KeyCases(t);
    assert t[1] == key[0];
  }

  /** No attribute starts inside a key that follows a word character. */
  lemma InsideKey(r: Rule, prev: Option<char>, key: string, v: string, k: nat)
    requires r.keys == HTML_KEYS && HtmlKey(key) && k <= |key| && v != "" && IsQuote(v[0])
    requires k == 0 ==> prev.Some? && r.isWord(prev.value)
    ensures !AttrAt(r, prev, key[k..] + v)
  {
    KeyLetters(key);
    var t := key[k..] + v;
    if k == |key| {
      assert t == v;
      NoKeyFound(v);
    } else if k > 0 {
      assert t[0] == key[k];
      NoKeyFound(t);
    }
  }

  /** No attribute starts at the first `n` characters, nor at the next. */
  predicate Quiet(r: Rule, prev: Option<char>, t: string, n: nat)
    requires n < |t|
    decreases n
  {
    !AttrAt(r, prev, t) && (n == 0 || Quiet(r, Some(t[0]), t[1..], n - 1))
  }

  lemma {:induction false} QuietKey(r: Rule, prev: Option<char>, key: string, v: string, k: nat)
    requires r.keys == HTML_KEYS && HtmlKey(key) && k <= |key| && v != "" && IsQuote(v[0])
    requires k == 0 ==> prev.Some? && r.isWord(prev.value)
    ensures Quiet(r, prev, key[k..] + v, |key| - k)
    decreases |key| - k
  {
    InsideKey(r, prev, key, v, k);
    if k < |key| {
      var t := key[k..] + v;
      assert t[0] == key[k] && t[1..] == key[k + 1..] + v;
      QuietKey(r, Some(key[k]), key, v, k + 1);
    }
  }

  lemma {:induction false} PastQuiet(r: Rule, prev: Option<char>, t: string, n: nat)
    requires n < |t| && Quiet(r, prev, t, n) && AttrPass(r, Some(t[n]), t[n + 1..]) == t[n + 1..]
    ensures AttrPass(r, prev, t) == t
    decreases n
  {
    if n > 0 {
      assert t[1..][n - 1] == t[n] && t[1..][n..] == t[n + 1..];
      PastQuiet(r, Some(t[0]), t[1..], n - 1);
    }
    StepOver(r, prev, t);
  }

  lemma StepOver(r: Rule, prev: Option<char>, t: string)
    requires t != "" && !AttrAt(r, prev, t) && AttrPass(r, Some(t[0]), t[1..]) == t[1..]
    ensures AttrPass(r, prev, t) == t
  {
    assert t == [t[0]] + t[1..];
  }

  lemma {:induction false} AttrPassQuiet(r: Rule, prev: Option<char>, path: string, other: char)
    requires r.keys == HTML_KEYS && IsQuote(other) && forall x :: x in path ==> !IsQuote(x)
    ensures AttrPass(r, prev, path + [other]) == path + [other]
    decreases |path|
  {
    KeysArePlain();
    RunIs(path, [other]);
    AttrIs(r, prev, path + [other]);
    if path == "" {
      assert path + [other] == [other];
      AttrPassOne(r, prev, other);
    } else {
      assert (path + [other])[1..] == path[1..] + [other];
      AttrPassQuiet(r, Some(path[0]), path[1..], other);
    }
  }
}
