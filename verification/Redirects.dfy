/** Redirects from legacy proxy paths: what `resolve_proxy_redirect_path` answers, and that following it ends. */
module Redirects {
  import opened Text
  import opened Utf8
  import opened Percent

  datatype Match = NoMatch | Found(id: string, tail: string)

  const NODE_UI := "/nodes/proxy/ui/"
  const NODE_API := "/nodes/proxy/"
  const ADDON_UI := "/addons/proxy/"
  const NODES := "/nodes/"
  const LEGACY_NODE := "/ui/nodes/"
  const LEGACY_ADDON := "/ui/addons/"

  /** `.*` followed by `$`: no newline, except one at the very end that `$` looks past. */
  function DotStar(s: string): Option<string> {
    if '\n' !in s then Some(s)
    else if s[|s| - 1] == '\n' && '\n' !in s[..|s| - 1] then Some(s[..|s| - 1])
    else None
  }

  /** `^prefix([^/]+)$`. */
  function MatchBase(prefix: string, path: string): Match {
    if prefix <= path && path[|prefix|..] != "" && '/' !in path[|prefix|..] then Found(path[|prefix|..], "") else NoMatch
  }

  /** `(?:/(.*))?$` behind an id. */
  function MatchEnd(id: string, end: string): Match {
    if end == "" then Found(id, "")
    else if end[0] != '/' then NoMatch
    else match DotStar(end[1..]) case None => NoMatch case Some(tail) => Found(id, tail)
  }

  /** `^prefix([^/]+)(?:/(.*))?$`. */
  function MatchTail(prefix: string, path: string): Match {
    if !(prefix <= path) then NoMatch
    else
      var rest := path[|prefix|..];
      var i := IndexOf(rest, '/', 0);
      if i == 0 then NoMatch else MatchEnd(rest[..i], rest[i..])
  }

  /** `^/nodes/([^/]+)/ui(?:/(.*))?$`. */
  function MatchCanonical(path: string): Match {
    if !(NODES <= path) then NoMatch
    else
      var rest := path[|NODES|..];
      var i := IndexOf(rest, '/', 0);
      if i == 0 || !("/ui" <= rest[i..]) then NoMatch
      else
        var end := rest[i..][3..];
        if end == "\n" then Found(rest[..i], "") else MatchEnd(rest[..i], end)
  }

  const TAIL_SAFE := {'/', '@', ':'}

  function EncodeId(raw: string): string { Quote(Strip(raw), {}) }

  function EncodeTail(path: string): string { Quote(TrimLeft(path, IsSlash), TAIL_SAFE) }

  function NodeApiBase(id: string): string { NODE_API + EncodeId(id) + "/" }

  function NodeUiPath(id: string, tail: string): string { NODE_UI + EncodeId(id) + "/" + EncodeTail(tail) }

  function AddonUiPath(id: string, tail: string): string { ADDON_UI + EncodeId(id) + "/" + EncodeTail(tail) }

  /** `resolve_proxy_redirect_path`: the chain of matches in its order. */
  function Resolve(path: string): Option<string> {
    if MatchTail(NODE_UI, path).Found? then None
    else
      match MatchBase(NODE_API, path)
      case Found(id, _) => Some(NodeApiBase(id))
      case NoMatch =>
        match MatchCanonical(path)
        case Found(id, tail) => Some(NodeUiPath(id, tail))
        case NoMatch =>
          match MatchBase(ADDON_UI, path)
          case Found(id, _) => Some(AddonUiPath(id, ""))
          case NoMatch =>
            match MatchTail(LEGACY_NODE, path)
            case Found(id, tail) => Some(NodeUiPath(id, tail))
            case NoMatch =>
              match MatchTail(LEGACY_ADDON, path)
              case Found(id, tail) => Some(AddonUiPath(id, tail))
              case NoMatch => None
  }

  /** The middleware redirects unless the answer is the path itself. */
  function RedirectTarget(path: string): Option<string> {
    var t := Resolve(path);
    if t.Some? && t.value != "" && t.value != path then t else None
  }

  // ---------------------------------------------------------------- what a target decodes to

  predicate NoNewline(s: string) { '\n' !in s }

  /** Plain text, a quoted part, plain text, a quoted part: decoded piece by piece. */
  lemma DecodeThree(a: string, b: string, sb: set<char>, c: string, d: string, sd: set<char>)
    requires Ascii(a) && '%' !in a && Ascii(c) && '%' !in c && '%' !in sb && '%' !in sd
    ensures var t := a + Quote(b, sb) + c + Quote(d, sd);
            Ascii(t) && Unquote(t) == Some(a + b + c + d)
  {
    DecodeEnd(c, d, sd);
    var end := c + Quote(d, sd);
    DecodeMiddle(b, sb, end, c + d);
    DecodeFront(a, Quote(b, sb) + end, b + (c + d));
    FourParts(a, Quote(b, sb), c, Quote(d, sd));
    FourParts(a, b, c, d);
    RoundTrip(a + (b + (c + d)));
  }

  lemma FourParts(a: string, b: string, c: string, d: string)
    ensures a + b + c + d == a + (b + (c + d))
  {}

  lemma DecodeFront(a: string, rest: string, plain: string)
    requires Ascii(a) && '%' !in a && Ascii(rest) && UnquoteBytes(rest) == Encode(plain)
    ensures Ascii(a + rest) && UnquoteBytes(a + rest) == Encode(a + plain)
  {
    UnquotePlain(a, rest);
    EncodeAppend(a, plain);
  }

  lemma DecodeMiddle(b: string, sb: set<char>, rest: string, plain: string)
    requires '%' !in sb && Ascii(rest) && UnquoteBytes(rest) == Encode(plain)
    ensures Ascii(Quote(b, sb) + rest) && UnquoteBytes(Quote(b, sb) + rest) == Encode(b + plain)
  {
    UnquoteQuoted(b, sb, rest);
    EncodeAppend(b, plain);
  }

  lemma DecodeEnd(c: string, d: string, sd: set<char>)
    requires Ascii(c) && '%' !in c && '%' !in sd
    ensures Ascii(c + Quote(d, sd)) && UnquoteBytes(c + Quote(d, sd)) == Encode(c + d)
  {
    QuoteAscii(d, sd);
    UnquoteQuoted(d, sd, "");
    assert Quote(d, sd) + "" == Quote(d, sd) && Encode(d) + [] == Encode(d);
    UnquotePlain(c, Quote(d, sd));
    EncodeAppend(c, d);
  }

  lemma NodeApiDecodes(id: string)
    ensures var t := NodeApiBase(id); Ascii(t) && Unquote(t) == Some(NODE_API + Strip(id) + "/")
  {
    DecodeThree(NODE_API, Strip(id), {}, "/", "", {});
    assert NodeApiBase(id) + "" == NodeApiBase(id);
    assert NODE_API + Strip(id) + "/" + "" == NODE_API + Strip(id) + "/";
  }

  lemma NodeUiDecodes(id: string, tail: string)
    ensures var t := NodeUiPath(id, tail);
            Ascii(t) && Unquote(t) == Some(NODE_UI + Strip(id) + "/" + TrimLeft(tail, IsSlash))
  {
    DecodeThree(NODE_UI, Strip(id), {}, "/", TrimLeft(tail, IsSlash), TAIL_SAFE);
  }

  lemma AddonUiDecodes(id: string, tail: string)
    ensures var t := AddonUiPath(id, tail);
            Ascii(t) && Unquote(t) == Some(ADDON_UI + Strip(id) + "/" + TrimLeft(tail, IsSlash))
  {
    DecodeThree(ADDON_UI, Strip(id), {}, "/", TrimLeft(tail, IsSlash), TAIL_SAFE);
  }

  // ---------------------------------------------------------------- what is answered on a decoded target

  lemma IdThenSlash(id: string, rest: string)
    requires '/' !in id
    ensures IndexOf(id + "/" + rest, '/', 0) == |id|
  {
    IndexOfFirst(id, '/', rest);
    assert id + ['/'] + rest == id + "/" + rest;
  }

  lemma Front(prefix: string, rest: string)
    ensures prefix <= prefix + rest && (prefix + rest)[|prefix|..] == rest
  {}

  /** A canonical node UI path with a nonblank id is final, and still carries the id and the tail. */
  lemma NodeUiFinal(id: string, tail: string)
    requires id != "" && '/' !in id && NoNewline(tail)
    ensures var p := NODE_UI + id + "/" + tail;
            MatchTail(NODE_UI, p) == Found(id, tail) && Resolve(p).None?
  {
    var rest := id + "/" + tail;
    Front(NODE_UI, rest);
    IdThenSlash(id, tail);
    assert NODE_UI + id + "/" + tail == NODE_UI + rest;
    assert rest[..|id|] == id && rest[|id|..] == "/" + tail && rest[|id|..][1..] == tail;
  }

  lemma BlankIsNoUi(tail: string)
    ensures var p := NODE_UI + "/" + tail; MatchTail(NODE_UI, p).NoMatch? && MatchBase(NODE_API, p).NoMatch?
  {
    var p := NODE_UI + "/" + tail;
    Front(NODE_UI, "/" + tail);
    assert p == NODE_UI + ("/" + tail);
    Front(NODE_API, "ui//" + tail);
    assert p == NODE_API + ("ui//" + tail);
    assert ("ui//" + tail)[2] == '/';
  }

  lemma BlankIsCanonical(tail: string)
    requires NoNewline(tail)
    ensures MatchCanonical(NODE_UI + "/" + tail) == Found("proxy", "/" + tail)
  {
    var p, rest, end := NODE_UI + "/" + tail, "proxy" + "/" + ("ui//" + tail), "//" + tail;
    Front(NODES, rest);
    assert p == NODES + rest;
    IdThenSlash("proxy", "ui//" + tail);
    assert rest[..5] == "proxy" && rest[5..] == "/ui" + end;
    Front("/ui", end);
    assert end[1..] == "/" + tail && end[0] == '/' && end != "\n";
  }

  /** With a blank id it is taken for the canonical route of a node called `proxy`. */
  lemma NodeUiBlank(tail: string)
    requires NoNewline(tail)
    ensures Resolve(NODE_UI + "/" + tail) == Some(NodeUiPath("proxy", "/" + tail))
  {
    BlankIsNoUi(tail);
    BlankIsCanonical(tail);
  }

  lemma NodeApiIsNoBase(id: string)
    requires '/' !in id
    ensures var p := NODE_API + id + "/"; MatchBase(NODE_API, p).NoMatch? && MatchTail(NODE_UI, p).NoMatch?
  {
    var p, rest := NODE_API + id + "/", id + "/";
    Front(NODE_API, rest);
    assert p == NODE_API + rest;
    assert rest[|id|] == '/';
    assert |id| > 2 ==> rest[2] == id[2] && id[2] in id;
    assert NODE_UI <= p ==> p[|NODE_UI| - 1] == '/' && p[|NODE_UI| - 1] == rest[2];
    assert NODE_UI <= p ==> |p| == |NODE_UI|;
    assert NODE_UI <= p ==> p[|NODE_UI|..] == "";
  }

  lemma NodeApiCanonical(id: string)
    requires '/' !in id
    ensures MatchCanonical(NODE_API + id + "/") == if id == "ui" then Found("proxy", "") else NoMatch
  {
    var p, rest := NODE_API + id + "/", id + "/";
    var tail := "proxy" + "/" + rest;
    Front(NODES, tail);
    assert p == NODES + tail;
    IdThenSlash("proxy", rest);
    assert tail[..5] == "proxy" && tail[5..] == "/" + rest;
    var from := "/" + rest;
    assert from[|from| - 1] == '/' && |from| == |id| + 2;
    assert |id| > 2 ==> from[3] == id[2] && id[2] in id;
    assert |id| >= 2 ==> from[1] == id[0] && from[2] == id[1];
    if id == "ui" {
      assert from == "/ui" + "/" && from[3..] == "/" && from[3..][1..] == "";
    }
    if "/ui" <= from {
      assert from[1] == 'u' && from[2] == 'i';
      assert from[3..] != "" && (|id| > 2 ==> |from[3..]| >= 2 && from[3..][0] != '/');
    }
  }

  lemma UnderNodes(id: string)
    ensures NODES <= NODE_API + id + "/"
  {
    Front(NODES, "proxy/" + id + "/");
    assert NODE_API + id + "/" == NODES + ("proxy/" + id + "/");
  }

  /** The node API base: final, unless the id is `ui`. */
  lemma NodeApiNext(id: string)
    requires '/' !in id
    ensures Resolve(NODE_API + id + "/") == if id == "ui" then Some(NodeUiPath("proxy", "")) else None
  {
    NodeApiIsNoBase(id);
    NodeApiCanonical(id);
    var p := NODE_API + id + "/";
    UnderNodes(id);
    Elsewhere(p);
  }

  /** A path under /nodes/ matches none of the other forms. */
  lemma Elsewhere(p: string)
    requires NODES <= p
    ensures MatchBase(ADDON_UI, p).NoMatch? && MatchTail(LEGACY_NODE, p).NoMatch? && MatchTail(LEGACY_ADDON, p).NoMatch?
  {
    assert p[1] == p[..|NODES|][1] == NODES[1] == 'n';
    NotUnder(ADDON_UI, p);
    NotUnder(LEGACY_NODE, p);
    NotUnder(LEGACY_ADDON, p);
  }

  /** The second letter tells the families of paths apart. */
  lemma NotUnder(prefix: string, p: string)
    requires |prefix| > 1 && |p| > 1 && prefix[1] != p[1]
    ensures !(prefix <= p) && MatchBase(prefix, p).NoMatch? && MatchTail(prefix, p).NoMatch?
  {}

  lemma SlashIsNoBase(prefix: string, id: string, tail: string)
    ensures MatchBase(prefix, prefix + (id + "/" + tail)).NoMatch?
  {
    var rest := id + "/" + tail;
    Front(prefix, rest);
    assert rest[|id|] == '/';
    assert '/' in rest;
  }

  /** An addon UI path with its slash is final, even with a blank id. */
  lemma AddonUiFinal(id: string, tail: string)
    ensures Resolve(ADDON_UI + id + "/" + tail).None?
  {
    var p := ADDON_UI + id + "/" + tail;
    assert p == ADDON_UI + (id + "/" + tail);
    SlashIsNoBase(ADDON_UI, id, tail);
    assert p[1] == ADDON_UI[1] == 'a';
    NotUnder(NODE_UI, p);
    NotUnder(NODE_API, p);
    NotUnder(NODES, p);
    NotUnder(LEGACY_NODE, p);
    NotUnder(LEGACY_ADDON, p);
  }

  // ---------------------------------------------------------------- redirects settle

  predicate CleanMatch(m: Match) { m.Found? ==> '/' !in m.id && m.id != "" && NoNewline(m.tail) }

  lemma EndIsClean(id: string, end: string)
    requires '/' !in id && id != ""
    ensures CleanMatch(MatchEnd(id, end))
  {}

  lemma TailIsClean(prefix: string, path: string)
    ensures CleanMatch(MatchTail(prefix, path))
  {
    if prefix <= path {
      var rest := path[|prefix|..];
      var i := IndexOf(rest, '/', 0);
      if i > 0 { EndIsClean(rest[..i], rest[i..]); }
    }
  }

  lemma CanonicalIsClean(path: string)
    ensures CleanMatch(MatchCanonical(path))
  {
    if NODES <= path {
      var rest := path[|NODES|..];
      var i := IndexOf(rest, '/', 0);
      if i > 0 && "/ui" <= rest[i..] { EndIsClean(rest[..i], rest[i..][3..]); }
    }
  }

  /** Every id matched is free of slashes, every tail of newlines. */
  lemma MatchesAreClean(prefix: string, path: string)
    ensures CleanMatch(MatchTail(prefix, path)) && CleanMatch(MatchCanonical(path)) && CleanMatch(MatchBase(prefix, path))
  {
    TailIsClean(prefix, path);
    CanonicalIsClean(path);
  }

  lemma StripKeepsClean(id: string, tail: string)
    requires '/' !in id && NoNewline(tail)
    ensures '/' !in Strip(id) && NoNewline(TrimLeft(tail, IsSlash))
  {
    StripClean(id);
    TrimLeftClean(tail, IsSlash);
  }

  /** Where one redirect leads. */
  function Next(path: string): (p: Option<string>) {
    match Resolve(path) case None => None case Some(t) => if Ascii(t) then Unquote(t) else None
  }

  /** The two kinds of request that take a second redirect. */
  predicate SecondHop(path: string) {
    var base, canonical, legacy := MatchBase(NODE_API, path), MatchCanonical(path), MatchTail(LEGACY_NODE, path);
    if MatchTail(NODE_UI, path).Found? then false
    else if base.Found? then Strip(base.id) == "ui"
    else if canonical.Found? then Strip(canonical.id) == ""
    else if MatchBase(ADDON_UI, path).Found? then false
    else legacy.Found? && Strip(legacy.id) == ""
  }

  lemma UiProxyFinal(tail: string)
    requires NoNewline(tail)
    ensures var t := NodeUiPath("proxy", tail); Ascii(t) && Unquote(t).Some? && Resolve(Unquote(t).value).None?
  {
    NodeUiDecodes("proxy", tail);
    StripFixed("proxy");
    StripKeepsClean("proxy", tail);
    NodeUiFinal("proxy", TrimLeft(tail, IsSlash));
  }

  lemma BlankUiSettles(id: string, tail: string)
    requires '/' !in id && NoNewline(tail) && Strip(id) == ""
    ensures var t := NodeUiPath(id, tail);
            && Ascii(t) && Unquote(t).Some?
            && Resolve(Unquote(t).value) == Some(NodeUiPath("proxy", "/" + TrimLeft(tail, IsSlash)))
  {
    NodeUiDecodes(id, tail);
    StripKeepsClean(id, tail);
    BlankDecoded(TrimLeft(tail, IsSlash));
  }

  lemma BlankDecoded(tail: string)
    requires NoNewline(tail)
    ensures Resolve(NODE_UI + "" + "/" + tail) == Some(NodeUiPath("proxy", "/" + tail))
  {
    NodeUiBlank(tail);
    assert NODE_UI + "" == NODE_UI;
  }

  lemma NamedUiSettles(id: string, tail: string)
    requires '/' !in id && NoNewline(tail) && Strip(id) != ""
    ensures var t := NodeUiPath(id, tail); Ascii(t) && Unquote(t).Some? && Resolve(Unquote(t).value).None?
  {
    NodeUiDecodes(id, tail);
    StripKeepsClean(id, tail);
    NodeUiFinal(Strip(id), TrimLeft(tail, IsSlash));
  }

  /** A first redirect that decodes, a second one exactly when said, and never a third. */
  predicate Settles(path: string, second: bool) {
    && Next(path).Some?
    && (Resolve(Next(path).value).Some? <==> second)
    && (second ==> Next(Next(path).value).Some? && Resolve(Next(Next(path).value).value).None?)
  }

  lemma NodeUiHops(path: string, id: string, tail: string)
    requires Resolve(path) == Some(NodeUiPath(id, tail)) && '/' !in id && NoNewline(tail)
    ensures Settles(path, Strip(id) == "")
  {
    if Strip(id) == "" {
      BlankUiSettles(id, tail);
      StripKeepsClean(id, tail);
      UiProxyFinal("/" + TrimLeft(tail, IsSlash));
    } else {
      NamedUiSettles(id, tail);
    }
  }

  lemma NodeApiHops(path: string, id: string)
    requires Resolve(path) == Some(NodeApiBase(id)) && '/' !in id
    ensures Settles(path, Strip(id) == "ui")
  {
    NodeApiDecodes(id);
    StripKeepsClean(id, "");
    NodeApiNext(Strip(id));
    UiProxyFinal("");
  }

  lemma AddonHops(path: string, id: string, tail: string)
    requires Resolve(path) == Some(AddonUiPath(id, tail))
    ensures Settles(path, false)
  {
    AddonUiDecodes(id, tail);
    AddonUiFinal(Strip(id), TrimLeft(tail, IsSlash));
  }

  /**
   * From any request path, following the redirects and decoding each target as the server does ends after at most
   * two; the second one is taken exactly for a node called `ui` on the API base, and for a blank node id on the
   * UI routes.
   */
  lemma RedirectsSettle(path: string)
    requires Resolve(path).Some?
    ensures Settles(path, SecondHop(path))
  {
    MatchesAreClean(NODE_API, path);
    MatchesAreClean(LEGACY_NODE, path);
    MatchesAreClean(LEGACY_ADDON, path);
    var base, canonical, addon := MatchBase(NODE_API, path), MatchCanonical(path), MatchBase(ADDON_UI, path);
    var node, legacy := MatchTail(LEGACY_NODE, path), MatchTail(LEGACY_ADDON, path);
    if base.Found? {
      NodeApiHops(path, base.id);
    } else if canonical.Found? {
      NodeUiHops(path, canonical.id, canonical.tail);
    } else if addon.Found? {
      AddonHops(path, addon.id, "");
    } else if node.Found? {
      NodeUiHops(path, node.id, node.tail);
    } else {
      AddonHops(path, legacy.id, legacy.tail);
    }
  }

  /** The middleware's own loop guard only stops earlier. */
  lemma MiddlewareSettles(path: string)
    requires RedirectTarget(path).Some?
    ensures Next(path).Some?
    ensures RedirectTarget(Next(path).value).Some? ==>
      Next(Next(path).value).Some? && RedirectTarget(Next(Next(path).value).value).None?
  {
    RedirectsSettle(path);
  }

  /** A legacy node UI request with a nonblank id ends at the UI of that node, with the same tail. */
  lemma LegacyReachesNode(path: string)
    requires MatchTail(NODE_UI, path).NoMatch? && MatchBase(NODE_API, path).NoMatch? && MatchBase(ADDON_UI, path).NoMatch?
    requires MatchCanonical(path).Found? || MatchTail(LEGACY_NODE, path).Found?
    ensures var m := if MatchCanonical(path).Found? then MatchCanonical(path) else MatchTail(LEGACY_NODE, path);
            Strip(m.id) != "" ==>
              Next(path).Some? && MatchTail(NODE_UI, Next(path).value) == Found(Strip(m.id), TrimLeft(m.tail, IsSlash))
  {
    var m := if MatchCanonical(path).Found? then MatchCanonical(path) else MatchTail(LEGACY_NODE, path);
    MatchesAreClean(LEGACY_NODE, path);
    NodeUiDecodes(m.id, m.tail);
    StripKeepsClean(m.id, m.tail);
    if Strip(m.id) != "" { NodeUiFinal(Strip(m.id), TrimLeft(m.tail, IsSlash)); }
  }

  // ---------------------------------------------------------------- the routes, written out

  /** What a redirected browser asks for: the target, decoded. */
  predicate LeadsTo(path: string, target: string) { Next(path) == Some(target) }

  /** At the end of a pattern one line feed is looked past. */
  predicate AtEnd(end: string) { end == "" || end == "\n" }

  lemma DotStarTail(tail: string, end: string)
    requires NoNewline(tail) && AtEnd(end)
    ensures DotStar(tail + end) == Some(tail)
  {
    if end == "" {
      assert tail + end == tail;
    } else {
      var s := tail + end;
      assert s[|tail|] == '\n' && s[..|s| - 1] == tail;
    }
  }

  lemma TailRoute(prefix: string, id: string, tail: string, end: string)
    requires id != "" && '/' !in id && NoNewline(tail) && AtEnd(end)
    ensures MatchTail(prefix, prefix + (id + "/" + (tail + end))) == Found(id, tail)
    ensures MatchTail(prefix, prefix + id) == Found(id, "")
  {
    var rest := id + "/" + (tail + end);
    Front(prefix, rest);
    Front(prefix, id);
    IdThenSlash(id, tail + end);
    DotStarTail(tail, end);
    assert rest[..|id|] == id && rest[|id|..] == "/" + (tail + end) && rest[|id|..][1..] == tail + end;
    assert IndexOf(id, '/', 0) == |id| && id[..|id|] == id && id[|id|..] == "";
  }

  /** Under /ui/ only the two legacy patterns are left. */
  lemma UnderUi(path: string)
    requires |path| > 1 && path[1] == 'u'
    ensures MatchTail(NODE_UI, path).NoMatch? && MatchBase(NODE_API, path).NoMatch? && MatchCanonical(path).NoMatch?
    ensures MatchBase(ADDON_UI, path).NoMatch?
  {
    NotUnder(NODE_UI, path);
    NotUnder(NODE_API, path);
    NotUnder(NODES, path);
    NotUnder(ADDON_UI, path);
  }

  /** /ui/nodes/<id>/<tail> leads to the proxied UI of that node, with the tail. */
  lemma LegacyNodeRoute(id: string, tail: string, end: string)
    requires id != "" && '/' !in id && NoNewline(tail) && AtEnd(end)
    ensures LeadsTo("/ui/nodes/" + (id + "/" + (tail + end)), "/nodes/proxy/ui/" + Strip(id) + "/" + TrimLeft(tail, IsSlash))
    ensures LeadsTo("/ui/nodes/" + id, "/nodes/proxy/ui/" + Strip(id) + "/")
  {
    UnderUi("/ui/nodes/" + (id + "/" + (tail + end)));
    UnderUi("/ui/nodes/" + id);
    TailRoute(LEGACY_NODE, id, tail, end);
    NodeUiDecodes(id, tail);
    NodeUiDecodes(id, "");
    assert NODE_UI + Strip(id) + "/" + "" == NODE_UI + Strip(id) + "/";
  }

  /** /ui/addons/<id>/<tail> leads to the proxied UI of that addon, with the tail. */
  lemma LegacyAddonRoute(id: string, tail: string, end: string)
    requires id != "" && '/' !in id && NoNewline(tail) && AtEnd(end)
    ensures LeadsTo("/ui/addons/" + (id + "/" + (tail + end)), "/addons/proxy/" + Strip(id) + "/" + TrimLeft(tail, IsSlash))
    ensures LeadsTo("/ui/addons/" + id, "/addons/proxy/" + Strip(id) + "/")
  {
    var p, q := "/ui/addons/" + (id + "/" + (tail + end)), "/ui/addons/" + id;
    UnderUi(p);
    UnderUi(q);
    assert p[4] == q[4] == 'a';
    NotUnderFifth(p);
    NotUnderFifth(q);
    TailRoute(LEGACY_ADDON, id, tail, end);
    AddonUiDecodes(id, tail);
    AddonUiDecodes(id, "");
    assert ADDON_UI + Strip(id) + "/" + "" == ADDON_UI + Strip(id) + "/";
  }

  lemma NotUnderFifth(path: string)
    requires |path| > 4 && path[4] != 'n'
    ensures MatchTail(LEGACY_NODE, path).NoMatch?
  {
    assert LEGACY_NODE[4] == 'n';
  }

  /** /addons/proxy/<id> gets its slash. */
  lemma AddonBaseRoute(id: string)
    requires id != "" && '/' !in id
    ensures LeadsTo("/addons/proxy/" + id, "/addons/proxy/" + Strip(id) + "/")
  {
    var p := ADDON_UI + id;
    assert p[1] == 'a';
    NotUnder(NODE_UI, p);
    NotUnder(NODE_API, p);
    NotUnder(NODES, p);
    Front(ADDON_UI, id);
    AddonUiDecodes(id, "");
    assert ADDON_UI + Strip(id) + "/" + "" == ADDON_UI + Strip(id) + "/";
  }

  /** /nodes/proxy/<id> gets its slash, whatever the id. */
  lemma NodeBaseRoute(id: string)
    requires id != "" && '/' !in id
    ensures LeadsTo("/nodes/proxy/" + id, "/nodes/proxy/" + Strip(id) + "/")
  {
    var p := NODE_API + id;
    Front(NODE_API, id);
    assert |id| > 2 ==> p[|NODE_UI| - 1] == id[2] && id[2] in id;
    NodeApiDecodes(id);
  }

  lemma CanonicalRest(id: string, rest: string)
    requires id != "" && '/' !in id
    ensures var p := NODES + (id + ("/ui" + rest));
            MatchCanonical(p) == if rest == "\n" then Found(id, "") else MatchEnd(id, rest)
  {
    var whole := id + ("/ui" + rest);
    Front(NODES, whole);
    IdThenSlash(id, "ui" + rest);
    assert whole == id + "/" + ("ui" + rest);
    assert whole[..|id|] == id && whole[|id|..] == "/ui" + rest;
    Front("/ui", rest);
  }

  lemma SameId(a: string, b: string, rest: string)
    requires '/' !in a && '/' !in b && a + "/" <= b + "/" + rest
    ensures a == b
  {
    var s := b + "/" + rest;
    assert s == a + "/" + s[|a| + 1..];
    IdThenSlash(a, s[|a| + 1..]);
    IdThenSlash(b, rest);
    assert s[..|a|] == a && s[..|b|] == b;
  }

  lemma CanonicalAlone(id: string, rest: string)
    requires id != "" && '/' !in id && id != "proxy"
    ensures var p := NODES + (id + ("/ui" + rest)); MatchTail(NODE_UI, p).NoMatch? && MatchBase(NODE_API, p).NoMatch?
  {
    var p := NODES + (id + ("/ui" + rest));
    Front(NODES, id + ("/ui" + rest));
    assert NODE_API <= p ==> p[7..][..6] == NODE_API[7..] == "proxy" + "/";
    assert id + ("/ui" + rest) == id + "/" + ("ui" + rest);
    if "proxy" + "/" <= id + "/" + ("ui" + rest) { SameId("proxy", id, "ui" + rest); }
    Below(NODE_API, NODE_UI, p);
  }

  lemma Below(short: string, long: string, path: string)
    requires short <= long
    ensures long <= path ==> short <= path
  {}

  /** /nodes/<id>/ui/<tail> leads to the proxied UI too, unless it is read as a proxied path itself. */
  lemma CanonicalRoute(id: string, tail: string, end: string)
    requires id != "" && '/' !in id && id != "proxy" && NoNewline(tail) && AtEnd(end)
    ensures LeadsTo("/nodes/" + (id + ("/ui" + ("/" + (tail + end)))), "/nodes/proxy/ui/" + Strip(id) + "/" + TrimLeft(tail, IsSlash))
  {
    var rest := "/" + (tail + end);
    CanonicalAlone(id, rest);
    CanonicalRest(id, rest);
    DotStarTail(tail, end);
    assert rest[1..] == tail + end;
    NodeUiDecodes(id, tail);
  }

  lemma CanonicalBaseRoute(id: string, end: string)
    requires id != "" && '/' !in id && id != "proxy" && AtEnd(end)
    ensures LeadsTo("/nodes/" + (id + ("/ui" + end)), "/nodes/proxy/ui/" + Strip(id) + "/")
  {
    CanonicalAlone(id, end);
    CanonicalRest(id, end);
    NodeUiDecodes(id, "");
    assert NODE_UI + Strip(id) + "/" + "" == NODE_UI + Strip(id) + "/";
  }

  /** Nothing else is redirected. */
  lemma OthersStay(path: string)
    requires !("/nodes/" <= path) && !("/addons/proxy/" <= path) && !("/ui/nodes/" <= path) && !("/ui/addons/" <= path)
    ensures Resolve(path).None?
  {
    Below(NODES, NODE_API, path);
    Below(NODES, NODE_UI, path);
  }

  predicate Plain(s: string, also: string) { forall c :: c in s ==> c in UNRESERVED || c in also }

  lemma PlainId(id: string)
    requires Plain(id, "")
    ensures EncodeId(id) == id
  {
    forall c | c in id ensures !IsSpace(c) && c in UNRESERVED { UnreservedAre(c); }
    if id != "" { assert id[0] in id && id[|id| - 1] in id; }
    StripFixed(id);
    PlainStays(id, {});
  }

  lemma PlainTail(tail: string)
    requires Plain(tail, "/@:") && !("/" <= tail)
    ensures EncodeTail(tail) == tail
  {
    assert TrimLeft(tail, IsSlash) == tail;
    forall c | c in tail ensures c in UNRESERVED || (c in TAIL_SAFE && c < 128 as char) {}
    PlainStays(tail, TAIL_SAFE);
  }

  /** Of plain ids and tails the targets are sent as they are: letters, digits, `-._~`, and in tails `/@:`. */
  lemma PlainTargets(id: string, tail: string)
    requires Plain(id, "") && Plain(tail, "/@:") && !("/" <= tail)
    ensures NodeUiPath(id, tail) == "/nodes/proxy/ui/" + id + "/" + tail
    ensures AddonUiPath(id, tail) == "/addons/proxy/" + id + "/" + tail
    ensures NodeApiBase(id) == "/nodes/proxy/" + id + "/"
  {
    PlainId(id);
    PlainTail(tail);
  }

  /** The middleware redirects exactly to what the routes answer, except to the path itself. */
  lemma MiddlewareExactly(path: string, t: string)
    ensures RedirectTarget(path) == Some(t) <==> Resolve(path) == Some(t) && t != path
  {
    assert forall id, tail :: NodeUiPath(id, tail) != "" && AddonUiPath(id, tail) != "";
    assert forall id :: NodeApiBase(id) != "";
  }
}
