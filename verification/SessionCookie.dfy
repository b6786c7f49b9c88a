/** The operator's session cookie: built, checked, and turned back into the actor it was issued to. */
module SessionCookie {
  import opened Text
  import opened Utf8
  import opened Percent
  import opened Base64Url

  /** The environment: admin token, session secret and lifetime setting, empty when unset. */
  datatype Settings = Settings(token: string, secret: string, ttl: string)

  /** HMAC-SHA-256 in hexadecimal, as a function of the secret and the payload. */
  type Sign = (string, string) -> string

  const DEFAULT_TTL := 28800
  const MIN_TTL := 300
  const MAX_TTL := 604800

  ghost predicate HexOutput(sign: Sign) {
    forall s, p :: ':' !in sign(s, p) && Ascii(sign(s, p))
  }

  /** No two payloads share a signature under one secret. */
  ghost predicate NoCollision(sign: Sign) {
    forall s, p, q :: sign(s, p) == sign(s, q) ==> p == q
  }

  function Clamp(n: int): int { if n < MIN_TTL then MIN_TTL else if n > MAX_TTL then MAX_TTL else n }

  function TtlSeconds(c: Settings): (n: int)
    ensures MIN_TTL <= n <= MAX_TTL
  {
    var raw := Strip(c.ttl);
    if raw == "" then Clamp(DEFAULT_TTL)
    else match ParseInt(raw) case Some(n) => Clamp(n) case None => Clamp(DEFAULT_TTL)
  }

  function Secret(c: Settings): string {
    if c.secret != "" then c.secret
    else if c.token != "" then "admin-session:" + c.token
    else "admin-session:local"
  }

  function EncodeActor(actor: string): string { EncodeBare(Encode(actor)) }

  /** None both for text that does not decode and for an empty actor. */
  function DecodeActor(text: string): Option<string> {
    match DecodePadded(Padded(text))
    case None => None
    case Some(bs) =>
      match Decode(bs)
      case None => None
      case Some(a) => if a == "" then None else Some(a)
  }

  /** `int(time.time())`: truncation toward zero. */
  function Truncate(now: real): int { if now >= 0.0 then now.Floor else -((-now).Floor) }

  function ExpiresAt(c: Settings, now: real): int { Truncate(now) + TtlSeconds(c) }

  function Payload(expires: int, nonce: string, actor: string): string {
    IntText(expires) + ":" + nonce + ":" + EncodeActor(actor)
  }

  function BuildCookie(sign: Sign, c: Settings, now: real, nonce: string, actor: string): string {
    var payload := Payload(ExpiresAt(c, now), nonce, actor);
    payload + ":" + sign(Secret(c), payload)
  }

  /** `Raises` stands for the TypeError of comparing text outside ASCII. */
  datatype Verdict = Refused | Accepted | Raises

  function CheckCookie(sign: Sign, c: Settings, now: real, cookie: string): Verdict {
    if cookie == "" then Refused
    else
      var parts := Split(cookie, ':');
      if |parts| != 3 && |parts| != 4 then Refused
      else if parts[1] == "" then Refused
      else
        match ParseInt(parts[0])
        case None => Refused
        case Some(expires) =>
          if expires <= Truncate(now) then Refused
          else
            var sig := parts[|parts| - 1];
            var expected := sign(Secret(c), Join(parts[..|parts| - 1], ':'));
            if !Ascii(sig) || !Ascii(expected) then Raises
            else if sig == expected then Accepted else Refused
  }

  const LEGACY_ACTOR := "legacy_admin_session"

  /** What `admin_request_actor` looks at: the token header, the two cookies, and whether the host is a public one. */
  datatype Request = Request(header: string, cookie: string, legacyCookie: string, publicHost: bool)

  datatype Identity = Forbidden | Unauthorized | Operator(actor: string) | Fault

  function CookieActor(cookie: string): string {
    var parts := Split(cookie, ':');
    if |parts| == 4 then
      match DecodeActor(parts[2]) case Some(a) => a case None => LEGACY_ACTOR
    else LEGACY_ACTOR
  }

  function RequestActor(sign: Sign, c: Settings, now: real, r: Request): Identity {
    if Strip(r.header) != "" && r.publicHost then Forbidden
    else if c.token != "" && !(Ascii(r.header) && Ascii(c.token)) then Fault
    else if c.token != "" && r.header == c.token then Operator("admin_token")
    else
      var cookie := if r.cookie != "" then r.cookie else r.legacyCookie;
      match CheckCookie(sign, c, now, cookie)
      case Refused => Unauthorized
      case Raises => Fault
      case Accepted => Operator(CookieActor(cookie))
  }

  /** An actor comes back from its encoding exactly when it is not empty. */
  lemma ActorRoundTrip(actor: string)
    ensures DecodeActor(EncodeActor(actor)) == (if actor == "" then None else Some(actor))
    ensures ':' !in EncodeActor(actor)
  {
    BareRoundTrip(Encode(actor));
    RoundTrip(actor);
  }

  /** A built cookie splits into exactly expiry, nonce, actor and signature. */
  lemma CookieParts(sign: Sign, c: Settings, now: real, nonce: string, actor: string)
    requires HexOutput(sign) && ':' !in nonce
    ensures var cookie, expires := BuildCookie(sign, c, now, nonce, actor), ExpiresAt(c, now);
            && Split(cookie, ':')
               == [IntText(expires), nonce, EncodeActor(actor), sign(Secret(c), Payload(expires, nonce, actor))]
            && Join(Split(cookie, ':')[..3], ':') == Payload(expires, nonce, actor)
  {
    ActorRoundTrip(actor);
    var e, a, s := IntText(ExpiresAt(c, now)), EncodeActor(actor),
                   sign(Secret(c), Payload(ExpiresAt(c, now), nonce, actor));
    JoinFour(e, nonce, a, s);
    assert ':' !in e;
    SplitJoin([e, nonce, a, s], ':');
    assert [e, nonce, a, s][..3] == [e, nonce, a];
  }

  lemma JoinFour(a: string, b: string, c: string, d: string)
    ensures Join([a, b, c], ':') == a + ":" + b + ":" + c
    ensures Join([a, b, c, d], ':') == a + ":" + b + ":" + c + ":" + d
  {
    assert [a, b, c, d][1..] == [b, c, d] && [b, c, d][1..] == [c, d] && [c, d][1..] == [d];
    assert [a, b, c][1..] == [b, c] && [b, c][1..] == [c];
    assert Join([c, d], ':') == c + [':'] + d;
    assert Join([b, c, d], ':') == b + [':'] + (c + [':'] + d);
    assert Join([b, c], ':') == b + [':'] + c;
    assert Join([a, b, c], ':') == a + [':'] + (b + [':'] + c);
  }

  /** Under any settings, a cookie is accepted exactly until it expires, if the secrets sign it alike. */
  lemma AcceptedUntilExpiry(sign: Sign, issuer: Settings, c: Settings, issued: real, now: real, nonce: string, actor: string)
    requires HexOutput(sign) && ':' !in nonce && nonce != "" && issued >= 0.0
    ensures var expires := ExpiresAt(issuer, issued);
            var p := Payload(expires, nonce, actor);
            CheckCookie(sign, c, now, BuildCookie(sign, issuer, issued, nonce, actor))
            == if now < expires as real && sign(Secret(c), p) == sign(Secret(issuer), p) then Accepted else Refused
  {
    CookieParts(sign, issuer, issued, nonce, actor);
    IntRoundTrip(ExpiresAt(issuer, issued));
  }

  /** The lifetime counted in whole seconds from the moment of issue. */
  lemma Lifetime(c: Settings, issued: real)
    requires issued >= 0.0
    ensures issued + 299.0 < ExpiresAt(c, issued) as real <= issued + 604800.0
  {}

  /** The token header settles the request before any cookie is looked at. */
  predicate HeaderDecides(c: Settings, r: Request) {
    || (Strip(r.header) != "" && r.publicHost)
    || (c.token != "" && (!Ascii(r.header) || !Ascii(c.token) || r.header == c.token))
  }

  /**
   * The request that carries a built cookie acts as the actor it was issued to, exactly until the cookie expires,
   * whatever else its token header holds: only a header that is refused, is the token, or cannot be compared decides
   * before the cookie.
   */
  lemma SessionRoundTrip(sign: Sign, c: Settings, issued: real, now: real, nonce: string, actor: string, r: Request)
    requires HexOutput(sign) && ':' !in nonce && nonce != "" && issued >= 0.0 && actor != ""
    requires r.cookie == BuildCookie(sign, c, issued, nonce, actor)
    ensures !HeaderDecides(c, r) ==>
      RequestActor(sign, c, now, r) == if now < ExpiresAt(c, issued) as real then Operator(actor) else Unauthorized
    ensures HeaderDecides(c, r) ==>
      RequestActor(sign, c, now, r) == if Strip(r.header) != "" && r.publicHost then Forbidden
                                       else if Ascii(r.header) && Ascii(c.token) then Operator("admin_token") else Fault
  {
    CookieParts(sign, c, issued, nonce, actor);
    AcceptedUntilExpiry(sign, c, c, issued, now, nonce, actor);
    ActorRoundTrip(actor);
  }

  /** Everything before the last separator. */
  lemma {:induction false} JoinLast(parts: seq<string>, c: char)
    requires |parts| >= 2
    ensures Join(parts, c) == Join(parts[..|parts| - 1], c) + [c] + parts[|parts| - 1]
    decreases |parts|
  {
    var n := |parts| - 1;
    if n == 1 {
      assert Join(parts[1..], c) == parts[1];
    } else {
      JoinLast(parts[1..], c);
      assert parts[1..][..n - 1] == parts[..n][1..];
    }
  }

  /** An accepted cookie is its payload followed by that payload's signature, and its expiry is still ahead. */
  lemma AcceptedMeansSigned(sign: Sign, c: Settings, now: real, cookie: string) returns (payload: string)
    requires CheckCookie(sign, c, now, cookie).Accepted?
    ensures cookie == payload + ":" + sign(Secret(c), payload)
    ensures ParseInt(Split(cookie, ':')[0]).Some? && ParseInt(Split(cookie, ':')[0]).value > Truncate(now)
  {
    var parts := Split(cookie, ':');
    JoinSplit(cookie, ':');
    JoinLast(parts, ':');
    payload := Join(parts[..|parts| - 1], ':');
  }

  /**
   * No part of a cookie can be exchanged: two accepted cookies that end in the same signature are the same cookie,
   * so neither the actor nor the expiry under an issued signature can change.
   */
  lemma SignatureBindsCookie(sign: Sign, c: Settings, now: real, later: real, a: string, b: string)
    requires NoCollision(sign)
    requires CheckCookie(sign, c, now, a).Accepted? && CheckCookie(sign, c, later, b).Accepted?
    requires var x, y := Split(a, ':'), Split(b, ':'); x[|x| - 1] == y[|y| - 1]
    ensures a == b
  {
    var x, y := Split(a, ':'), Split(b, ':');
    JoinSplit(a, ':');
    JoinSplit(b, ':');
    JoinLast(x, ':');
    JoinLast(y, ':');
    var p, q := Join(x[..|x| - 1], ':'), Join(y[..|y| - 1], ':');
    assert sign(Secret(c), p) == sign(Secret(c), q);
  }

  // ---------------------------------------------------------------- who is let in

  /** The expiry is still ahead. Clock readings before 1970 are rounded up, later ones down. */
  predicate Ahead(expires: int, now: real) {
    if now >= 0.0 then now < expires as real else now <= (expires - 1) as real
  }

  /** A cookie taken apart: its payload, and the signature that stands behind it. The actor may be missing. */
  datatype Pieces = Pieces(expiry: string, nonce: string, actor: Option<string>, signature: string) {
    function Payload(): string {
      expiry + ":" + nonce + (match actor case Some(a) => ":" + a case None => "")
    }

    function Texts(): seq<string> {
      match actor case Some(a) => [expiry, nonce, a, signature] case None => [expiry, nonce, signature]
    }

    /** What the server reads as a session that has not run out, before it looks at the signature. */
    predicate Standing(now: real) {
      && (forall t :: t in Texts() ==> ':' !in t)
      && nonce != "" && ParseInt(expiry).Some? && Ahead(ParseInt(expiry).value, now)
    }

    predicate MakesUp(cookie: string, now: real) {
      Standing(now) && cookie == Payload() + ":" + signature
    }
  }

  /** The secret that was set, or else one made from the token. */
  predicate SignsFor(c: Settings, secret: string) {
    if c.secret != "" then secret == c.secret
    else secret == "admin-session:" + if c.token == "" then "local" else c.token
  }

  ghost predicate Genuine(sign: Sign, c: Settings, now: real, cookie: string, p: Pieces) {
    p.MakesUp(cookie, now) && Ascii(p.signature) && forall s :: SignsFor(c, s) ==> p.signature == sign(s, p.Payload())
  }

  lemma AheadIs(expires: int, now: real)
    ensures Ahead(expires, now) <==> expires > Truncate(now)
  {}

  lemma SecretIs(c: Settings, s: string)
    ensures SignsFor(c, s) <==> s == Secret(c)
  {}

  /** Without a secret of their own two settings sign alike exactly when their tokens agree, a missing one being "local". */
  lemma TokensMakeSecrets(c: Settings, d: Settings)
    requires c.secret == "" && d.secret == ""
    ensures Secret(c) == Secret(d) <==> (if c.token == "" then "local" else c.token) == if d.token == "" then "local" else d.token
  {
    TextOfSecret(c);
    TextOfSecret(d);
  }

  lemma TextOfSecret(c: Settings)
    requires c.secret == ""
    ensures |Secret(c)| >= 14 && Secret(c)[14..] == if c.token == "" then "local" else c.token
  {
    SecretIs(c, Secret(c));
  }

  lemma PiecesJoin(p: Pieces)
    ensures Join(p.Texts(), ':') == p.Payload() + ":" + p.signature
    ensures Join(p.Texts()[..|p.Texts()| - 1], ':') == p.Payload()
  {
    if p.actor.Some? {
      JoinFour(p.expiry, p.nonce, p.actor.value, p.signature);
      assert p.Texts()[..3] == [p.expiry, p.nonce, p.actor.value];
    } else {
      JoinFour(p.expiry, p.nonce, p.signature, "");
      assert p.Texts()[..2] == [p.expiry, p.nonce] && [p.expiry, p.nonce][1..] == [p.nonce];
    }
  }

  lemma PiecesSplit(p: Pieces, cookie: string)
    requires (forall t :: t in p.Texts() ==> ':' !in t) && cookie == p.Payload() + ":" + p.signature
    ensures Split(cookie, ':') == p.Texts()
    ensures Join(p.Texts()[..|p.Texts()| - 1], ':') == p.Payload()
  {
    PiecesJoin(p);
    SplitJoin(p.Texts(), ':');
  }

  function PiecesOf(parts: seq<string>): (p: Pieces)
    requires |parts| == 3 || |parts| == 4
    ensures p.Texts() == parts
  {
    if |parts| == 4 then Pieces(parts[0], parts[1], Some(parts[2]), parts[3])
    else Pieces(parts[0], parts[1], None, parts[2])
  }

  lemma SplitPieces(cookie: string) returns (p: Pieces)
    requires |Split(cookie, ':')| == 3 || |Split(cookie, ':')| == 4
    ensures p.Texts() == Split(cookie, ':') && cookie == p.Payload() + ":" + p.signature
    ensures forall t :: t in p.Texts() ==> ':' !in t
  {
    p := PiecesOf(Split(cookie, ':'));
    JoinSplit(cookie, ':');
    PiecesJoin(p);
  }

  /** How the server judges the pieces of a standing cookie. */
  lemma JudgedByPieces(sign: Sign, c: Settings, now: real, cookie: string, p: Pieces)
    requires p.MakesUp(cookie, now)
    ensures CheckCookie(sign, c, now, cookie).Accepted? <==> Genuine(sign, c, now, cookie, p)
    ensures CheckCookie(sign, c, now, cookie).Raises?
       <==> !Ascii(p.signature) || exists s :: SignsFor(c, s) && !Ascii(sign(s, p.Payload()))
  {
    PiecesSplit(p, cookie);
    AheadIs(ParseInt(p.expiry).value, now);
    SecretIs(c, Secret(c));
    forall s ensures SignsFor(c, s) <==> s == Secret(c) { SecretIs(c, s); }
  }

  lemma NotRefusedStands(sign: Sign, c: Settings, now: real, cookie: string) returns (p: Pieces)
    requires !CheckCookie(sign, c, now, cookie).Refused?
    ensures p.MakesUp(cookie, now)
  {
    p := SplitPieces(cookie);
    AheadIs(ParseInt(p.expiry).value, now);
  }

  /**
   * A cookie is accepted exactly when it is made of three or four pieces without a colon, of which the first is an
   * expiry still ahead, the second is not empty, and the last signs the rest under the secret in force.
   */
  lemma AcceptedExactly(sign: Sign, c: Settings, now: real, cookie: string)
    ensures CheckCookie(sign, c, now, cookie).Accepted? <==> exists p :: Genuine(sign, c, now, cookie, p)
  {
    if CheckCookie(sign, c, now, cookie).Accepted? {
      var p := NotRefusedStands(sign, c, now, cookie);
      JudgedByPieces(sign, c, now, cookie, p);
    } else if p :| Genuine(sign, c, now, cookie, p) {
      JudgedByPieces(sign, c, now, cookie, p);
    }
  }

  /** A header that holds anything but space. */
  predicate Written(header: string) { exists k :: 0 <= k < |header| && !IsSpace(header[k]) }

  predicate PresentsToken(c: Settings, r: Request) { c.token != "" && Ascii(c.token) && r.header == c.token }

  function CookieSent(r: Request): string { if r.cookie != "" then r.cookie else r.legacyCookie }

  /** The header and the token can be compared: there is no token, or both are ASCII. */
  predicate Comparable(c: Settings, r: Request) { c.token == "" || (Ascii(r.header) && Ascii(c.token)) }

  /**
   * A request acts as an operator exactly when it brings the token, or a genuine cookie beside a header that can be
   * compared; and never when it comes through a public host with anything written in the token header.
   */
  lemma LetInExactly(sign: Sign, c: Settings, now: real, r: Request)
    ensures RequestActor(sign, c, now, r).Forbidden? <==> Written(r.header) && r.publicHost
    ensures RequestActor(sign, c, now, r).Operator?
       <==> && !(Written(r.header) && r.publicHost)
            && (|| PresentsToken(c, r)
                || (Comparable(c, r) && exists p :: Genuine(sign, c, now, CookieSent(r), p)))
  {
    StripBlank(r.header);
    AcceptedExactly(sign, c, now, CookieSent(r));
  }

  /** Whom a request that is let in acts as. */
  lemma ActsAs(sign: Sign, c: Settings, now: real, r: Request, p: Pieces)
    requires !(Written(r.header) && r.publicHost)
    ensures PresentsToken(c, r) ==> RequestActor(sign, c, now, r) == Operator("admin_token")
    ensures (!PresentsToken(c, r) && Comparable(c, r) && Genuine(sign, c, now, CookieSent(r), p)) ==>
      RequestActor(sign, c, now, r) == Operator(if p.actor.Some? && DecodeActor(p.actor.value).Some?
                                                then DecodeActor(p.actor.value).value else "legacy_admin_session")
    ensures !Comparable(c, r) ==> RequestActor(sign, c, now, r) == Fault
  {
    StripBlank(r.header);
    if Genuine(sign, c, now, CookieSent(r), p) {
      ActorOfPieces(p, CookieSent(r));
      JudgedByPieces(sign, c, now, CookieSent(r), p);
    }
  }

  lemma ActorOfPieces(p: Pieces, cookie: string)
    requires (forall t :: t in p.Texts() ==> ':' !in t) && cookie == p.Payload() + ":" + p.signature
    ensures CookieActor(cookie) == if p.actor.Some? && DecodeActor(p.actor.value).Some?
                                   then DecodeActor(p.actor.value).value else "legacy_admin_session"
  {
    PiecesSplit(p, cookie);
  }

  /** The lifetime setting: eight hours unless it is a number, and never outside five minutes to seven days. */
  lemma TtlExactly(c: Settings, n: int)
    ensures (forall k :: 0 <= k < |c.ttl| ==> IsSpace(c.ttl[k])) ==> TtlSeconds(c) == 28800
    ensures ParseInt(c.ttl).None? ==> TtlSeconds(c) == 28800
    ensures c.ttl == IntText(n) ==> TtlSeconds(c) == if n < 300 then 300 else if n > 604800 then 604800 else n
  {
    StripBlank(c.ttl);
    StripClean(c.ttl);
    IntRoundTrip(n);
  }
}
