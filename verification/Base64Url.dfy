/** URL-safe base64 (section 5 of RFC 4648): the encoder with its padding, and the lenient decoder. */
module Base64Url {
  import opened Text
  import opened Utf8
  import opened Percent

  function Symbol(n: int): char
    requires 0 <= n < 64
  {
    if n < 26 then 'A' + n as char
    else if n < 52 then 'a' + (n - 26) as char
    else if n < 62 then '0' + (n - 52) as char
    else if n == 62 then '-' else '_'
  }

  /** The decoder's table: the two URL-safe signs are translated first, the ordinary ones still mean the same. */
  function Value(c: char): (v: Option<int>)
    ensures v.Some? ==> 0 <= v.value < 64
  {
    if 'A' <= c <= 'Z' then Some((c - 'A') as int)
    else if 'a' <= c <= 'z' then Some((c - 'a') as int + 26)
    else if IsDigit(c) then Some((c - '0') as int + 52)
    else if c == '-' || c == '+' then Some(62)
    else if c == '_' || c == '/' then Some(63)
    else None
  }

  function Group(a: Byte, b: Byte, c: Byte): string {
    [Symbol(a / 4), Symbol(a % 4 * 16 + b / 16), Symbol(b % 16 * 4 + c / 64), Symbol(c % 64)]
  }

  /** `base64.urlsafe_b64encode`, padding included. */
  function EncodePadded(bs: seq<Byte>): string {
    if |bs| == 0 then ""
    else if |bs| == 1 then Group(bs[0], 0, 0)[..2] + "=="
    else if |bs| == 2 then Group(bs[0], bs[1], 0)[..3] + "="
    else Group(bs[0], bs[1], bs[2]) + EncodePadded(bs[3..])
  }

  predicate IsPad(c: char) { c == '=' }

  /** The encoding with its padding stripped. */
  function EncodeBare(bs: seq<Byte>): string { TrimRight(EncodePadded(bs), IsPad) }

  function Pads(n: nat): string {
    if n == 0 then "" else "=" + Pads(n - 1)
  }

  /** The padding put back: `-len % 4` signs. */
  function Padded(s: string): string { s + Pads((4 - |s| % 4) % 4) }

  /**
   * `binascii.a2b_base64`: `quad` symbols of the current group were read, `left` holds the bits not yet written and
   * `pads` the padding signs seen since. Unknown characters are skipped. None is the error for a cut-off group.
   */
  function Scan(s: string, quad: nat, left: nat, pads: nat): Option<seq<Byte>>
    requires quad < 4 && left < [1, 64, 16, 4][quad]
    decreases |s|
  {
    if s == "" then (if quad == 0 then Some([]) else None)
    else if s[0] == '=' then
      if quad >= 2 && quad + pads + 1 >= 4 then Some([])
      else Scan(s[1..], quad, left, if quad >= 2 then pads + 1 else pads)
    else
      match Value(s[0])
      case None => Scan(s[1..], quad, left, pads)
      case Some(v) =>
        if quad == 0 then Scan(s[1..], 1, v, 0)
        else if quad == 1 then Emit(left * 4 + v / 16, Scan(s[1..], 2, v % 16, 0))
        else if quad == 2 then Emit(left * 16 + v / 4, Scan(s[1..], 3, v % 4, 0))
        else Emit(left * 64 + v, Scan(s[1..], 0, 0, 0))
  }

  function Emit(b: Byte, rest: Option<seq<Byte>>): Option<seq<Byte>> {
    match rest case None => None case Some(bs) => Some([b] + bs)
  }

  /** `base64.urlsafe_b64decode` of a string: non-ASCII text is refused. */
  function DecodePadded(s: string): Option<seq<Byte>> {
    if Ascii(s) then Scan(s, 0, 0, 0) else None
  }

  lemma ValueOfSymbol(n: int)
    requires 0 <= n < 64
    ensures Value(Symbol(n)) == Some(n)
    ensures Symbol(n) != '=' && Symbol(n) != ':' && Symbol(n) < 128 as char
  {}

  /** Two symbols give the first byte and keep the bits that overlap. */
  lemma ScanTwo(a: Byte, low: int, rest: string)
    requires 0 <= low < 16
    ensures Scan([Symbol(a / 4), Symbol(a % 4 * 16 + low)] + rest, 0, 0, 0) == Emit(a, Scan(rest, 2, low, 0))
  {
    var s := [Symbol(a / 4), Symbol(a % 4 * 16 + low)] + rest;
    ValueOfSymbol(a / 4);
    ValueOfSymbol(a % 4 * 16 + low);
    assert s[1..][1..] == rest;
    assert s[1..][0] == Symbol(a % 4 * 16 + low);
    var v := a % 4 * 16 + low;
    assert v / 16 == a % 4 && v % 16 == low && a / 4 * 4 + a % 4 == a;
    assert Scan(s[1..], 1, a / 4, 0) == Emit(a / 4 * 4 + v / 16, Scan(rest, 2, v % 16, 0));
  }

  lemma ScanThird(b: Byte, low: int, rest: string)
    requires 0 <= low < 4
    ensures Scan([Symbol(b % 16 * 4 + low)] + rest, 2, b / 16, 0) == Emit(b, Scan(rest, 3, low, 0))
  {
    var v := b % 16 * 4 + low;
    ValueOfSymbol(v);
    assert ([Symbol(v)] + rest)[1..] == rest;
    assert v / 4 == b % 16 && v % 4 == low;
  }

  lemma ScanFourth(c: Byte, rest: string)
    ensures Scan([Symbol(c % 64)] + rest, 3, c / 64, 0) == Emit(c, Scan(rest, 0, 0, 0))
  {
    ValueOfSymbol(c % 64);
    assert ([Symbol(c % 64)] + rest)[1..] == rest;
  }

  lemma ScanGroup(a: Byte, b: Byte, c: Byte, rest: string)
    ensures Scan(Group(a, b, c) + rest, 0, 0, 0) == Emit(a, Emit(b, Emit(c, Scan(rest, 0, 0, 0))))
  {
    var last := [Symbol(c % 64)] + rest;
    var mid := [Symbol(b % 16 * 4 + c / 64)] + last;
    ScanFourth(c, rest);
    ScanThird(b, c / 64, last);
    ScanTwo(a, b / 16, mid);
    assert Group(a, b, c) + rest == [Symbol(a / 4), Symbol(a % 4 * 16 + b / 16)] + mid;
  }

  lemma ScanPads()
    ensures Scan("==", 2, 0, 0) == Some([]) && Scan("=", 3, 0, 0) == Some([])
  {
    assert "=="[1..] == "=";
    assert Scan("=", 2, 0, 1) == Some([]);
  }

  lemma ScanLastOne(a: Byte)
    ensures Scan(EncodePadded([a]), 0, 0, 0) == Some([a])
  {
    ScanPads();
    ScanTwo(a, 0, "==");
    assert EncodePadded([a]) == [Symbol(a / 4), Symbol(a % 4 * 16 + 0)] + "==";
    assert [a] == [a] + [];
  }

  lemma ScanLastTwo(a: Byte, b: Byte)
    ensures Scan(EncodePadded([a, b]), 0, 0, 0) == Some([a, b])
  {
    ScanPads();
    var third := [Symbol(b % 16 * 4 + 0)] + "=";
    ScanThird(b, 0, "=");
    ScanTwo(a, b / 16, third);
    assert EncodePadded([a, b]) == [Symbol(a / 4), Symbol(a % 4 * 16 + b / 16)] + third;
    assert [a, b] == [a] + ([b] + []);
  }

  /** Decoding the padded encoding gives the bytes back. */
  lemma {:induction false} PaddedRoundTrip(bs: seq<Byte>)
    ensures Scan(EncodePadded(bs), 0, 0, 0) == Some(bs)
    decreases |bs|
  {
    if |bs| == 1 {
      ScanLastOne(bs[0]);
      assert bs == [bs[0]];
    } else if |bs| == 2 {
      ScanLastTwo(bs[0], bs[1]);
      assert bs == [bs[0], bs[1]];
    } else if |bs| > 2 {
      PaddedRoundTrip(bs[3..]);
      ScanGroup(bs[0], bs[1], bs[2], EncodePadded(bs[3..]));
      assert bs == [bs[0]] + ([bs[1]] + ([bs[2]] + bs[3..]));
    }
  }

  predicate Symbols(s: string) { forall k :: 0 <= k < |s| ==> s[k] != '=' && s[k] != ':' && s[k] < 128 as char }

  lemma GroupSymbols(a: Byte, b: Byte, c: Byte)
    ensures Symbols(Group(a, b, c))
  {
    ValueOfSymbol(a / 4);
    ValueOfSymbol(a % 4 * 16 + b / 16);
    ValueOfSymbol(b % 16 * 4 + c / 64);
    ValueOfSymbol(c % 64);
  }

  function Body(bs: seq<Byte>): string {
    if |bs| == 0 then ""
    else if |bs| == 1 then Group(bs[0], 0, 0)[..2]
    else if |bs| == 2 then Group(bs[0], bs[1], 0)[..3]
    else Group(bs[0], bs[1], bs[2]) + Body(bs[3..])
  }

  lemma {:induction false} BodySymbols(bs: seq<Byte>)
    ensures Symbols(Body(bs)) && (bs != [] ==> Body(bs) != "")
    decreases |bs|
  {
    if |bs| == 1 { GroupSymbols(bs[0], 0, 0); }
    else if |bs| == 2 { GroupSymbols(bs[0], bs[1], 0); }
    else if |bs| > 2 {
      GroupSymbols(bs[0], bs[1], bs[2]);
      BodySymbols(bs[3..]);
    }
  }

  lemma PadAfterGroup(g: string, rest: string)
    requires |g| == 4
    ensures Padded(g + rest) == g + Padded(rest)
  {
    assert |g + rest| % 4 == |rest| % 4;
  }

  lemma SmallPads()
    ensures Pads(0) == "" && Pads(1) == "=" && Pads(2) == "=="
  {
    assert Pads(2) == "=" + Pads(1) && Pads(1) == "=" + Pads(0);
  }

  /** The padded encoding is symbols followed by exactly the padding that decoding puts back. */
  lemma {:induction false} EncodingShape(bs: seq<Byte>)
    ensures EncodePadded(bs) == Padded(Body(bs))
    decreases |bs|
  {
    SmallPads();
    if |bs| > 2 {
      EncodingShape(bs[3..]);
      PadAfterGroup(Group(bs[0], bs[1], bs[2]), Body(bs[3..]));
    }
  }

  lemma {:induction false} TrimPads(body: string, n: nat)
    requires Symbols(body)
    ensures TrimRight(body + Pads(n), IsPad) == body
    decreases n
  {
    if n == 0 {
      assert body + Pads(0) == body;
    } else {
      PadsEnd(n);
      var s := body + Pads(n);
      assert s[..|s| - 1] == body + Pads(n - 1);
      TrimPads(body, n - 1);
    }
  }

  lemma {:induction false} PadsEnd(n: nat)
    ensures |Pads(n)| == n && (n > 0 ==> Pads(n)[n - 1] == '=' && Pads(n)[..n - 1] == Pads(n - 1))
    ensures Ascii(Pads(n))
    decreases n
  {
    if n > 1 {
      PadsEnd(n - 1);
      assert Pads(n)[..n - 1] == "=" + Pads(n - 1)[..n - 2];
    }
  }

  /** Stripping the padding and putting it back loses nothing: the bytes come back from the bare text. */
  lemma BareRoundTrip(bs: seq<Byte>)
    ensures DecodePadded(Padded(EncodeBare(bs))) == Some(bs)
    ensures Symbols(EncodeBare(bs)) && (bs != [] ==> EncodeBare(bs) != "")
  {
    var body := Body(bs);
    EncodingShape(bs);
    BodySymbols(bs);
    var n := (4 - |body| % 4) % 4;
    TrimPads(body, n);
    PadsEnd(n);
    PaddedRoundTrip(bs);
  }

  // ---------------------------------------------------------------- the alphabet, and what is skipped

  const ALPHABET := UPPER + LOWER + DIGITS + "-_"

  /** The alphabet of section 5 of RFC 4648, read with the two ordinary signs besides. */
  lemma AlphabetIs(k: nat)
    requires k < 64
    ensures Symbol(k) == ALPHABET[k] && Value(ALPHABET[k]) == Some(k)
    ensures Value('+') == Some(62) && Value('/') == Some(63)
  {
    if k < 26 { LetterIs(k); }
    else if k < 52 { LetterIs(k - 26); }
    else if k < 62 { DigitIs(k - 52); }
    assert |UPPER| == |LOWER| == 26 && |DIGITS| == 10;
    assert ALPHABET[k] == if k < 26 then UPPER[k] else if k < 52 then LOWER[k - 26] else if k < 62 then DIGITS[k - 52]
                          else "-_"[k - 62];
    ValueOfSymbol(k);
  }

  lemma NoOtherSymbol(c: char)
    requires Value(c).Some?
    ensures c == ALPHABET[Value(c).value] || (c == '+' && Value(c) == Some(62)) || (c == '/' && Value(c) == Some(63))
  {
    AlphabetIs(Value(c).value);
  }

  function Known(s: string): string {
    if s == "" then "" else (if Value(s[0]).Some? || s[0] == '=' then [s[0]] else "") + Known(s[1..])
  }

  /** Any other character is skipped, wherever it stands. */
  lemma {:induction false} JunkSkipped(s: string, quad: nat, left: nat, pads: nat)
    requires quad < 4 && left < [1, 64, 16, 4][quad]
    ensures Scan(s, quad, left, pads) == Scan(Known(s), quad, left, pads)
    decreases |s|
  {
    if s != "" {
      var rest := s[1..];
      if s[0] == '=' {
        assert Known(s) == ['='] + Known(rest) && Known(s)[1..] == Known(rest);
        JunkSkipped(rest, quad, left, if quad >= 2 then pads + 1 else pads);
      } else if Value(s[0]).None? {
        assert Known(s) == Known(rest);
        JunkSkipped(rest, quad, left, pads);
      } else {
        var v := Value(s[0]).value;
        assert Known(s) == [s[0]] + Known(rest) && Known(s)[1..] == Known(rest);
        JunkSkipped(rest, (quad + 1) % 4, LeftOf(quad, v), 0);
      }
    }
  }

  function LeftOf(quad: nat, v: int): (left: nat)
    requires quad < 4 && 0 <= v < 64
    ensures left < [1, 64, 16, 4][(quad + 1) % 4]
  {
    if quad == 0 then v else if quad == 1 then v % 16 else if quad == 2 then v % 4 else 0
  }

  /** Text outside ASCII is refused, even where only skipped characters are. */
  lemma OnlyAscii(s: string, k: nat)
    requires k < |s| && s[k] >= 128 as char
    ensures DecodePadded(s).None?
  {}

  predicate AllKnown(s: string) { forall k :: 0 <= k < |s| ==> Value(s[k]).Some? && s[k] != '=' }

  lemma OneSymbol(s: string, quad: nat, left: nat, pads: nat)
    requires quad < 4 && left < [1, 64, 16, 4][quad] && s != "" && Value(s[0]).Some? && s[0] != '='
    ensures Scan(s, quad, left, pads).Some? <==> Scan(s[1..], (quad + 1) % 4, LeftOf(quad, Value(s[0]).value), 0).Some?
  {}

  /** Symbols alone decode exactly when they fill their groups of four. */
  lemma {:induction false} FullGroups(s: string, quad: nat, left: nat, pads: nat)
    requires quad < 4 && left < [1, 64, 16, 4][quad] && AllKnown(s)
    ensures Scan(s, quad, left, pads).Some? <==> (quad + |s|) % 4 == 0
    decreases |s|
  {
    if s != "" {
      OneSymbol(s, quad, left, pads);
      FullGroups(s[1..], (quad + 1) % 4, LeftOf(quad, Value(s[0]).value), 0);
    }
  }

  /** Padding that fills the group ends the text, whatever stands behind it; at the start of a group it is skipped. */
  lemma PaddingEnds(rest: string, left: nat)
    ensures left < 16 ==> Scan("==" + rest, 2, left, 0) == Some([])
    ensures left < 4 ==> Scan("=" + rest, 3, left, 0) == Some([])
    ensures left < 64 ==> Scan("=" + rest, 1, left, 0) == Scan(rest, 1, left, 0)
    ensures Scan("=" + rest, 0, 0, 0) == Scan(rest, 0, 0, 0)
  {
    assert ("==" + rest)[1..] == "=" + rest && ("=" + rest)[1..] == rest;
  }

  /** A sign too few is an error at the end, and forgotten before another symbol. */
  lemma PaddingTooShort(left: nat, c: char, rest: string)
    requires left < 16 && AllKnown([c])
    ensures Scan("=", 2, left, 0).None?
    ensures Scan("=" + ([c] + rest), 2, left, 0) == Scan([c] + rest, 2, left, 0)
  {
    assert "="[1..] == "" && ("=" + ([c] + rest))[1..] == [c] + rest;
    assert [c][0] == c && ([c] + rest)[0] == c;
  }
}
