/** Percent-encoding: `urllib.parse.quote`, and the server's decoding of a request path (section 2.1 of RFC 3986). */
module Percent {
  import opened Text
  import opened Utf8

  predicate Unreserved(c: char) {
    'a' <= c <= 'z' || 'A' <= c <= 'Z' || IsDigit(c) || c == '_' || c == '.' || c == '-' || c == '~'
  }

  function HexDigit(n: int): char
    requires 0 <= n < 16
  {
    if n < 10 then '0' + n as char else 'A' + (n - 10) as char
  }

  function HexValue(c: char): Option<int> {
    if IsDigit(c) then Some((c - '0') as int)
    else if 'A' <= c <= 'F' then Some((c - 'A') as int + 10)
    else if 'a' <= c <= 'f' then Some((c - 'a') as int + 10)
    else None
  }

  function QuoteBytes(bs: seq<Byte>): string {
    if bs == [] then "" else ['%', HexDigit(bs[0] / 16), HexDigit(bs[0] % 16)] + QuoteBytes(bs[1..])
  }

  predicate Kept(c: char, safe: set<char>) { Unreserved(c) || (c in safe && c < 128 as char) }

  function QuoteChar(c: char, safe: set<char>): string {
    if Kept(c, safe) then [c] else QuoteBytes(EncodeChar(c))
  }

  /** `quote(s, safe)`. */
  function Quote(s: string, safe: set<char>): string {
    if s == "" then "" else QuoteChar(s[0], safe) + Quote(s[1..], safe)
  }

  predicate Ascii(s: string) { forall k :: 0 <= k < |s| ==> s[k] < 128 as char }

  predicate EscapeAt(s: string) {
    |s| >= 3 && s[0] == '%' && HexValue(s[1]).Some? && HexValue(s[2]).Some?
  }

  /** `unquote_to_bytes` on an ASCII path: escapes become bytes, a percent sign that starts none stays. */
  function UnquoteBytes(s: string): seq<Byte>
    requires Ascii(s)
    decreases |s|
  {
    if s == "" then []
    else if EscapeAt(s) then
      [HexValue(s[1]).value * 16 + HexValue(s[2]).value] + UnquoteBytes(s[3..])
    else
      [s[0] as int] + UnquoteBytes(s[1..])
  }

  /** The decoded path, when its bytes are UTF-8. */
  function Unquote(s: string): Option<string>
    requires Ascii(s)
  {
    Decode(UnquoteBytes(s))
  }

  lemma {:induction false} QuoteBytesAscii(bs: seq<Byte>)
    ensures Ascii(QuoteBytes(bs))
  {
    if bs != [] { QuoteBytesAscii(bs[1..]); }
  }

  lemma {:induction false} QuoteAscii(s: string, safe: set<char>)
    ensures Ascii(Quote(s, safe))
  {
    if s != "" {
      QuoteBytesAscii(EncodeChar(s[0]));
      QuoteAscii(s[1..], safe);
    }
  }

  lemma HexRoundTrip(n: int)
    requires 0 <= n < 16
    ensures HexValue(HexDigit(n)) == Some(n) && HexDigit(n) < 128 as char
  {}

  lemma UnquoteEscape(b: Byte, rest: string)
    requires Ascii(rest)
    ensures var s := ['%', HexDigit(b / 16), HexDigit(b % 16)] + rest;
            Ascii(s) && UnquoteBytes(s) == [b] + UnquoteBytes(rest)
  {
    HexRoundTrip(b / 16);
    HexRoundTrip(b % 16);
    var s := ['%', HexDigit(b / 16), HexDigit(b % 16)] + rest;
    assert s[3..] == rest;
    assert EscapeAt(s);
  }

  lemma {:induction false} UnquoteQuotedBytes(bs: seq<Byte>, rest: string)
    requires Ascii(rest)
    ensures Ascii(QuoteBytes(bs) + rest) && UnquoteBytes(QuoteBytes(bs) + rest) == bs + UnquoteBytes(rest)
  {
    if bs == [] {
      assert QuoteBytes(bs) + rest == rest;
    } else {
      UnquoteQuotedBytes(bs[1..], rest);
      UnquoteEscape(bs[0], QuoteBytes(bs[1..]) + rest);
      Regroup(['%', HexDigit(bs[0] / 16), HexDigit(bs[0] % 16)], QuoteBytes(bs[1..]), rest);
      Regroup([bs[0]], bs[1..], UnquoteBytes(rest));
      assert bs == [bs[0]] + bs[1..];
    }
  }

  lemma UnquotePlainChar(c: char, rest: string)
    requires c < 128 as char && c != '%' && Ascii(rest)
    ensures EncodeChar(c) == [c as int]
    ensures Ascii([c] + rest) && UnquoteBytes([c] + rest) == EncodeChar(c) + UnquoteBytes(rest)
  {
    var s := [c] + rest;
    assert s[0] == c && s[1..] == rest;
    assert !EscapeAt(s);
  }

  lemma UnquoteQuotedChar(c: char, safe: set<char>, rest: string)
    requires '%' !in safe && Ascii(rest)
    ensures Ascii(QuoteChar(c, safe) + rest)
    ensures UnquoteBytes(QuoteChar(c, safe) + rest) == EncodeChar(c) + UnquoteBytes(rest)
  {
    if Kept(c, safe) { UnquotePlainChar(c, rest); } else { UnquoteQuotedBytes(EncodeChar(c), rest); }
  }

  lemma Regroup<T>(a: seq<T>, b: seq<T>, c: seq<T>)
    ensures (a + b) + c == a + (b + c)
  {}

  /** Text that needs no escape is read as itself. */
  lemma {:induction false} UnquotePlain(s: string, rest: string)
    requires Ascii(s) && '%' !in s && Ascii(rest)
    ensures Ascii(s + rest) && UnquoteBytes(s + rest) == Encode(s) + UnquoteBytes(rest)
  {
    if s == "" {
      assert s + rest == rest;
    } else {
      UnquotePlain(s[1..], rest);
      UnquotePlainChar(s[0], s[1..] + rest);
      assert s + rest == [s[0]] + (s[1..] + rest);
      Regroup(EncodeChar(s[0]), Encode(s[1..]), UnquoteBytes(rest));
    }
  }

  /** Decoding undoes quoting, whatever follows. */
  lemma {:induction false} UnquoteQuoted(s: string, safe: set<char>, rest: string)
    requires '%' !in safe && Ascii(rest)
    ensures Ascii(Quote(s, safe) + rest) && UnquoteBytes(Quote(s, safe) + rest) == Encode(s) + UnquoteBytes(rest)
  {
    if s == "" {
      assert Quote(s, safe) + rest == rest;
    } else {
      UnquoteQuoted(s[1..], safe, rest);
      UnquoteQuotedChar(s[0], safe, Quote(s[1..], safe) + rest);
      Regroup(QuoteChar(s[0], safe), Quote(s[1..], safe), rest);
      Regroup(EncodeChar(s[0]), Encode(s[1..]), UnquoteBytes(rest));
    }
  }

  /** Decoding is the inverse of quoting, for every text and every safe set without the percent sign. */
  lemma QuoteRoundTrip(s: string, safe: set<char>)
    requires '%' !in safe
    ensures Ascii(Quote(s, safe)) && Unquote(Quote(s, safe)) == Some(s)
  {
    UnquoteQuoted(s, safe, "");
    QuoteAscii(s, safe);
    assert Quote(s, safe) + "" == Quote(s, safe);
    assert Encode(s) + [] == Encode(s);
    RoundTrip(s);
  }

  // ---------------------------------------------------------------- which characters are escaped

  const UPPER := "ABCDEFGHIJKLMNOPQRSTUVWXYZ"
  const LOWER := "abcdefghijklmnopqrstuvwxyz"
  const DIGITS := "0123456789"
  const UNRESERVED := UPPER + LOWER + DIGITS + "-._~"
  const HEX_UPPER := "0123456789ABCDEF"
  const HEX_LOWER := "0123456789abcdef"

  lemma LetterIs(k: nat)
    requires k < 26
    ensures UPPER[k] == 'A' + k as char && LOWER[k] == 'a' + k as char
  {}

  lemma DigitIs(k: nat)
    requires k < 10
    ensures DIGITS[k] == '0' + k as char
  {}

  /** The characters of section 2.3 of RFC 3986. */
  lemma UnreservedAre(c: char)
    ensures Unreserved(c) <==> c in UNRESERVED
  {
    if 'A' <= c <= 'Z' { LetterIs((c - 'A') as int); }
    if 'a' <= c <= 'z' { LetterIs((c - 'a') as int); }
    if IsDigit(c) { DigitIs((c - '0') as int); }
    if c in UPPER { var k :| 0 <= k < 26 && UPPER[k] == c; LetterIs(k); }
    if c in LOWER { var k :| 0 <= k < 26 && LOWER[k] == c; LetterIs(k); }
    if c in DIGITS { var k :| 0 <= k < 10 && DIGITS[k] == c; DigitIs(k); }
    assert c in UNRESERVED <==> c in UPPER || c in LOWER || c in DIGITS || c in "-._~";
  }

  /** Text of those and of safe characters is quoted as it is. */
  lemma {:induction false} PlainStays(s: string, safe: set<char>)
    requires forall c :: c in s ==> c in UNRESERVED || (c in safe && c < 128 as char)
    ensures Quote(s, safe) == s
  {
    if s != "" {
      assert s[0] in s;
      UnreservedAre(s[0]);
      PlainStays(s[1..], safe);
      assert s == [s[0]] + s[1..];
    }
  }

  /** Any other character becomes as many escapes as its UTF-8 has bytes. */
  lemma OthersEscaped(c: char, safe: set<char>)
    requires c !in UNRESERVED && c !in safe
    ensures |Quote([c], safe)| == 3 * |EncodeChar(c)| && Quote([c], safe)[0] == '%'
  {
    UnreservedAre(c);
    EscapesAre(EncodeChar(c));
    assert [c][1..] == "" && Quote("", safe) == "";
    assert Quote([c], safe) == QuoteBytes(EncodeChar(c)) + "";
  }

  lemma {:induction false} EscapesAre(bs: seq<Byte>)
    ensures |QuoteBytes(bs)| == 3 * |bs| && (bs != [] ==> QuoteBytes(bs)[0] == '%')
  {
    if bs != [] { EscapesAre(bs[1..]); }
  }

  /** An escape is read in digits of either case; it is written in upper case. */
  lemma HexAre(k: nat)
    requires k < 16
    ensures HexDigit(k) == HEX_UPPER[k] && HexValue(HEX_UPPER[k]) == Some(k) && HexValue(HEX_LOWER[k]) == Some(k)
  {}

  lemma NoOtherHex(c: char)
    requires HexValue(c).Some?
    ensures c == HEX_UPPER[HexValue(c).value] || c == HEX_LOWER[HexValue(c).value]
  {}
}
