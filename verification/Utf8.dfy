/** Strict UTF-8, section 3 of RFC 3629. */
module Utf8 {
  import opened Text

  type Byte = b: int | 0 <= b < 256

  function EncodeChar(c: char): (r: seq<Byte>)
    ensures 1 <= |r| <= 4
  {
    var n := c as int;
    if n < 0x80 then [n]
    else if n < 0x800 then [0xC0 + n / 64, 0x80 + n % 64]
    else if n < 0x10000 then [0xE0 + n / 4096, 0x80 + n / 64 % 64, 0x80 + n % 64]
    else [0xF0 + n / 262144, 0x80 + n / 4096 % 64, 0x80 + n / 64 % 64, 0x80 + n % 64]
  }

  function Encode(s: string): seq<Byte> {
    if s == "" then [] else EncodeChar(s[0]) + Encode(s[1..])
  }

  predicate Tail(b: Byte) { 0x80 <= b < 0xC0 }

  predicate Scalar(n: int) { 0 <= n < 0xD800 || 0xE000 <= n < 0x110000 }

  datatype Decoded = Bad | Got(c: char, size: nat)

  /** The character at the front, if its bytes are well formed and shortest. */
  function DecodeChar(bs: seq<Byte>): (r: Decoded)
    requires bs != []
    ensures r.Got? ==> 1 <= r.size <= |bs|
  {
    if bs[0] < 0x80 then Got(bs[0] as char, 1)
    else if 0xC0 <= bs[0] < 0xE0 && |bs| >= 2 && Tail(bs[1]) then
      var n: int := (bs[0] as int - 0xC0) * 64 + (bs[1] as int - 0x80);
      if n >= 0x80 then Got(n as char, 2) else Bad
    else if 0xE0 <= bs[0] < 0xF0 && |bs| >= 3 && Tail(bs[1]) && Tail(bs[2]) then
      var n: int := (bs[0] as int - 0xE0) * 4096 + (bs[1] as int - 0x80) * 64 + (bs[2] as int - 0x80);
      if n >= 0x800 && Scalar(n) then Got(n as char, 3) else Bad
    else if 0xF0 <= bs[0] && |bs| >= 4 && Tail(bs[1]) && Tail(bs[2]) && Tail(bs[3]) then
      var n: int := (bs[0] as int - 0xF0) * 262144 + (bs[1] as int - 0x80) * 4096 + (bs[2] as int - 0x80) * 64 + (bs[3] as int - 0x80);
      if n >= 0x10000 && Scalar(n) then Got(n as char, 4) else Bad
    else Bad
  }

  /** `bytes.decode("utf-8")`: None is the UnicodeDecodeError. */
  function Decode(bs: seq<Byte>): Option<string>
    decreases |bs|
  {
    if bs == [] then Some("")
    else
      match DecodeChar(bs)
      case Bad => None
      case Got(c, size) =>
        match Decode(bs[size..])
        case None => None
        case Some(rest) => Some([c] + rest)
  }

  lemma CharRoundTrip(c: char, rest: seq<Byte>)
    ensures DecodeChar(EncodeChar(c) + rest) == Got(c, |EncodeChar(c)|)
  {
    var n := c as int;
    var bs := EncodeChar(c) + rest;
    if n >= 0x10000 {
      FourParts(n);
      assert bs[..4] == EncodeChar(c);
    } else if n >= 0x800 {
      ThreeParts(n);
      assert bs[..3] == EncodeChar(c);
    }
  }

  lemma ThreeParts(n: int)
    requires 0 <= n < 0x10000
    ensures n / 4096 * 4096 + n / 64 % 64 * 64 + n % 64 == n
    ensures 0 <= n / 4096 < 16
  {
    assert n / 64 / 64 == n / 4096;
    assert n / 64 == n / 64 / 64 * 64 + n / 64 % 64;
  }

  lemma FourParts(n: int)
    requires 0x10000 <= n < 0x110000
    ensures n / 262144 * 262144 + n / 4096 % 64 * 4096 + n / 64 % 64 * 64 + n % 64 == n
    ensures 0 <= n / 262144 < 8
  {
    assert n / 64 / 64 == n / 4096;
    assert n / 4096 / 64 == n / 262144;
    assert n / 64 == n / 64 / 64 * 64 + n / 64 % 64;
    assert n / 4096 == n / 4096 / 64 * 64 + n / 4096 % 64;
  }

  /** Encoding then decoding gives the text back. */
  lemma {:induction false} RoundTrip(s: string)
    ensures Decode(Encode(s)) == Some(s)
  {
    if s != "" {
      var rest := Encode(s[1..]);
      CharRoundTrip(s[0], rest);
      assert (EncodeChar(s[0]) + rest)[|EncodeChar(s[0])|..] == rest;
      RoundTrip(s[1..]);
      assert [s[0]] + s[1..] == s;
    }
  }

  lemma {:induction false} EncodeAppend(a: string, b: string)
    ensures Encode(a + b) == Encode(a) + Encode(b)
  {
    if a == "" {
      assert a + b == b;
    } else {
      assert (a + b)[1..] == a[1..] + b;
      EncodeAppend(a[1..], b);
    }
  }

  lemma CharExact(bs: seq<Byte>)
    requires bs != [] && DecodeChar(bs).Got?
    ensures EncodeChar(DecodeChar(bs).c) == bs[..DecodeChar(bs).size]
  {
    var r := DecodeChar(bs);
    var n := r.c as int;
    if r.size == 2 {
      TwoDigits(bs[0] as int - 0xC0, bs[1] as int - 0x80, n);
    } else if r.size == 3 {
      TwoDigits((bs[0] as int - 0xE0) * 64 + (bs[1] as int - 0x80), bs[2] as int - 0x80, n);
      TwoDigits(bs[0] as int - 0xE0, bs[1] as int - 0x80, n / 64);
      assert n / 64 / 64 == n / 4096;
    } else if r.size == 4 {
      TwoDigits(((bs[0] as int - 0xF0) * 64 + (bs[1] as int - 0x80)) * 64 + (bs[2] as int - 0x80), bs[3] as int - 0x80, n);
      TwoDigits((bs[0] as int - 0xF0) * 64 + (bs[1] as int - 0x80), bs[2] as int - 0x80, n / 64);
      TwoDigits(bs[0] as int - 0xF0, bs[1] as int - 0x80, n / 64 / 64);
      assert n / 64 / 64 == n / 4096 && n / 4096 / 64 == n / 262144;
    }
    assert EncodeChar(r.c) == bs[..r.size];
  }

  lemma TwoDigits(high: int, low: int, n: int)
    requires 0 <= low < 64 && 0 <= high && n == high * 64 + low
    ensures n / 64 == high && n % 64 == low
  {}

  lemma FirstEncoded(c: char, rest: string)
    ensures Encode([c] + rest) == EncodeChar(c) + Encode(rest)
  {
    assert ([c] + rest)[1..] == rest;
  }

  lemma CharThenRest(bs: seq<Byte>)
    requires bs != [] && DecodeChar(bs).Got?
    ensures EncodeChar(DecodeChar(bs).c) + bs[DecodeChar(bs).size..] == bs
  {
    CharExact(bs);
  }

  lemma FirstDecoded(bs: seq<Byte>)
    requires bs != [] && Decode(bs).Some?
    ensures var r := DecodeChar(bs);
            r.Got? && Decode(bs[r.size..]).Some? && Decode(bs).value == [r.c] + Decode(bs[r.size..]).value
  {}

  lemma {:induction false} DecodedIsEncoded(bs: seq<Byte>)
    requires Decode(bs).Some?
    ensures Encode(Decode(bs).value) == bs
    decreases |bs|
  {
    if bs != [] {
      FirstDecoded(bs);
      var r := DecodeChar(bs);
      DecodedIsEncoded(bs[r.size..]);
      FirstEncoded(r.c, Decode(bs[r.size..]).value);
      CharThenRest(bs);
    }
  }

  /** Nothing decodes but what some text encodes to: no longer forms, no surrogates, nothing cut short. */
  lemma DecodesExactly(bs: seq<Byte>)
    ensures Decode(bs).Some? ==> Encode(Decode(bs).value) == bs
    ensures Decode(bs).None? ==> forall s :: Encode(s) != bs
  {
    if Decode(bs).Some? { DecodedIsEncoded(bs); }
    forall s ensures Encode(s) == bs ==> Decode(bs).Some? { RoundTrip(s); }
  }
}
