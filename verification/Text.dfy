/** Optional values and the string operations the modelled code relies on. */
module Text {

  datatype Option<+T> = None | Some(value: T)

  /** The characters that `str.strip()` removes. */
  predicate IsSpace(c: char) {
    var n := c as int;
    || 9 <= n <= 13 || 28 <= n <= 32 || n == 0x85 || n == 0xA0 || n == 0x1680
    || 0x2000 <= n <= 0x200A || n == 0x2028 || n == 0x2029 || n == 0x202F || n == 0x205F || n == 0x3000
  }

  /** The characters at which `str.splitlines()` breaks a line. */
  predicate IsLineBreak(c: char) {
    var n := c as int;
    10 <= n <= 13 || 28 <= n <= 30 || n == 0x85 || n == 0x2028 || n == 0x2029
  }

  /** The spaces and the line breaks, listed. */
  lemma SpacesAre(c: char)
    ensures IsSpace(c) <==> c in {'\t', '\n', '\U{B}', '\U{C}', '\r', '\U{1C}', '\U{1D}', '\U{1E}', '\U{1F}', ' ', '\U{85}',
                                  '\U{A0}', '\U{1680}', '\U{2000}', '\U{2001}', '\U{2002}', '\U{2003}', '\U{2004}',
                                  '\U{2005}', '\U{2006}', '\U{2007}', '\U{2008}', '\U{2009}', '\U{200A}', '\U{2028}',
                                  '\U{2029}', '\U{202F}', '\U{205F}', '\U{3000}'}
    ensures IsLineBreak(c) <==> c in {'\n', '\U{B}', '\U{C}', '\r', '\U{1C}', '\U{1D}', '\U{1E}', '\U{85}', '\U{2028}',
                                      '\U{2029}'}
  {}

  predicate IsDigit(c: char) { '0' <= c <= '9' }

  function TrimLeft(s: string, drop: char -> bool): string {
    if s != "" && drop(s[0]) then TrimLeft(s[1..], drop) else s
  }

  function TrimRight(s: string, drop: char -> bool): string {
    if s != "" && drop(s[|s| - 1]) then TrimRight(s[..|s| - 1], drop) else s
  }

  function Strip(s: string): string { TrimRight(TrimLeft(s, IsSpace), IsSpace) }

  predicate IsSlash(c: char) { c == '/' }

  function StripSlashes(s: string): string { TrimRight(TrimLeft(s, IsSlash), IsSlash) }

  /** `sub` stands in `s` at index `k`. */
  predicate StandsAt(s: string, sub: string, k: int) {
    0 <= k <= |s| - |sub| && s[k..k + |sub|] == sub
  }

  /** `sub in s` for strings. */
  predicate Contains(s: string, sub: string) {
    exists k | 0 <= k <= |s| - |sub| :: StandsAt(s, sub, k)
  }

  predicate EndsWith(s: string, suffix: string) {
    |suffix| <= |s| && s[|s| - |suffix|..] == suffix
  }

  lemma EndsWithIs(s: string, suffix: string)
    ensures EndsWith(s, suffix) <==> exists front :: s == front + suffix
  {
    if EndsWith(s, suffix) { assert s == s[..|s| - |suffix|] + suffix; }
    if front :| s == front + suffix { assert s[|s| - |suffix|..] == suffix; }
  }

  /** Index of the first occurrence of `c` at or after `from`, or the length of `s`. */
  function IndexOf(s: string, c: char, from: nat): (i: nat)
    requires from <= |s|
    ensures from <= i <= |s|
    ensures forall k :: from <= k < i ==> s[k] != c
    ensures i < |s| ==> s[i] == c
    decreases |s| - from
  {
    if from == |s| || s[from] == c then from else IndexOf(s, c, from + 1)
  }

  /** `s.split(c)`: always at least one part. */
  function Split(s: string, c: char): (parts: seq<string>)
    ensures |parts| >= 1
    ensures forall p :: p in parts ==> c !in p
    decreases |s|
  {
    var i := IndexOf(s, c, 0);
    if i == |s| then [s] else [s[..i]] + Split(s[i + 1..], c)
  }

  /** `sep.join(parts)` for a one-character separator. */
  function Join(parts: seq<string>, c: char): string {
    if |parts| == 0 then ""
    else if |parts| == 1 then parts[0]
    else parts[0] + [c] + Join(parts[1..], c)
  }

  lemma {:induction false} JoinAppend(a: seq<string>, b: seq<string>, c: char)
    requires a != [] && b != []
    ensures Join(a + b, c) == Join(a, c) + [c] + Join(b, c)
    decreases |a|
  {
    assert (a + b)[1..] == a[1..] + b;
    if |a| > 1 { JoinAppend(a[1..], b, c); }
  }

  lemma {:induction false} TrimLeftDrops(a: string, s: string, drop: char -> bool)
    requires forall c :: c in a ==> drop(c)
    ensures TrimLeft(a + s, drop) == TrimLeft(s, drop)
    decreases |a|
  {
    if a == "" {
      assert a + s == s;
    } else {
      assert a[0] in a && (a + s)[1..] == a[1..] + s;
      TrimLeftDrops(a[1..], s, drop);
    }
  }

  lemma {:induction false} TrimRightDrops(s: string, a: string, drop: char -> bool)
    requires forall c :: c in a ==> drop(c)
    ensures TrimRight(s + a, drop) == TrimRight(s, drop)
    decreases |a|
  {
    if a == "" {
      assert s + a == s;
    } else {
      var n := |a| - 1;
      assert a[n] in a && (s + a)[..|s| + n] == s + a[..n] && (s + a)[|s| + n] == a[n];
      TrimRightDrops(s, a[..n], drop);
    }
  }

  lemma IndexOfFirst(a: string, c: char, b: string)
    requires c !in a
    ensures IndexOf(a + [c] + b, c, 0) == |a|
  {
    var s := a + [c] + b;
    var i := IndexOf(s, c, 0);
    assert s[|a|] == c;
    assert forall k :: 0 <= k < |a| ==> s[k] == a[k] && a[k] in a;
  }

  lemma {:induction false} SplitJoin(parts: seq<string>, c: char)
    requires |parts| >= 1
    requires forall p :: p in parts ==> c !in p
    ensures Split(Join(parts, c), c) == parts
    decreases |parts|
  {
    var s := Join(parts, c);
    if |parts| == 1 {
      assert parts[0] in parts;
      assert forall k :: 0 <= k < |s| ==> s[k] in parts[0];
    } else {
      var rest := Join(parts[1..], c);
      assert parts[0] in parts;
      IndexOfFirst(parts[0], c, rest);
      assert s[..|parts[0]|] == parts[0];
      assert s[|parts[0]| + 1..] == rest;
      forall p | p in parts[1..] ensures c !in p {}
      SplitJoin(parts[1..], c);
      assert parts == [parts[0]] + parts[1..];
    }
  }

  lemma {:induction false} JoinSplit(s: string, c: char)
    ensures Join(Split(s, c), c) == s
    decreases |s|
  {
    var i := IndexOf(s, c, 0);
    if i < |s| {
      JoinSplit(s[i + 1..], c);
      var tail := Split(s[i + 1..], c);
      assert ([s[..i]] + tail)[1..] == tail;
      assert s == s[..i] + [c] + s[i + 1..];
    }
  }

  /** Trimming only ever shortens, and what is left does not start with a dropped character. */
  lemma {:induction false} TrimLeftClean(s: string, drop: char -> bool)
    ensures var r := TrimLeft(s, drop);
            && |r| <= |s| && r == s[|s| - |r|..]
            && (r != "" ==> !drop(r[0]))
            && (forall k :: 0 <= k < |s| - |r| ==> drop(s[k]))
  {
    if s != "" && drop(s[0]) {
      TrimLeftClean(s[1..], drop);
      var r := TrimLeft(s, drop);
      forall k | 0 <= k < |s| - |r| ensures drop(s[k]) {
        if k > 0 { assert s[k] == s[1..][k - 1]; }
      }
    }
  }

  lemma {:induction false} TrimRightClean(s: string, drop: char -> bool)
    ensures var r := TrimRight(s, drop);
            && |r| <= |s| && r == s[..|r|]
            && (r != "" ==> !drop(r[|r| - 1]))
            && (forall k :: |r| <= k < |s| ==> drop(s[k]))
  {
    if s != "" && drop(s[|s| - 1]) {
      TrimRightClean(s[..|s| - 1], drop);
      var r := TrimRight(s, drop);
      forall k | |r| <= k < |s| ensures drop(s[k]) {
        if k < |s| - 1 { assert s[k] == s[..|s| - 1][k]; }
      }
    }
  }

  /** A string with no space at either end is left alone. */
  lemma StripFixed(s: string)
    requires s != "" ==> !IsSpace(s[0]) && !IsSpace(s[|s| - 1])
    ensures Strip(s) == s
  {}

  /** Stripping is idempotent, and every character kept was there before. */
  lemma StripClean(s: string)
    ensures var r := Strip(s);
            && (r != "" ==> !IsSpace(r[0]) && !IsSpace(r[|r| - 1]))
            && Strip(r) == r
            && (forall c :: c in r ==> c in s)
  {
    TrimLeftClean(s, IsSpace);
    var l := TrimLeft(s, IsSpace);
    TrimRightClean(l, IsSpace);
    var r := Strip(s);
    if r != "" { assert r[0] == l[0]; }
    StripFixed(r);
  }

  /** Stripping leaves nothing exactly when there was nothing but space. */
  lemma StripBlank(s: string)
    ensures Strip(s) == "" <==> forall k :: 0 <= k < |s| ==> IsSpace(s[k])
  {
    TrimLeftClean(s, IsSpace);
    var l := TrimLeft(s, IsSpace);
    TrimRightClean(l, IsSpace);
    if l != "" { assert l[0] == s[|s| - |l|]; }
  }

  /** Code-point order on strings, as Python compares them. */
  predicate Less(a: string, b: string) {
    if b == "" then false
    else if a == "" then true
    else a[0] < b[0] || (a[0] == b[0] && Less(a[1..], b[1..]))
  }

  lemma {:induction false} LessTransitive(a: string, b: string, c: string)
    requires Less(a, b) && Less(b, c)
    ensures Less(a, c)
  {
    if a != "" && a[0] == b[0] == c[0] { LessTransitive(a[1..], b[1..], c[1..]); }
  }

  lemma {:induction false} LessTotal(a: string, b: string)
    ensures a == b || Less(a, b) || Less(b, a)
    ensures !(Less(a, b) && Less(b, a)) && !Less(a, a)
  {
    if a != "" && b != "" {
      LessTotal(a[1..], b[1..]);
      if a[1..] == b[1..] && a[0] == b[0] { assert a == [a[0]] + a[1..] && b == [b[0]] + b[1..]; }
    }
    if a != "" { LessTotal(a[1..], a[1..]); }
  }

  /** In code-point order, without repetition. */
  predicate Ascending(l: seq<string>) { forall i, j :: 0 <= i < j < |l| ==> Less(l[i], l[j]) }

  function InsertText(s: string, l: seq<string>): seq<string>
    decreases |l|
  {
    if l == [] || Less(s, l[0]) then [s] + l
    else if l[0] == s then l
    else [l[0]] + InsertText(s, l[1..])
  }

  /** `sorted(set(l))`. */
  function SortedSet(l: seq<string>): seq<string> {
    if l == [] then [] else InsertText(l[0], SortedSet(l[1..]))
  }

  lemma {:induction false} InsertTextMembers(s: string, l: seq<string>)
    ensures forall x :: x in InsertText(s, l) <==> x == s || x in l
    decreases |l|
  {
    if l != [] && !Less(s, l[0]) && l[0] != s {
      InsertTextMembers(s, l[1..]);
      assert forall x :: x in l <==> x == l[0] || x in l[1..];
    }
  }

  lemma {:induction false} InsertTextAscending(s: string, l: seq<string>)
    requires Ascending(l)
    ensures Ascending(InsertText(s, l))
    decreases |l|
  {
    if l == [] || l[0] == s {
    } else if Less(s, l[0]) {
      forall k | 0 < k < |l| ensures Less(s, l[k]) { LessTransitive(s, l[0], l[k]); }
    } else {
      LessTotal(s, l[0]);
      InsertTextAscending(s, l[1..]);
      InsertTextMembers(s, l[1..]);
      var rest := InsertText(s, l[1..]);
      forall k | 0 <= k < |rest| ensures Less(l[0], rest[k]) { assert rest[k] in rest; }
    }
  }

  lemma {:induction false} SortedSetKeeps(l: seq<string>)
    ensures Ascending(SortedSet(l)) && forall x :: x in SortedSet(l) <==> x in l
    decreases |l|
  {
    if l != [] {
      SortedSetKeeps(l[1..]);
      InsertTextAscending(l[0], SortedSet(l[1..]));
      InsertTextMembers(l[0], SortedSet(l[1..]));
      assert forall x :: x in l <==> x == l[0] || x in l[1..];
    }
  }

  lemma AscendingHead(a: seq<string>, x: string)
    requires Ascending(a) && x in a
    ensures x == a[0] || Less(a[0], x)
  {}

  /** An ascending list is determined by its members. */
  lemma {:induction false} AscendingUnique(a: seq<string>, b: seq<string>)
    requires Ascending(a) && Ascending(b) && forall x :: x in a <==> x in b
    ensures a == b
    decreases |a|
  {
    assert a != [] ==> a[0] in a;
    assert b != [] ==> b[0] in b;
    if a != [] {
      AscendingHead(a, b[0]);
      AscendingHead(b, a[0]);
      LessTotal(a[0], b[0]);
      forall x ensures x in a[1..] <==> x in b[1..] {
        InTail(a, x);
        InTail(b, x);
      }
      AscendingUnique(a[1..], b[1..]);
      assert a == [a[0]] + a[1..] && b == [b[0]] + b[1..];
    }
  }

  lemma InTail(a: seq<string>, x: string)
    requires Ascending(a) && a != []
    ensures x in a[1..] <==> x in a && x != a[0]
  {
    if x in a[1..] {
      var k :| 0 < k < |a| && a[k] == x;
      LessTotal(a[0], x);
    }
  }

  /** Decimal digits of a natural number, without leading zeros. */
  function DigitsOf(n: nat): (s: string)
    ensures |s| >= 1 && (n > 0 ==> s[0] != '0')
    ensures forall c :: c in s ==> IsDigit(c)
  {
    var d := ['0' + (n % 10) as char];
    if n < 10 then d else DigitsOf(n / 10) + d
  }

  /** `str(n)` for an integer. */
  function IntText(n: int): (s: string)
    ensures s != "" && forall c :: c in s ==> IsDigit(c) || c == '-'
    ensures if n < 0 then s[0] == '-' else IsDigit(s[0]) && (n > 0 ==> s[0] != '0')
  {
    if n < 0 then "-" + DigitsOf(-n) else DigitsOf(n)
  }

  /** Value of a run of digits in which single underscores may separate digits, as `int()` reads it. */
  function DigitsValue(s: string, acc: nat, afterDigit: bool): Option<nat> {
    if s == "" then (if afterDigit then Some(acc) else None)
    else if IsDigit(s[0]) then DigitsValue(s[1..], acc * 10 + (s[0] - '0') as nat, true)
    else if s[0] == '_' && afterDigit then DigitsValue(s[1..], acc, false)
    else None
  }

  /** `int(text)` on ASCII input: surrounding space, a sign, digits. None is the ValueError. */
  function ParseInt(text: string): Option<int> {
    var s := Strip(text);
    var signed := s != "" && (s[0] == '-' || s[0] == '+');
    match DigitsValue(if signed then s[1..] else s, 0, false)
    case Some(n) => Some(if signed && s[0] == '-' then 0 - n else n)
    case None => None
  }

  lemma {:induction false} DigitsValueAppend(s: string, d: char, acc: nat, afterDigit: bool)
    requires IsDigit(d) && forall c :: c in s ==> IsDigit(c)
    requires s != "" || afterDigit
    ensures DigitsValue(s, acc, afterDigit).Some?
    ensures DigitsValue(s + [d], acc, afterDigit) == Some(DigitsValue(s, acc, afterDigit).value * 10 + (d - '0') as nat)
  {
    if s == "" {
      assert s + [d] == [d];
      assert DigitsValue([d], acc, afterDigit) == DigitsValue([d][1..], acc * 10 + (d - '0') as nat, true);
    } else {
      assert s[0] in s;
      assert (s + [d])[1..] == s[1..] + [d];
      assert forall c :: c in s[1..] ==> c in s;
      DigitsValueAppend(s[1..], d, acc * 10 + (s[0] - '0') as nat, true);
    }
  }

  lemma {:induction false} DigitsRoundTrip(n: nat)
    ensures DigitsValue(DigitsOf(n), 0, false) == Some(n)
  {
    var d := '0' + (n % 10) as char;
    assert (d - '0') as nat == n % 10;
    if n < 10 {
      assert [d][1..] == "";
      assert DigitsValue([d], 0, false) == DigitsValue("", n % 10, true);
    } else {
      DigitsRoundTrip(n / 10);
      DigitsValueAppend(DigitsOf(n / 10), d, 0, false);
    }
  }

  /** Printing an integer and reading it back gives the integer. */
  lemma IntRoundTrip(n: int)
    ensures ParseInt(IntText(n)) == Some(n)
  {
    var m: nat := if n < 0 then -n else n;
    DigitsRoundTrip(m);
    var ds := DigitsOf(m);
    var s := IntText(n);
    assert ds[0] in ds && ds[|ds| - 1] in ds;
    assert s[|s| - 1] == ds[|ds| - 1];
    StripFixed(s);
    if n < 0 { assert s[1..] == ds; }
  }

  /** A plus sign makes no difference, and a minus sign negates. */
  lemma SignsRead(n: nat)
    ensures ParseInt("+" + DigitsOf(n)) == Some(n) && ParseInt("-" + DigitsOf(n)) == Some(0 - n)
  {
    var ds := DigitsOf(n);
    DigitsRoundTrip(n);
    assert ds[0] in ds && ds[|ds| - 1] in ds;
    StripFixed("+" + ds);
    StripFixed("-" + ds);
    assert ("+" + ds)[1..] == ds && ("-" + ds)[1..] == ds;
  }

  predicate Digits(s: string) { forall c :: c in s ==> IsDigit(c) }

  /** Parts of a number between underscores: digits, at least one in each, but for a first part that goes on. */
  predicate Grouped(parts: seq<string>, goesOn: bool) {
    forall k :: 0 <= k < |parts| ==> Digits(parts[k]) && (parts[k] != "" || (k == 0 && goesOn))
  }

  lemma SplitFirst(s: string, c: char)
    requires s != ""
    ensures Split(s, c) == if s[0] == c then [""] + Split(s[1..], c)
                           else [[s[0]] + Split(s[1..], c)[0]] + Split(s[1..], c)[1..]
  {
    var rest := s[1..];
    if s[0] == c {
      assert IndexOf(s, c, 0) == 0;
    } else {
      IndexOfTail(s, c);
      var i := IndexOf(rest, c, 0);
      if i < |rest| {
        assert s[..i + 1] == [s[0]] + rest[..i] && s[i + 2..] == rest[i + 1..];
      } else {
        assert s == [s[0]] + rest && Split(s, c) == [s] && Split(rest, c) == [rest];
      }
    }
  }

  lemma IndexOfTail(s: string, c: char)
    requires s != "" && s[0] != c
    ensures IndexOf(s, c, 0) == IndexOf(s[1..], c, 0) + 1
  {
    var i, j := IndexOf(s, c, 0), IndexOf(s[1..], c, 0);
    assert forall k :: 0 < k < |s| ==> s[k] == s[1..][k - 1];
    assert j < |s[1..]| ==> s[j + 1] == c;
    assert i < |s| ==> i > 0 && s[1..][i - 1] == c;
  }

  lemma {:induction false} GroupsRead(s: string, acc: nat, afterDigit: bool)
    ensures DigitsValue(s, acc, afterDigit).Some? <==> Grouped(Split(s, '_'), afterDigit)
    decreases |s|
  {
    if s == "" {
      assert Split(s, '_') == [s];
    } else {
      SplitFirst(s, '_');
      var rest := Split(s[1..], '_');
      if IsDigit(s[0]) {
        GroupsRead(s[1..], acc * 10 + (s[0] - '0') as nat, true);
        FirstGrows(s[0], rest, afterDigit);
      } else if s[0] == '_' {
        GroupsRead(s[1..], acc, false);
        if afterDigit { GroupBefore(rest); }
      } else {
        assert !Digits(Split(s, '_')[0]);
      }
    }
  }

  lemma FirstGrows(d: char, rest: seq<string>, goesOn: bool)
    requires IsDigit(d) && rest != []
    ensures Grouped([[d] + rest[0]] + rest[1..], goesOn) <==> Grouped(rest, true)
  {
    var more := [[d] + rest[0]] + rest[1..];
    assert Digits(more[0]) <==> Digits(rest[0]) by { assert forall c :: c in more[0] <==> c == d || c in rest[0]; }
    assert forall k :: 0 < k < |rest| ==> more[k] == rest[k];
  }

  lemma GroupBefore(rest: seq<string>)
    ensures Grouped([""] + rest, true) <==> Grouped(rest, false)
  {
    var more := [""] + rest;
    assert forall k :: 0 <= k < |rest| ==> more[k + 1] == rest[k];
  }

  /** What `int()` takes: space, a sign or none, and groups of digits between single underscores. */
  lemma NumbersRead(text: string)
    ensures var s := Strip(text);
            ParseInt(text).Some?
            <==> Grouped(Split(if s != "" && (s[0] == '-' || s[0] == '+') then s[1..] else s, '_'), false)
  {
    var s := Strip(text);
    GroupsRead(if s != "" && (s[0] == '-' || s[0] == '+') then s[1..] else s, 0, false);
  }
}
