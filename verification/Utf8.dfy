/** UTF-8 byte sequences as sections 3 and 4 of RFC 3629 define them, and where they may be cut. */
module Utf8 {
  import opened Prelude

  /** A byte; numbers that are none never occur in valid text. */
  type Byte = int

  type Bytes = seq<Byte>

  predicate IsTail(b: Byte) { 0x80 <= b <= 0xBF }

  /** One well-formed character. */
  predicate IsChar(c: Bytes) {
    && 1 <= |c| <= 4
    && (forall i :: 1 <= i < |c| ==> IsTail(c[i]))
    && (|c| == 1 ==> 0 <= c[0] <= 0x7F)
    && (|c| == 2 ==> 0xC2 <= c[0] <= 0xDF)
    && (|c| == 3 ==> 0xE0 <= c[0] <= 0xEF && (c[0] == 0xE0 ==> c[1] >= 0xA0) && (c[0] == 0xED ==> c[1] <= 0x9F))
    && (|c| == 4 ==> 0xF0 <= c[0] <= 0xF4 && (c[0] == 0xF0 ==> c[1] >= 0x90) && (c[0] == 0xF4 ==> c[1] <= 0x8F))
  }

  // A character's number and its bytes.

  predicate IsScalar(n: int) { 0 <= n <= 0xD7FF || 0xE000 <= n <= 0x10FFFF }

  function Encoded(n: nat): Bytes {
    if n <= 0x7F then [n]
    else if n <= 0x7FF then [0xC0 + n / 64, 0x80 + n % 64]
    else if n <= 0xFFFF then [0xE0 + n / 4096, 0x80 + n / 64 % 64, 0x80 + n % 64]
    else [0xF0 + n / 262144, 0x80 + n / 4096 % 64, 0x80 + n / 64 % 64, 0x80 + n % 64]
  }

  function Decoded(c: Bytes): int
    requires IsChar(c)
  {
    if |c| == 1 then c[0]
    else if |c| == 2 then (c[0] - 0xC0) * 64 + (c[1] - 0x80)
    else if |c| == 3 then (c[0] - 0xE0) * 4096 + (c[1] - 0x80) * 64 + (c[2] - 0x80)
    else (c[0] - 0xF0) * 262144 + (c[1] - 0x80) * 4096 + (c[2] - 0x80) * 64 + (c[3] - 0x80)
  }

  lemma DivideTwice(n: nat)
    ensures n == n / 4096 * 4096 + n / 64 % 64 * 64 + n % 64
    ensures n == n / 262144 * 262144 + n / 4096 % 64 * 4096 + n / 64 % 64 * 64 + n % 64
  {
    assert n / 64 / 64 == n / 4096 && n / 4096 / 64 == n / 262144;
  }

  lemma EncodedDecodes(n: nat)
    requires IsScalar(n)
    ensures IsChar(Encoded(n)) && Decoded(Encoded(n)) == n
  {
    DivideTwice(n);
  }

  lemma SixBits(q: nat, r: nat)
    requires r < 64
    ensures (q * 64 + r) / 64 == q && (q * 64 + r) % 64 == r
  {
  }

  lemma DecodedTwo(c: Bytes)
    requires IsChar(c) && |c| == 2
    ensures IsScalar(Decoded(c)) && Encoded(Decoded(c)) == c
  {
    SixBits(c[0] - 0xC0, c[1] - 0x80);
  }

  lemma DecodedThree(c: Bytes)
    requires IsChar(c) && |c| == 3
    ensures IsScalar(Decoded(c)) && Encoded(Decoded(c)) == c
  {
    var a, b, d := c[0] - 0xE0, c[1] - 0x80, c[2] - 0x80;
    var n := Decoded(c);
    SixBits(a, b);
    SixBits(a * 64 + b, d);
    assert n / 64 == a * 64 + b && n / 4096 == n / 64 / 64;
    assert 0x800 <= n <= 0xFFFF;
  }

  lemma DecodedFour(c: Bytes)
    requires IsChar(c) && |c| == 4
    ensures IsScalar(Decoded(c)) && Encoded(Decoded(c)) == c
  {
    var a, b, d, e := c[0] - 0xF0, c[1] - 0x80, c[2] - 0x80, c[3] - 0x80;
    var n := Decoded(c);
    SixBits(a, b);
    SixBits(a * 64 + b, d);
    SixBits(a * 4096 + b * 64 + d, e);
    assert n / 64 == a * 4096 + b * 64 + d && n / 4096 == n / 64 / 64 == a * 64 + b;
    assert n / 262144 == n / 4096 / 64 == a;
    assert 0x10000 <= n <= 0x10FFFF;
  }

  lemma DecodedEncodes(c: Bytes)
    requires IsChar(c)
    ensures IsScalar(Decoded(c)) && Encoded(Decoded(c)) == c
  {
    if |c| == 2 {
      DecodedTwo(c);
    } else if |c| == 3 {
      DecodedThree(c);
    } else if |c| == 4 {
      DecodedFour(c);
    }
  }

  /** The well-formed characters are exactly the encodings of scalar values, each of one. */
  lemma CharsAreScalars(c: Bytes)
    ensures IsChar(c) <==> exists n: nat :: IsScalar(n) && Encoded(n) == c
    ensures forall n: nat :: IsScalar(n) && Encoded(n) == c ==> IsChar(c) && Decoded(c) == n
  {
    if IsChar(c) {
      DecodedEncodes(c);
    }
    forall n: nat | IsScalar(n) && Encoded(n) == c ensures IsChar(c) && Decoded(c) == n {
      EncodedDecodes(n);
    }
  }

  function Flatten(chars: seq<Bytes>): Bytes {
    if chars == [] then [] else chars[0] + Flatten(chars[1..])
  }

  ghost predicate Spells(chars: seq<Bytes>, s: Bytes) {
    (forall c :: c in chars ==> IsChar(c)) && Flatten(chars) == s
  }

  /** Only whole well-formed characters. */
  ghost predicate Valid(s: Bytes) {
    exists chars :: Spells(chars, s)
  }

  /** An index at which text may be cut: an end, or a byte that starts a character. */
  predicate IsBoundary(s: Bytes, i: int) {
    i == 0 || i == |s| || (0 < i < |s| && !IsTail(s[i]))
  }

  lemma RestBoundary(c: Bytes, rest: Bytes, i: nat)
    requires IsChar(c) && 0 < i <= |c| + |rest| && IsBoundary(c + rest, i)
    ensures |c| <= i && IsBoundary(rest, i - |c|)
  {
  }

  lemma WholeBoundary(c: Bytes, rest: Bytes, i: nat)
    requires i <= |rest| && IsBoundary(rest, i) && (rest != [] ==> !IsTail(rest[0]))
    ensures IsBoundary(c + rest, |c| + i)
  {
  }

  lemma {:induction false} FlattenAppend(a: seq<Bytes>, b: seq<Bytes>)
    ensures Flatten(a + b) == Flatten(a) + Flatten(b)
  {
    if a == [] {
      assert a + b == b;
    } else {
      assert (a + b)[1..] == a[1..] + b;
      FlattenAppend(a[1..], b);
    }
  }

  /** A boundary falls between two characters. */
  lemma {:induction false} CutChars(chars: seq<Bytes>, s: Bytes, i: nat) returns (k: nat)
    requires Spells(chars, s) && i <= |s| && IsBoundary(s, i)
    ensures k <= |chars| && |Flatten(chars[..k])| == i
    decreases |chars|
  {
    k := 0;
    if i > 0 {
      RestBoundary(chars[0], Flatten(chars[1..]), i);
      k := CutChars(chars[1..], Flatten(chars[1..]), i - |chars[0]|);
      k := k + 1;
      assert chars[..k][1..] == chars[1..][..k - 1];
    }
  }

  /** Cutting at a boundary gives two valid texts. */
  lemma Cut(s: Bytes, i: nat)
    requires Valid(s) && i <= |s| && IsBoundary(s, i)
    ensures Valid(s[..i]) && Valid(s[i..])
  {
    var chars :| Spells(chars, s);
    var k := CutChars(chars, s, i);
    assert chars == chars[..k] + chars[k..];
    FlattenAppend(chars[..k], chars[k..]);
    assert Spells(chars[..k], s[..i]) && Spells(chars[k..], s[i..]);
  }

  lemma ValidConcat(a: Bytes, b: Bytes)
    requires Valid(a) && Valid(b)
    ensures Valid(a + b)
  {
    var x, y :| Spells(x, a) && Spells(y, b);
    FlattenAppend(x, y);
    assert Spells(x + y, a + b);
  }

  lemma StartsChar(chars: seq<Bytes>)
    requires forall c :: c in chars ==> IsChar(c)
    ensures Flatten(chars) != [] ==> !IsTail(Flatten(chars)[0])
  {
    if chars != [] {
      assert IsChar(chars[0]);
    }
  }

  lemma {:induction false} NearChar(chars: seq<Bytes>, s: Bytes, i: nat) returns (below: nat, above: nat)
    requires Spells(chars, s) && i <= |s|
    ensures below <= i <= above <= |s| && i <= below + 3 && above <= i + 3
    ensures IsBoundary(s, below) && IsBoundary(s, above)
    decreases |chars|
  {
    if i == 0 || i == |s| {
      below, above := i, i;
    } else {
      var c, rest := chars[0], Flatten(chars[1..]);
      assert IsChar(c);
      StartsChar(chars[1..]);
      if i < |c| {
        below, above := 0, |c|;
        WholeBoundary(c, rest, 0);
      } else {
        below, above := NearChar(chars[1..], rest, i - |c|);
        WholeBoundary(c, rest, below);
        WholeBoundary(c, rest, above);
        below, above := below + |c|, above + |c|;
      }
    }
  }

  /** A boundary is never more than three bytes away, in either direction. */
  lemma NearBoundary(s: Bytes, i: nat) returns (below: nat, above: nat)
    requires Valid(s) && i <= |s|
    ensures below <= i <= above <= |s| && i <= below + 3 && above <= i + 3
    ensures IsBoundary(s, below) && IsBoundary(s, above)
  {
    var chars :| Spells(chars, s);
    below, above := NearChar(chars, s, i);
  }

  // ASCII.

  predicate IsAscii(s: Bytes) {
    forall b :: b in s ==> 0 <= b <= 0x7F
  }

  function Ascii(text: string): (s: Bytes)
    ensures |s| == |text| && IsAscii(s)
  {
    if text == "" then [] else [text[0] as int % 128] + Ascii(text[1..])
  }

  lemma {:induction false} AsciiValid(s: Bytes)
    requires IsAscii(s)
    ensures Valid(s)
  {
    if s == [] {
      assert Spells([], s);
    } else {
      assert s[0] in s && forall b :: b in s[1..] ==> b in s;
      AsciiValid(s[1..]);
      assert Flatten([[s[0]]]) == [s[0]] by { assert [[s[0]]][1..] == []; }
      assert Spells([[s[0]]], [s[0]]);
      ValidConcat([s[0]], s[1..]);
      assert s == [s[0]] + s[1..];
    }
  }

  function EncodedAt(): char -> Bytes { c => Encoded(c as int) }

  /** The bytes of a text. */
  function Encoding(text: string): Bytes { FlatMap(EncodedAt(), text) }

  lemma {:induction false} EncodingValid(text: string)
    ensures Valid(Encoding(text))
  {
    if text == "" {
      assert Spells([], []);
    } else {
      var c := EncodedAt()(text[|text| - 1]);
      EncodingValid(text[..|text| - 1]);
      EncodedDecodes(text[|text| - 1] as int);
      assert Flatten([c]) == c by { assert [c][1..] == []; }
      assert Spells([c], c);
      ValidConcat(Encoding(text[..|text| - 1]), c);
    }
  }

  /** The literals of the program are their own bytes. */
  lemma {:induction false} AsciiEncodes(text: string)
    requires forall c :: c in text ==> c as int <= 0x7F
    ensures Ascii(text) == Encoding(text)
  {
    if text != "" {
      var first, rest := text[0], text[1..];
      assert first in text && text == [first] + rest && forall c :: c in rest ==> c in text;
      AsciiEncodes(rest);
      FlatMapAppend(EncodedAt(), [first], rest);
      assert Encoding([first]) == [first as int] by { assert [first][..0] == ""; }
    }
  }

  function Digits(n: nat): (s: Bytes)
    ensures s != [] && IsAscii(s) && forall d :: d in s ==> 0x30 <= d <= 0x39
  {
    if n < 10 then [0x30 + n] else Digits(n / 10) + [0x30 + n % 10]
  }

  function ReadDigits(s: Bytes): int {
    if s == [] then 0 else 10 * ReadDigits(s[..|s| - 1]) + (s[|s| - 1] - 0x30)
  }

  lemma {:induction false} DigitsRead(n: nat)
    ensures ReadDigits(Digits(n)) == n
  {
    if n >= 10 {
      DigitsRead(n / 10);
      assert Digits(n)[..|Digits(n)| - 1] == Digits(n / 10);
    } else {
      assert Digits(n)[..0] == [];
    }
  }

  // The nearest boundaries.

  /** The last boundary at or below `i`. */
  function FloorBoundary(s: Bytes, i: nat): (b: nat)
    requires i <= |s|
    ensures b <= i && IsBoundary(s, b)
  {
    if IsBoundary(s, i) then i else FloorBoundary(s, i - 1)
  }

  /** The first boundary at or above `i`. */
  function CeilBoundary(s: Bytes, i: nat): (b: nat)
    requires i <= |s|
    ensures i <= b <= |s| && IsBoundary(s, b)
    decreases |s| - i
  {
    if IsBoundary(s, i) then i else CeilBoundary(s, i + 1)
  }

  /** No boundary lies between. */
  lemma {:induction false} FloorNearest(s: Bytes, i: nat, k: nat)
    requires k <= i <= |s| && IsBoundary(s, k)
    ensures k <= FloorBoundary(s, i)
  {
    if !IsBoundary(s, i) {
      FloorNearest(s, i - 1, k);
    }
  }

  lemma {:induction false} CeilNearest(s: Bytes, i: nat, k: nat)
    requires i <= k <= |s| && IsBoundary(s, k)
    ensures CeilBoundary(s, i) <= k
    decreases |s| - i
  {
    if !IsBoundary(s, i) {
      CeilNearest(s, i + 1, k);
    }
  }

  /** What truncation keeps. */
  function Head(s: Bytes, most: nat): (r: Bytes)
    ensures |r| <= most
  {
    s[..FloorBoundary(s, Smaller(most, |s|))]
  }

  function Tail(s: Bytes, from: nat): (r: Bytes)
    ensures from <= |s| ==> |r| <= |s| - from
  {
    s[CeilBoundary(s, Smaller(from, |s|))..]
  }

  method TruncateStrBoundary(s: Bytes, most: nat) returns (r: Bytes)
    ensures r == Head(s, most)
  {
    var end := if most < |s| then most else |s|;
    while end > 0 && !IsBoundary(s, end)
      invariant 0 <= end <= |s| && FloorBoundary(s, Smaller(most, |s|)) == FloorBoundary(s, end)
    {
      end := end - 1;
    }
    r := s[..end];
  }

  method TailBoundary(s: Bytes, from: nat) returns (start: nat)
    ensures start <= |s| && s[start..] == Tail(s, from)
  {
    start := if from < |s| then from else |s|;
    while start < |s| && !IsBoundary(s, start)
      invariant start <= |s| && CeilBoundary(s, Smaller(from, |s|)) == CeilBoundary(s, start)
    {
      start := start + 1;
    }
  }

  /** What is kept is valid again. */
  lemma HeadValid(s: Bytes, most: nat)
    requires Valid(s)
    ensures Valid(Head(s, most))
  {
    Cut(s, FloorBoundary(s, Smaller(most, |s|)));
  }

  lemma TailValid(s: Bytes, from: nat)
    requires Valid(s)
    ensures Valid(Tail(s, from))
  {
    Cut(s, CeilBoundary(s, Smaller(from, |s|)));
  }

  /** Truncation keeps a prefix, at most three bytes short of what it may keep. */
  lemma HeadFits(s: Bytes, most: nat)
    requires Valid(s)
    ensures Head(s, most) <= s && |Head(s, most)| <= most && |Head(s, most)| + 3 >= Smaller(most, |s|)
  {
    var below, above := NearBoundary(s, Smaller(most, |s|));
    FloorNearest(s, Smaller(most, |s|), below);
  }

  predicate IsSuffix(t: Bytes, s: Bytes) {
    |t| <= |s| && s[|s| - |t|..] == t
  }

  lemma TailSuffix(s: Bytes, from: nat)
    ensures IsSuffix(Tail(s, from), s)
  {
  }

  /** The tail is at most three bytes short of what it may keep. */
  lemma TailFits(s: Bytes, from: nat)
    requires Valid(s) && from <= |s|
    ensures |Tail(s, from)| <= |s| - from <= |Tail(s, from)| + 3
  {
    var below, above := NearBoundary(s, from);
    CeilNearest(s, from, above);
  }
}
