/** White space, words, joining and trimming, over sequences of Unicode scalar values. */
module Text {
  import opened Prelude

  const MAX_USIZE: nat := 0xFFFF_FFFF_FFFF_FFFF

  function Saturated(n: nat): (r: nat)
    ensures r <= n && r <= 0xFFFF_FFFF_FFFF_FFFF && (r == n || r == 0xFFFF_FFFF_FFFF_FFFF)
  {
    if n > MAX_USIZE then MAX_USIZE else n
  }

  /** The Unicode property White_Space. */
  predicate IsSpace(c: char) {
    var n := c as int;
    || 0x9 <= n <= 0xD || n == 0x20 || n == 0x85 || n == 0xA0 || n == 0x1680
    || 0x2000 <= n <= 0x200A || n == 0x2028 || n == 0x2029 || n == 0x202F || n == 0x205F || n == 0x3000
  }

  const WHITE_SPACE := [0x9, 0xA, 0xB, 0xC, 0xD, 0x20, 0x85, 0xA0, 0x1680, 0x2000, 0x2001, 0x2002, 0x2003, 0x2004,
                        0x2005, 0x2006, 0x2007, 0x2008, 0x2009, 0x200A, 0x2028, 0x2029, 0x202F, 0x205F, 0x3000]

  /** Twenty-five characters have it. */
  lemma SpaceTable(c: char)
    ensures IsSpace(c) <==> c as int in WHITE_SPACE
  {
  }

  function NotSpace(): char -> bool { c => !IsSpace(c) }

  predicate Blank(s: string) {
    forall c :: c in s ==> IsSpace(c)
  }

  function TrimEnd(s: string): string {
    if s != "" && IsSpace(s[|s| - 1]) then TrimEnd(s[..|s| - 1]) else s
  }

  /** Trimming takes off the longest blank suffix. */
  lemma {:induction false} TrimEndExact(s: string)
    ensures TrimEnd(s) <= s && Blank(s[|TrimEnd(s)|..])
    ensures TrimEnd(s) != "" ==> !IsSpace(TrimEnd(s)[|TrimEnd(s)| - 1])
  {
    if s != "" && IsSpace(s[|s| - 1]) {
      TrimEndExact(s[..|s| - 1]);
      var t := TrimEnd(s);
      assert s[|t|..] == s[..|s| - 1][|t|..] + [s[|s| - 1]];
    }
  }

  // Words.

  function WordEnd(s: string): (n: nat)
    ensures n <= |s|
    ensures NoSpace(s[..n]) && (n < |s| ==> IsSpace(s[n]))
  {
    if s == "" || IsSpace(s[0]) then 0 else
      var n := WordEnd(s[1..]);
      assert s[..n + 1] == [s[0]] + s[1..][..n];
      n + 1
  }

  predicate NoSpace(s: string) {
    forall c :: c in s ==> !IsSpace(c)
  }

  predicate IsWord(w: string) { w != "" && NoSpace(w) }

  /** The maximal runs without white space. */
  function Words(s: string): seq<string>
    decreases |s|
  {
    if s == "" then []
    else if IsSpace(s[0]) then Words(s[1..])
    else [s[..WordEnd(s)]] + Words(s[WordEnd(s)..])
  }

  function Concat(parts: seq<string>): string {
    if parts == [] then "" else parts[0] + Concat(parts[1..])
  }

  /** Splitting loses and reorders nothing but white space. */
  lemma {:induction false} WordsKeepText(s: string)
    ensures Concat(Words(s)) == Filter(NotSpace(), s)
    ensures forall w :: w in Words(s) ==> IsWord(w)
    decreases |s|
  {
    if s != "" {
      var n := if IsSpace(s[0]) then 1 else WordEnd(s);
      WordsKeepText(s[n..]);
      assert s == s[..n] + s[n..];
      FilterAppend(NotSpace(), s[..n], s[n..]);
      FilterUniform(NotSpace(), s[..n], !IsSpace(s[0]));
    }
  }

  lemma {:induction false} WordEnds(w: string, rest: string)
    requires NoSpace(w) && (rest == "" || IsSpace(rest[0]))
    ensures WordEnd(w + rest) == |w|
  {
    if w == "" {
      assert w + rest == rest;
    } else {
      assert w[0] in w && (w + rest)[1..] == w[1..] + rest;
      WordEnds(w[1..], rest);
    }
  }

  /** Words joined by blanks are split into themselves again. */
  lemma {:induction false} WordsOfJoin(words: seq<string>)
    requires forall w :: w in words ==> IsWord(w)
    ensures Words(Join(" ", words)) == words
  {
    if words != [] {
      var w, rest := words[0], words[1..];
      assert w in words && w[0] in w && words == [w] + rest;
      WordsOfJoin(rest);
      JoinFront(" ", w, rest);
      var after := if rest == [] then "" else " " + Join(" ", rest);
      assert Join(" ", words) == w + after;
      WordEnds(w, after);
      assert (w + after)[..|w|] == w && (w + after)[|w|..] == after;
      assert rest != [] ==> after[1..] == Join(" ", rest);
    }
  }

  // Pieces that occur in a text one after the other.

  ghost predicate EndsWith(text: string, end: string) {
    |end| <= |text| && text[|text| - |end|..] == end
  }

  /** The pieces of those elements that have one occur in the text in order, without overlapping. */
  ghost predicate HoldsInOrder<A>(text: string, xs: seq<A>, piece: A -> Option<string>)
    decreases |xs|
  {
    if xs == [] then true else
      var init, last := xs[..|xs| - 1], piece(xs[|xs| - 1]);
      if last.None? then HoldsInOrder(text, init, piece)
      else exists before, after :: text == before + last.value + after && HoldsInOrder(before, init, piece)
  }

  lemma {:induction false} HoldsWithin<A>(before: string, text: string, after: string, xs: seq<A>,
                                          piece: A -> Option<string>)
    requires HoldsInOrder(text, xs, piece)
    ensures HoldsInOrder(before + text + after, xs, piece)
    decreases |xs|
  {
    if xs != [] {
      var init, last := xs[..|xs| - 1], piece(xs[|xs| - 1]);
      if last.None? {
        HoldsWithin(before, text, after, init, piece);
      } else {
        var a, b :| text == a + last.value + b && HoldsInOrder(a, init, piece);
        HoldsWithin(before, a, "", init, piece);
        assert before + text + after == (before + a + "") + last.value + (b + after);
      }
    }
  }

  /** What is joined occurs in the joined text in order. */
  lemma {:induction false} JoinHolds<A(!new)>(separator: string, keep: A -> bool, f: A -> string,
                                              piece: A -> Option<string>, xs: seq<A>)
    requires forall x :: piece(x) == if keep(x) then Some(f(x)) else None
    ensures HoldsInOrder(Join(separator, Map(f, Filter(keep, xs))), xs, piece)
  {
    if xs != [] {
      var init, last := xs[..|xs| - 1], xs[|xs| - 1];
      JoinHolds(separator, keep, f, piece, init);
      if keep(last) {
        var parts := Map(f, Filter(keep, init));
        var text := Join(separator, parts);
        var before := if parts == [] then "" else text + separator;
        MapOne(f, Filter(keep, init), last);
        JoinSnoc(separator, parts, f(last));
        HoldsWithin("", text, separator, init, piece);
        assert "" + text + separator == text + separator;
        assert Join(separator, parts + [f(last)]) == before + f(last) + "";
      }
    }
  }
}
