/** Greedy chunking of a text into word groups that fit a byte budget, and that no other split needs fewer chunks. */
module Chunker {
  import opened Prelude
  import opened Text
  import opened Utf8

  /** The length of a character in UTF-8, section 3 of RFC 3629. */
  function CharBytes(c: char): nat {
    if c as int <= 0x7F then 1 else if c as int <= 0x7FF then 2 else if c as int <= 0xFFFF then 3 else 4
  }

  function ByteLength(s: string): nat {
    if s == "" then 0 else ByteLength(s[..|s| - 1]) + CharBytes(s[|s| - 1])
  }

  lemma {:induction false} ByteLengthAppend(a: string, b: string)
    ensures ByteLength(a + b) == ByteLength(a) + ByteLength(b)
  {
    if b == "" {
      assert a + b == a;
    } else {
      assert (a + b)[..|a + b| - 1] == a + b[..|b| - 1];
      ByteLengthAppend(a, b[..|b| - 1]);
    }
  }

  function TrimStart(s: string): string {
    if s != "" && IsSpace(s[0]) then TrimStart(s[1..]) else s
  }

  function Trim(s: string): string { TrimEnd(TrimStart(s)) }

  function Chunk(group: seq<string>): string { Join(" ", group) }

  /** The bytes of a chunk: its words, and a space between neighbours. */
  function Size(group: seq<string>): nat {
    if group == [] then 0 else
      var last := ByteLength(group[|group| - 1]);
      if |group| == 1 then last else Size(group[..|group| - 1]) + 1 + last
  }

  /** What is counted are the bytes of the encoding. */
  lemma {:induction false} LengthIsEncoding(s: string)
    ensures ByteLength(s) == |Encoding(s)|
  {
    if s != "" {
      LengthIsEncoding(s[..|s| - 1]);
    }
  }

  lemma {:induction false} SizeIsLength(group: seq<string>)
    ensures ByteLength(Chunk(group)) == Size(group)
  {
    if |group| > 1 {
      var init, last := group[..|group| - 1], group[|group| - 1];
      SizeIsLength(init);
      ByteLengthAppend(Chunk(init) + " ", last);
      ByteLengthAppend(Chunk(init), " ");
      assert ByteLength(" ") == 1 by { assert " "[..0] == ""; }
    }
  }

  /** The size of a group is that of its words joined by spaces, in UTF-8. */
  lemma SizeIsBytes(group: seq<string>)
    ensures Size(group) == |Encoding(Join(" ", group))|
  {
    SizeIsLength(group);
    LengthIsEncoding(Chunk(group));
  }

  /** A chunk fits the budget, or is a single word that cannot be split. */
  predicate Fits(group: seq<string>, budget: nat) {
    |group| == 1 || (group != [] && Size(group) <= budget)
  }

  function Flat(groups: seq<seq<string>>): seq<string> {
    if groups == [] then [] else groups[0] + Flat(groups[1..])
  }

  /** Consecutive groups that make up the words and fit. */
  ghost predicate Splits(groups: seq<seq<string>>, words: seq<string>, budget: nat) {
    Flat(groups) == words && forall g :: g in groups ==> Fits(g, budget)
  }

  /** The group could not have taken the first word of the next one. */
  predicate NoRoom(group: seq<string>, next: seq<string>, budget: nat) {
    next != [] && !Fits(group + [next[0]], budget)
  }

  ghost predicate Full(groups: seq<seq<string>>, budget: nat) {
    forall i, j :: 0 <= i && j == i + 1 && j < |groups| ==> NoRoom(groups[i], groups[j], budget)
  }

  lemma SizeGrows(group: seq<string>, word: string)
    ensures Size(group + [word]) == if group == [] then ByteLength(word) else Size(group) + 1 + ByteLength(word)
  {
  }

  lemma {:induction false} PrefixSmaller(a: seq<string>, b: seq<string>)
    ensures Size(a) <= Size(a + b)
  {
    if b == [] {
      assert a + b == a;
    } else {
      var init, last := b[..|b| - 1], b[|b| - 1];
      PrefixSmaller(a, init);
      assert a + b == a + init + [last];
      SizeGrows(a + init, last);
    }
  }

  lemma {:induction false} SuffixSmaller(a: seq<string>, b: seq<string>)
    ensures Size(b) <= Size(a + b)
  {
    if b != [] {
      var init, last := b[..|b| - 1], b[|b| - 1];
      SuffixSmaller(a, init);
      SizeGrows(a + init, last);
      SizeGrows(init, last);
      assert a + init + [last] == a + b && init + [last] == b;
    }
  }

  /** What is left of a fitting group still fits. */
  lemma PartFits(a: seq<string>, b: seq<string>, c: seq<string>, budget: nat)
    requires Fits(a + b + c, budget) && b != []
    ensures Fits(b, budget)
  {
    SuffixSmaller(a, b);
    PrefixSmaller(a + b, c);
  }

  lemma {:induction false} FlatAppend(a: seq<seq<string>>, b: seq<seq<string>>)
    ensures Flat(a + b) == Flat(a) + Flat(b)
  {
    if a == [] {
      assert a + b == b;
    } else {
      assert (a + b)[1..] == a[1..] + b;
      FlatAppend(a[1..], b);
    }
  }

  lemma TailSplits(groups: seq<seq<string>>, words: seq<string>, budget: nat)
    requires groups != [] && Splits(groups, words, budget)
    ensures groups[0] <= words && Splits(groups[1..], words[|groups[0]|..], budget)
    ensures groups[0] != [] && Fits(groups[0], budget)
  {
    assert groups[0] in groups;
  }

  /** A group that starts with the same word takes no more words than a full group. */
  lemma FullTakesMore(full: seq<seq<string>>, words: seq<string>, taken: seq<string>, budget: nat)
    requires full != [] && Splits(full, words, budget) && Full(full, budget)
    requires taken <= words && Fits(taken, budget)
    ensures |taken| <= |full[0]|
  {
    if |taken| > |full[0]| {
      TailSplits(full, words, budget);
      var rest := words[|full[0]|..];
      assert full[1..] != [];
      TailSplits(full[1..], rest, budget);
      assert NoRoom(full[0], full[1], budget);
      LongerOverflows(full[0], full[1][0], taken, words, budget);
    }
  }

  lemma LongerOverflows(group: seq<string>, word: string, taken: seq<string>, words: seq<string>, budget: nat)
    requires group <= words && |group| < |words| && words[|group|] == word && !Fits(group + [word], budget)
    requires taken <= words && |taken| > |group|
    ensures !Fits(taken, budget)
  {
    var next := group + [word];
    if Fits(taken, budget) {
      assert taken == [] + next + taken[|next|..];
      PartFits([], next, taken[|next|..], budget);
    }
  }

  /** The full split stays ahead: any split of the same words, even with more before them, needs as many groups. */
  lemma {:induction false} FullStaysAhead(full: seq<seq<string>>, words: seq<string>, before: seq<string>,
                                          other: seq<seq<string>>, budget: nat)
    requires Splits(full, words, budget) && Full(full, budget) && Splits(other, before + words, budget)
    ensures |full| <= |other|
    decreases |other|
  {
    if full != [] {
      TailSplits(full, words, budget);
      assert other != [];
      TailSplits(other, before + words, budget);
      var head := other[0];
      if |head| <= |before| {
        assert (before + words)[|head|..] == before[|head|..] + words;
        FullStaysAhead(full, words, before[|head|..], other[1..], budget);
      } else {
        var taken := words[..|head| - |before|];
        assert head == before + taken + [];
        PartFits(before, taken, [], budget);
        FullTakesMore(full, words, taken, budget);
        var left := full[0][|taken|..];
        assert (before + words)[|head|..] == left + words[|full[0]|..];
        FullRest(full, budget);
        FullStaysAhead(full[1..], words[|full[0]|..], left, other[1..], budget);
      }
    }
  }

  lemma FullRest(full: seq<seq<string>>, budget: nat)
    requires full != [] && Full(full, budget)
    ensures Full(full[1..], budget)
  {
  }

  // The loop.

  lemma ChunkTrimmed(group: seq<string>)
    requires group != [] && forall w :: w in group ==> IsWord(w)
    ensures Chunk(group) != "" && Trim(Chunk(group)) == Chunk(group)
  {
    EndsInWord(group);
  }

  lemma {:induction false} EndsInWord(group: seq<string>)
    requires group != [] && forall w :: w in group ==> IsWord(w)
    ensures Chunk(group) != "" && !IsSpace(Chunk(group)[0]) && !IsSpace(Chunk(group)[|Chunk(group)| - 1])
  {
    var init, last := group[..|group| - 1], group[|group| - 1];
    assert last in group && IsWord(last) && last[|last| - 1] in last && last[0] in last;
    if init != [] {
      assert forall w :: w in init ==> w in group;
      EndsInWord(init);
    }
  }

  /** What the loop has done: closed groups, and one still open. */
  ghost predicate Progress(closed: seq<seq<string>>, open: seq<string>, words: seq<string>, budget: nat) {
    && Flat(closed) + open == words
    && (forall g :: g in closed ==> Fits(g, budget))
    && (open == [] ==> closed == []) && (open != [] ==> Fits(open, budget))
    && Full(closed, budget)
    && (closed != [] ==> NoRoom(closed[|closed| - 1], open, budget))
  }

  lemma WordJoins(closed: seq<seq<string>>, open: seq<string>, words: seq<string>, word: string, budget: nat)
    requires Progress(closed, open, words, budget)
    requires open == [] || Size(open) + 1 + ByteLength(word) <= budget
    ensures Progress(closed, open + [word], words + [word], budget)
  {
  }

  lemma WordStarts(closed: seq<seq<string>>, open: seq<string>, words: seq<string>, word: string, budget: nat)
    requires Progress(closed, open, words, budget)
    requires open != [] && Size(open) + 1 + ByteLength(word) > budget
    ensures Progress(closed + [open], [word], words + [word], budget)
  {
    SizeGrows(open, word);
    FlatOne(closed, open);
    FullOne(closed, open, budget);
    assert NoRoom(open, [word], budget);
  }

  lemma FlatOne(closed: seq<seq<string>>, open: seq<string>)
    ensures Flat(closed + [open]) == Flat(closed) + open
  {
    FlatAppend(closed, [open]);
    assert Flat([open]) == open by { assert [open][1..] == []; }
  }

  lemma FullOne(closed: seq<seq<string>>, open: seq<string>, budget: nat)
    requires Full(closed, budget) && (closed != [] ==> NoRoom(closed[|closed| - 1], open, budget))
    ensures Full(closed + [open], budget)
  {
  }

  ghost predicate AreChunks(chunks: seq<string>, groups: seq<seq<string>>) {
    |chunks| == |groups| && forall i :: 0 <= i < |chunks| ==> chunks[i] == Chunk(groups[i])
  }

  /** No split of the words that fits has fewer groups. */
  ghost predicate Fewest(n: nat, words: seq<string>, budget: nat) {
    forall other :: Splits(other, words, budget) ==> n <= |other|
  }

  lemma GroupsDone(closed: seq<seq<string>>, open: seq<string>, words: seq<string>, budget: nat)
    requires Progress(closed, open, words, budget)
    ensures var groups := if open == [] then closed else closed + [open];
            Splits(groups, words, budget) && Fewest(|groups|, words, budget)
  {
    var groups := if open == [] then closed else closed + [open];
    if open != [] {
      FlatOne(closed, open);
      FullOne(closed, open, budget);
    }
    forall other | Splits(other, words, budget) ensures |groups| <= |other| {
      assert [] + words == words;
      FullStaysAhead(groups, words, [], other, budget);
    }
  }

  /** One word: it closes the current chunk if it does not fit into it. */
  method PushWord(chunks0: seq<string>, current0: string, word: string, budget: nat, ghost closed0: seq<seq<string>>,
                  ghost open0: seq<string>, ghost words: seq<string>)
    returns (chunks: seq<string>, current: string, ghost closed: seq<seq<string>>, ghost open: seq<string>)
    requires Progress(closed0, open0, words, budget) && AreChunks(chunks0, closed0) && current0 == Chunk(open0)
    requires IsWord(word) && forall w :: w in open0 ==> IsWord(w)
    ensures Progress(closed, open, words + [word], budget) && AreChunks(chunks, closed) && current == Chunk(open)
    ensures forall w :: w in open ==> IsWord(w)
  {
    if open0 != [] {
      ChunkTrimmed(open0);
    }
    SizeIsLength(open0);
    if current0 != "" && ByteLength(current0) + 1 + ByteLength(word) > budget {
      WordStarts(closed0, open0, words, word, budget);
      chunks, closed := chunks0 + [Trim(current0)], closed0 + [open0];
      current, open := word, [word];
    } else {
      WordJoins(closed0, open0, words, word, budget);
      JoinSnoc(" ", open0, word);
      chunks, closed, current := chunks0, closed0, current0;
      if current != "" {
        current := current + " ";
      }
      current, open := current + word, open0 + [word];
    }
  }

  /** Whatever is still open becomes the last chunk. */
  method Close(chunks0: seq<string>, current: string, ghost closed: seq<seq<string>>, ghost open: seq<string>)
    returns (chunks: seq<string>, ghost groups: seq<seq<string>>)
    requires AreChunks(chunks0, closed) && current == Chunk(open) && forall w :: w in open ==> IsWord(w)
    ensures AreChunks(chunks, groups) && groups == if open == [] then closed else closed + [open]
  {
    chunks, groups := chunks0, closed;
    if open != [] {
      ChunkTrimmed(open);
    }
    if current != "" {
      chunks, groups := chunks + [Trim(current)], groups + [open];
    }
  }

  /** The chunks are made of these groups of words, in order and fitting. */
  ghost predicate Chunks(chunks: seq<string>, groups: seq<seq<string>>, words: seq<string>, budget: nat) {
    AreChunks(chunks, groups) && Splits(groups, words, budget)
  }

  /** Splitting the chunks again gives the words of the text. */
  lemma {:induction false} ChunksKeepWords(chunks: seq<string>, groups: seq<seq<string>>)
    requires AreChunks(chunks, groups) && forall g, w :: g in groups && w in g ==> IsWord(w)
    ensures FlatMap(Split(), chunks) == Flat(groups)
  {
    if groups == [] {
    } else {
      var init, last := groups[..|groups| - 1], groups[|groups| - 1];
      assert last in groups && groups == init + [last];
      ChunksKeepWords(chunks[..|chunks| - 1], init);
      WordsOfJoin(last);
      FlatOne(init, last);
    }
  }

  function Split(): string -> seq<string> { text => Words(text) }

  lemma {:induction false} FlatMember(groups: seq<seq<string>>, g: seq<string>, w: string)
    requires g in groups && w in g
    ensures w in Flat(groups)
  {
    if g != groups[0] {
      FlatMember(groups[1..], g, w);
    }
  }

  lemma ChunksRight(chunks: seq<string>, groups: seq<seq<string>>, words: seq<string>, budget: nat)
    requires Chunks(chunks, groups, words, budget) && forall w :: w in words ==> IsWord(w)
    ensures FlatMap(Split(), chunks) == words
  {
    forall g, w | g in groups && w in g ensures IsWord(w) {
      FlatMember(groups, g, w);
    }
    ChunksKeepWords(chunks, groups);
  }

  /** The loop over the words. */
  method ChunkWords(words: seq<string>, budget: nat) returns (chunks: seq<string>, ghost groups: seq<seq<string>>)
    requires forall w :: w in words ==> IsWord(w)
    ensures Chunks(chunks, groups, words, budget) && Fewest(|groups|, words, budget)
  {
    chunks, groups := [], [];
    var current := "";
    ghost var open: seq<string> := [];
    for i := 0 to |words|
      invariant Progress(groups, open, words[..i], budget) && AreChunks(chunks, groups) && current == Chunk(open)
      invariant forall w :: w in open ==> IsWord(w)
    {
      assert words[..i + 1] == words[..i] + [words[i]] && words[i] in words;
      chunks, current, groups, open := PushWord(chunks, current, words[i], budget, groups, open, words[..i]);
    }
    assert words[..|words|] == words;
    GroupsDone(groups, open, words, budget);
    chunks, groups := Close(chunks, current, groups, open);
  }

  // What this means in bytes.

  /** Words in consecutive groups, each a single word or joined into no more bytes than the budget. */
  ghost predicate SplitsInBytes(groups: seq<seq<string>>, words: seq<string>, budget: nat) {
    && Flat(groups) == words
    && forall g :: g in groups ==> |g| == 1 || (g != [] && |Encoding(Join(" ", g))| <= budget)
  }

  lemma SplitsAreInBytes(groups: seq<seq<string>>, words: seq<string>, budget: nat)
    ensures Splits(groups, words, budget) <==> SplitsInBytes(groups, words, budget)
  {
    forall g | g in groups
      ensures Fits(g, budget) <==> |g| == 1 || (g != [] && |Encoding(Join(" ", g))| <= budget)
    {
      SizeIsBytes(g);
    }
  }

  /** The chunks are groups joined by spaces. */
  ghost predicate JoinsOf(chunks: seq<string>, groups: seq<seq<string>>) {
    |chunks| == |groups| && forall i :: 0 <= i < |chunks| ==> chunks[i] == Join(" ", groups[i])
  }

  ghost predicate FitsInBytes(chunk: string, budget: nat) {
    |Encoding(chunk)| <= budget || IsWord(chunk)
  }

  lemma ChunksFit(chunks: seq<string>, groups: seq<seq<string>>, words: seq<string>, budget: nat)
    requires JoinsOf(chunks, groups) && SplitsInBytes(groups, words, budget)
    requires forall w :: w in words ==> IsWord(w)
    ensures forall c :: c in chunks ==> FitsInBytes(c, budget)
  {
    forall c | c in chunks ensures FitsInBytes(c, budget) {
      var i :| 0 <= i < |chunks| && chunks[i] == c;
      assert groups[i] in groups;
      if |groups[i]| == 1 {
        assert groups[i][0] in groups[i];
        FlatMember(groups, groups[i], groups[i][0]);
      }
    }
  }

  lemma FewestInBytes(n: nat, words: seq<string>, budget: nat)
    requires Fewest(n, words, budget)
    ensures forall other :: SplitsInBytes(other, words, budget) ==> n <= |other|
  {
    forall other | SplitsInBytes(other, words, budget) ensures n <= |other| {
      SplitsAreInBytes(other, words, budget);
    }
  }

  /** The words of the text in order, in as few chunks as possible of at most `budget` bytes or one word. */
  method ChunkText(text: string, budget: nat) returns (chunks: seq<string>)
    ensures exists groups :: JoinsOf(chunks, groups) && SplitsInBytes(groups, Words(text), budget)
    ensures forall c :: c in chunks ==> FitsInBytes(c, budget)
    ensures forall other :: SplitsInBytes(other, Words(text), budget) ==> |chunks| <= |other|
    ensures FlatMap(Split(), chunks) == Words(text)
  {
    WordsKeepText(text);
    ghost var groups;
    chunks, groups := ChunkWords(Words(text), budget);
    ChunksRight(chunks, groups, Words(text), budget);
    SplitsAreInBytes(groups, Words(text), budget);
    assert JoinsOf(chunks, groups);
    ChunksFit(chunks, groups, Words(text), budget);
    FewestInBytes(|chunks|, Words(text), budget);
  }
}
