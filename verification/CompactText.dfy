/** Cutting a long text to its head and tail, by lines or by bytes. */
module CompactText {
  import opened Prelude
  import opened Utf8

  const NEWLINE: Byte := 0x0A
  const RETURN: Byte := 0x0D
  const HEAD_TAIL_LINES := 20

  // Lines: what lies between line feeds, without a carriage return right before one.

  function LineEnd(s: Bytes): (n: nat)
    ensures n <= |s| && NEWLINE !in s[..n] && (n < |s| ==> s[n] == NEWLINE)
  {
    if s == [] || s[0] == NEWLINE then 0 else
      var n := LineEnd(s[1..]);
      assert s[..n + 1] == [s[0]] + s[1..][..n];
      n + 1
  }

  function StripReturn(line: Bytes): Bytes {
    if line != [] && line[|line| - 1] == RETURN then line[..|line| - 1] else line
  }

  function Lines(s: Bytes): seq<Bytes>
    decreases |s|
  {
    if s == [] then []
    else if LineEnd(s) == |s| then [s]
    else [StripReturn(s[..LineEnd(s)])] + Lines(s[LineEnd(s) + 1..])
  }

  lemma StripValid(line: Bytes)
    requires Valid(line)
    ensures Valid(StripReturn(line))
  {
    if line != [] && line[|line| - 1] == RETURN {
      Cut(line, |line| - 1);
    }
  }

  lemma {:induction false} LinesValid(s: Bytes)
    requires Valid(s)
    ensures forall line :: line in Lines(s) ==> Valid(line)
    decreases |s|
  {
    var n := LineEnd(s);
    if s != [] && n < |s| {
      Cut(s, n);
      StripValid(s[..n]);
      if n + 1 < |s| {
        NextIsBoundary(s, n);
      }
      Cut(s, n + 1);
      LinesValid(s[n + 1..]);
    }
  }

  /** After an ASCII byte a character starts. */
  lemma NextIsBoundary(s: Bytes, n: nat)
    requires Valid(s) && n + 1 < |s| && 0 <= s[n] <= 0x7F
    ensures IsBoundary(s, n + 1)
  {
    Cut(s, n);
    var chars :| Spells(chars, s[n..]);
    assert IsChar(chars[0]) && chars[0][0] == s[n];
    StartsChar(chars[1..]);
    assert Flatten(chars[1..]) == s[n..][1..];
  }

  lemma {:induction false} JoinValid(lines: seq<Bytes>)
    requires forall line :: line in lines ==> Valid(line)
    ensures Valid(Join([NEWLINE], lines))
  {
    if lines == [] {
      AsciiValid([]);
    } else if |lines| == 1 {
      assert lines[0] in lines;
    } else {
      var rest, last := lines[..|lines| - 1], lines[|lines| - 1];
      JoinValid(rest);
      AsciiValid([NEWLINE]);
      ValidConcat(Join([NEWLINE], rest), [NEWLINE]);
      ValidConcat(Join([NEWLINE], rest) + [NEWLINE], last);
    }
  }

  /** What lies between line feeds, carriage returns included. */
  function RawLines(s: Bytes): seq<Bytes>
    decreases |s|
  {
    if s == [] then []
    else if LineEnd(s) == |s| then [s]
    else [s[..LineEnd(s)]] + RawLines(s[LineEnd(s) + 1..])
  }

  predicate Terminated(s: Bytes) { s != [] && s[|s| - 1] == NEWLINE }

  /** The text without a final line feed. */
  function Unterminated(s: Bytes): Bytes { if Terminated(s) then s[..|s| - 1] else s }

  lemma RejoinStep(line: Bytes, rest: Bytes, lines: seq<Bytes>)
    requires Join([NEWLINE], lines) == Unterminated(rest) && (lines == [] <==> rest == [])
    ensures Join([NEWLINE], [line] + lines) == Unterminated(line + [NEWLINE] + rest)
  {
    JoinFront([NEWLINE], line, lines);
    var s := line + [NEWLINE] + rest;
    if rest == [] {
      assert Unterminated(s) == line;
    } else {
      assert s[|s| - 1] == rest[|rest| - 1];
      assert s[..|s| - 1] == line + [NEWLINE] + rest[..|rest| - 1];
    }
  }

  lemma {:induction false} RawRejoin(s: Bytes)
    ensures Join([NEWLINE], RawLines(s)) == Unterminated(s)
    decreases |s|
  {
    var n := LineEnd(s);
    if s != [] && n < |s| {
      var line, rest := s[..n], s[n + 1..];
      RawRejoin(rest);
      RejoinStep(line, rest, RawLines(rest));
      assert s == line + [NEWLINE] + rest;
    } else if s != [] {
      assert s[|s| - 1] in s[..n];
    }
  }

  lemma {:induction false} RawPlain(s: Bytes)
    ensures forall line :: line in RawLines(s) ==> NEWLINE !in line
    decreases |s|
  {
    if s != [] && LineEnd(s) < |s| {
      RawPlain(s[LineEnd(s) + 1..]);
    }
  }

  /** Each piece without its carriage return, except a last one that no line feed ends. */
  function Stripped(pieces: seq<Bytes>, ended: bool): (r: seq<Bytes>)
    ensures |r| == |pieces|
  {
    if pieces == [] then []
    else if |pieces| == 1 && !ended then pieces
    else [StripReturn(pieces[0])] + Stripped(pieces[1..], ended)
  }

  lemma LastOfRest(s: Bytes, n: nat)
    requires n < |s| && s[n] == NEWLINE
    ensures s[n + 1..] != [] ==> Terminated(s[n + 1..]) == Terminated(s)
    ensures s[n + 1..] == [] ==> Terminated(s)
  {
  }

  lemma StrippedStep(piece: Bytes, rest: seq<Bytes>, ended: bool, restEnded: bool)
    requires if rest == [] then ended else ended == restEnded
    ensures Stripped([piece] + rest, ended) == [StripReturn(piece)] + Stripped(rest, restEnded)
  {
    assert ([piece] + rest)[1..] == rest;
  }

  lemma {:induction false} LinesAreRaw(s: Bytes)
    ensures Lines(s) == Stripped(RawLines(s), Terminated(s))
    decreases |s|
  {
    var n := LineEnd(s);
    if s != [] && n < |s| {
      var rest := s[n + 1..];
      LinesAreRaw(rest);
      LastOfRest(s, n);
      StrippedStep(s[..n], RawLines(rest), Terminated(s), Terminated(rest));
    } else if s != [] {
      assert s[|s| - 1] in s[..n];
    }
  }

  lemma {:induction false} StrippedAt(pieces: seq<Bytes>, ended: bool, i: nat)
    requires i < |pieces|
    ensures Stripped(pieces, ended)[i] == if i == |pieces| - 1 && !ended then pieces[i] else StripReturn(pieces[i])
  {
    if i > 0 {
      StrippedAt(pieces[1..], ended, i - 1);
    }
  }

  /** The line is the piece without a carriage return at its end, if there is one. */
  predicate IsStripped(line: Bytes, piece: Bytes) {
    piece == line + [0x0D] || (piece == line && (line == [] || line[|line| - 1] != 0x0D))
  }

  /** The pieces between line feeds, joined again, are the text but for a final line feed. */
  ghost predicate ArePieces(pieces: seq<Bytes>, s: Bytes) {
    && (forall piece :: piece in pieces ==> 0x0A !in piece)
    && s == Join([0x0A], pieces) + (if s != [] && s[|s| - 1] == 0x0A then [0x0A] else [])
    && (pieces == [] <==> s == [])
  }

  /** Each line is its piece, stripped unless it is a last one that no line feed ends. */
  ghost predicate AreLines(lines: seq<Bytes>, pieces: seq<Bytes>, s: Bytes) {
    |lines| == |pieces| && forall i :: 0 <= i < |lines| ==> IsLine(lines, pieces, s, i)
  }

  ghost predicate IsLine(lines: seq<Bytes>, pieces: seq<Bytes>, s: Bytes, i: nat) {
    && i < |lines| && i < |pieces|
    && if i == |lines| - 1 && s != [] && s[|s| - 1] != 0x0A then lines[i] == pieces[i]
       else IsStripped(lines[i], pieces[i])
  }

  lemma LineStripped(s: Bytes, pieces: seq<Bytes>, i: nat)
    requires i < |pieces| && s != []
    ensures IsLine(Stripped(pieces, Terminated(s)), pieces, s, i)
  {
    StrippedAt(pieces, Terminated(s), i);
    StripExact(pieces[i]);
  }

  lemma StripExact(piece: Bytes)
    ensures IsStripped(StripReturn(piece), piece)
  {
  }

  /** The lines of a text are the pieces between its line feeds, stripped. */
  lemma LinesRejoin(s: Bytes)
    ensures ArePieces(RawLines(s), s) && AreLines(Lines(s), RawLines(s), s)
  {
    RawRejoin(s);
    RawPlain(s);
    LinesAreRaw(s);
    forall i | 0 <= i < |Lines(s)| ensures IsLine(Lines(s), RawLines(s), s, i) {
      LineStripped(s, RawLines(s), i);
    }
  }

  // The lines of joined lines.

  lemma {:induction false} LineEnds(line: Bytes, rest: Bytes)
    requires NEWLINE !in line && (rest == [] || rest[0] == NEWLINE)
    ensures LineEnd(line + rest) == |line|
  {
    if line == [] {
      assert line + rest == rest;
    } else {
      assert line[0] in line && (line + rest)[1..] == line[1..] + rest;
      LineEnds(line[1..], rest);
    }
  }

  ghost predicate PlainLine(line: Bytes) { NEWLINE !in line && RETURN !in line }

  lemma OneLine(line: Bytes)
    requires line != [] && NEWLINE !in line
    ensures Lines(line) == [line]
  {
    assert line + [] == line;
    LineEnds(line, []);
  }

  lemma FirstLine(line: Bytes, rest: Bytes)
    requires PlainLine(line)
    ensures Lines(line + [NEWLINE] + rest) == [line] + Lines(rest)
  {
    var text := line + [NEWLINE] + rest;
    assert text == line + ([NEWLINE] + rest);
    LineEnds(line, [NEWLINE] + rest);
    assert text[..|line|] == line && text[|line| + 1..] == rest;
    assert line != [] ==> line[|line| - 1] in line;
  }

  /** Lines joined by line feeds are split into themselves again, unless the last is empty. */
  lemma {:induction false} LinesOfJoin(lines: seq<Bytes>)
    requires lines != [] && lines[|lines| - 1] != [] && forall line :: line in lines ==> PlainLine(line)
    ensures Lines(Join([NEWLINE], lines)) == lines
  {
    var line, rest := lines[0], lines[1..];
    assert PlainLine(line) && lines == [line] + rest;
    JoinFront([NEWLINE], line, rest);
    if rest == [] {
      OneLine(line);
    } else {
      LinesOfJoin(rest);
      FirstLine(line, Join([NEWLINE], rest));
    }
  }

  // Compaction.

  function Marker(omitted: nat, unit: string): Bytes {
    Ascii("\n... [") + Digits(omitted) + Ascii(unit)
  }

  const LINES_OMITTED := " lines omitted] ...\n"
  const BYTES_OMITTED := " bytes omitted] ...\n"

  /** The bytes of a marker that are not its number. */
  const MARKER_FRAME := 26

  /** What a cut text keeps of the original, and how much it says it left out. */
  datatype Parts = Parts(head: Bytes, omitted: nat, unit: string, tail: Bytes) {
    function Text(): Bytes { head + Marker(omitted, unit) + tail }
  }

  function ClampHead(s: Bytes, half: nat): Bytes { if |s| > half then Head(s, half) else s }

  function ClampTail(s: Bytes, half: nat): Bytes { if |s| > half then Tail(s, |s| - half) else s }

  function ByLines(first: Bytes, last: Bytes, omitted: nat, half: nat): Parts {
    Parts(ClampHead(first, half), omitted, LINES_OMITTED, ClampTail(last, half))
  }

  function ByBytes(text: Bytes, half: nat): Parts
    requires |text| > 2 * half
  {
    var head, tail := Head(text, half), Tail(text, |text| - half);
    Parts(head, |text| - |head| - |tail|, BYTES_OMITTED, tail)
  }

  function First(text: Bytes): Bytes
    requires |Lines(text)| > HEAD_TAIL_LINES * 2
  {
    Join([NEWLINE], Lines(text)[..HEAD_TAIL_LINES])
  }

  function Last(text: Bytes): Bytes
    requires |Lines(text)| > HEAD_TAIL_LINES * 2
  {
    Join([NEWLINE], Lines(text)[|Lines(text)| - HEAD_TAIL_LINES..])
  }

  /** How a text over the limit is cut: by lines if there are more than forty, else by bytes. */
  function PartsOf(text: Bytes, maxBytes: nat): Parts
    requires |text| > maxBytes
  {
    if |Lines(text)| > HEAD_TAIL_LINES * 2 then
      ByLines(First(text), Last(text), |Lines(text)| - HEAD_TAIL_LINES * 2, maxBytes / 2)
    else ByBytes(text, maxBytes / 2)
  }

  function Compacted(text: Bytes, maxBytes: nat): (Bytes, bool) {
    if |text| <= maxBytes then (text, false) else (PartsOf(text, maxBytes).Text(), true)
  }

  lemma ClampHeadFits(s: Bytes, half: nat)
    requires Valid(s)
    ensures var h := ClampHead(s, half);
            h <= s && |h| <= half && (|s| <= half ==> h == s) && |h| + 3 >= Smaller(half, |s|)
  {
    HeadFits(s, half);
  }

  lemma ClampTailFits(s: Bytes, half: nat)
    requires Valid(s)
    ensures IsSuffix(ClampTail(s, half), s)
    ensures var t := ClampTail(s, half); |t| <= half && (|s| <= half ==> t == s) && |t| + 3 >= Smaller(half, |s|)
  {
    if |s| > half {
      assert IsSuffix(Tail(s, |s| - half), s) by { TailSuffix(s, |s| - half); }
      assert |Tail(s, |s| - half)| <= half <= |Tail(s, |s| - half)| + 3 by { TailFits(s, |s| - half); }
    } else {
      assert s[0..] == s;
    }
  }

  /** A notice that so much was left out, in decimal. */
  ghost predicate Notice(mark: Bytes, omitted: nat, unit: string) {
    exists digits :: && mark == Encoding("\n... [") + digits + Encoding(unit)
                     && ReadDigits(digits) == omitted && forall d :: d in digits ==> 0x30 <= d <= 0x39
  }

  /** The text is the head, then a notice, then the tail. */
  ghost predicate Assembles(r: Bytes, p: Parts) {
    && |p.head| + |p.tail| <= |r| && p.head <= r && IsSuffix(p.tail, r)
    && Notice(r[|p.head|..|r| - |p.tail|], p.omitted, p.unit)
  }

  lemma UnitEncodes(unit: string)
    requires unit == LINES_OMITTED || unit == BYTES_OMITTED
    ensures Ascii(unit) == Encoding(unit)
  {
    forall c | c in unit ensures c as int <= 0x7F {
    }
    AsciiEncodes(unit);
  }

  lemma MarkerIsNotice(omitted: nat, unit: string)
    requires Ascii(unit) == Encoding(unit)
    ensures Notice(Marker(omitted, unit), omitted, unit)
  {
    AsciiEncodes("\n... [");
    DigitsRead(omitted);
  }

  lemma TextAssembles(p: Parts)
    requires Notice(Marker(p.omitted, p.unit), p.omitted, p.unit)
    ensures Assembles(p.Text(), p)
  {
    Middle(p.head, Marker(p.omitted, p.unit), p.tail);
  }

  /** The byte branch: a prefix and a suffix that do not overlap, each within three bytes of half, the rest counted. */
  ghost predicate CutByBytes(text: Bytes, half: nat, p: Parts) {
    && p.head <= text && IsSuffix(p.tail, text)
    && half - 3 <= |p.head| <= half && half - 3 <= |p.tail| <= half
    && |p.head| + p.omitted + |p.tail| == |text|
    && p.unit == " bytes omitted] ...\n"
  }

  /** The line branch: the first and the last twenty lines, each clamped to half. */
  ghost predicate CutByLines(first: Bytes, last: Bytes, half: nat, p: Parts) {
    && p.head <= first && IsSuffix(p.tail, last)
    && Smaller(half, |first|) - 3 <= |p.head| <= half && Smaller(half, |last|) - 3 <= |p.tail| <= half
    && (|first| <= half ==> p.head == first) && (|last| <= half ==> p.tail == last)
    && p.unit == " lines omitted] ...\n"
  }

  ghost predicate CutRight(text: Bytes, maxBytes: nat, p: Parts) {
    var lines := Lines(text);
    if |lines| > 40 then
      && CutByLines(Join([0x0A], lines[..20]), Join([0x0A], lines[|lines| - 20..]), maxBytes / 2, p)
      && 20 + p.omitted + 20 == |lines|
    else CutByBytes(text, maxBytes / 2, p)
  }

  lemma ByLinesFits(first: Bytes, last: Bytes, omitted: nat, half: nat)
    requires Valid(first) && Valid(last)
    ensures CutByLines(first, last, half, ByLines(first, last, omitted, half))
  {
    ClampHeadFits(first, half);
    ClampTailFits(last, half);
  }

  lemma PiecesFit(text: Bytes, half: nat)
    requires Valid(text) && |text| > 2 * half
    ensures |Head(text, half)| <= half <= |Head(text, half)| + 3
    ensures |Tail(text, |text| - half)| <= half <= |Tail(text, |text| - half)| + 3
  {
    HeadFits(text, half);
    TailFits(text, |text| - half);
  }

  lemma ByBytesFits(text: Bytes, half: nat)
    requires |text| > 2 * half
    requires |Head(text, half)| <= half <= |Head(text, half)| + 3
    requires |Tail(text, |text| - half)| <= half <= |Tail(text, |text| - half)| + 3
    ensures CutByBytes(text, half, ByBytes(text, half))
  {
  }

  lemma EndsValid(text: Bytes)
    requires Valid(text) && |Lines(text)| > HEAD_TAIL_LINES * 2
    ensures Valid(First(text)) && Valid(Last(text))
  {
    LinesValid(text);
    JoinValid(Lines(text)[..HEAD_TAIL_LINES]);
    JoinValid(Lines(text)[|Lines(text)| - HEAD_TAIL_LINES..]);
  }

  lemma LinesFit(text: Bytes, maxBytes: nat)
    requires |text| > maxBytes && |Lines(text)| > HEAD_TAIL_LINES * 2 && Valid(First(text)) && Valid(Last(text))
    ensures CutRight(text, maxBytes, PartsOf(text, maxBytes))
  {
    ByLinesFits(First(text), Last(text), |Lines(text)| - HEAD_TAIL_LINES * 2, maxBytes / 2);
  }

  lemma BytesFit(text: Bytes, maxBytes: nat, half: nat)
    requires |text| > maxBytes && half == maxBytes / 2 && |Lines(text)| <= HEAD_TAIL_LINES * 2
    requires |Head(text, half)| <= half <= |Head(text, half)| + 3
    requires |Tail(text, |text| - half)| <= half <= |Tail(text, |text| - half)| + 3
    ensures CutRight(text, maxBytes, PartsOf(text, maxBytes))
  {
    ByBytesFits(text, half);
  }

  /** A text over the limit is cut as its branch promises. */
  lemma PartsFit(text: Bytes, maxBytes: nat)
    requires Valid(text) && |text| > maxBytes
    ensures CutRight(text, maxBytes, PartsOf(text, maxBytes))
  {
    if |Lines(text)| > HEAD_TAIL_LINES * 2 {
      assert Valid(First(text)) && Valid(Last(text)) by { EndsValid(text); }
      LinesFit(text, maxBytes);
    } else {
      var half := maxBytes / 2;
      assert |Head(text, half)| <= half <= |Head(text, half)| + 3
             && |Tail(text, |text| - half)| <= half <= |Tail(text, |text| - half)| + 3 by {
        PiecesFit(text, half);
      }
      BytesFit(text, maxBytes, half);
    }
  }

  lemma HeadsValid(text: Bytes, maxBytes: nat)
    requires Valid(text) && |text| > maxBytes
    ensures Valid(PartsOf(text, maxBytes).head)
  {
    HeadValid(text, maxBytes / 2);
    if |Lines(text)| > HEAD_TAIL_LINES * 2 {
      EndsValid(text);
      HeadValid(First(text), maxBytes / 2);
    }
  }

  lemma ClampTailValid(s: Bytes, half: nat)
    requires Valid(s)
    ensures Valid(ClampTail(s, half))
  {
    if |s| > half {
      TailValid(s, |s| - half);
    }
  }

  lemma TailsValid(text: Bytes, maxBytes: nat)
    requires Valid(text) && |text| > maxBytes
    ensures Valid(PartsOf(text, maxBytes).tail)
  {
    if |Lines(text)| > HEAD_TAIL_LINES * 2 {
      EndsValid(text);
      ClampTailValid(Last(text), maxBytes / 2);
    } else {
      TailValid(text, |text| - maxBytes / 2);
    }
  }

  lemma TextValid(p: Parts)
    requires Valid(p.head) && Valid(p.tail)
    ensures Valid(p.Text())
  {
    AsciiValid(Marker(p.omitted, p.unit));
    ValidConcat(p.head, Marker(p.omitted, p.unit));
    ValidConcat(p.head + Marker(p.omitted, p.unit), p.tail);
  }

  lemma PartsAssemble(text: Bytes, maxBytes: nat)
    requires |text| > maxBytes
    ensures Assembles(PartsOf(text, maxBytes).Text(), PartsOf(text, maxBytes))
  {
    var p := PartsOf(text, maxBytes);
    PartsUnit(text, maxBytes);
    UnitEncodes(p.unit);
    MarkerIsNotice(p.omitted, p.unit);
    TextAssembles(p);
  }

  /** A compacted text is valid, cut as its branch promises, and over the limit by no more than the marker. */
  lemma CompactedFits(text: Bytes, maxBytes: nat)
    requires Valid(text)
    ensures Valid(Compacted(text, maxBytes).0)
    ensures |text| <= maxBytes ==> Compacted(text, maxBytes) == (text, false)
    ensures |text| > maxBytes ==>
              var p := PartsOf(text, maxBytes);
              && Compacted(text, maxBytes).1 && CutRight(text, maxBytes, p)
              && Assembles(Compacted(text, maxBytes).0, p)
              && |Compacted(text, maxBytes).0| <= 2 * (maxBytes / 2) + |Marker(p.omitted, p.unit)|
  {
    if |text| > maxBytes {
      HeadsValid(text, maxBytes);
      TailsValid(text, maxBytes);
      PartsFit(text, maxBytes);
      TextValid(PartsOf(text, maxBytes));
      PartsAssemble(text, maxBytes);
    }
  }

  /** The text begins and ends like the original, and in between says how many bytes of it are left out. */
  ghost predicate KeepsEnds(text: Bytes, r: Bytes, half: nat, h: nat, t: nat) {
    && half - 3 <= h <= half && half - 3 <= t <= half && h + t <= |r| && h + t < |text|
    && r[..h] == text[..h] && r[|r| - t..] == text[|text| - t..]
    && Notice(r[h..|r| - t], |text| - h - t, " bytes omitted] ...\n")
  }

  lemma EndsOf(text: Bytes, half: nat, p: Parts, r: Bytes)
    requires 2 * half < |text| && CutByBytes(text, half, p) && Assembles(r, p)
    ensures KeepsEnds(text, r, half, |p.head|, |p.tail|)
  {
  }

  lemma CutOf(text: Bytes, maxBytes: nat, p: Parts)
    requires CutRight(text, maxBytes, p) && |Lines(text)| <= 40
    ensures CutByBytes(text, maxBytes / 2, p)
  {
  }

  /** Cut by bytes, a text keeps its own two ends. */
  lemma EndsKept(text: Bytes, maxBytes: nat)
    requires Valid(text) && |text| > maxBytes && |Lines(text)| <= 40
    ensures exists h, t :: KeepsEnds(text, Compacted(text, maxBytes).0, maxBytes / 2, h, t)
  {
    CompactedFits(text, maxBytes);
    CutOf(text, maxBytes, PartsOf(text, maxBytes));
    EndsOf(text, maxBytes / 2, PartsOf(text, maxBytes), Compacted(text, maxBytes).0);
  }

  // When a compacted text is longer than it was.

  lemma MarkerSize(omitted: nat, unit: string)
    requires unit == LINES_OMITTED || unit == BYTES_OMITTED
    ensures |Marker(omitted, unit)| == MARKER_FRAME + |Digits(omitted)|
  {
    assert |LINES_OMITTED| == |BYTES_OMITTED| == 20;
  }

  lemma {:induction false} DigitsShort(n: nat)
    ensures n > 0 ==> |Digits(n)| <= n
    ensures 10 <= n < 100 ==> |Digits(n)| == 2
    ensures n >= 100 ==> |Digits(n)| <= 1 + n / 10
  {
    if n >= 10 {
      DigitsShort(n / 10);
    }
  }

  /** A marker is longer than the bytes it stands for exactly when they are fewer than twenty-eight. */
  lemma DigitsOutgrow(omitted: nat)
    ensures MARKER_FRAME + |Digits(omitted)| > omitted <==> omitted < 28
  {
    DigitsShort(omitted);
  }

  /** How much of a text each end keeps. */
  function HeadSize(s: Bytes, half: nat): nat { if |s| > half then FloorBoundary(s, half) else |s| }

  function TailSize(s: Bytes, half: nat): nat {
    if |s| > half then |s| - CeilBoundary(s, |s| - half) else |s|
  }

  predicate GrowsByBytes(text: Bytes, half: nat)
    requires |text| > 2 * half
  {
    CeilBoundary(text, |text| - half) - FloorBoundary(text, half) < 28
  }

  predicate GrowsByLines(text: Bytes, first: Bytes, last: Bytes, omitted: nat, half: nat) {
    HeadSize(first, half) + TailSize(last, half) + MARKER_FRAME + |Digits(omitted)| > |text|
  }

  /** What can be told from the text and the limit before cutting. */
  predicate Grows(text: Bytes, maxBytes: nat) {
    && |text| > maxBytes
    && if |Lines(text)| > HEAD_TAIL_LINES * 2
       then GrowsByLines(text, First(text), Last(text), |Lines(text)| - HEAD_TAIL_LINES * 2, maxBytes / 2)
       else GrowsByBytes(text, maxBytes / 2)
  }

  function SizeOf(p: Parts): nat { |p.head| + MARKER_FRAME + |Digits(p.omitted)| + |p.tail| }

  lemma TextSize(p: Parts)
    requires p.unit == LINES_OMITTED || p.unit == BYTES_OMITTED
    ensures |p.Text()| == SizeOf(p)
  {
    MarkerSize(p.omitted, p.unit);
  }

  lemma PartsUnit(text: Bytes, maxBytes: nat)
    requires |text| > maxBytes
    ensures PartsOf(text, maxBytes).unit == LINES_OMITTED || PartsOf(text, maxBytes).unit == BYTES_OMITTED
  {
  }

  lemma PartsByLines(text: Bytes, maxBytes: nat)
    requires |text| > maxBytes && |Lines(text)| > HEAD_TAIL_LINES * 2
    ensures PartsOf(text, maxBytes) ==
            ByLines(First(text), Last(text), |Lines(text)| - HEAD_TAIL_LINES * 2, maxBytes / 2)
  {
  }

  lemma CompactedSize(text: Bytes, maxBytes: nat)
    requires |text| > maxBytes
    ensures |Compacted(text, maxBytes).0| == SizeOf(PartsOf(text, maxBytes))
  {
    PartsUnit(text, maxBytes);
    TextSize(PartsOf(text, maxBytes));
  }

  lemma SizeByBytes(text: Bytes, half: nat)
    requires |text| > 2 * half
    ensures SizeOf(ByBytes(text, half)) > |text| <==> GrowsByBytes(text, half)
  {
    DigitsOutgrow(ByBytes(text, half).omitted);
  }

  lemma SizeByLines(first: Bytes, last: Bytes, omitted: nat, half: nat)
    ensures SizeOf(ByLines(first, last, omitted, half)) ==
            HeadSize(first, half) + TailSize(last, half) + MARKER_FRAME + |Digits(omitted)|
  {
  }

  lemma SizeGrows(text: Bytes, maxBytes: nat)
    requires |text| > maxBytes
    ensures SizeOf(PartsOf(text, maxBytes)) > |text| <==> Grows(text, maxBytes)
  {
    if |Lines(text)| > HEAD_TAIL_LINES * 2 {
      SizeByLines(First(text), Last(text), |Lines(text)| - HEAD_TAIL_LINES * 2, maxBytes / 2);
    } else {
      SizeByBytes(text, maxBytes / 2);
    }
  }

  /** A text comes back longer than it was exactly when what its ends keep and the marker exceed it. */
  lemma CompactedGrows(text: Bytes, maxBytes: nat)
    ensures |Compacted(text, maxBytes).0| > |text| <==> Grows(text, maxBytes)
  {
    if |text| > maxBytes {
      CompactedSize(text, maxBytes);
      SizeGrows(text, maxBytes);
    }
  }

  lemma NearCuts(text: Bytes, half: nat)
    requires Valid(text) && |text| > 2 * half
    ensures half - 3 <= FloorBoundary(text, half) <= half
    ensures |text| - half <= CeilBoundary(text, |text| - half) <= |text| - half + 3
  {
    PiecesFit(text, half);
  }

  /** Lengths alone nearly settle it by bytes: the six bytes between are those that boundaries may take. */
  lemma GrowsByLengths(text: Bytes, maxBytes: nat)
    requires Valid(text) && |text| > maxBytes && |Lines(text)| <= HEAD_TAIL_LINES * 2
    ensures |text| - 2 * (maxBytes / 2) <= 21 ==> Grows(text, maxBytes)
    ensures |text| - 2 * (maxBytes / 2) >= 28 ==> !Grows(text, maxBytes)
  {
    NearCuts(text, maxBytes / 2);
  }

  lemma SizesNear(s: Bytes, half: nat)
    requires Valid(s)
    ensures Smaller(half, |s|) - 3 <= HeadSize(s, half) <= Smaller(half, |s|)
    ensures Smaller(half, |s|) - 3 <= TailSize(s, half) <= Smaller(half, |s|)
  {
    ClampHeadFits(s, half);
    ClampTailFits(s, half);
  }

  /** The same by lines. */
  lemma GrowsByLineLengths(text: Bytes, maxBytes: nat)
    requires Valid(text) && |text| > maxBytes && |Lines(text)| > HEAD_TAIL_LINES * 2
    ensures var half, digits := maxBytes / 2, |Digits(|Lines(text)| - HEAD_TAIL_LINES * 2)|;
            var ends := Smaller(half, |First(text)|) + Smaller(half, |Last(text)|);
            && (ends + MARKER_FRAME + digits > |text| + 6 ==> Grows(text, maxBytes))
            && (ends + MARKER_FRAME + digits <= |text| ==> !Grows(text, maxBytes))
  {
    EndsValid(text);
    SizesNear(First(text), maxBytes / 2);
    SizesNear(Last(text), maxBytes / 2);
  }

  // Both happen, at any limit that lets a text of forty-one lines be over it by one byte.

  function Repeated(b: Byte, n: nat): Bytes { seq(n, _ => b) }

  /** One line of one byte more than the limit comes back longer. */
  lemma LongerByBytes(maxBytes: nat)
    ensures var text := Repeated(0x61, maxBytes + 1);
            Valid(text) && |Lines(text)| == 1 && |Compacted(text, maxBytes).0| > |text|
  {
    var text := Repeated(0x61, maxBytes + 1);
    AsciiValid(text);
    OneLine(text);
    GrowsByLengths(text, maxBytes);
    CompactedGrows(text, maxBytes);
  }

  function Empties(n: nat): seq<Bytes> { seq(n, _ => []) }

  lemma {:induction false} EmptiesJoin(n: nat)
    ensures |Join([NEWLINE], Empties(n))| == if n == 0 then 0 else n - 1
  {
    if n > 0 {
      EmptiesJoin(n - 1);
      assert Empties(n) == Empties(n - 1) + [[]];
      JoinSnoc([NEWLINE], Empties(n - 1), []);
    }
  }

  /** Two long lines with thirty-nine empty ones between them. */
  function Sparse(a: nat, b: nat): seq<Bytes> {
    [Repeated(0x61, a)] + Empties(39) + [Repeated(0x61, b)]
  }

  lemma SparseSizes(a: nat, b: nat)
    ensures |Join([NEWLINE], Sparse(a, b))| == a + 40 + b
    ensures |Join([NEWLINE], Sparse(a, b)[..20])| == a + 19
    ensures |Join([NEWLINE], Sparse(a, b)[21..])| == 19 + b
  {
    EmptiesJoin(39);
    EmptiesJoin(19);
    JoinSnoc([NEWLINE], [Repeated(0x61, a)] + Empties(39), Repeated(0x61, b));
    JoinFront([NEWLINE], Repeated(0x61, a), Empties(39));
    assert Sparse(a, b)[..20] == [Repeated(0x61, a)] + Empties(19);
    JoinFront([NEWLINE], Repeated(0x61, a), Empties(19));
    assert Sparse(a, b)[21..] == Empties(19) + [Repeated(0x61, b)];
    JoinSnoc([NEWLINE], Empties(19), Repeated(0x61, b));
  }

  lemma SparseText(a: nat, b: nat)
    requires b > 0
    ensures var text := Join([NEWLINE], Sparse(a, b)); Valid(text) && Lines(text) == Sparse(a, b)
  {
    forall line | line in Sparse(a, b)
      ensures PlainLine(line) && Valid(line)
    {
      AsciiValid(line);
    }
    LinesOfJoin(Sparse(a, b));
    JoinValid(Sparse(a, b));
  }

  lemma SparseSize(text: Bytes, a: nat, b: nat, half: nat)
    requires b > 0 && Lines(text) == Sparse(a, b) && a + 19 <= half && 19 + b <= half
    ensures SizeOf(ByLines(First(text), Last(text), 1, half)) == a + b + 65
  {
    SparseSizes(a, b);
    SizeByLines(First(text), Last(text), 1, half);
  }

  lemma SparseGrows(text: Bytes, maxBytes: nat, a: nat, b: nat)
    requires b > 0 && Lines(text) == Sparse(a, b) && |text| > maxBytes
    requires a + 19 <= maxBytes / 2 && 19 + b <= maxBytes / 2
    ensures |Compacted(text, maxBytes).0| == a + b + 65
  {
    SparseSize(text, a, b, maxBytes / 2);
    PartsByLines(text, maxBytes);
    CompactedSize(text, maxBytes);
  }

  /** Forty-one lines of one byte more than the limit come back longer. */
  lemma LongerByLines(maxBytes: nat) returns (text: Bytes)
    requires maxBytes > HEAD_TAIL_LINES * 2
    ensures text == Join([NEWLINE], Sparse(maxBytes / 2 - 19, maxBytes - maxBytes / 2 - 20))
    ensures Valid(text) && |text| == maxBytes + 1 && |Lines(text)| == 41
    ensures |Compacted(text, maxBytes).0| == maxBytes + 26
  {
    var a, b := maxBytes / 2 - 19, maxBytes - maxBytes / 2 - 20;
    text := Join([NEWLINE], Sparse(a, b));
    SparseText(a, b);
    SparseSizes(a, b);
    SparseGrows(text, maxBytes, a, b);
  }
}
