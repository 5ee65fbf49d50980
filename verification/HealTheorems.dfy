/** What repairing a polluted block guarantees, and when doing it twice is the same as once. */
module HealTheorems {
  import opened Wrappers
  import opened TextLines
  import opened HealBlock

  // ---- Markers ----

  /** A comment line of its own: one hash at the start, visible at both ends, no line break. */
  ghost predicate MarkerOk(m: string) {
    && m != "" && m[0] == '#' && (forall i | 0 < i < |m| :: m[i] != '#')
    && '\n' !in m && '\r' !in m && !IsSpace(m[|m| - 1])
  }

  /** A marker can only occur in another one at its start. */
  lemma MarkerInMarker(marker: string, other: string, i: nat)
    requires MarkerOk(marker) && MarkerOk(other) && OccursAt(other, marker, i)
    ensures i == 0 && marker <= other
  {
    assert other[i] == other[i..i + |marker|][0] == '#';
  }

  ghost predicate MarkerPair(begin: string, end: string) {
    MarkerOk(begin) && MarkerOk(end) && !(begin <= end) && !(end <= begin)
  }

  /** A marker line opens nothing, and a stripped carriage return changes nothing. */
  lemma KindFacts(line: string, begin: string, end: string)
    requires MarkerPair(begin, end)
    ensures var kind := Classifier(begin, end);
            (kind(line).marker ==> !kind(line).opens) && kind(StripCr(line)) == kind(line)
  {
    TrimStripped(line);
  }

  // ---- The lines of a block that ends with a marker ----

  lemma {:induction false} LastLine(text: string, s: string)
    requires s != "" && '\n' !in s && |s| <= |text| && text[|text| - |s|..] == s
    ensures Lines(text) != []
    ensures var last := Lines(text)[|Lines(text)| - 1];
            |s| <= |last| <= |text| && last == text[|text| - |last|..]
    decreases |text|
  {
    match NewlineAt(text)
    case None =>
    case Some(n) =>
      SuffixClear(text, s);
      LastLine(text[n + 1..], s);
  }

  lemma SuffixClear(text: string, s: string)
    requires '\n' !in s && |s| <= |text| && text[|text| - |s|..] == s
    ensures forall k | |text| - |s| <= k < |text| :: text[k] != '\n'
  {
    forall k | |text| - |s| <= k < |text| ensures text[k] != '\n' {
      assert text[k] == s[k - (|text| - |s|)];
    }
  }

  lemma PrefixClear(text: string, s: string)
    requires '\n' !in s && '\r' !in s && OccursAt(text, s, 0)
    ensures forall k | 0 <= k < |s| :: text[k] != '\n' && text[k] != '\r'
  {
    forall k | 0 <= k < |s| ensures text[k] != '\n' && text[k] != '\r' {
      assert text[k] == s[k];
    }
  }

  lemma FirstLine(text: string, s: string)
    requires s != "" && '\n' !in s && '\r' !in s && OccursAt(text, s, 0)
    ensures Lines(text) != [] && OccursAt(Lines(text)[0], s, 0)
  {
    match NewlineAt(text)
    case None =>
    case Some(n) =>
      PrefixClear(text, s);
  }

  /** The only occurrence of the end marker in a line sequence is at the very end of `last`. */
  ghost predicate EndsOnce(lines: seq<string>, last: string, end: string) {
    && (forall line <- lines :: !Occurs(line, end))
    && |end| <= |last| && OccursAt(last, end, |last| - |end|)
    && forall i: nat | OccursAt(last, end, i) :: i == |last| - |end|
  }

  /** The last line of a block holds its end marker, and only at its end. */
  lemma LastEnds(block: string, last: string, end: string)
    requires |end| <= |last| <= |block| && last == block[|block| - |last|..]
    requires OccursAt(block, end, |block| - |end|) && forall i: nat | OccursAt(block, end, i) :: i == |block| - |end|
    ensures OccursAt(last, end, |last| - |end|) && forall i: nat | OccursAt(last, end, i) :: i == |last| - |end|
  {
    var shift := |block| - |last|;
    assert block[shift..|block|] == last;
    OccursInSlice(block, shift, |block|, end, |last| - |end|);
    forall i: nat | OccursAt(last, end, i) ensures i == |last| - |end| {
      OccursInSlice(block, shift, |block|, end, i);
    }
  }

  /** No line before the last one holds the end marker. */
  lemma EarlierFree(block: string, k: nat, end: string)
    requires k < |Lines(block)| - 1 && |end| <= |block|
        && forall i: nat | OccursAt(block, end, i) :: i == |block| - |end|
    ensures !Occurs(Lines(block)[k], end)
  {
    if Occurs(Lines(block)[k], end) {
      var off :| OccursAt(Lines(block)[k], end, off);
      var i := LineOccurs(block, k, end, off);
    }
  }

  lemma InitFree(block: string, init: seq<string>, last: string, end: string)
    requires Lines(block) == init + [last] && |end| <= |block|
        && forall i: nat | OccursAt(block, end, i) :: i == |block| - |end|
    ensures forall line <- init :: !Occurs(line, end)
  {
    forall line | line in init ensures !Occurs(line, end) {
      var k :| 0 <= k < |init| && init[k] == line;
      assert Lines(block)[k] == line;
      EarlierFree(block, k, end);
    }
  }

  /** A block from a begin marker to the first end marker. */
  lemma BlockLines(block: string, begin: string, end: string) returns (init: seq<string>, last: string)
    requires MarkerPair(begin, end) && OccursAt(block, begin, 0) && |end| <= |block|
    requires OccursAt(block, end, |block| - |end|) && forall i: nat | OccursAt(block, end, i) :: i == |block| - |end|
    ensures Lines(block) == init + [last] && SingleLines(init) && '\n' !in last && EndsOnce(init, last, end)
    ensures OccursAt((init + [last])[0], begin, 0)
  {
    FirstLine(block, begin);
    init, last := LinesSplit(block, end);
    LastEnds(block, last, end);
    InitFree(block, init, last, end);
  }

  lemma LinesSplit(block: string, end: string) returns (init: seq<string>, last: string)
    requires MarkerOk(end) && |end| <= |block| && OccursAt(block, end, |block| - |end|)
    ensures Lines(block) == init + [last] && SingleLines(init) && '\n' !in last
    ensures |end| <= |last| <= |block| && last == block[|block| - |last|..]
  {
    var lines := Lines(block);
    LastLine(block, end);
    LinesSingle(block);
    init, last := lines[..|lines| - 1], lines[|lines| - 1];
    assert lines == init + [last];
    assert last in lines && forall x <- init :: x in lines;
  }

  // ---- Finding the markers again ----

  /** Nothing of either marker starts before the block. */
  ghost predicate CleanBefore(pre: string, begin: string, end: string) {
    forall i: nat | i < |pre| :: !OccursAt(pre + begin, begin, i) && !OccursAt(pre + begin, end, i)
  }

  /** In joined lines that contain no end marker before the last one, it is found at the end. */
  lemma EndOfBody(lines: seq<string>, last: string, end: string)
    requires MarkerOk(end) && EndsOnce(lines, last, end)
    ensures var body := Join(lines) + last;
            && |end| <= |body| && OccursAt(body, end, |body| - |end|)
            && forall i: nat | i < |body| - |end| :: !OccursAt(body, end, i)
  {
    var body := Join(lines) + last;
    OccursInSlice(body, |Join(lines)|, |body|, end, |last| - |end|);
    assert body[|Join(lines)|..|body|] == last;
    forall i: nat | i < |body| - |end| ensures !OccursAt(body, end, i) {
      if OccursAt(body, end, i) {
        OccursInJoin(lines, last, end, i);
      }
    }
  }

  lemma ConcatSlices(pre: string, body: string, rest: string)
    ensures var text := pre + body + rest;
            text[..|pre|] == pre && text[|pre|..|pre| + |body|] == body && text[|pre| + |body|..] == rest
  {}

  /** A body at position `at`, with nothing of either marker before it. */
  ghost predicate Placed(text: string, pre: string, body: string, begin: string, end: string) {
    && MarkerPair(begin, end) && CleanBefore(pre, begin, end)
    && |pre + begin| <= |text| && text[..|pre + begin|] == pre + begin && OccursAt(body, begin, 0)
    && |pre| + |body| <= |text| && text[|pre|..|pre| + |body|] == body
  }

  lemma BeginLocated(text: string, pre: string, body: string, begin: string, end: string)
    requires Placed(text, pre, body, begin, end)
    ensures Find(text, begin, 0) == Some(|pre|)
  {
    OccursInSlice(text, |pre|, |pre| + |body|, begin, 0);
    forall i: nat | i < |pre| ensures !OccursAt(text, begin, i) {
      NotBefore(pre, text, begin, end, i);
    }
    FindIs(text, begin, |pre|);
  }

  /** The first end marker of the body is the first of the text. */
  lemma EndLocated(text: string, pre: string, body: string, begin: string, end: string, p: nat)
    requires Placed(text, pre, body, begin, end)
    requires OccursAt(body, end, p) && forall i: nat | i < p :: !OccursAt(body, end, i)
    ensures Find(text, end, 0) == Some(|pre| + p)
  {
    OccursInSlice(text, |pre|, |pre| + |body|, end, p);
    forall i: nat | i < |pre| + p ensures !OccursAt(text, end, i) {
      if i < |pre| {
        NotBefore(pre, text, begin, end, i);
      } else {
        NotInBody(text, |pre|, body, end, p, i);
      }
    }
    FindIs(text, end, |pre| + p);
  }

  lemma NotInBody(text: string, at: nat, body: string, end: string, p: nat, i: nat)
    requires at + |body| <= |text| && text[at..at + |body|] == body && p + |end| <= |body| && at <= i < at + p
    requires forall j: nat | j < p :: !OccursAt(body, end, j)
    ensures !OccursAt(text, end, i)
  {
    OccursInSlice(text, at, at + |body|, end, i - at);
  }

  lemma LocatedBegin(text: string, pre: string, body: string, rest: string, begin: string, end: string)
    requires MarkerPair(begin, end) && CleanBefore(pre, begin, end) && OccursAt(body, begin, 0)
    requires text == pre + body + rest
    ensures Find(text, begin, 0) == Some(|pre|)
  {
    BodyPlaced(text, pre, body, rest, begin, end);
    BeginLocated(text, pre, body, begin, end);
  }

  lemma LocatedEnd(text: string, pre: string, body: string, rest: string, begin: string, end: string, p: nat)
    requires MarkerPair(begin, end) && CleanBefore(pre, begin, end) && OccursAt(body, begin, 0)
    requires text == pre + body + rest
    requires OccursAt(body, end, p) && forall i: nat | i < p :: !OccursAt(body, end, i)
    ensures Find(text, end, 0) == Some(|pre| + p)
  {
    BodyPlaced(text, pre, body, rest, begin, end);
    EndLocated(text, pre, body, begin, end, p);
  }

  /** The markers of a rebuilt text are found where the block was rebuilt. */
  lemma Located(pre: string, body: string, rest: string, begin: string, end: string)
    requires MarkerPair(begin, end) && CleanBefore(pre, begin, end) && OccursAt(body, begin, 0) && EndsBody(body, end)
    ensures Find(pre + body + rest, begin, 0) == Some(|pre|)
    ensures Find(pre + body + rest, end, 0) == Some(|pre| + |body| - |end|)
  {
    var text, p := pre + body + rest, |body| - |end|;
    LocatedBegin(text, pre, body, rest, begin, end);
    LocatedEnd(text, pre, body, rest, begin, end, p);
  }

  /** The body's first end marker is at its very end. */
  ghost predicate EndsBody(body: string, end: string) {
    |end| <= |body| && OccursAt(body, end, |body| - |end|)
        && forall i: nat | i < |body| - |end| :: !OccursAt(body, end, i)
  }

  lemma BodyPlaced(text: string, pre: string, body: string, rest: string, begin: string, end: string)
    requires MarkerPair(begin, end) && CleanBefore(pre, begin, end) && OccursAt(body, begin, 0)
    requires text == pre + body + rest
    ensures Placed(text, pre, body, begin, end)
  {
    ConcatSlices(pre, body, rest);
    assert text[..|pre| + |begin|] == pre + begin by {
      assert forall k | 0 <= k < |begin| :: body[k] == body[..|begin|][k];
    }
  }

  /** An occurrence that starts before a hash ends before it. */
  lemma EndsBeforeHash(text: string, marker: string, i: nat, at: nat)
    requires MarkerOk(marker) && OccursAt(text, marker, i) && i < at < |text| && text[at] == '#'
    ensures i + |marker| <= at
  {
    if at < i + |marker| { OccurrenceAt(text, marker, i, at); }
  }

  lemma NotBefore(pre: string, text: string, begin: string, end: string, i: nat)
    requires MarkerPair(begin, end) && CleanBefore(pre, begin, end) && |pre + begin| <= |text|
    requires text[..|pre + begin|] == pre + begin && i < |pre|
    ensures !OccursAt(text, begin, i) && !OccursAt(text, end, i)
  {
    var head := pre + begin;
    assert !OccursAt(head, begin, i) && !OccursAt(head, end, i);
    OccursInSlice(text, 0, |head|, begin, i);
    if i + |end| <= |head| { OccursInSlice(text, 0, |head|, end, i); }
    if OccursAt(text, end, i) { EndsBeforeHash(text, end, i, |pre|); }
  }

  // ---- The text before healing ----

  /** The begin marker is found before the end marker. */
  ghost predicate Bracketed(text: string, begin: string, end: string) {
    && MarkerPair(begin, end)
    && Find(text, begin, 0).Some? && Find(text, end, 0).Some?
    && Find(text, begin, 0).value < Find(text, end, 0).value
  }

  function BlockOf(text: string, begin: string, end: string): string
    requires Find(text, begin, 0).Some? && Find(text, end, 0).Some?
    requires Find(text, begin, 0).value < Find(text, end, 0).value
  {
    text[Find(text, begin, 0).value..Find(text, end, 0).value + |end|]
  }

  /** What finding both markers says. */
  lemma BracketFacts(text: string, begin: string, end: string) returns (b: nat, e: nat)
    requires Bracketed(text, begin, end)
    ensures Find(text, begin, 0) == Some(b) && Find(text, end, 0) == Some(e)
    ensures OccursAt(text, begin, b) && OccursAt(text, end, e) && b + |begin| <= e && e + |end| <= |text|
    ensures forall i: nat | i < b :: !OccursAt(text, begin, i)
    ensures forall i: nat | i < e :: !OccursAt(text, end, i)
  {
    b, e := Find(text, begin, 0).value, Find(text, end, 0).value;
    FindSpec(text, begin, 0);
    FindSpec(text, end, 0);
    MarkersApart(text, begin, end, b, e);
  }

  lemma BlockShape(text: string, begin: string, end: string)
    requires Bracketed(text, begin, end)
    ensures var block := BlockOf(text, begin, end);
            && OccursAt(block, begin, 0) && |end| <= |block| && OccursAt(block, end, |block| - |end|)
            && (forall i: nat | OccursAt(block, end, i) :: i == |block| - |end|)
  {
    var b, e := BracketFacts(text, begin, end);
    SliceShape(text, b, e, BlockOf(text, begin, end), begin, end);
  }

  lemma SliceShape(text: string, b: nat, e: nat, block: string, begin: string, end: string)
    requires b + |begin| <= e && e + |end| <= |text| && block == text[b..e + |end|]
    requires OccursAt(text, begin, b) && OccursAt(text, end, e) && forall i: nat | i < e :: !OccursAt(text, end, i)
    ensures OccursAt(block, begin, 0) && OccursAt(block, end, e - b)
    ensures forall i: nat | OccursAt(block, end, i) :: i == e - b
  {
    OccursInSlice(text, b, e + |end|, begin, 0);
    OccursInSlice(text, b, e + |end|, end, e - b);
    forall i: nat | OccursAt(block, end, i) ensures i == e - b {
      OccursInSlice(text, b, e + |end|, end, i);
    }
  }

  lemma CleanPrefix(text: string, begin: string, end: string)
    requires Bracketed(text, begin, end)
    ensures CleanBefore(text[..Find(text, begin, 0).value], begin, end)
  {
    var b, e := BracketFacts(text, begin, end);
    CleanHead(text, begin, end, b);
  }

  lemma CleanHead(text: string, begin: string, end: string, b: nat)
    requires OccursAt(text, begin, b)
    requires forall i: nat | i < b :: !OccursAt(text, begin, i)
    requires forall i: nat | i < b :: !OccursAt(text, end, i)
    ensures CleanBefore(text[..b], begin, end)
  {
    HeadIs(text, begin, b);
    NoneInHead(text, begin, b, b + |begin|);
    NoneInHead(text, end, b, b + |begin|);
  }

  lemma HeadIs(text: string, begin: string, b: nat)
    requires OccursAt(text, begin, b)
    ensures text[..b] + begin == text[..b + |begin|]
  {}

  lemma NoneInHead(text: string, pattern: string, b: nat, stop: nat)
    requires b <= stop <= |text| && forall i: nat | i < b :: !OccursAt(text, pattern, i)
    ensures forall i: nat | i < b :: !OccursAt(text[..stop], pattern, i)
  {
    assert text[..stop] == text[0..stop];
    forall i: nat | i < b ensures !OccursAt(text[..stop], pattern, i) {
      if i + |pattern| <= stop { OccursInSlice(text, 0, stop, pattern, i); }
    }
  }

  /** An end marker cannot start inside a begin marker. */
  lemma MarkersApart(text: string, begin: string, end: string, b: nat, e: nat)
    requires MarkerPair(begin, end) && OccursAt(text, begin, b) && OccursAt(text, end, e) && b < e
    ensures b + |begin| <= e
  {
    assert text[e] == text[e..e + |end|][0] == '#';
    EndsBeforeHash(text, begin, b, e);
  }

  // ---- The healed text ----

  function FirstParts(text: string, begin: string, end: string): Parts
    requires Find(text, begin, 0).Some? && Find(text, end, 0).Some?
    requires Find(text, begin, 0).value < Find(text, end, 0).value
  {
    Partition(Lines(BlockOf(text, begin, end)), false, Classifier(begin, end))
  }

  /** A healed text seen as: before, the lines ahead of the end marker's line, that line, and the rest. */
  datatype Form = Form(pre: string, ours: seq<string>, foreign: seq<string>, last: string, alone: bool, rest: string)

  function Ahead(f: Form): seq<string> {
    if f.alone then f.ours else f.ours + f.foreign
  }

  function Body(f: Form): string {
    Join(Ahead(f)) + f.last
  }

  function Tail(f: Form): string {
    if f.alone then Join(f.foreign) + f.rest else f.rest
  }

  function Text(f: Form): string {
    f.pre + Body(f) + ("\n" + Tail(f))
  }

  /** The lines of a form are classified as they stand, and only `last` ends the block. */
  ghost predicate FormOk(f: Form, kind: string -> LineKind, end: string) {
    && SingleLines(f.ours) && SingleLines(f.foreign) && '\n' !in f.last && EndsOnce(f.ours + f.foreign, f.last, end)
    && (forall x <- f.ours :: OursLine(kind(x)) && !kind(x).opens)
    && (forall x <- f.foreign :: !kind(x).marker)
    && (f.alone <==> kind(f.last).marker)
    && (f.foreign != [] ==> kind(f.foreign[0]).opens) && (!f.alone && f.foreign == [] ==> kind(f.last).opens)
  }

  lemma PartitionOne(last: string, f: bool, kind: string -> LineKind)
    ensures Partition([last], f, kind) ==
            if kind(last).marker then Parts([last], [])
            else if f || kind(last).opens then Parts([], [last])
            else if !kind(last).blank then Parts([last], []) else Parts([], [])
  {
    var p := Partition([last][1..], f || kind(last).opens, kind);
    assert [last][1..] == [];
  }

  /** How the block's last line joins one of the two sides. */
  lemma LastPart(init: seq<string>, last: string, kind: string -> LineKind)
    requires Partition(init + [last], false, kind).foreign != [] && (kind(last).marker ==> !kind(last).opens)
    requires forall x <- init :: kind(x).marker ==> !kind(x).opens
    ensures var p, q := Partition(init + [last], false, kind), Partition(init, false, kind);
            && (if kind(last).marker then p == Parts(q.ours + [last], q.foreign)
                else p == Parts(q.ours, q.foreign + [last]))
            && (q.foreign == [] ==> !kind(last).marker && kind(last).opens)
  {
    var f, q := FlagAfter(init, false, kind), Partition(init, false, kind);
    var one := Partition([last], f, kind);
    assert Partition(init + [last], false, kind) == Parts(q.ours + one.ours, q.foreign + one.foreign) by {
      PartitionConcat(init, [last], false, kind);
    }
    PartitionOne(last, f, kind);
    ForeignIffFlag(init, kind);
  }

  lemma {:induction false} FlagStays(lines: seq<string>, kind: string -> LineKind)
    ensures FlagAfter(lines, true, kind)
  {
    if lines != [] {
      FlagStays(lines[1..], kind);
    }
  }

  /** Something is foreign exactly when some line opened foreign territory. */
  lemma {:induction false} ForeignIffFlag(lines: seq<string>, kind: string -> LineKind)
    requires forall x <- lines :: kind(x).marker ==> !kind(x).opens
    ensures FlagAfter(lines, false, kind) <==> Partition(lines, false, kind).foreign != []
  {
    if lines != [] {
      assert forall x <- lines[1..] :: x in lines;
      if kind(lines[0]).opens {
        FlagStays(lines[1..], kind);
      } else {
        ForeignIffFlag(lines[1..], kind);
      }
    }
  }

  /** The first line of the block is ours and starts with the begin marker. */
  lemma FirstIsOurs(init: seq<string>, last: string, begin: string, end: string)
    requires MarkerPair(begin, end) && OccursAt((init + [last])[0], begin, 0) && init != []
    ensures var ours := Partition(init, false, Classifier(begin, end)).ours; ours != [] && ours[0] == init[0]
  {
    var line := init[0];
    assert init[0] == (init + [last])[0];
    HashLine(line, begin, end);
  }

  lemma HashLine(line: string, begin: string, end: string)
    requires MarkerPair(begin, end) && OccursAt(line, begin, 0)
    ensures !KindOf(line, begin, end).opens && !KindOf(line, begin, end).blank
  {
    TrimHash(line, |begin| - 1);
  }

  /** A line with a visible character keeps its first character if that one is visible. */
  lemma {:induction false} TrimHash(line: string, k: nat)
    requires line != "" && line[0] == '#' && k < |line| && !IsSpace(line[k])
    ensures Trim(line) != "" && Trim(line)[0] == '#'
  {
    if IsSpace(line[|line| - 1]) {
      TrimHash(line[..|line| - 1], k);
    }
  }

  /** Lines that all come from `init` end once where `init` does. */
  lemma EndsOnceAmong(init: seq<string>, some: seq<string>, last: string, end: string)
    requires EndsOnce(init, last, end) && SingleLines(init) && forall x <- some :: x in init
    ensures EndsOnce(some, last, end) && SingleLines(some)
  {}

  lemma AheadBegins(init: seq<string>, last: string, q: Parts, alone: bool, begin: string, end: string)
    requires MarkerPair(begin, end) && OccursAt((init + [last])[0], begin, 0) && init != []
    requires q == Partition(init, false, Classifier(begin, end))
    ensures OccursAt(Join(if alone then q.ours else q.ours + q.foreign) + last, begin, 0)
  {
    FirstIsOurs(init, last, begin, end);
    var ahead := if alone then q.ours else q.ours + q.foreign;
    assert ahead[0] == init[0] == (init + [last])[0];
    assert Join(ahead) == ahead[0] + "\n" + Join(ahead[1..]);
  }

  /** The lines ahead of the block's last one, and that one. */
  ghost predicate BlockIs(text: string, begin: string, end: string, init: seq<string>, last: string) {
    Bracketed(text, begin, end) && Lines(BlockOf(text, begin, end)) == init + [last]
  }

  lemma BlockEnds(text: string, begin: string, end: string) returns (init: seq<string>, last: string)
    requires Bracketed(text, begin, end)
    ensures BlockIs(text, begin, end, init, last) && SingleLines(init) && '\n' !in last && EndsOnce(init, last, end)
  {
    BlockShape(text, begin, end);
    init, last := BlockLines(BlockOf(text, begin, end), begin, end);
  }

  lemma BlockBegins(text: string, begin: string, end: string, init: seq<string>, last: string)
    requires BlockIs(text, begin, end, init, last)
    ensures OccursAt((init + [last])[0], begin, 0)
  {
    BlockShape(text, begin, end);
    var init', last' := BlockLines(BlockOf(text, begin, end), begin, end);
  }

  /** Healing a polluted block gives such a form. */
  lemma FormOf(pre: string, init: seq<string>, last: string, rest: string, begin: string, end: string) returns (f: Form)
    requires MarkerPair(begin, end) && SingleLines(init) && '\n' !in last && EndsOnce(init, last, end)
    requires Partition(init + [last], false, Classifier(begin, end)).foreign != []
    ensures FormOk(f, Classifier(begin, end), end)
    ensures f == FormFrom(pre, init, last, rest, Classifier(begin, end))
    ensures Partition(init + [last], false, Classifier(begin, end)) ==
            if f.alone then Parts(f.ours + [f.last], f.foreign) else Parts(f.ours, f.foreign + [f.last])
  {
    var kind := Classifier(begin, end);
    var q := Partition(init, false, kind);
    f := Form(pre, q.ours, q.foreign, last, kind(last).marker, rest);
    KindFacts(last, begin, end);
    forall x | x in init ensures kind(x).marker ==> !kind(x).opens {
      KindFacts(x, begin, end);
    }
    LastPart(init, last, kind);
    OursShape(init, false, kind);
    ForeignShape(init, false, kind);
    EndsOnceAmong(init, q.ours + q.foreign, last, end);
    forall x | x in q.ours ensures !kind(x).opens && '\n' !in x {
      assert OursLine(kind(x)) && x in init;
    }
    forall x | x in q.foreign ensures '\n' !in x {
      assert x in init;
    }
  }

  function FormFrom(pre: string, init: seq<string>, last: string, rest: string, kind: string -> LineKind): Form {
    var q := Partition(init, false, kind);
    Form(pre, q.ours, q.foreign, last, kind(last).marker, rest)
  }

  lemma RegroupAlone(a: string, b: string, c: string, d: string, e: string)
    ensures a + (b + (c + "\n")) + d + e == a + (b + c) + ("\n" + (d + e))
  {}

  lemma RegroupTail(a: string, b: string, c: string, d: string, e: string)
    ensures a + b + (c + (d + "\n")) + e == a + (b + c + d) + ("\n" + e)
  {}

  lemma JoinOne(line: string)
    ensures Join([line]) == line + "\n"
  {
    assert [line][1..] == [];
    assert Join([line][1..]) == "";
  }

  /** A healed text, assembled from its form. */
  lemma AssembledText(f: Form, p: Parts)
    requires p == if f.alone then Parts(f.ours + [f.last], f.foreign) else Parts(f.ours, f.foreign + [f.last])
    ensures f.pre + Join(p.ours) + Join(p.foreign) + f.rest == Text(f)
  {
    JoinOne(f.last);
    if f.alone {
      JoinConcat(f.ours, [f.last]);
      RegroupAlone(f.pre, Join(f.ours), f.last, Join(f.foreign), f.rest);
    } else {
      JoinConcat(f.foreign, [f.last]);
      JoinConcat(f.ours, f.foreign);
      RegroupTail(f.pre, Join(f.ours), Join(f.foreign), f.last, f.rest);
    }
  }

  /** The markers of a text rebuilt around such a body are where the block was. */
  lemma FoundAgain(text: string, pre: string, begin: string, end: string, body: string, tail: string)
    requires Bracketed(text, begin, end) && pre == text[..Find(text, begin, 0).value]
    requires OccursAt(body, begin, 0) && EndsBody(body, end)
    ensures Find(pre + body + tail, begin, 0) == Some(|pre|)
    ensures |end| <= |body| && Find(pre + body + tail, end, 0) == Some(|pre| + |body| - |end|)
  {
    CleanPrefix(text, begin, end);
    Located(pre, body, tail, begin, end);
  }

  lemma BodyEnds(f: Form, end: string)
    requires EndsOnce(f.ours + f.foreign, f.last, end) && MarkerOk(end)
    ensures EndsBody(Body(f), end)
  {
    EndsOnceAhead(f, end);
    EndOfBody(Ahead(f), f.last, end);
  }

  lemma BodyBegins(text: string, begin: string, end: string, init: seq<string>, last: string, f: Form)
    requires BlockIs(text, begin, end, init, last)
    requires Partition(init + [last], false, Classifier(begin, end)).foreign != []
    requires f == FormFrom(f.pre, init, last, f.rest, Classifier(begin, end))
    ensures OccursAt(Body(f), begin, 0)
  {
    BlockBegins(text, begin, end, init, last);
    if init == [] {
      NotOneLine(last, begin, end);
    }
    AheadBegins(init, last, Partition(init, false, Classifier(begin, end)), f.alone, begin, end);
  }

  lemma EndsOnceAhead(f: Form, end: string)
    requires EndsOnce(f.ours + f.foreign, f.last, end)
    ensures EndsOnce(Ahead(f), f.last, end)
  {}

  /** A block on one line has nothing foreign in it. */
  lemma NotOneLine(last: string, begin: string, end: string)
    requires MarkerPair(begin, end) && OccursAt(last, begin, 0)
    ensures Partition([] + [last], false, Classifier(begin, end)).foreign == []
  {
    HashLine(last, begin, end);
    assert [] + [last] == [last];
    PartitionOne(last, false, Classifier(begin, end));
  }
}
