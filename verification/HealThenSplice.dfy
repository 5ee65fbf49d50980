/** A canonical block polluted just before its end marker is recovered exactly. */
module HealThenSplice {
  import opened Wrappers
  import opened TextLines
  import opened HealBlock
  import opened HealTheorems
  import opened HealTwice
  import opened TomlSplice
  import opened SpliceTheorems

  /**
    The block's lines up to the first foreign header, as they stand in the file: blank lines and carriage returns
    included.
   */
  ghost predicate OwnLines(lines: seq<string>, begin: string, end: string) {
    forall line <- lines :: '\n' !in line && !KindOf(line, begin, end).opens
  }

  /** Foreign lines from a foreign section header on, without marker lines. */
  ghost predicate ForeignLines(lines: seq<string>, begin: string, end: string) {
    && lines != [] && KindOf(lines[0], begin, end).opens
    && forall line <- lines :: '\n' !in line && !KindOf(line, begin, end).marker
  }

  /** The entry between the markers: what is there, less blank lines and carriage returns. */
  function EntryOf(mine: seq<string>, begin: string, end: string): seq<string> {
    NonBlank(StripAll(mine), Classifier(begin, end))
  }

  ghost predicate LinesFree(lines: seq<string>, pattern: string) {
    forall line <- lines :: Free(line, pattern)
  }

  lemma {:induction false} JoinFree(lines: seq<string>, pattern: string)
    requires LinesFree(lines, pattern) && '\n' !in pattern && pattern != ""
    ensures Free(Join(lines), pattern) && EndsLine(Join(lines))
  {
    if lines != [] {
      JoinFree(lines[1..], pattern);
      var rest := Join(lines[1..]);
      assert Free(lines[0], pattern);
      forall i: nat ensures !OccursAt(Join(lines), pattern, i) {
        if OccursAt(lines[0] + "\n" + rest, pattern, i) {
          OccursBeside(lines[0], rest, pattern, i);
        }
      }
    }
  }

  lemma OccursStripped(line: string, pattern: string, i: nat)
    requires OccursAt(StripCr(line), pattern, i)
    ensures OccursAt(line, pattern, i)
  {
    assert line[i..i + |pattern|] == StripCr(line)[i..i + |pattern|];
  }

  lemma FreeStripped(line: string, pattern: string)
    requires Free(line, pattern)
    ensures Free(StripCr(line), pattern)
  {
    forall i: nat ensures !OccursAt(StripCr(line), pattern, i) {
      if OccursAt(StripCr(line), pattern, i) { OccursStripped(line, pattern, i); }
    }
  }

  lemma {:induction false} EntryFree(mine: seq<string>, begin: string, end: string, pattern: string)
    requires LinesFree(mine, pattern)
    ensures LinesFree(EntryOf(mine, begin, end), pattern)
  {
    if mine != [] {
      assert mine[0] in mine && forall x <- mine[1..] :: x in mine;
      EntryFree(mine[1..], begin, end, pattern);
      FreeStripped(mine[0], pattern);
      assert StripAll(mine)[0] == StripCr(mine[0]) && StripAll(mine)[1..] == StripAll(mine[1..]);
    }
  }

  lemma {:induction false} StripConcat(a: seq<string>, b: seq<string>)
    ensures StripAll(a + b) == StripAll(a) + StripAll(b)
  {
    if a == [] {
      assert a + b == b;
    } else {
      StripConcat(a[1..], b);
      assert (a + b)[1..] == a[1..] + b;
    }
  }

  lemma {:induction false} StrippedAt(lines: seq<string>)
    ensures |StripAll(lines)| == |lines| && forall i | 0 <= i < |lines| :: StripAll(lines)[i] == StripCr(lines[i])
  {
    if lines != [] { StrippedAt(lines[1..]); }
  }

  /** Reading the lines back, without their carriage returns, does not change what they are. */
  lemma OwnStripped(mine: seq<string>, begin: string, end: string)
    requires MarkerPair(begin, end) && OwnLines(mine, begin, end)
    ensures OwnLines(StripAll(mine), begin, end)
  {
    StrippedAt(mine);
    forall x <- StripAll(mine) ensures '\n' !in x && !KindOf(x, begin, end).opens {
      var i :| 0 <= i < |mine| && StripAll(mine)[i] == x;
      assert mine[i] in mine && StripCr(mine[i]) == x;
      KindFacts(mine[i], begin, end);
    }
  }

  lemma ForeignStripped(foreign: seq<string>, begin: string, end: string)
    requires MarkerPair(begin, end) && ForeignLines(foreign, begin, end)
    ensures ForeignLines(StripAll(foreign), begin, end)
  {
    StrippedAt(foreign);
    KindFacts(foreign[0], begin, end);
    forall x <- StripAll(foreign) ensures '\n' !in x && !KindOf(x, begin, end).marker {
      var i :| 0 <= i < |foreign| && StripAll(foreign)[i] == x;
      assert foreign[i] in foreign && StripCr(foreign[i]) == x;
      KindFacts(foreign[i], begin, end);
    }
  }

  /** The line of the begin marker, which may end in a carriage return too. */
  ghost predicate HeadLine(head: string, begin: string) {
    head == begin || head == begin + "\r"
  }

  lemma HeadFacts(head: string, begin: string, end: string)
    requires MarkerPair(begin, end) && HeadLine(head, begin)
    ensures StripCr(head) == begin && '\n' !in head && Free(head, end)
  {
    assert begin[|begin| - 1] in begin && (begin + "\r")[..|begin|] == begin;
    forall i: nat ensures !OccursAt(head, end, i) {
      if OccursAt(head, end, i) {
        if i + |end| <= |begin| {
          assert begin[i..i + |end|] == head[i..i + |end|];
          MarkerInMarker(end, begin, i);
        } else {
          OccurrenceAt(head, end, i, |begin|);
        }
      }
    }
  }

  /** The polluted block, read line by line. */
  lemma PollutedLines(head: string, mine: seq<string>, foreign: seq<string>, begin: string, end: string)
    requires MarkerPair(begin, end) && HeadLine(head, begin)
    requires OwnLines(mine, begin, end) && ForeignLines(foreign, begin, end)
    ensures Lines(PollutedBody(head, mine, foreign, end)) == [begin] + StripAll(mine) + StripAll(foreign) + [end]
  {
    var lines := [head] + mine + foreign;
    HeadFacts(head, begin, end);
    assert SingleLines(lines) by {
      forall x | x in lines ensures '\n' !in x {
        assert x == head || x in mine || x in foreign;
      }
    }
    LinesOfJoin(lines, end);
    StripConcat([head] + mine, foreign);
    StripConcat([head], mine);
    assert StripAll([head]) == [begin];
  }

  /** Our own lines, alone, are kept but for the blank ones. */
  lemma {:induction false} PartitionOwn(lines: seq<string>, kind: string -> LineKind)
    requires forall x <- lines :: !kind(x).opens && (kind(x).marker ==> !kind(x).blank)
    ensures Partition(lines, false, kind) == Parts(NonBlank(lines, kind), []) && !FlagAfter(lines, false, kind)
  {
    if lines != [] {
      assert lines[0] in lines && forall x <- lines[1..] :: x in lines;
      PartitionOwn(lines[1..], kind);
    }
  }

  lemma PollutedPartition(own: seq<string>, foreign: seq<string>, end: string, kind: string -> LineKind)
    requires forall x <- own :: !kind(x).opens && (kind(x).marker ==> !kind(x).blank)
    requires foreign != [] && kind(foreign[0]).opens && forall x <- foreign :: !kind(x).marker
    requires kind(end).marker
    ensures Partition(own + foreign + [end], false, kind) == Parts(NonBlank(own, kind) + [end], foreign)
  {
    PartitionOwn(own, kind);
    PartitionHealed([], foreign, kind);
    assert [] + foreign == foreign;
    PartitionConcat(own, foreign, false, kind);
    PartitionConcat(own + foreign, [end], false, kind);
    PartitionOne(end, FlagAfter(own + foreign, false, kind), kind);
    assert NonBlank(own, kind) + [] == NonBlank(own, kind) && [] + foreign + [] == foreign;
  }

  lemma PollutedParts(own: seq<string>, foreign: seq<string>, begin: string, end: string)
    requires MarkerPair(begin, end) && OwnLines(own, begin, end) && ForeignLines(foreign, begin, end)
    ensures var kind := Classifier(begin, end);
            Partition([begin] + own + foreign + [end], false, kind)
            == Parts([begin] + NonBlank(own, kind) + [end], foreign)
  {
    var kind, lines := Classifier(begin, end), [begin] + own;
    MarkerKinds(begin, end);
    assert forall x <- lines :: !kind(x).opens && (kind(x).marker ==> !kind(x).blank);
    assert forall x <- foreign :: !kind(x).marker;
    PollutedPartition(lines, foreign, end, kind);
    assert lines[0] == begin && lines[1..] == own;
    assert NonBlank(lines, kind) == [begin] + NonBlank(own, kind);
  }

  lemma MarkerKinds(begin: string, end: string)
    requires MarkerPair(begin, end)
    ensures KindOf(begin, begin, end) == LineKind(false, true, false)
    ensures KindOf(end, begin, end) == LineKind(false, true, false)
    ensures !EndsWithCr(begin)
  {
    TrimVisible(begin);
    TrimVisible(end);
    assert begin[|begin| - 1] in begin;
  }

  /** What the block looks like with foreign lines pushed in before its end marker. */
  function PollutedBody(head: string, mine: seq<string>, foreign: seq<string>, end: string): string {
    Join([head] + mine + foreign) + end
  }

  lemma PollutedBodyShape(head: string, begin: string, mine: seq<string>, foreign: seq<string>, end: string)
    requires MarkerPair(begin, end) && HeadLine(head, begin) && LinesFree(mine, end) && LinesFree(foreign, end)
    ensures var body := PollutedBody(head, mine, foreign, end);
            OccursAt(body, begin, 0) && EndsBody(body, end)
  {
    var lines := [head] + mine + foreign;
    assert Join(lines) == head + "\n" + Join(lines[1..]);
    assert Join(lines)[..|begin|] == begin;
    HeadFacts(head, begin, end);
    assert LinesFree(lines, end) by {
      forall x | x in lines ensures Free(x, end) {
        assert x == head || x in mine || x in foreign;
      }
    }
    EndsOnceFree(lines, end);
    EndOfBody(lines, end, end);
  }

  lemma EndsOnceFree(lines: seq<string>, end: string)
    requires MarkerOk(end) && LinesFree(lines, end)
    ensures EndsOnce(lines, end, end)
  {
    forall line | line in lines ensures !Occurs(line, end) {
      assert Free(line, end);
    }
    assert OccursAt(end, end, 0);
  }

  /**
    Foreign sections pushed into a block come out behind it, and the block is canonical again: the begin marker, the
    entry without the blank lines and carriage returns that were written into it, the end marker.
   */
  lemma PollutionHealed(before: string, head: string, begin: string, mine: seq<string>, foreign: seq<string>,
                        end: string, tail: string)
    requires MarkerPair(begin, end) && HeadLine(head, begin) && CleanBefore(before, begin, end)
    requires OwnLines(mine, begin, end) && ForeignLines(foreign, begin, end)
    requires LinesFree(mine, end) && LinesFree(foreign, end)
    ensures Heal(before + PollutedBody(head, mine, foreign, end) + tail, begin, end)
            == Some(before + Canonical(begin, Join(EntryOf(mine, begin, end)), end)
                    + (Join(StripAll(foreign)) + TrimNewlines(tail)))
  {
    hide Find, Heal, Partition, Lines, NonBlank, PollutedBody, CleanBefore, OwnLines, ForeignLines, LinesFree;
    var body, entry := PollutedBody(head, mine, foreign, end), EntryOf(mine, begin, end);
    PollutedBodyShape(head, begin, mine, foreign, end);
    Located(before, body, tail, begin, end);
    PollutedLines(head, mine, foreign, begin, end);
    OwnStripped(mine, begin, end);
    ForeignStripped(foreign, begin, end);
    PollutedParts(StripAll(mine), StripAll(foreign), begin, end);
    ForeignThere(StripAll(foreign), begin, end);
    HealAt(before, body, tail, begin, end, Parts([begin] + entry + [end], StripAll(foreign)));
    CanonicalJoin(begin, entry, end);
  }

  lemma ForeignThere(foreign: seq<string>, begin: string, end: string)
    requires ForeignLines(foreign, begin, end)
    ensures foreign != []
  {}

  lemma CanonicalJoin(begin: string, entry: seq<string>, end: string)
    ensures Join([begin] + entry + [end]) == Canonical(begin, Join(entry), end)
  {
    JoinConcat([begin] + entry, [end]);
    JoinConcat([begin], entry);
    JoinOne(begin);
    JoinOne(end);
  }

  lemma HealAt(before: string, body: string, tail: string, begin: string, end: string, p: Parts)
    requires |end| <= |body| && Partition(Lines(body), false, Classifier(begin, end)) == p && p.foreign != []
    requires Find(before + body + tail, begin, 0) == Some(|before|)
    requires Find(before + body + tail, end, 0) == Some(|before| + |body| - |end|)
    ensures Heal(before + body + tail, begin, end)
        == Some(before + Join(p.ours) + (Join(p.foreign) + TrimNewlines(tail)))
  {
    hide *;
    var text, stop := before + body + tail, |before| + |body|;
    assert stop - |end| + |end| == stop;
    PartsAt(text, before, body, tail, begin, end);
    HealsTo(text, |before|, stop - |end|, begin, end, p);
    RebuiltAt(text, before, body, tail, p);
  }

  lemma PartsAt(text: string, before: string, body: string, tail: string, begin: string, end: string)
    requires text == before + body + tail
    ensures PartsOf(text, |before|, |before| + |body|, begin, end)
         == Partition(Lines(body), false, Classifier(begin, end))
  {
    hide Lines, Partition, Classifier;
    ConcatSlices(before, body, tail);
  }

  lemma RebuiltAt(text: string, before: string, body: string, tail: string, p: Parts)
    requires text == before + body + tail
    ensures Rebuilt(text, |before|, |before| + |body|, p)
         == before + Join(p.ours) + (Join(p.foreign) + TrimNewlines(tail))
  {
    hide Join, TrimNewlines;
    ConcatSlices(before, body, tail);
    Reassociate(before, Join(p.ours), Join(p.foreign), TrimNewlines(tail));
  }

  lemma Reassociate(a: string, b: string, c: string, d: string)
    ensures a + b + c + d == a + b + (c + d)
  {}

  lemma HealsTo(text: string, b: nat, e: nat, begin: string, end: string, p: Parts)
    requires b <= e + |end| <= |text| && PartsOf(text, b, e + |end|, begin, end) == p && p.foreign != []
    requires Find(text, begin, 0) == Some(b) && Find(text, end, 0) == Some(e)
    ensures Heal(text, begin, end) == Some(Rebuilt(text, b, e + |end|, p))
  {
    hide PartsOf, Rebuilt, Find;
  }

  /**
    So the ownership check sees the recorded block again: after healing, the splice
    extracts exactly the canonical block, and the foreign sections stay in the file.
   */
  lemma HealThenSpliceExact(
      before: string, head: string, begin: string, mine: seq<string>, foreign: seq<string>, end: string, tail: string,
      key: string, toml: Toml)
    requires MarkerPair(begin, end) && HeadLine(head, begin)
    requires OwnLines(mine, begin, end) && ForeignLines(foreign, begin, end)
    requires EndsLine(before) && Free(before, begin) && Free(before, end)
    requires LinesFree(mine, begin) && LinesFree(mine, end) && LinesFree(foreign, end)
    requires var kept := Join(StripAll(foreign)) + TrimNewlines(tail); Free(kept, begin) && Free(kept, end)
    requires var kept := Join(StripAll(foreign)) + TrimNewlines(tail);
             var healed := before + Canonical(begin, Join(EntryOf(mine, begin, end)), end) + kept;
             toml.valid(healed) && toml.has(healed, key) && toml.valid(before + kept) && !toml.has(before + kept, key)
    ensures var kept := Join(StripAll(foreign)) + TrimNewlines(tail);
            var healed := Heal(before + PollutedBody(head, mine, foreign, end) + tail, begin, end);
            healed.Some? && Splice(healed.value, begin, end, key, toml)
            == Success(Spliced(before + kept, Some(Canonical(begin, Join(EntryOf(mine, begin, end)), end))))
  {
    hide Heal, Splice, EntryOf, PollutedBody, OwnLines, ForeignLines, LinesFree, CleanBefore;
    var entry := EntryOf(mine, begin, end);
    CleanFromFree(before, begin, end);
    PollutionHealed(before, head, begin, mine, foreign, end, tail);
    EntryFree(mine, begin, end, begin);
    EntryFree(mine, begin, end, end);
    JoinFree(entry, begin);
    JoinFree(entry, end);
    SpliceExact(before, begin, Join(entry), end, Join(StripAll(foreign)) + TrimNewlines(tail), key, toml);
  }

  lemma CleanFromFree(before: string, begin: string, end: string)
    requires MarkerPair(begin, end) && EndsLine(before) && Free(before, begin) && Free(before, end)
    ensures CleanBefore(before, begin, end)
  {
    forall i: nat | i < |before| ensures !OccursAt(before + begin, begin, i) && !OccursAt(before + begin, end, i) {
      if OccursAt(before + begin, begin, i) {
        SeamBeside(before, begin, begin, i);
      }
      if OccursAt(before + begin, end, i) {
        SeamBeside(before, begin, end, i);
      }
    }
  }
}
