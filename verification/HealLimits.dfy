/** Where a repair stops short: texts that a second repair changes again, and texts it panics on. */
module HealLimits {
  import opened Wrappers
  import opened TextLines
  import opened HealBlock
  import opened HealTheorems
  import opened HealTwice

  // ---- A text that a second repair changes again ----

  const FOREIGN_LINE := "[a]\r"

  /** A foreign header whose line ends in one carriage return too many, and an end marker behind other text. */
  function StrayText(begin: string, end: string): string {
    Join([begin, FOREIGN_LINE + "\r"]) + ("k " + end)
  }

  lemma StrayKinds(begin: string, end: string)
    requires MarkerPair(begin, end)
    ensures KindOf(FOREIGN_LINE, begin, end).opens && !KindOf(FOREIGN_LINE, begin, end).marker
    ensures !KindOf("k " + end, begin, end).marker
    ensures KindOf(begin, begin, end).marker && !KindOf(begin, begin, end).opens
  {
    TrimStripped(FOREIGN_LINE);
    assert StripCr(FOREIGN_LINE) == "[a]";
    TrimVisible("[a]");
    assert ("k " + end)[|end| + 1] == end[|end| - 1];
    TrimVisible("k " + end);
    assert ("k " + end)[0] == 'k';
    TrimVisible(begin);
  }

  lemma NoHash(line: string, marker: string)
    requires MarkerOk(marker) && '#' !in line
    ensures !Occurs(line, marker)
  {
    forall i: nat ensures !OccursAt(line, marker, i) {
      if OccursAt(line, marker, i) { OccurrenceAt(line, marker, i, i); }
    }
  }

  lemma StrayEnds(begin: string, end: string)
    requires MarkerPair(begin, end)
    ensures EndsOnce([begin, FOREIGN_LINE + "\r"], "k " + end, end)
  {
    var last := "k " + end;
    NoHash(FOREIGN_LINE + "\r", end);
    forall i: nat ensures !OccursAt(begin, end, i) {
      if OccursAt(begin, end, i) { MarkerInMarker(end, begin, i); }
    }
    assert last[2..2 + |end|] == end;
    forall i: nat | OccursAt(last, end, i) ensures i == 2 {
      OccurrenceAt(last, end, i, i);
      assert last[0] == 'k' && last[1] == ' ';
    }
  }

  lemma StrayShape(begin: string, end: string)
    requires MarkerPair(begin, end)
    ensures OccursAt(StrayText(begin, end), begin, 0) && EndsBody(StrayText(begin, end), end)
  {
    var text, lines := StrayText(begin, end), [begin, FOREIGN_LINE + "\r"];
    StrayEnds(begin, end);
    EndOfBody(lines, "k " + end, end);
    assert Join(lines) == begin + "\n" + Join(lines[1..]);
    assert text[0..|begin|] == begin;
  }

  lemma StrayLocated(begin: string, end: string)
    requires MarkerPair(begin, end)
    ensures var text := StrayText(begin, end);
            Find(text, begin, 0) == Some(0) && |end| <= |text| && Find(text, end, 0) == Some(|text| - |end|)
  {
    StrayShape(begin, end);
    WholeText(StrayText(begin, end), begin, end);
  }

  lemma WholeText(text: string, begin: string, end: string)
    requires OccursAt(text, begin, 0) && EndsBody(text, end)
    ensures Find(text, begin, 0) == Some(0) && Find(text, end, 0) == Some(|text| - |end|)
  {
    FindIs(text, begin, 0);
    FindIs(text, end, |text| - |end|);
  }

  lemma StrayLines(begin: string, end: string)
    requires MarkerPair(begin, end)
    ensures Lines(StrayText(begin, end)) == [begin, FOREIGN_LINE, "k " + end]
  {
    var lines := [begin, FOREIGN_LINE + "\r"];
    assert begin[|begin| - 1] in begin;
    LinesOfJoin(lines, "k " + end);
    assert StripAll(lines) == [begin] + StripAll(lines[1..]) && lines[1..] == [FOREIGN_LINE + "\r"];
    assert StripCr(FOREIGN_LINE + "\r") == FOREIGN_LINE;
    assert StripAll([FOREIGN_LINE + "\r"]) == [FOREIGN_LINE] + StripAll([]);
  }

  lemma StrayParts(begin: string, end: string)
    requires MarkerPair(begin, end)
    ensures Partition([begin, FOREIGN_LINE, "k " + end], false, Classifier(begin, end))
         == Parts([begin], [FOREIGN_LINE, "k " + end])
  {
    StrayKinds(begin, end);
    PartitionHealed([begin], [FOREIGN_LINE, "k " + end], Classifier(begin, end));
    assert [begin] + [FOREIGN_LINE, "k " + end] == [begin, FOREIGN_LINE, "k " + end];
  }

  /** For every pair of markers there is a text that is repaired, and repaired differently the second time. */
  lemma SecondRepairDiffers(begin: string, end: string)
    requires MarkerPair(begin, end)
    ensures var text := StrayText(begin, end);
            && Bracketed(text, begin, end) && Heal(text, begin, end).Some?
            && Heal(Heal(text, begin, end).value, begin, end) != Heal(text, begin, end)
  {
    var text := StrayText(begin, end);
    StrayLocated(begin, end);
    StrayBlock(begin, end);
    StrayLines(begin, end);
    StrayParts(begin, end);
    StrayKinds(begin, end);
    HealTwiceIff(text, begin, end);
    assert EndsWithCr(FOREIGN_LINE);
    assert FOREIGN_LINE in [begin] + [FOREIGN_LINE, "k " + end];
  }

  lemma StrayBlock(begin: string, end: string)
    requires MarkerPair(begin, end)
    ensures Bracketed(StrayText(begin, end), begin, end)
    ensures BlockOf(StrayText(begin, end), begin, end) == StrayText(begin, end)
  {
    var text := StrayText(begin, end);
    StrayLocated(begin, end);
    assert |text| > |end|;
    assert text[0..|text|] == text;
  }

  // ---- The panic ----

  /** Some end marker ends before every begin marker starts. */
  ghost predicate EndsAhead(text: string, begin: string, end: string) {
    exists e: nat :: OccursAt(text, end, e) && forall b: nat | OccursAt(text, begin, b) :: e + |end| < b
  }

  /** The repair panics exactly when both markers occur and some end marker ends before every begin marker starts. */
  lemma PanicIff(text: string, begin: string, end: string)
    ensures Heal(text, begin, end) == None <==> Occurs(text, begin) && EndsAhead(text, begin, end)
  {
    FindSpec(text, begin, 0);
    FindSpec(text, end, 0);
    var b, e := Find(text, begin, 0), Find(text, end, 0);
    if b.Some? {
      assert OccursAt(text, begin, b.value);
    }
    if Heal(text, begin, end) == None {
      assert OccursAt(text, end, e.value);
    }
    if Occurs(text, begin) && EndsAhead(text, begin, end) {
      var first: nat :| OccursAt(text, begin, first);
      var i: nat :| OccursAt(text, end, i) && forall j: nat | OccursAt(text, begin, j) :: i + |end| < j;
      assert e.Some? && e.value <= i;
      assert b.Some? && b.value > i + |end|;
    }
  }

  /** Such texts exist for every pair of markers. */
  lemma ReversedMarkersPanic(begin: string, end: string, rest: string)
    requires MarkerPair(begin, end)
    ensures Heal(end + "\n" + begin + rest, begin, end) == None
  {
    var text := end + "\n" + (begin + rest);
    assert end + "\n" + begin + rest == text;
    assert text[..|end|] == end && text[|end| + 1..|end| + 1 + |begin|] == begin;
    forall i: nat | OccursAt(text, begin, i) ensures |end| < i {
      OccursBeside(end, begin + rest, begin, i);
      if OccursAt(end, begin, i) { MarkerInMarker(begin, end, i); }
    }
    assert OccursAt(text, begin, |end| + 1) && OccursAt(text, end, 0);
    PanicIff(text, begin, end);
  }
}
