/** Splicing undoes appending, for one block among others. */
module SpliceTheorems {
  import opened Wrappers
  import opened TextLines
  import opened HealTheorems
  import opened TomlSplice

  // ---- Occurrences across whole lines ----

  ghost predicate Free(text: string, pattern: string) {
    forall i: nat :: !OccursAt(text, pattern, i)
  }

  /** Text that ends its lines can be extended without creating an occurrence across the seam. */
  lemma SeamBeside(a: string, b: string, pattern: string, i: nat)
    requires EndsLine(a) && OccursAt(a + b, pattern, i) && '\n' !in pattern && pattern != ""
    ensures OccursAt(a, pattern, i) || (i >= |a| && OccursAt(b, pattern, i - |a|))
  {
    if a == "" {
      assert a + b == b;
    } else {
      var line := a[..|a| - 1];
      assert a == line + "\n" && a + b == line + "\n" + b;
      OccursBeside(line, b, pattern, i);
      if OccursAt(line, pattern, i) {
        assert a[i..i + |pattern|] == line[i..i + |pattern|];
      }
    }
  }

  lemma SeamFree(a: string, b: string, pattern: string)
    requires EndsLine(a) && '\n' !in pattern && pattern != "" && Free(a, pattern) && Free(b, pattern)
    ensures Free(a + b, pattern)
  {
    forall i: nat ensures !OccursAt(a + b, pattern, i) {
      if OccursAt(a + b, pattern, i) {
        SeamBeside(a, b, pattern, i);
      }
    }
  }

  /** A marker line between marker-free lines is the only place where its marker occurs. */
  lemma OnlyThere(before: string, marker: string, after: string, i: nat)
    requires MarkerOk(marker) && EndsLine(before) && Free(before, marker) && Free(after, marker)
    requires OccursAt(before + (marker + "\n" + after), marker, i)
    ensures i == |before|
  {
    SeamBeside(before, marker + "\n" + after, marker, i);
    OccursBeside(marker, after, marker, i - |before|);
  }

  lemma MarkerThere(before: string, marker: string, after: string)
    ensures OccursAt(before + (marker + "\n" + after), marker, |before|)
  {
    var text := before + (marker + "\n" + after);
    assert text[|before|..|before| + |marker|] == marker;
  }

  lemma OnlyMatch(before: string, marker: string, after: string)
    requires MarkerOk(marker) && EndsLine(before) && Free(before, marker) && Free(after, marker)
    ensures Matches(before + (marker + "\n" + after), marker, 0) == [|before|]
  {
    var text := before + (marker + "\n" + after);
    MarkerThere(before, marker, after);
    forall i: nat | OccursAt(text, marker, i) ensures i == |before| {
      OnlyThere(before, marker, after, i);
    }
    MatchesOne(text, marker, |before|);
  }

  /** A line that is another marker has no occurrence of this one. */
  lemma OtherMarkerFree(marker: string, other: string, after: string)
    requires MarkerOk(marker) && MarkerOk(other) && !(marker <= other) && Free(after, marker)
    ensures Free(other + "\n" + after, marker)
  {
    forall i: nat ensures !OccursAt(other + "\n" + after, marker, i) {
      if OccursAt(other + "\n" + after, marker, i) {
        OccursBeside(other, after, marker, i);
        if OccursAt(other, marker, i) { MarkerInMarker(marker, other, i); }
      }
    }
  }

  // ---- The block's place in a text ----

  /** A text with exactly this block of the pair in it, on lines of its own. */
  ghost predicate Around(before: string, begin: string, entry: string, end: string, after: string) {
    && MarkerPair(begin, end) && EndsLine(before) && EndsLine(entry)
    && Free(before, begin) && Free(before, end) && Free(entry, begin) && Free(entry, end) && Free(after, begin)
        && Free(after, end)
  }

  lemma CanonicalHead(before: string, begin: string, entry: string, end: string, after: string)
    ensures before + Canonical(begin, entry, end) + after == before + (begin + "\n" + (entry + (end + "\n" + after)))
  {}

  lemma CanonicalTail(before: string, begin: string, entry: string, end: string, after: string)
    ensures before + Canonical(begin, entry, end) + after == before + (begin + "\n" + entry) + (end + "\n" + after)
  {}

  lemma BeginMatch(before: string, begin: string, entry: string, end: string, after: string)
    requires Around(before, begin, entry, end, after)
    ensures Matches(before + Canonical(begin, entry, end) + after, begin, 0) == [|before|]
  {
    OtherMarkerFree(begin, end, after);
    SeamFree(entry, end + "\n" + after, begin);
    OnlyMatch(before, begin, entry + (end + "\n" + after));
    CanonicalHead(before, begin, entry, end, after);
  }

  lemma HeadEnds(before: string, begin: string, entry: string)
    requires EndsLine(entry)
    ensures EndsLine(before + (begin + "\n" + entry))
  {
    var head := before + (begin + "\n" + entry);
    assert head[|head| - 1] == if entry == "" then '\n' else entry[|entry| - 1];
  }

  lemma EndMatch(before: string, begin: string, entry: string, end: string, after: string)
    requires Around(before, begin, entry, end, after)
    ensures Matches(before + Canonical(begin, entry, end) + after, end, 0) == [|before| + |begin| + 1 + |entry|]
  {
    OtherMarkerFree(end, begin, entry);
    SeamFree(before, begin + "\n" + entry, end);
    HeadEnds(before, begin, entry);
    OnlyMatch(before + (begin + "\n" + entry), end, after);
    CanonicalTail(before, begin, entry, end, after);
  }

  lemma CanonicalRange(before: string, begin: string, entry: string, end: string, after: string)
    requires Around(before, begin, entry, end, after)
    ensures BlockRange(before + Canonical(begin, entry, end) + after, begin, end)
            == Some((|before|, |before + Canonical(begin, entry, end)|))
  {
    var block := Canonical(begin, entry, end);
    var text, stop := before + block + after, |before| + |block| - 1;
    BeginMatch(before, begin, entry, end, after);
    EndMatch(before, begin, entry, end, after);
    assert text[..|before|] == before;
    assert text[stop] == '\n';
    assert text[stop..][0] == '\n';
  }

  /** Splicing takes out exactly the recorded block and leaves the rest of the file byte for byte. */
  lemma SpliceExact(before: string, begin: string, entry: string, end: string, after: string, key: string, toml: Toml)
    requires Around(before, begin, entry, end, after)
    requires var text := before + Canonical(begin, entry, end) + after;
             toml.valid(text) && toml.has(text, key) && toml.valid(before + after) && !toml.has(before + after, key)
    ensures Splice(before + Canonical(begin, entry, end) + after, begin, end, key, toml)
            == Success(Spliced(before + after, Some(Canonical(begin, entry, end))))
  {
    var block := Canonical(begin, entry, end);
    BeginMatch(before, begin, entry, end, after);
    CanonicalRange(before, begin, entry, end, after);
    ConcatSlices(before, block, after);
  }

  /** Appending a block and splicing it out restores the text, up to one final newline. */
  lemma AppendThenSplice(text: string, begin: string, entry: string, end: string, key: string, toml: Toml)
    requires MarkerPair(begin, end) && EndsLine(entry)
    requires Free(text, begin) && Free(text, end) && Free(entry, begin) && Free(entry, end)
    requires var written := Appended(text, Canonical(begin, entry, end));
             var closed := if EndsLine(text) then text else text + "\n";
             toml.valid(written) && toml.has(written, key) && toml.valid(closed) && !toml.has(closed, key)
    ensures Splice(Appended(text, Canonical(begin, entry, end)), begin, end, key, toml)
            == Success(Spliced(if EndsLine(text) then text else text + "\n", Some(Canonical(begin, entry, end))))
  {
    var closed := if EndsLine(text) then text else text + "\n";
    if !EndsLine(text) {
      assert Free("", begin) && Free("", end);
      ClosedFree(text, begin);
      ClosedFree(text, end);
    }
    assert closed + "" == closed
        && closed + Canonical(begin, entry, end) + "" == Appended(text, Canonical(begin, entry, end));
    SpliceExact(closed, begin, entry, end, "", key, toml);
  }

  lemma ClosedFree(text: string, marker: string)
    requires MarkerOk(marker) && Free(text, marker)
    ensures Free(text + "\n", marker)
  {
    forall i: nat ensures !OccursAt(text + "\n", marker, i) {
      if OccursAt(text + "\n", marker, i) {
        assert text + "\n" == text + "\n" + "";
        OccursBeside(text, "", marker, i);
      }
    }
  }
}
