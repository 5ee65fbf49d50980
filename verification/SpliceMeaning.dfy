/** When toml_splice succeeds, what it then takes out, and which error it gives otherwise. */
module SpliceMeaning {
  import opened Wrappers
  import opened TextLines
  import opened TomlSplice

  /** One marker of each kind, the first at the start of a line and the second at the end of one. */
  ghost predicate OneBlock(text: string, begin: string, end: string, b: nat, e: nat)
    requires |begin| > 0 && |end| > 0
  {
    && Matches(text, begin, 0) == [b] && Matches(text, end, 0) == [e] && b < e && e + |end| <= |text|
    && (b == 0 || text[b - 1] == '\n')
    && (e + |end| == |text| || text[e + |end|] == '\n' || text[e + |end|] == '\r')
  }

  /** Past the line ending after the end marker. */
  function Past(text: string, stop: nat): (p: nat)
    requires stop <= |text|
    ensures stop <= p <= |text|
  {
    if stop < |text| && text[stop] == '\n' then stop + 1
    else if stop + 1 < |text| && text[stop] == '\r' && text[stop + 1] == '\n' then stop + 2
    else stop
  }

  lemma PastIs(text: string, stop: nat)
    requires stop <= |text|
    ensures SkipEnding(text, stop) == Past(text, stop)
  {
    var rest := text[stop..];
    if |rest| > 0 { assert rest[0] == text[stop]; }
    if |rest| > 1 { assert rest[1] == text[stop + 1]; }
  }

  /** Without markers the text is left as it is, if it parses and has no entry of ours. */
  lemma SpliceUnmarked(text: string, begin: string, end: string, key: string, toml: Toml)
    requires |begin| > 0 && |end| > 0 && Matches(text, begin, 0) == [] && Matches(text, end, 0) == []
    ensures Splice(text, begin, end, key, toml)
         == if !toml.valid(text) then Failure(InvalidToml)
            else if toml.has(text, key) then Failure(Unmarked)
            else Success(Spliced(text, None))
  {}

  lemma OneBlockRange(text: string, begin: string, end: string, b: nat, e: nat)
    requires |begin| > 0 && |end| > 0 && OneBlock(text, begin, end, b, e)
    ensures BlockRange(text, begin, end) == Some((b, Past(text, e + |end|)))
  {
    hide Matches;
    PastIs(text, e + |end|);
    if b > 0 { assert text[..b][b - 1] == text[b - 1]; }
  }

  /** One proper block is taken out with its line ending, if there is an entry, and none is left without it. */
  lemma SpliceBlock(text: string, begin: string, end: string, key: string, toml: Toml, b: nat, e: nat)
    requires |begin| > 0 && |end| > 0 && OneBlock(text, begin, end, b, e)
    ensures var stop := Past(text, e + |end|);
            var rest := text[..b] + text[stop..];
            Splice(text, begin, end, key, toml)
            == if !toml.valid(text) then Failure(InvalidToml)
               else if !toml.has(text, key) then Failure(NoActualEntry)
               else if !toml.valid(rest) then Failure(InvalidOutside)
               else if toml.has(rest, key) then Failure(Unmarked)
               else Success(Spliced(rest, Some(text[b..stop])))
  {
    hide Matches, BlockRange;
    OneBlockRange(text, begin, end, b, e);
  }

  lemma RangeIsBlock(text: string, begin: string, end: string)
    requires |begin| > 0 && |end| > 0 && BlockRange(text, begin, end).Some?
    ensures exists b, e :: OneBlock(text, begin, end, b, e)
  {
    hide Matches;
    var b, e := Matches(text, begin, 0)[0], Matches(text, end, 0)[0];
    if b > 0 { assert text[..b][b - 1] == text[b - 1]; }
    assert OneBlock(text, begin, end, b, e);
  }

  /** Markers in any other arrangement are refused. */
  lemma SpliceRefuses(text: string, begin: string, end: string, key: string, toml: Toml)
    requires |begin| > 0 && |end| > 0 && (Matches(text, begin, 0) != [] || Matches(text, end, 0) != [])
    requires !exists b, e :: OneBlock(text, begin, end, b, e)
    ensures Splice(text, begin, end, key, toml)
         == Failure(if !toml.valid(text) then InvalidToml
                    else if Matches(text, begin, 0) != [] && !toml.has(text, key) then NoActualEntry
                    else BadMarkers)
  {
    hide Matches, BlockRange, OneBlock;
    if BlockRange(text, begin, end).Some? { RangeIsBlock(text, begin, end); }
  }
}
