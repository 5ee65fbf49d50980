/** Which lines a repair moves, told by the first foreign header, and which lines are headers. */
module HealMeaning {
  import opened TextLines
  import opened HealBlock

  // ---- Lines ----

  predicate AllSpace(s: string) {
    forall i | 0 <= i < |s| :: IsSpace(s[i])
  }

  /** Text that starts and ends with a visible character. */
  predicate Visible(s: string) {
    s != "" && !IsSpace(s[0]) && !IsSpace(s[|s| - 1])
  }

  lemma {:induction false} TrimEndOf(s: string, tail: string)
    requires AllSpace(tail) && (s == "" || !IsSpace(s[|s| - 1]))
    ensures TrimEnd(s + tail) == s
  {
    if tail == "" {
      assert s + tail == s;
    } else {
      TrimEndOf(s, tail[..|tail| - 1]);
      var text := s + tail;
      assert text[..|text| - 1] == s + tail[..|tail| - 1] && text[|text| - 1] == tail[|tail| - 1];
    }
  }

  lemma {:induction false} TrimStartOf(lead: string, s: string)
    requires AllSpace(lead) && (s == "" || !IsSpace(s[0]))
    ensures TrimStart(lead + s) == s
  {
    if lead == "" {
      assert lead + s == s;
    } else {
      TrimStartOf(lead[1..], s);
      assert (lead + s)[1..] == lead[1..] + s && (lead + s)[0] == lead[0];
    }
  }

  lemma TrimSpace(s: string)
    requires AllSpace(s)
    ensures Trim(s) == ""
  {
    TrimEndOf("", s);
    assert "" + s == s;
  }

  lemma TrimCore(lead: string, core: string, tail: string)
    requires AllSpace(lead) && Visible(core) && AllSpace(tail)
    ensures Trim(lead + core + tail) == core
  {
    assert (lead + core)[|lead + core| - 1] == core[|core| - 1];
    TrimEndOf(lead + core, tail);
    TrimStartOf(lead, core);
  }

  /** A line of white space is blank; it opens nothing. */
  lemma BlankLine(line: string, begin: string, end: string)
    requires AllSpace(line)
    ensures var kind := KindOf(line, begin, end);
            kind.blank && !kind.opens && (kind.marker <==> begin == "" || end == "")
  {
    TrimSpace(line);
  }

  /** Any other line opens a foreign section exactly if it starts with a bracket but not with our tables' prefix. */
  lemma VisibleLine(lead: string, core: string, tail: string, begin: string, end: string)
    requires AllSpace(lead) && Visible(core) && AllSpace(tail)
    ensures var kind := KindOf(lead + core + tail, begin, end);
            && (kind.opens <==> core[0] == '[' && !("[mcp_servers." <= core))
            && (kind.marker <==> core == begin || core == end)
            && !kind.blank
  {
    TrimCore(lead, core, tail);
  }

  // ---- The partition ----

  /** The lines that satisfy a test, in order. */
  function Select(lines: seq<string>, test: string -> bool): seq<string> {
    if lines == [] then []
    else if test(lines[0]) then [lines[0]] + Select(lines[1..], test)
    else Select(lines[1..], test)
  }

  /** `k` is where the first foreign header is, or the number of lines if there is none. */
  ghost predicate FirstHeader(lines: seq<string>, k: nat, kind: string -> LineKind) {
    && k <= |lines| && (k < |lines| ==> kind(lines[k]).opens)
    && forall i | 0 <= i < k :: !kind(lines[i]).opens
  }

  lemma {:induction false} PartitionPlain(lines: seq<string>, kind: string -> LineKind)
    requires forall i | 0 <= i < |lines| :: !kind(lines[i]).opens
    ensures Partition(lines, false, kind) == Parts(Select(lines, x => kind(x).marker || !kind(x).blank), [])
    ensures FlagAfter(lines, false, kind) == false
  {
    if lines != [] {
      PartitionPlain(lines[1..], kind);
    }
  }

  lemma {:induction false} PartitionMoved(lines: seq<string>, kind: string -> LineKind)
    ensures Partition(lines, true, kind)
        == Parts(Select(lines, x => kind(x).marker), Select(lines, x => !kind(x).marker))
  {
    if lines != [] {
      PartitionMoved(lines[1..], kind);
    }
  }

  /**
    What a repair makes of a block's lines: everything from the first foreign header on is foreign, except markers;
    what comes before, and every marker, is ours, less the blank lines.
   */
  lemma PartitionIs(lines: seq<string>, k: nat, kind: string -> LineKind)
    requires FirstHeader(lines, k, kind)
    ensures var p := Partition(lines, false, kind);
            && p.ours == Select(lines[..k], x => kind(x).marker || !kind(x).blank)
                         + Select(lines[k..], x => kind(x).marker)
            && p.foreign == Select(lines[k..], x => !kind(x).marker)
  {
    var before, rest := lines[..k], lines[k..];
    assert lines == before + rest;
    PartitionPlain(before, kind);
    PartitionConcat(before, rest, false, kind);
    if k < |lines| {
      FromHeader(rest, kind);
      PartitionMoved(rest, kind);
    }
  }

  lemma FromHeader(lines: seq<string>, kind: string -> LineKind)
    requires lines != [] && kind(lines[0]).opens
    ensures Partition(lines, false, kind) == Partition(lines, true, kind)
  {}
}
