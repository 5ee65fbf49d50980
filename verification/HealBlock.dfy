/** heal_polluted_block: moving foreign sections out of a managed block. */
module HealBlock {
  import opened Wrappers
  import opened TextLines

  const OWN_TABLES := "[mcp_servers."

  /** What the loop asks of a line, all of it about the trimmed line. */
  datatype LineKind = LineKind(opens: bool, marker: bool, blank: bool)

  /** `opens`: a section header that is not one of ours. */
  function KindOf(line: string, begin: string, end: string): LineKind {
    var trimmed := Trim(line);
    LineKind(
      trimmed != "" && trimmed[0] == '[' && !(OWN_TABLES <= trimmed),
      trimmed == begin || trimmed == end,
      trimmed == "")
  }

  function Classifier(begin: string, end: string): string -> LineKind {
    line => KindOf(line, begin, end)
  }

  datatype Parts = Parts(ours: seq<string>, foreign: seq<string>)

  /** Markers stay; everything from the first foreign header on is foreign; our blank lines are dropped. */
  function Partition(lines: seq<string>, inForeign: bool, kind: string -> LineKind): Parts {
    if lines == [] then Parts([], [])
    else
      var line := lines[0];
      var f := inForeign || kind(line).opens;
      var rest := Partition(lines[1..], f, kind);
      if kind(line).marker then Parts([line] + rest.ours, rest.foreign)
      else if f then Parts(rest.ours, [line] + rest.foreign)
      else if !kind(line).blank then Parts([line] + rest.ours, rest.foreign)
      else rest
  }

  function TrimNewlines(s: string): (r: string)
    ensures r == "" || r[0] != '\n'
  {
    if s != "" && s[0] == '\n' then TrimNewlines(s[1..]) else s
  }

  /** The lines of the block between the first begin and the first end marker. */
  function PartsOf(text: string, b: nat, stop: nat, begin: string, end: string): Parts
    requires b <= stop <= |text|
  {
    Partition(Lines(text[b..stop]), false, Classifier(begin, end))
  }

  function Rebuilt(text: string, b: nat, stop: nat, p: Parts): string
    requires b <= stop <= |text|
  {
    text[..b] + Join(p.ours) + Join(p.foreign) + TrimNewlines(text[stop..])
  }

  /** None is the panic of slicing backwards. */
  function Heal(text: string, begin: string, end: string): Option<string> {
    var b, e := Find(text, begin, 0), Find(text, end, 0);
    if b.None? || e.None? then Some(text)
    else
      var stop := e.value + |end|;
      if b.value > stop then None
      else
        var p := PartsOf(text, b.value, stop, begin, end);
        Some(if p.foreign == [] then text else Rebuilt(text, b.value, stop, p))
  }

  // ---- The function as it runs ----

  lemma {:induction false} JoinSnoc(lines: seq<string>, i: nat)
    requires i < |lines|
    ensures Join(lines[..i + 1]) == Join(lines[..i]) + lines[i] + "\n"
  {
    JoinConcat(lines[..i], [lines[i]]);
    assert lines[..i + 1] == lines[..i] + [lines[i]];
    assert [lines[i]][1..] == [];
    assert Join([lines[i]]) == lines[i] + "\n" + Join([]);
  }

  method Append(healed: string, lines: seq<string>) returns (out: string)
    ensures out == healed + Join(lines)
  {
    out := healed;
    for i := 0 to |lines|
      invariant out == healed + Join(lines[..i])
    {
      JoinSnoc(lines, i);
      out := out + lines[i];
      out := out + "\n";
    }
    assert lines[..|lines|] == lines;
  }

  /** What the loop has collected, and what the lines ahead will add. */
  ghost predicate Collected(goal: Parts, ours: seq<string>, foreign: seq<string>, rest: Parts) {
    goal == Parts(ours + rest.ours, foreign + rest.foreign)
  }

  lemma OneOurs(goal: Parts, ours: seq<string>, foreign: seq<string>, line: string, rest: Parts)
    requires Collected(goal, ours, foreign, Parts([line] + rest.ours, rest.foreign))
    ensures Collected(goal, ours + [line], foreign, rest)
  {
    assert ours + ([line] + rest.ours) == ours + [line] + rest.ours;
  }

  lemma OneForeign(goal: Parts, ours: seq<string>, foreign: seq<string>, line: string, rest: Parts)
    requires Collected(goal, ours, foreign, Parts(rest.ours, [line] + rest.foreign))
    ensures Collected(goal, ours, foreign + [line], rest)
  {
    assert foreign + ([line] + rest.foreign) == foreign + [line] + rest.foreign;
  }

  method SplitLines(lines: seq<string>, kind: string -> LineKind) returns (ours: seq<string>, foreign: seq<string>)
    ensures Parts(ours, foreign) == Partition(lines, false, kind)
  {
    ours, foreign := [], [];
    var foreignNow := false;
    ghost var goal := Partition(lines, false, kind);
    for i := 0 to |lines|
      invariant Collected(goal, ours, foreign, Partition(lines[i..], foreignNow, kind))
    {
      assert lines[i..][1..] == lines[i + 1..];
      var line := lines[i];
      if kind(line).opens {
        foreignNow := true;
      }
      ghost var rest := Partition(lines[i + 1..], foreignNow, kind);
      if kind(line).marker {
        OneOurs(goal, ours, foreign, line, rest);
        ours := ours + [line];
        continue;
      }
      if foreignNow {
        OneForeign(goal, ours, foreign, line, rest);
        foreign := foreign + [line];
      } else if !kind(line).blank {
        OneOurs(goal, ours, foreign, line, rest);
        ours := ours + [line];
      }
    }
  }

  method Rebuild(text: string, b: nat, stop: nat, ours: seq<string>, foreign: seq<string>) returns (healed: string)
    requires b <= stop <= |text|
    ensures healed == Rebuilt(text, b, stop, Parts(ours, foreign))
  {
    healed := Append(text[..b], ours);
    healed := Append(healed, foreign);
    healed := healed + TrimNewlines(text[stop..]);
  }

  method HealPollutedBlock(text: string, begin: string, end: string) returns (healed: Option<string>)
    ensures healed == Heal(text, begin, end)
  {
    hide Find, Partition, Rebuilt, Classifier;
    var b, e := Find(text, begin, 0), Find(text, end, 0);
    if b.None? || e.None? {
      return Some(text);
    }
    var stop := e.value + |end|;
    if b.value > stop {
      return None;
    }
    var out := RepairBlock(text, b.value, stop, Classifier(begin, end));
    return Some(out);
  }

  /** The rest of it, for a block that was found. */
  method RepairBlock(text: string, b: nat, stop: nat, kind: string -> LineKind) returns (healed: string)
    requires b <= stop <= |text|
    ensures var p := Partition(Lines(text[b..stop]), false, kind);
            healed == if p.foreign == [] then text else Rebuilt(text, b, stop, p)
  {
    var ours, foreign := SplitLines(Lines(text[b..stop]), kind);
    if |foreign| == 0 {
      return text;
    }
    healed := Rebuild(text, b, stop, ours, foreign);
  }

  // ---- Facts about the partition ----

  ghost predicate OursLine(k: LineKind) {
    k.marker || (!k.opens && !k.blank)
  }

  lemma {:induction false} OursShape(lines: seq<string>, inForeign: bool, kind: string -> LineKind)
    ensures forall x <- Partition(lines, inForeign, kind).ours :: x in lines && OursLine(kind(x))
  {
    if lines != [] {
      OursShape(lines[1..], inForeign || kind(lines[0]).opens, kind);
    }
  }

  lemma {:induction false} ForeignShape(lines: seq<string>, inForeign: bool, kind: string -> LineKind)
    ensures var foreign := Partition(lines, inForeign, kind).foreign;
            && (forall x <- foreign :: x in lines && !kind(x).marker)
            && (!inForeign && foreign != [] && (forall x <- lines :: kind(x).marker ==> !kind(x).opens)
                ==> kind(foreign[0]).opens)
  {
    if lines != [] {
      ForeignShape(lines[1..], inForeign || kind(lines[0]).opens, kind);
      assert lines[0] in lines && forall x <- lines[1..] :: x in lines;
    }
  }

  /** The flag once these lines are through. */
  function FlagAfter(lines: seq<string>, inForeign: bool, kind: string -> LineKind): bool {
    if lines == [] then inForeign else FlagAfter(lines[1..], inForeign || kind(lines[0]).opens, kind)
  }

  lemma ConsConcat(x: string, a: seq<string>, b: seq<string>)
    ensures [x] + a + b == [x] + (a + b)
  {}

  /** Partitioning what follows, given where the flag stands. */
  lemma {:induction false} PartitionConcat(a: seq<string>, b: seq<string>, inForeign: bool, kind: string -> LineKind)
    ensures var p, q := Partition(a, inForeign, kind), Partition(b, FlagAfter(a, inForeign, kind), kind);
            Partition(a + b, inForeign, kind) == Parts(p.ours + q.ours, p.foreign + q.foreign)
  {
    if a == [] {
      assert a + b == b;
    } else {
      var line, f := a[0], inForeign || kind(a[0]).opens;
      PartitionConcat(a[1..], b, f, kind);
      ConcatHead(a, b);
      var p, q := Partition(a[1..], f, kind), Partition(b, FlagAfter(a, inForeign, kind), kind);
      ConsConcat(line, p.ours, q.ours);
      ConsConcat(line, p.foreign, q.foreign);
    }
  }

  lemma ConcatHead(a: seq<string>, b: seq<string>)
    requires a != []
    ensures a + b != [] && (a + b)[0] == a[0] && (a + b)[1..] == a[1..] + b
  {}

  /** Our own lines, alone, are kept as they are. */
  lemma {:induction false} PartitionOurs(lines: seq<string>, kind: string -> LineKind)
    requires forall x <- lines :: OursLine(kind(x)) && !kind(x).opens
    ensures Partition(lines, false, kind) == Parts(lines, [])
  {
    if lines != [] {
      assert forall x <- lines[1..] :: x in lines;
      PartitionOurs(lines[1..], kind);
      assert lines == [lines[0]] + lines[1..];
    }
  }

  /** Once in foreign territory, everything but a marker is foreign. */
  lemma {:induction false} PartitionForeign(lines: seq<string>, kind: string -> LineKind)
    requires forall x <- lines :: !kind(x).marker
    ensures Partition(lines, true, kind) == Parts([], lines)
  {
    if lines != [] {
      PartitionForeign(lines[1..], kind);
      assert lines == [lines[0]] + lines[1..];
    }
  }

  /** A healed block partitions into what it was healed from. */
  lemma PartitionHealed(ours: seq<string>, foreign: seq<string>, kind: string -> LineKind)
    requires forall x <- ours :: OursLine(kind(x)) && !kind(x).opens
    requires forall x <- foreign :: !kind(x).marker
    requires foreign != [] ==> kind(foreign[0]).opens
    ensures Partition(ours + foreign, false, kind) == Parts(ours, foreign)
  {
    PartitionOurs(ours, kind);
    PartitionConcat(ours, foreign, false, kind);
    if foreign != [] {
      PartitionForeign(foreign[1..], kind);
      assert foreign == [foreign[0]] + foreign[1..];
      assert ours + [] == ours && [] + foreign == foreign;
    } else {
      assert ours + foreign == ours;
    }
  }

  // ---- Nothing is lost ----

  function NonBlank(lines: seq<string>, kind: string -> LineKind): seq<string> {
    if lines == [] then []
    else if kind(lines[0]).blank then NonBlank(lines[1..], kind)
    else [lines[0]] + NonBlank(lines[1..], kind)
  }

  /** `a` in order within `b`. */
  ghost predicate Within(a: seq<string>, b: seq<string>) {
    if b == [] then a == []
    else Within(a, b[1..]) || (a != [] && a[0] == b[0] && Within(a[1..], b[1..]))
  }

  lemma WithinTake(a: seq<string>, x: string, b: seq<string>)
    requires Within(a, b)
    ensures Within([x] + a, [x] + b) && Within(a, [x] + b)
  {
    assert ([x] + b)[1..] == b && ([x] + a)[1..] == a;
  }

  lemma NonBlankCons(x: string, lines: seq<string>, kind: string -> LineKind)
    ensures multiset(NonBlank([x] + lines, kind)) ==
            multiset(NonBlank(lines, kind)) + (if kind(x).blank then multiset{} else multiset{x})
  {
    assert ([x] + lines)[1..] == lines;
  }

  /**
    Every non-blank line goes to exactly one side, both sides keep their lines in
    the block's order, and nothing is added.
   */
  lemma {:induction false} PartitionConserves(lines: seq<string>, inForeign: bool, kind: string -> LineKind)
    ensures var p := Partition(lines, inForeign, kind);
            && multiset(NonBlank(lines, kind)) == multiset(NonBlank(p.ours, kind)) + multiset(NonBlank(p.foreign, kind))
            && Within(p.ours, lines) && Within(p.foreign, lines)
  {
    if lines != [] {
      var line, f := lines[0], inForeign || kind(lines[0]).opens;
      var rest := Partition(lines[1..], f, kind);
      PartitionConserves(lines[1..], f, kind);
      assert lines == [line] + lines[1..];
      WithinTake(rest.ours, line, lines[1..]);
      WithinTake(rest.foreign, line, lines[1..]);
      NonBlankCons(line, lines[1..], kind);
      NonBlankCons(line, rest.ours, kind);
      NonBlankCons(line, rest.foreign, kind);
    }
  }
}
