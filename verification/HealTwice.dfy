/** Healing twice: exactly when it is the same as healing once. */
module HealTwice {
  import opened Wrappers
  import opened TextLines
  import opened HealBlock
  import opened HealTheorems

  function EndsWithCr(line: string): bool {
    line != "" && line[|line| - 1] == '\r'
  }

  ghost predicate NoStrayCr(lines: seq<string>) {
    forall line <- lines :: !EndsWithCr(line)
  }

  // ---- Stripping the kept lines ----

  /** The classification does not see a carriage return at the end of a line. */
  ghost predicate CrBlind(kind: string -> LineKind) {
    forall line: string :: kind(StripCr(line)) == kind(line)
  }

  lemma ClassifierBlind(begin: string, end: string)
    ensures CrBlind(Classifier(begin, end))
  {
    forall line: string ensures Classifier(begin, end)(StripCr(line)) == Classifier(begin, end)(line) {
      TrimStripped(line);
    }
  }

  lemma {:induction false} StripKeeps(lines: seq<string>, kind: string -> LineKind)
    requires CrBlind(kind)
    ensures |StripAll(lines)| == |lines|
    ensures forall i | 0 <= i < |lines| :: kind(StripAll(lines)[i]) == kind(lines[i])
  {
    if lines != [] {
      StripKeeps(lines[1..], kind);
      assert kind(StripCr(lines[0])) == kind(lines[0]);
    }
  }

  lemma {:induction false} StripLength(lines: seq<string>)
    ensures |Join(StripAll(lines))| <= |Join(lines)|
    ensures NoStrayCr(lines) ==> StripAll(lines) == lines
    ensures !NoStrayCr(lines) ==> |Join(StripAll(lines))| < |Join(lines)|
  {
    if lines != [] {
      StripLength(lines[1..]);
      assert lines == [lines[0]] + lines[1..];
      assert StripAll(lines)[1..] == StripAll(lines[1..]);
      assert NoStrayCr(lines) ==> !EndsWithCr(lines[0]) && NoStrayCr(lines[1..]);
    }
  }

  lemma {:induction false} StripConcat(a: seq<string>, b: seq<string>)
    ensures StripAll(a + b) == StripAll(a) + StripAll(b)
  {
    if a == [] {
      assert a + b == b;
    } else {
      StripConcat(a[1..], b);
      assert (a + b)[1..] == a[1..] + b;
    }
  }

  function Stripped(f: Form): Form {
    f.(ours := StripAll(f.ours), foreign := StripAll(f.foreign))
  }

  /** How the healed block partitions when it is read again. */
  function SecondParts(f: Form): Parts {
    if f.alone then Parts(StripAll(f.ours) + [f.last], []) else Parts(StripAll(f.ours), StripAll(f.foreign) + [f.last])
  }

  lemma StripOurs(ours: seq<string>, kind: string -> LineKind)
    requires CrBlind(kind) && forall x <- ours :: OursLine(kind(x)) && !kind(x).opens
    ensures forall x <- StripAll(ours) :: OursLine(kind(x)) && !kind(x).opens
  {
    StripKeeps(ours, kind);
    forall x | x in StripAll(ours) ensures OursLine(kind(x)) && !kind(x).opens {
      var i :| 0 <= i < |StripAll(ours)| && StripAll(ours)[i] == x;
      assert ours[i] in ours;
    }
  }

  lemma StripForeign(foreign: seq<string>, kind: string -> LineKind)
    requires CrBlind(kind) && forall x <- foreign :: !kind(x).marker
    ensures forall x <- StripAll(foreign) :: !kind(x).marker
    ensures foreign != [] ==> StripAll(foreign) != [] && kind(StripAll(foreign)[0]) == kind(foreign[0])
  {
    StripKeeps(foreign, kind);
    forall x | x in StripAll(foreign) ensures !kind(x).marker {
      var i :| 0 <= i < |StripAll(foreign)| && StripAll(foreign)[i] == x;
      assert foreign[i] in foreign;
    }
  }

  lemma SecondPartition(f: Form, kind: string -> LineKind, end: string)
    requires FormOk(f, kind, end) && CrBlind(kind) && (kind(f.last).marker ==> !kind(f.last).opens)
    ensures Partition(StripAll(Ahead(f)) + [f.last], false, kind) == SecondParts(f)
  {
    StripOurs(f.ours, kind);
    StripForeign(f.foreign, kind);
    if f.alone {
      PartitionOurs(StripAll(f.ours) + [f.last], kind);
    } else {
      StripConcat(f.ours, f.foreign);
      ForeignEnd(StripAll(f.ours), StripAll(f.foreign), f.last, kind);
    }
  }

  lemma ForeignEnd(ours: seq<string>, foreign: seq<string>, last: string, kind: string -> LineKind)
    requires forall x <- ours :: OursLine(kind(x)) && !kind(x).opens
    requires (forall x <- foreign :: !kind(x).marker) && !kind(last).marker
    requires if foreign == [] then kind(last).opens else kind(foreign[0]).opens
    ensures Partition(ours + foreign + [last], false, kind) == Parts(ours, foreign + [last])
  {
    var rest := foreign + [last];
    assert rest[0] == if foreign == [] then last else foreign[0];
    PartitionHealed(ours, rest, kind);
    assert ours + foreign + [last] == ours + rest;
  }

  lemma NewlineTrimmed(rest: string)
    ensures TrimNewlines("\n" + rest) == TrimNewlines(rest)
  {
    assert ("\n" + rest)[1..] == rest;
  }

  /** The second healing, given where the markers are. */
  lemma SecondHeal(f: Form, begin: string, end: string)
    requires Find(Text(f), begin, 0) == Some(|f.pre|) && Find(Text(f), end, 0) == Some(|f.pre| + |Body(f)| - |end|)
    requires |end| <= |Body(f)| && Partition(Lines(Body(f)), false, Classifier(begin, end)) == SecondParts(f)
    requires TrimNewlines(f.rest) == f.rest
    ensures Heal(Text(f), begin, end) == Some(if f.alone then Text(f) else Text(Stripped(f)))
  {
    ConcatSlices(f.pre, Body(f), "\n" + Tail(f));
    if !f.alone {
      NewlineTrimmed(f.rest);
      AssembledText(Stripped(f), SecondParts(f));
    }
  }

  lemma BodyParts(f: Form, begin: string, end: string)
    requires MarkerPair(begin, end) && FormOk(f, Classifier(begin, end), end)
    ensures Partition(Lines(Body(f)), false, Classifier(begin, end)) == SecondParts(f)
  {
    AheadSingle(f, Classifier(begin, end), end);
    LinesOfJoin(Ahead(f), f.last);
    ClassifierBlind(begin, end);
    KindFacts(f.last, begin, end);
    SecondPartition(f, Classifier(begin, end), end);
  }

  lemma AheadSingle(f: Form, kind: string -> LineKind, end: string)
    requires FormOk(f, kind, end) && end != ""
    ensures SingleLines(Ahead(f)) && '\n' !in f.last && f.last != ""
  {}

  /** Stripping carriage returns again changes the text unless there is none left to strip. */
  lemma StrippedText(f: Form)
    requires !f.alone
    ensures Text(Stripped(f)) == Text(f) <==> NoStrayCr(f.ours + f.foreign)
  {
    StripConcat(f.ours, f.foreign);
    StripLength(f.ours + f.foreign);
    if NoStrayCr(f.ours + f.foreign) {
      StripLength(f.ours);
      StripLength(f.foreign);
      assert forall x <- f.ours :: x in f.ours + f.foreign;
      assert forall x <- f.foreign :: x in f.ours + f.foreign;
    } else {
      assert |Text(f)| == |f.pre| + |Join(f.ours + f.foreign)| + |f.last| + 1 + |f.rest|;
      assert |Text(Stripped(f))| == |f.pre| + |Join(StripAll(f.ours + f.foreign))| + |f.last| + 1 + |f.rest|;
    }
  }

  lemma {:induction false} TrimmedTwice(s: string)
    ensures TrimNewlines(TrimNewlines(s)) == TrimNewlines(s)
  {}

  /** The form of a text's block. */
  function FormIn(text: string, begin: string, end: string): Form
    requires Find(text, begin, 0).Some? && Find(text, end, 0).Some?
    requires Find(text, begin, 0).value < Find(text, end, 0).value
    requires Lines(BlockOf(text, begin, end)) != []
  {
    var lines := Lines(BlockOf(text, begin, end));
    FormFrom(text[..Find(text, begin, 0).value], lines[..|lines| - 1], lines[|lines| - 1],
             FormRest(text, begin, end), Classifier(begin, end))
  }

  /** What follows the block, without the newlines in front of it. */
  function FormRest(text: string, begin: string, end: string): string
    requires Find(text, begin, 0).Some? && Find(text, end, 0).Some?
    requires Find(text, begin, 0).value < Find(text, end, 0).value
  {
    TrimNewlines(text[Find(text, end, 0).value + |end|..])
  }

  predicate HasLines(text: string, begin: string, end: string)
    requires Find(text, begin, 0).Some? && Find(text, end, 0).Some?
    requires Find(text, begin, 0).value < Find(text, end, 0).value
  {
    Lines(BlockOf(text, begin, end)) != []
  }

  predicate FormParts(f: Form, p: Parts) {
    p == if f.alone then Parts(f.ours + [f.last], f.foreign) else Parts(f.ours, f.foreign + [f.last])
  }

  lemma FormInOk(text: string, begin: string, end: string)
    requires Bracketed(text, begin, end) && FirstParts(text, begin, end).foreign != []
    ensures HasLines(text, begin, end) && FormOk(FormIn(text, begin, end), Classifier(begin, end), end)
    ensures FormParts(FormIn(text, begin, end), FirstParts(text, begin, end))
  {
    var pre, rest := text[..Find(text, begin, 0).value], TrimNewlines(text[Find(text, end, 0).value + |end|..]);
    var init, last := BlockEnds(text, begin, end);
    var f := FormOf(pre, init, last, rest, begin, end);
    assert (init + [last])[..|init|] == init;
  }

  lemma FormInHealed(text: string, begin: string, end: string)
    requires Bracketed(text, begin, end) && FirstParts(text, begin, end).foreign != [] && HasLines(text, begin, end)
    requires FormParts(FormIn(text, begin, end), FirstParts(text, begin, end))
    ensures Heal(text, begin, end) == Some(Text(FormIn(text, begin, end)))
    ensures TrimNewlines(FormIn(text, begin, end).rest) == FormIn(text, begin, end).rest
  {
    AssembledText(FormIn(text, begin, end), FirstParts(text, begin, end));
    TrimmedTwice(text[Find(text, end, 0).value + |end|..]);
  }

  /** A polluted text: something in its block is not ours. */
  ghost predicate Polluted(text: string, begin: string, end: string) {
    Bracketed(text, begin, end) && FirstParts(text, begin, end).foreign != []
  }

  lemma FormShape(text: string, begin: string, end: string)
    requires Polluted(text, begin, end)
    ensures HasLines(text, begin, end) && FormParts(FormIn(text, begin, end), FirstParts(text, begin, end))
  {
    FormInOk(text, begin, end);
  }

  lemma FormBegins(text: string, begin: string, end: string)
    requires Polluted(text, begin, end) && HasLines(text, begin, end)
    ensures OccursAt(Body(FormIn(text, begin, end)), begin, 0)
  {
    var lines := Lines(BlockOf(text, begin, end));
    assert lines == lines[..|lines| - 1] + [lines[|lines| - 1]];
    BodyBegins(text, begin, end, lines[..|lines| - 1], lines[|lines| - 1], FormIn(text, begin, end));
  }

  lemma FormEnds(text: string, begin: string, end: string)
    requires Polluted(text, begin, end) && HasLines(text, begin, end)
    ensures EndsBody(Body(FormIn(text, begin, end)), end)
  {
    FormInOk(text, begin, end);
    BodyEnds(FormIn(text, begin, end), end);
  }

  /** All of it about one form. */
  lemma Pieces(text: string, begin: string, end: string) returns (f: Form, body: string, tail: string)
    requires Polluted(text, begin, end)
    ensures FormParts(f, FirstParts(text, begin, end)) && f.alone == EndAlone(text, begin, end)
    ensures Heal(text, begin, end) == Some(Text(f)) && TrimNewlines(f.rest) == f.rest
    ensures f.pre == text[..Find(text, begin, 0).value]
    ensures body == Body(f) && Text(f) == f.pre + body + tail
    ensures OccursAt(body, begin, 0)
    ensures EndsBody(body, end)
    ensures Partition(Lines(body), false, Classifier(begin, end)) == SecondParts(f) && !EndsWithCr(f.last)
  {
    FormShape(text, begin, end);
    FormInHealed(text, begin, end);
    FormBegins(text, begin, end);
    FormEnds(text, begin, end);
    FormReread(text, begin, end);
    FormLast(text, begin, end);
    f := FormIn(text, begin, end);
    body, tail := Body(f), "\n" + Tail(f);
  }

  lemma FormReread(text: string, begin: string, end: string)
    requires Polluted(text, begin, end) && HasLines(text, begin, end)
    ensures var f := FormIn(text, begin, end);
            Partition(Lines(Body(f)), false, Classifier(begin, end)) == SecondParts(f)
  {
    FormInOk(text, begin, end);
    BodyParts(FormIn(text, begin, end), begin, end);
  }

  lemma FormLast(text: string, begin: string, end: string)
    requires Polluted(text, begin, end) && HasLines(text, begin, end)
    ensures !EndsWithCr(FormIn(text, begin, end).last)
  {
    FormInOk(text, begin, end);
    LastVisible(FormIn(text, begin, end).last, end);
  }

  /** The end marker stands on a line of its own. */
  predicate EndAlone(text: string, begin: string, end: string)
    requires Find(text, begin, 0).Some? && Find(text, end, 0).Some?
    requires Find(text, begin, 0).value < Find(text, end, 0).value
  {
    var lines := Lines(BlockOf(text, begin, end));
    lines != [] && KindOf(lines[|lines| - 1], begin, end).marker
  }

  /**
    Healing a healed text changes nothing exactly when the block held nothing
    foreign, or the end marker stands alone on its line, or no line of the block
    keeps a carriage return that the next reading would strip.
   */
  lemma HealTwiceIff(text: string, begin: string, end: string)
    requires Bracketed(text, begin, end)
    ensures var p, healed := FirstParts(text, begin, end), Heal(text, begin, end);
            healed.Some? &&
            (Heal(healed.value, begin, end) == healed <==>
             p.foreign == [] || EndAlone(text, begin, end) || NoStrayCr(p.ours + p.foreign))
  {
    if FirstParts(text, begin, end).foreign != [] {
      PollutedTwiceIff(text, begin, end);
    }
  }

  lemma PollutedTwiceIff(text: string, begin: string, end: string)
    requires Polluted(text, begin, end)
    ensures var p, healed := FirstParts(text, begin, end), Heal(text, begin, end);
            healed.Some? &&
            (Heal(healed.value, begin, end) == healed <==> EndAlone(text, begin, end) || NoStrayCr(p.ours + p.foreign))
  {
    hide Heal, FirstParts, Body, SecondParts, Partition, Lines, NoStrayCr, Text, EndAlone;
    var f, body, tail := Pieces(text, begin, end);
    FoundAgain(text, f.pre, begin, end, body, tail);
    PollutedTwice(f, begin, end);
  }

  lemma PollutedTwice(f: Form, begin: string, end: string)
    requires Find(Text(f), begin, 0) == Some(|f.pre|) && Find(Text(f), end, 0) == Some(|f.pre| + |Body(f)| - |end|)
    requires |end| <= |Body(f)| && TrimNewlines(f.rest) == f.rest
    requires Partition(Lines(Body(f)), false, Classifier(begin, end)) == SecondParts(f) && !EndsWithCr(f.last)
    ensures var p := if f.alone then Parts(f.ours + [f.last], f.foreign) else Parts(f.ours, f.foreign + [f.last]);
            Heal(Text(f), begin, end) == Some(Text(f)) <==> f.alone || NoStrayCr(p.ours + p.foreign)
  {
    SecondHeal(f, begin, end);
    if !f.alone {
      StrippedText(f);
      StrayLast(f.ours, f.foreign, f.last);
    }
  }

  lemma StrayLast(ours: seq<string>, foreign: seq<string>, last: string)
    requires !EndsWithCr(last)
    ensures NoStrayCr(ours + (foreign + [last])) <==> NoStrayCr(ours + foreign)
  {
    assert forall x :: x in ours + (foreign + [last]) <==> x in ours + foreign || x == last;
  }

  lemma LastVisible(last: string, end: string)
    requires MarkerOk(end) && |end| <= |last| && OccursAt(last, end, |last| - |end|)
    ensures !EndsWithCr(last)
  {
    assert last[|last| - |end|..][|end| - 1] == end[|end| - 1];
    assert end[|end| - 1] in end;
  }

  /**
    Whatever is moved, every non-blank line of the block is still there once, in order on its side, foreign
    lines last.
  */
  lemma HealConserves(text: string, begin: string, end: string) returns (p: Parts, pre: string, rest: string)
    requires Polluted(text, begin, end)
    ensures p == FirstParts(text, begin, end) && pre == text[..Find(text, begin, 0).value]
    ensures Heal(text, begin, end) == Some(pre + Join(p.ours) + Join(p.foreign) + rest)
    ensures rest == FormRest(text, begin, end)
    ensures var lines, kind := Lines(BlockOf(text, begin, end)), Classifier(begin, end);
            && multiset(NonBlank(lines, kind)) == multiset(NonBlank(p.ours, kind)) + multiset(NonBlank(p.foreign, kind))
            && Within(p.ours, lines) && Within(p.foreign, lines)
  {
    FormShape(text, begin, end);
    FormInHealed(text, begin, end);
    p := FirstParts(text, begin, end);
    pre, rest := RebuiltFrom(FormIn(text, begin, end), p);
    PartitionConserves(Lines(BlockOf(text, begin, end)), false, Classifier(begin, end));
  }

  lemma RebuiltFrom(f: Form, p: Parts) returns (pre: string, rest: string)
    requires FormParts(f, p)
    ensures pre == f.pre && rest == f.rest && Text(f) == pre + Join(p.ours) + Join(p.foreign) + rest
  {
    AssembledText(f, p);
    pre, rest := f.pre, f.rest;
  }
}
