/** Strings as the CLI's text functions see them: searching, lines, trimming. */
module TextLines {
  import opened Wrappers

  // ---- Searching ----

  predicate OccursAt(text: string, pattern: string, i: nat) {
    i + |pattern| <= |text| && text[i..i + |pattern|] == pattern
  }

  ghost predicate Occurs(text: string, pattern: string) {
    exists i: nat :: OccursAt(text, pattern, i)
  }

  /** str::find, starting at `from`. */
  function Find(text: string, pattern: string, from: nat): (r: Option<nat>)
    requires from <= |text|
    ensures r.Some? ==> from <= r.value && r.value + |pattern| <= |text|
    decreases |text| - from
  {
    if OccursAt(text, pattern, from) then Some(from)
    else if from == |text| then None
    else Find(text, pattern, from + 1)
  }

  /** What is found is the first occurrence; nothing is found only when there is none. */
  lemma {:induction false} FindSpec(text: string, pattern: string, from: nat)
    requires from <= |text|
    ensures var r := Find(text, pattern, from);
            && (r.Some? ==> OccursAt(text, pattern, r.value))
            && (forall i: nat | from <= i && (r.Some? ==> i < r.value) :: !OccursAt(text, pattern, i))
    decreases |text| - from
  {
    if !OccursAt(text, pattern, from) && from < |text| {
      FindSpec(text, pattern, from + 1);
    }
  }

  /** str::match_indices: successive, non-overlapping. */
  function Matches(text: string, pattern: string, from: nat): seq<nat>
    requires pattern != "" && from <= |text|
    decreases |text| - from
  {
    match Find(text, pattern, from)
    case None => []
    case Some(i) => [i] + Matches(text, pattern, i + |pattern|)
  }

  lemma MatchesNone(text: string, pattern: string, from: nat)
    requires pattern != "" && from <= |text| && forall i: nat | from <= i :: !OccursAt(text, pattern, i)
    ensures Matches(text, pattern, from) == []
  {
    FindSpec(text, pattern, from);
  }

  lemma MatchesOne(text: string, pattern: string, p: nat)
    requires pattern != "" && OccursAt(text, pattern, p)
    requires forall i: nat | OccursAt(text, pattern, i) :: i == p
    ensures Matches(text, pattern, 0) == [p] && Find(text, pattern, 0) == Some(p)
  {
    FindIs(text, pattern, p);
    MatchesNone(text, pattern, p + |pattern|);
  }

  /** An occurrence inside a slice is one in the text, and the other way round. */
  lemma OccursInSlice(text: string, lo: nat, hi: nat, pattern: string, i: nat)
    requires lo <= hi <= |text| && lo + i + |pattern| <= hi
    ensures OccursAt(text[lo..hi], pattern, i) <==> OccursAt(text, pattern, lo + i)
  {
    var a, b := text[lo..hi][i..i + |pattern|], text[lo + i..lo + i + |pattern|];
    assert forall k | 0 <= k < |pattern| :: a[k] == b[k];
    assert a == b;
  }

  /** An occurrence agrees with its pattern, character by character. */
  lemma OccurrenceAt(text: string, pattern: string, i: nat, at: nat)
    requires OccursAt(text, pattern, i) && i <= at < i + |pattern|
    ensures text[at] == pattern[at - i] && text[at] in pattern
  {
    assert text[i..i + |pattern|][at - i] == text[at];
  }

  lemma FindIs(text: string, pattern: string, p: nat)
    requires OccursAt(text, pattern, p) && forall i: nat | i < p :: !OccursAt(text, pattern, i)
    ensures Find(text, pattern, 0) == Some(p)
  {
    FindSpec(text, pattern, 0);
  }

  // ---- Lines ----

  /** One carriage return before the newline belongs to the line ending. */
  function StripCr(line: string): string {
    if line != "" && line[|line| - 1] == '\r' then line[..|line| - 1] else line
  }

  function NewlineAt(text: string): (r: Option<nat>)
    ensures r.Some? ==> r.value < |text| && text[r.value] == '\n' && '\n' !in text[..r.value]
    ensures r.None? ==> '\n' !in text
  {
    if text == "" then None
    else if text[0] == '\n' then Some(0)
    else
      match NewlineAt(text[1..])
      case None => None
      case Some(i) =>
        assert text[..i + 1] == [text[0]] + text[1..][..i];
        Some(i + 1)
  }

  /** str::lines: the last line need not be terminated, and then keeps its carriage return. */
  function Lines(text: string): seq<string>
    decreases |text|
  {
    if text == "" then []
    else
      match NewlineAt(text)
      case None => [text]
      case Some(i) => [StripCr(text[..i])] + Lines(text[i + 1..])
  }

  /** Each line with a newline pushed after it. */
  function Join(lines: seq<string>): string {
    if lines == [] then "" else lines[0] + "\n" + Join(lines[1..])
  }

  function StripAll(lines: seq<string>): seq<string> {
    if lines == [] then [] else [StripCr(lines[0])] + StripAll(lines[1..])
  }

  ghost predicate SingleLines(lines: seq<string>) {
    forall line <- lines :: '\n' !in line
  }

  lemma {:induction false} NewlineFirst(line: string, rest: string)
    requires '\n' !in line
    ensures NewlineAt(line + "\n" + rest) == Some(|line|)
  {
    var text := line + "\n" + rest;
    if line == "" {
      assert text[0] == '\n';
    } else {
      assert text[0] == line[0] && text[1..] == line[1..] + "\n" + rest;
      NewlineFirst(line[1..], rest);
    }
  }

  lemma LinesAfter(line: string, rest: string)
    requires '\n' !in line
    ensures Lines(line + "\n" + rest) == [StripCr(line)] + Lines(rest)
  {
    var text := line + "\n" + rest;
    NewlineFirst(line, rest);
    assert text[..|line|] == line && text[|line| + 1..] == rest;
  }

  /** Reading joined lines back strips one carriage return from each, except from an unterminated last one. */
  lemma {:induction false} LinesOfJoin(lines: seq<string>, last: string)
    requires SingleLines(lines) && '\n' !in last && last != ""
    ensures Lines(Join(lines) + last) == StripAll(lines) + [last]
  {
    if lines == [] {
      assert Join(lines) + last == last;
    } else {
      hide NewlineAt, StripCr, Lines;
      var rest := Join(lines[1..]) + last;
      assert Join(lines) + last == lines[0] + "\n" + rest;
      LinesAfter(lines[0], rest);
      LinesOfJoin(lines[1..], last);
    }
  }

  lemma {:induction false} LinesSingle(text: string)
    ensures SingleLines(Lines(text))
    decreases |text|
  {
    if text != "" {
      match NewlineAt(text)
      case None =>
      case Some(i) =>
        LinesSingle(text[i + 1..]);
        forall line | line in Lines(text) ensures '\n' !in line {
          if line == StripCr(text[..i]) {
            forall c | c in line ensures c in text[..i] {}
          } else {
            assert line in Lines(text[i + 1..]);
          }
        }
    }
  }

  lemma {:induction false} JoinConcat(a: seq<string>, b: seq<string>)
    ensures Join(a + b) == Join(a) + Join(b)
  {
    if a == [] {
      assert a + b == b;
    } else {
      JoinConcat(a[1..], b);
      assert (a + b)[1..] == a[1..] + b;
    }
  }

  // ---- Patterns without a newline stay within a line ----

  /** An occurrence of a newline-free pattern does not reach across a newline. */
  lemma OccursBeside(a: string, b: string, pattern: string, i: nat)
    requires OccursAt(a + "\n" + b, pattern, i) && '\n' !in pattern && pattern != ""
    ensures OccursAt(a, pattern, i) || (i > |a| && OccursAt(b, pattern, i - |a| - 1))
  {
    var text := a + "\n" + b;
    assert text[|a|] == '\n';
    if i <= |a| < i + |pattern| { OccurrenceAt(text, pattern, i, |a|); }
    if i + |pattern| <= |a| {
      assert a[i..i + |pattern|] == text[i..i + |pattern|];
    } else {
      var j := i - |a| - 1;
      assert b[j..j + |pattern|] == text[i..i + |pattern|];
    }
  }

  /** In joined lines it lies in one of the lines, or in what follows. */
  lemma {:induction false} OccursInJoin(lines: seq<string>, last: string, pattern: string, i: nat)
    requires OccursAt(Join(lines) + last, pattern, i) && '\n' !in pattern && pattern != ""
    ensures (exists line <- lines :: Occurs(line, pattern))
            || (i >= |Join(lines)| && OccursAt(last, pattern, i - |Join(lines)|))
  {
    if lines == [] {
      assert Join(lines) + last == last;
    } else {
      var rest := Join(lines[1..]) + last;
      assert Join(lines) + last == lines[0] + "\n" + rest;
      OccursBeside(lines[0], rest, pattern, i);
      if OccursAt(lines[0], pattern, i) {
        assert Occurs(lines[0], pattern);
      } else {
        OccursInJoin(lines[1..], last, pattern, i - |lines[0]| - 1);
      }
    }
  }

  /** What occurs in a line occurs in the text, and only the last line reaches its end. */
  lemma {:induction false} LineOccurs(text: string, k: nat, pattern: string, off: nat) returns (i: nat)
    requires k < |Lines(text)| && OccursAt(Lines(text)[k], pattern, off)
    ensures OccursAt(text, pattern, i)
    ensures k < |Lines(text)| - 1 ==> i + |pattern| < |text|
    decreases |text|
  {
    match NewlineAt(text)
    case None =>
      i := off;
    case Some(n) =>
      if k == 0 {
        i := off;
        FirstLineOccurs(text, n, pattern, off);
      } else {
        assert Lines(text)[k] == Lines(text[n + 1..])[k - 1];
        var j := LineOccurs(text[n + 1..], k - 1, pattern, off);
        i := n + 1 + j;
        OccursShifted(text, n + 1, pattern, j);
      }
  }

  lemma FirstLineOccurs(text: string, n: nat, pattern: string, off: nat)
    requires n < |text| && OccursAt(StripCr(text[..n]), pattern, off)
    ensures OccursAt(text, pattern, off) && off + |pattern| < |text|
  {
    var line := StripCr(text[..n]);
    assert line == text[0..|line|];
    OccursInSlice(text, 0, |line|, pattern, off);
  }

  lemma OccursShifted(text: string, from: nat, pattern: string, j: nat)
    requires from <= |text| && OccursAt(text[from..], pattern, j)
    ensures OccursAt(text, pattern, from + j)
  {
    assert text[from..] == text[from..|text|];
    OccursInSlice(text, from, |text|, pattern, j);
  }

  // ---- Trimming ----

  /** Unicode White_Space. */
  predicate IsSpace(c: char) {
    || '\U{0009}' <= c <= '\U{000D}' || c == ' ' || c == '\U{0085}' || c == '\U{00A0}' || c == '\U{1680}'
    || '\U{2000}' <= c <= '\U{200A}' || c == '\U{2028}' || c == '\U{2029}' || c == '\U{202F}' || c == '\U{205F}'
        || c == '\U{3000}'
  }

  function TrimEnd(s: string): string
  {
    if s != "" && IsSpace(s[|s| - 1]) then TrimEnd(s[..|s| - 1]) else s
  }

  function TrimStart(s: string): string
  {
    if s != "" && IsSpace(s[0]) then TrimStart(s[1..]) else s
  }

  function Trim(s: string): string {
    TrimStart(TrimEnd(s))
  }

  lemma TrimStripped(line: string)
    ensures Trim(StripCr(line)) == Trim(line)
  {}

  /** A text that starts and ends with visible characters is its own trim. */
  lemma TrimVisible(s: string)
    requires s != "" && !IsSpace(s[0]) && !IsSpace(s[|s| - 1])
    ensures Trim(s) == s
  {}
}
