/** What a safe skill path is, in terms of its segments and characters alone. */
module SafePaths {
  import opened ByteStrings
  import opened SkillPaths

  // ---- Names of devices ----

  /** This letter in either case; `upper` is a capital. */
  predicate Letter(c: char, upper: char) {
    c == upper || c as int == upper as int + 32
  }

  predicate Spells(s: string, name: string) {
    |s| == |name| && forall i | 0 <= i < |s| :: Letter(s[i], name[i])
  }

  predicate Device(s: string) {
    || Spells(s, "CON") || Spells(s, "PRN") || Spells(s, "AUX") || Spells(s, "NUL")
    || (|s| == 4 && (Spells(s[..3], "COM") || Spells(s[..3], "LPT")) && '1' <= s[3] <= '9')
  }

  /** What stands before the first dot. */
  predicate Stem(part: string, n: nat) {
    n <= |part| && '.' !in part[..n] && (n == |part| || part[n] == '.')
  }

  ghost predicate NamesDevice(part: string) {
    exists n: nat | n <= |part| :: Stem(part, n) && Device(part[..n])
  }

  function Capital(c: char): char {
    if 'a' <= c <= 'z' then (c as int - 32) as char else c
  }

  lemma {:induction false} UpperAt(s: string)
    ensures |Upper(s)| == |s| && forall i | 0 <= i < |s| :: Upper(s)[i] == Capital(s[i])
  {
    if s != "" {
      UpperAt(s[1..]);
    }
  }

  lemma CapitalIs(c: char, upper: char)
    requires 'A' <= upper <= 'Z'
    ensures Capital(c) == upper <==> Letter(c, upper)
  {}

  predicate Capitals(name: string) {
    forall i | 0 <= i < |name| :: 'A' <= name[i] <= 'Z'
  }

  lemma UpperSpells(s: string, name: string)
    requires Capitals(name)
    ensures Upper(s) == name <==> Spells(s, name)
  {
    UpperAt(s);
    forall i | 0 <= i < |s| && i < |name| ensures Upper(s)[i] == name[i] <==> Letter(s[i], name[i]) {
      CapitalIs(s[i], name[i]);
    }
  }

  lemma UpperSlice(s: string, n: nat)
    requires n <= |s|
    ensures |Upper(s)| == |s| && Upper(s)[..n] == Upper(s[..n])
  {
    UpperAt(s);
    UpperAt(s[..n]);
  }

  lemma NumberedPort(s: string, name: string)
    requires Capitals(name) && |name| == 3
    ensures |Upper(s)| == |s|
    ensures |s| == 4 ==> (Upper(s)[..3] == name && '1' <= Upper(s)[3] <= '9' <==>
                          Spells(s[..3], name) && '1' <= s[3] <= '9')
  {
    UpperAt(s);
    if |s| == 4 {
      UpperSlice(s, 3);
      UpperSpells(s[..3], name);
    }
  }

  lemma ReservedIff(s: string)
    ensures Reserved(Upper(s)) <==> Device(s)
  {
    hide Upper, Spells;
    UpperSpells(s, "CON");
    UpperSpells(s, "PRN");
    UpperSpells(s, "AUX");
    UpperSpells(s, "NUL");
    NumberedPort(s, "COM");
    NumberedPort(s, "LPT");
  }

  lemma NoLongerStem(part: string, n: nat, m: nat)
    requires Stem(part, n) && n < m <= |part|
    ensures !Stem(part, m)
  {
    assert part[..m][n] == '.';
  }

  lemma StemElsewhere(part: string, n: nat, m: nat)
    requires Stem(part, n) && m <= |part| && m != n
    ensures !Stem(part, m)
  {
    if n < m {
      NoLongerStem(part, n, m);
    } else if Stem(part, m) {
      NoLongerStem(part, m, n);
    }
  }

  /** The part of a name that is looked up among the devices. */
  function Base(part: string): string {
    match Cut(Upper(part), '.') case None => Upper(part) case Some(cut) => cut.0
  }

  lemma BaseIsStem(part: string) returns (n: nat)
    ensures Stem(part, n) && Base(part) == Upper(part[..n])
  {
    var upper := Upper(part);
    UpperAt(part);
    CutExact(upper, '.');
    n := |Base(part)|;
    UpperSlice(part, n);
    assert Base(part) == upper[..n];
    forall i | 0 <= i < n ensures part[..n][i] != '.' {
      assert upper[..n][i] == upper[i];
      assert Base(part)[i] in Base(part);
    }
  }

  lemma ReservedBase(part: string)
    ensures Reserved(Base(part)) <==> NamesDevice(part)
  {
    hide Reserved, Device, Base;
    var n := BaseIsStem(part);
    ReservedIff(part[..n]);
    forall m: nat | m <= |part| && m != n ensures !Stem(part, m) {
      StemElsewhere(part, n, m);
    }
  }

  // ---- Segments and characters ----

  predicate Allowed(c: char) {
    && c as int >= 32 && c != '\\' && c != ':' && c != '<' && c != '>' && c != '"' && c != '|' && c != '?' && c != '*'
  }

  predicate EndsWell(part: string) {
    part != "" ==> part[|part| - 1] != '.' && part[|part| - 1] != ' '
  }

  predicate Dotted(name: string) {
    exists i | 0 <= i < |name| - 1 :: name[i] == '.' && name[i + 1] == '.'
  }

  /** A name every file system takes: not empty, not a dot, no closing dot or space, not a device. */
  ghost predicate Ordinary(part: string) {
    Proper(part) && EndsWell(part) && !NamesDevice(part)
  }

  lemma SafePartIff(part: string)
    ensures SafePart(part) <==> EndsWell(part) && !NamesDevice(part) && forall c <- part :: c as int >= 32
  {
    hide Reserved, NamesDevice, Upper;
    ReservedBase(part);
    forall i | 0 <= i < |part| ensures part[i] in part {}
  }

  lemma ForbiddenAre(c: char)
    requires c as int >= 32
    ensures c !in FORBIDDEN <==> Allowed(c)
  {
    assert |FORBIDDEN| == 9 && FORBIDDEN[0] as int == 0 && FORBIDDEN[1] == '\\' && FORBIDDEN[2] == ':';
    assert FORBIDDEN[3] == '<' && FORBIDDEN[4] == '>' && FORBIDDEN[5] == '"' && FORBIDDEN[6] == '|';
    assert FORBIDDEN[7] == '?' && FORBIDDEN[8] == '*';
  }

  // ---- The whole path ----

  lemma {:induction false} JoinFrom(parts: seq<string>, c: char)
    requires parts != [] && c in Join(parts)
    ensures c == '/' || exists part <- parts :: c in part
  {
    if |parts| > 1 && c !in parts[0] && c != '/' {
      assert c in Join(parts[1..]);
      JoinFrom(parts[1..], c);
      var part :| part in parts[1..] && c in part;
      assert part in parts;
    }
  }

  /** Characters: those of the path are those of its segments. */
  lemma SplitChars(name: string)
    ensures (forall part <- Split(name) :: forall c <- part :: c as int >= 32) <==> forall c <- name :: c as int >= 32
  {
    JoinSplit(name);
    forall c | c in name ensures c == '/' || exists part <- Split(name) :: c in part {
      JoinFrom(Split(name), c);
    }
    forall part, c | part in Split(name) && c in part ensures c in name {
      if c !in name { SplitBytes(name, c); }
    }
  }

  lemma ProperIsClean(name: string)
    requires AllProper(Split(name))
    ensures name != "" && name != "." && Clean(name) == name && name[0] != '/'
  {
    JoinSplit(name);
    KeptProper(Split(name));
    NotRooted(Split(name));
    SplitPlain(".");
    assert Proper(Split(name)[0]);
  }

  ghost predicate AllOrdinary(parts: seq<string>) {
    forall part <- parts :: Ordinary(part)
  }

  ghost predicate Made(name: string, parts: seq<string>) {
    parts != [] && name == Join(parts) && AllOrdinary(parts)
  }

  /** The segments a path is made of are those it splits into. */
  lemma MadeIff(name: string)
    ensures (exists parts :: Made(name, parts)) <==> AllOrdinary(Split(name))
  {
    hide Join, Split, Ordinary;
    JoinSplit(name);
    assert AllOrdinary(Split(name)) ==> Made(name, Split(name));
    if parts :| Made(name, parts) {
      OrdinaryIsSlashFree(parts);
      SplitJoin(parts);
    }
  }

  lemma OrdinaryIsSlashFree(parts: seq<string>)
    requires AllOrdinary(parts)
    ensures SlashFree(parts)
  {
    forall part | part in parts ensures '/' !in part {
      assert Ordinary(part);
    }
  }

  ghost predicate AllSafe(parts: seq<string>) {
    forall part <- parts :: SafePart(part)
  }

  ghost predicate Printing(name: string) {
    forall c <- name :: c as int >= 32
  }

  lemma OrdinaryIff(name: string)
    ensures AllProper(Split(name)) && AllSafe(Split(name)) <==> AllOrdinary(Split(name)) && Printing(name)
  {
    hide NamesDevice, EndsWell, SafePart, Split;
    SplitChars(name);
    forall part | part in Split(name)
      ensures SafePart(part) <==> EndsWell(part) && !NamesDevice(part) && Printing(part)
    {
      SafePartIff(part);
    }
    forall i | 0 <= i < |Split(name)| ensures Split(name)[i] in Split(name) {}
    assert AllProper(Split(name)) <==> forall part <- Split(name) :: Proper(part);
  }

  lemma AllowedIff(name: string)
    ensures Printing(name) && !(exists c | c in name :: c in FORBIDDEN) <==> forall c <- name :: Allowed(c)
  {
    forall c | c in name && c as int >= 32 ensures c !in FORBIDDEN <==> Allowed(c) {
      ForbiddenAre(c);
    }
  }

  /**
    At most 128 bytes of valid text, without two dots in a row, without control characters or any character that some
    file system refuses, and made of ordinary names.
   */
  ghost predicate Portable(unicode: Unicode, name: string) {
    && |name| <= 128 && unicode.valid(name) && !Dotted(name)
    && (forall c <- name :: Allowed(c))
    && exists parts :: Made(name, parts)
  }

  /** Those are the safe paths, exactly. */
  lemma SafePathIff(unicode: Unicode, name: string)
    ensures SafeSkillPath(unicode, name) <==> Portable(unicode, name)
  {
    hide Clean, Made, SafePart, Ordinary, Proper, Allowed, Split;
    MadeIff(name);
    OrdinaryIff(name);
    AllowedIff(name);
    if SafeSkillPath(unicode, name) {
      SafeIsProper(unicode, name);
    }
    if AllProper(Split(name)) {
      ProperIsClean(name);
    }
  }
}
