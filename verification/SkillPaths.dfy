/** The paths a skill may bring: SafeSkillPath and the checks over a whole set of files. */
module SkillPaths {
  import opened Wrappers
  import opened ByteStrings

  const MAX_SKILL_BYTES := 33_554_432
  const MAX_SKILL_FILE_BYTES := 8_388_608

  // ---- path.Clean and path.Dir ----

  /** One more segment of path.Clean, after those kept so far. */
  function Keep(rooted: bool, kept: seq<string>, s: string): seq<string> {
    if s == "" || s == "." then kept
    else if s != ".." then kept + [s]
    else if kept != [] && kept[|kept| - 1] != ".." then kept[..|kept| - 1]
    else if rooted then kept
    else kept + [s]
  }

  function Kept(rooted: bool, segments: seq<string>): seq<string> {
    if segments == [] then []
    else Keep(rooted, Kept(rooted, segments[..|segments| - 1]), segments[|segments| - 1])
  }

  /** path.Clean */
  function Clean(p: string): string {
    if p == "" then "."
    else
      var rooted := p[0] == '/';
      var kept := Kept(rooted, Split(p));
      if rooted then if kept == [] then "/" else "/" + Join(kept)
      else if kept == [] then "." else Join(kept)
  }

  function LastSlash(p: string): (i: nat)
    ensures i <= |p| && (i > 0 ==> p[i - 1] == '/')
  {
    if p == "" || p[|p| - 1] == '/' then |p| else LastSlash(p[..|p| - 1])
  }

  /** path.Dir: everything up to the last slash, cleaned. */
  function Dir(p: string): string {
    Clean(p[..LastSlash(p)])
  }

  /** A segment that path.Clean leaves where it is. */
  predicate Proper(s: string) { s != "" && s != "." && s != ".." && '/' !in s }

  ghost predicate AllProper(segments: seq<string>) { forall i | 0 <= i < |segments| :: Proper(segments[i]) }

  /** Never empty, never a dot, and without a slash. */
  predicate Plain(s: string) { s != "" && s != "." && '/' !in s }

  ghost predicate AllPlain(segments: seq<string>) { forall i | 0 <= i < |segments| :: Plain(segments[i]) }

  lemma {:induction false} KeptShape(rooted: bool, segments: seq<string>)
    requires SlashFree(segments)
    ensures AllPlain(Kept(rooted, segments))
  {
    if segments != [] {
      var before, s := segments[..|segments| - 1], segments[|segments| - 1];
      assert forall t | t in before :: t in segments;
      KeptShape(rooted, before);
      assert s in segments;
      KeepShape(rooted, Kept(rooted, before), s);
    }
  }

  lemma KeepShape(rooted: bool, kept: seq<string>, s: string)
    requires AllPlain(kept) && '/' !in s
    ensures AllPlain(Keep(rooted, kept, s))
  {}

  lemma {:induction false} KeptProper(segments: seq<string>)
    requires AllProper(segments)
    ensures Kept(false, segments) == segments
  {
    if segments != [] {
      var before, s := segments[..|segments| - 1], segments[|segments| - 1];
      assert AllProper(before) && Proper(s);
      KeptProper(before);
      assert before + [s] == segments;
    }
  }

  /** A path that is not rooted and is its own Clean has plain segments only. */
  lemma CleanSegments(p: string)
    requires p != "" && p != "." && p[0] != '/' && Clean(p) == p
    ensures AllPlain(Split(p))
  {
    SplitSlashFree(p);
    KeptShape(false, Split(p));
    SplitJoinPlain(Kept(false, Split(p)));
  }

  lemma SplitJoinPlain(segments: seq<string>)
    requires segments != [] && AllPlain(segments)
    ensures Split(Join(segments)) == segments
  {
    forall s | s in segments ensures '/' !in s {
      var i :| 0 <= i < |segments| && segments[i] == s;
      assert Plain(segments[i]);
    }
    SplitJoin(segments);
  }

  lemma {:induction false} JoinAppend(a: seq<string>, s: string)
    requires a != []
    ensures Join(a + [s]) == Join(a) + "/" + s
  {
    if |a| == 1 {
      assert (a + [s])[1..] == [s];
    } else {
      JoinAppend(a[1..], s);
      assert (a + [s])[1..] == a[1..] + [s];
    }
  }

  lemma {:induction false} LastSlashAfter(p: string, s: string)
    requires '/' !in s
    ensures LastSlash(p + s) == LastSlash(p)
  {
    if s == "" {
      assert p + s == p;
    } else {
      var text := p + s;
      assert text[|text| - 1] == s[|s| - 1] && text[..|text| - 1] == p + s[..|s| - 1];
      LastSlashAfter(p, s[..|s| - 1]);
    }
  }

  lemma CleanEmpty()
    ensures Clean("") == "."
  {}

  /** Going up from proper segments drops the last one, and ends at `.`. */
  lemma DirOfJoin(segments: seq<string>)
    requires segments != [] && AllProper(segments)
    ensures Dir(Join(segments)) == if |segments| == 1 then "." else Join(segments[..|segments| - 1])
  {
    hide Dir, Clean, Join;
    var up, last := segments[..|segments| - 1], segments[|segments| - 1];
    assert Proper(last) && segments == up + [last];
    if |segments| == 1 {
      assert segments == [last];
      DirOfOne(last);
    } else {
      DirOfMore(up, last);
    }
  }

  lemma DirOfOne(s: string)
    requires '/' !in s
    ensures Dir(Join([s])) == "."
  {
    hide Dir, LastSlash, Clean;
    assert Join([s]) == s == "" + s;
    DirAfter("", s);
    CleanEmpty();
  }

  lemma DirOfMore(up: seq<string>, last: string)
    requires up != [] && AllProper(up) && '/' !in last
    ensures Dir(Join(up + [last])) == Join(up)
  {
    hide Dir, Clean, LastSlash, Join, AllProper;
    JoinAppend(up, last);
    DirAfter(Join(up) + "/", last);
    CleanTrailing(up);
  }

  lemma DirAfter(head: string, s: string)
    requires '/' !in s && (head == "" || head[|head| - 1] == '/')
    ensures Dir(head + s) == Clean(head)
  {
    LastSlashAfter(head, s);
    assert LastSlash(head) == |head|;
    assert (head + s)[..|head|] == head;
    assert head[..|head|] == head;
  }

  lemma CleanTrailing(up: seq<string>)
    requires up != [] && AllProper(up)
    ensures Clean(Join(up) + "/") == Join(up)
  {
    var head := Join(up) + "/";
    SplitHead(up, head);
    var segments := up + [""];
    assert segments[..|segments| - 1] == up && segments[|segments| - 1] == "";
    KeptProper(up);
    assert Kept(false, segments) == up;
    NotRooted(up);
    assert head[0] == Join(up)[0];
  }

  lemma SplitHead(up: seq<string>, head: string)
    requires up != [] && AllProper(up) && head == Join(up) + "/"
    ensures Split(head) == up + [""]
  {
    ProperIsPlain(up);
    SplitJoinPlain(up);
    SplitConcat(Join(up), "");
    assert head == Join(up) + "/" + "";
    assert Split("") == [""];
  }

  lemma ProperIsPlain(segments: seq<string>)
    requires AllProper(segments)
    ensures AllPlain(segments)
  {
    forall i | 0 <= i < |segments| ensures Plain(segments[i]) {
      assert Proper(segments[i]);
    }
  }

  lemma NotRooted(segments: seq<string>)
    requires segments != [] && AllProper(segments)
    ensures Join(segments) != "" && Join(segments)[0] != '/'
  {
    assert Proper(segments[0]);
    assert segments[0][0] in segments[0];
    assert Join(segments)[0] == segments[0][0];
  }

  // ---- SafeSkillPath ----

  /** utf8.Valid, and strings.ToLower on one path segment. */
  datatype Unicode = Unicode(valid: string -> bool, lower: string -> string)

  function Upper(s: string): string {
    if s == "" then "" else [if 'a' <= s[0] <= 'z' then (s[0] as int - 32) as char else s[0]] + Upper(s[1..])
  }

  predicate Reserved(base: string) {
    || base == "CON" || base == "PRN" || base == "AUX" || base == "NUL"
    || (|base| == 4 && (base[..3] == "COM" || base[..3] == "LPT") && '1' <= base[3] <= '9')
  }

  predicate SafePart(part: string) {
    && (part != "" ==> part[|part| - 1] != '.' && part[|part| - 1] != ' ')
    && !Reserved(match Cut(Upper(part), '.') case None => Upper(part) case Some(cut) => cut.0)
    && forall i | 0 <= i < |part| :: part[i] as int >= 32
  }

  const FORBIDDEN := "\U{0000}\\:<>\"|?*"

  predicate SafeSkillPath(unicode: Unicode, name: string) {
    && name != "" && |name| <= 128 && name != "." && Clean(name) == name && name[0] != '/'
    && !(exists i | 0 <= i < |name| - 1 :: name[i] == '.' && name[i + 1] == '.')
    && !(exists c | c in name :: c in FORBIDDEN)
    && unicode.valid(name)
    && forall part | part in Split(name) :: SafePart(part)
  }

  /** A safe path is a list of proper segments, none of them with a NUL. */
  lemma SafeIsProper(unicode: Unicode, name: string)
    requires SafeSkillPath(unicode, name)
    ensures AllProper(Split(name)) && NUL !in name
  {
    CleanSegments(name);
    assert FORBIDDEN[0] == NUL;
    assert NUL in FORBIDDEN;
    forall i | 0 <= i < |Split(name)| ensures Proper(Split(name)[i]) {
      assert Plain(Split(name)[i]) && Split(name)[i] in Split(name);
      DotsUnsafe();
    }
  }

  lemma DotsUnsafe()
    ensures !SafePart("..")
  {
    assert ".."[1] == '.';
  }
}
