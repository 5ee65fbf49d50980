/** ValidateSkillFiles, and what it guarantees about the paths it accepts. */
module SkillFiles {
  import opened Wrappers
  import opened ByteStrings
  import opened GitTree
  import opened SkillPaths

  datatype SkillFile = SkillFile(content: string, executable: bool)

  datatype Rejection = BadCount | NoManifest | UnsafeOrOversized | ConflictingPaths

  const MANIFEST := "SKILL.md"

  /** strings.ToLower acts on each segment by itself, and makes no segment empty, dotted or slashed. */
  ghost predicate LowersSegments(unicode: Unicode) {
    forall s: string | Proper(s) :: Proper(unicode.lower(s))
  }

  function LowerAll(unicode: Unicode, segments: seq<string>): (r: seq<string>)
    ensures |r| == |segments|
    ensures forall i | 0 <= i < |r| :: r[i] == unicode.lower(segments[i])
  {
    if segments == [] then [] else [unicode.lower(segments[0])] + LowerAll(unicode, segments[1..])
  }

  /** The alias of a path: its segments in lower case. */
  function AliasSegments(unicode: Unicode, name: string): Path {
    LowerAll(unicode, Split(name))
  }

  function Alias(unicode: Unicode, name: string): string {
    Join(AliasSegments(unicode, name))
  }

  // ---- What is accepted ----

  ghost function Pick(names: set<string>): (n: string)
    requires names != {}
    ensures n in names
  {
    var n :| n in names;
    n
  }

  ghost function SizeOf(files: map<string, SkillFile>, names: set<string>): nat
    requires names <= files.Keys
  {
    if names == {} then 0
    else
      var n := Pick(names);
      |files[n].content| + SizeOf(files, names - {n})
  }

  lemma {:induction false} SizeSplits(files: map<string, SkillFile>, names: set<string>, n: string)
    requires names <= files.Keys && n in names
    ensures SizeOf(files, names) == |files[n].content| + SizeOf(files, names - {n})
    decreases |names|
  {
    var first := Pick(names);
    if first != n {
      SizeSplits(files, names - {first}, n);
      SizeSplits(files, names - {n}, first);
      assert names - {first} - {n} == names - {n} - {first};
    }
  }

  lemma {:induction false} SizeMonotone(files: map<string, SkillFile>, some: set<string>, all: set<string>)
    requires some <= all <= files.Keys
    ensures SizeOf(files, some) <= SizeOf(files, all)
    decreases |all - some|
  {
    if all - some == {} {
      assert some == all;
    } else {
      var n :| n in all - some;
      SizeSplits(files, some + {n}, n);
      assert some + {n} - {n} == some;
      assert all - (some + {n}) < all - some;
      SizeMonotone(files, some + {n}, all);
    }
  }

  /** SafeSkillPath as a check on names. */
  function Safe(unicode: Unicode): string -> bool {
    n => SafeSkillPath(unicode, n)
  }

  predicate Small(safe: string -> bool, n: string, file: SkillFile) {
    safe(n) && |file.content| <= MAX_SKILL_FILE_BYTES
  }

  ghost predicate SmallAmong(safe: string -> bool, files: map<string, SkillFile>, names: set<string>)
    requires names <= files.Keys
  {
    forall n | n in names :: Small(safe, n, files[n])
  }

  ghost predicate AllSmall(safe: string -> bool, files: map<string, SkillFile>) {
    SmallAmong(safe, files, files.Keys) && SizeOf(files, files.Keys) <= MAX_SKILL_BYTES
  }

  ghost predicate DistinctAliases(unicode: Unicode, names: set<string>) {
    forall a, b | a in names && b in names && Alias(unicode, a) == Alias(unicode, b) :: a == b
  }

  /** No alias is a directory on the way to another. */
  ghost predicate NoAliasInside(unicode: Unicode, names: set<string>) {
    forall a, b, k | a in names && b in names && 0 < k < |AliasSegments(unicode, b)| ::
      AliasSegments(unicode, a) != AliasSegments(unicode, b)[..k]
  }

  /** The first check that fails decides. */
  ghost function Verdict(unicode: Unicode, files: map<string, SkillFile>): Option<Rejection> {
    if |files| == 0 || |files| > 32 then Some(BadCount)
    else if MANIFEST !in files || !unicode.valid(files[MANIFEST].content) then Some(NoManifest)
    else if !AllSmall(Safe(unicode), files) then Some(UnsafeOrOversized)
    else if !DistinctAliases(unicode, files.Keys) || !NoAliasInside(unicode, files.Keys) then Some(ConflictingPaths)
    else None
  }

  // ---- Aliases ----

  lemma AliasProper(unicode: Unicode, name: string)
    requires LowersSegments(unicode) && SafeSkillPath(unicode, name)
    ensures AllProper(AliasSegments(unicode, name)) && Split(Alias(unicode, name)) == AliasSegments(unicode, name)
  {
    SafeIsProper(unicode, name);
    var segments := AliasSegments(unicode, name);
    forall i | 0 <= i < |segments| ensures Proper(segments[i]) {
      assert Proper(Split(name)[i]);
    }
    ProperIsPlain(segments);
    SplitJoinPlain(segments);
  }

  lemma JoinedOnce(a: seq<string>, b: seq<string>)
    requires a != [] && b != [] && AllProper(a) && AllProper(b) && Join(a) == Join(b)
    ensures a == b
  {
    ProperIsPlain(a);
    ProperIsPlain(b);
    SplitJoinPlain(a);
    SplitJoinPlain(b);
  }

  // ---- The checks, loop by loop ----

  lemma OneMoreSize(files: map<string, SkillFile>, done: set<string>, n: string)
    requires done <= files.Keys && n in files && n !in done
    ensures SizeOf(files, done + {n}) == SizeOf(files, done) + |files[n].content|
    ensures SizeOf(files, done + {n}) <= SizeOf(files, files.Keys)
  {
    SizeSplits(files, done + {n}, n);
    assert done + {n} - {n} == done;
    SizeMonotone(files, done + {n}, files.Keys);
  }

  lemma OneMoreSmall(safe: string -> bool, files: map<string, SkillFile>, done: set<string>, n: string)
    requires done <= files.Keys && n in files && n !in done && SmallAmong(safe, files, done)
    ensures SmallAmong(safe, files, done + {n}) <==> Small(safe, n, files[n])
    ensures AllSmall(safe, files) ==> Small(safe, n, files[n]) && SizeOf(files, done + {n}) <= MAX_SKILL_BYTES
  {
    if AllSmall(safe, files) { OneMoreSize(files, done, n); }
  }

  method CheckSizes(safe: string -> bool, files: map<string, SkillFile>) returns (ok: bool)
    ensures ok <==> AllSmall(safe, files)
  {
    var total := 0;
    var left := files.Keys;
    ghost var done: set<string> := {};
    while left != {}
      invariant done !! left && done + left == files.Keys
      invariant total == SizeOf(files, done) <= MAX_SKILL_BYTES
      invariant SmallAmong(safe, files, done)
      decreases |left|
    {
      hide SizeOf, SmallAmong, AllSmall;
      var name :| name in left;
      left := left - {name};
      OneMoreSize(files, done, name);
      OneMoreSmall(safe, files, done, name);
      total := total + |files[name].content|;
      done := done + {name};
      if !safe(name) || |files[name].content| > MAX_SKILL_FILE_BYTES || total > MAX_SKILL_BYTES {
        return false;
      }
    }
    assert done == files.Keys;
    ok := true;
  }

  ghost function AliasesOf(unicode: Unicode, names: set<string>): set<string> {
    set n | n in names :: Alias(unicode, n)
  }

  lemma OneMoreAlias(unicode: Unicode, names: set<string>, n: string)
    requires DistinctAliases(unicode, names) && n !in names
    ensures AliasesOf(unicode, names + {n}) == AliasesOf(unicode, names) + {Alias(unicode, n)}
    ensures Alias(unicode, n) !in AliasesOf(unicode, names) <==> DistinctAliases(unicode, names + {n})
  {
    if Alias(unicode, n) in AliasesOf(unicode, names) {
      var a :| a in names && Alias(unicode, a) == Alias(unicode, n);
      assert a in names + {n} && n in names + {n} && a != n;
    }
  }

  lemma DistinctAmong(unicode: Unicode, some: set<string>, all: set<string>)
    requires some <= all && DistinctAliases(unicode, all)
    ensures DistinctAliases(unicode, some)
  {}

  method CollectAliases(unicode: Unicode, names: set<string>) returns (aliases: Option<set<string>>)
    ensures aliases.Some? <==> DistinctAliases(unicode, names)
    ensures aliases.Some? ==> aliases.value == AliasesOf(unicode, names)
  {
    hide Alias;
    var seen: set<string> := {};
    var left := names;
    ghost var done: set<string> := {};
    while left != {}
      invariant done !! left && done + left == names
      invariant seen == AliasesOf(unicode, done)
      invariant DistinctAliases(unicode, done)
      decreases |left|
    {
      var name :| name in left;
      left := left - {name};
      OneMoreAlias(unicode, done, name);
      done := done + {name};
      var alias := Alias(unicode, name);
      if alias in seen {
        assert !DistinctAliases(unicode, names) by {
          if DistinctAliases(unicode, names) { DistinctAmong(unicode, done, names); }
        }
        return None;
      }
      seen := seen + {alias};
    }
    assert done == names;
    aliases := Some(seen);
  }

  /** The path of the first k segments, as path.Dir names it. */
  function PathOf(segments: seq<string>, k: nat): string
    requires k <= |segments|
  {
    if k == 0 then "." else Join(segments[..k])
  }

  lemma GoUp(segments: seq<string>, k: nat)
    requires AllProper(segments) && 0 < k <= |segments|
    ensures Dir(PathOf(segments, k)) == PathOf(segments, k - 1) && PathOf(segments, k) != "."
  {
    var head := segments[..k];
    DirOfJoin(head);
    assert head[..k - 1] == segments[..k - 1];
    assert Proper(segments[0]) && head[0] == segments[0];
    if k > 1 {
      assert Join(head)[|segments[0]|] == '/';
    }
  }

  lemma OnlyRootIsDot(segments: seq<string>, k: nat)
    requires AllProper(segments) && k <= |segments|
    ensures PathOf(segments, k) == "." ==> k == 0
  {
    if k > 0 { GoUp(segments, k); }
  }

  ghost predicate AliasAbove(aliases: set<string>, segments: seq<string>) {
    exists k | 0 < k < |segments| :: PathOf(segments, k) in aliases
  }

  method Climb(path: string, ghost segments: seq<string>, ghost k: nat) returns (dir: string)
    requires AllProper(segments) && 0 < k <= |segments| && path == PathOf(segments, k)
    ensures dir == PathOf(segments, k - 1)
  {
    GoUp(segments, k);
    dir := Dir(path);
  }

  /** Walks from an alias towards the root, looking for another alias on the way. */
  method HasAliasAbove(aliases: set<string>, alias: string, ghost segments: seq<string>) returns (found: bool)
    requires segments != [] && AllProper(segments) && alias == Join(segments)
    ensures found <==> AliasAbove(aliases, segments)
  {
    ghost var k := |segments|;
    assert segments[..k] == segments;
    var dir := Climb(alias, segments, k);
    k := k - 1;
    while dir != "."
      invariant 0 <= k < |segments| && dir == PathOf(segments, k)
      invariant forall j | k < j < |segments| :: PathOf(segments, j) !in aliases
      decreases k
    {
      if dir in aliases {
        return true;
      }
      dir := Climb(dir, segments, k);
      k := k - 1;
    }
    OnlyRootIsDot(segments, k);
    found := false;
  }

  method CheckName(unicode: Unicode, ghost names: set<string>, aliases: set<string>, name: string) returns (found: bool)
    requires LowersSegments(unicode) && name in names && forall n | n in names :: SafeSkillPath(unicode, n)
    requires aliases == AliasesOf(unicode, names)
    ensures found <==> Crossed(unicode, names, name)
  {
    AliasProper(unicode, name);
    CrossedAbove(unicode, names, aliases, name);
    found := HasAliasAbove(aliases, Alias(unicode, name), AliasSegments(unicode, name));
  }

  method CheckAncestors(unicode: Unicode, names: set<string>, aliases: set<string>) returns (ok: bool)
    requires LowersSegments(unicode) && forall n | n in names :: SafeSkillPath(unicode, n)
    requires aliases == AliasesOf(unicode, names)
    ensures ok <==> NoAliasInside(unicode, names)
  {
    var left := names;
    while left != {}
      invariant left <= names && NoneCrossed(unicode, names, names - left)
      decreases |left|
    {
      var name :| name in left;
      var found := CheckName(unicode, names, aliases, name);
      if found {
        CrossedInside(unicode, names);
        return false;
      }
      left := left - {name};
    }
    CrossedInside(unicode, names);
    ok := true;
  }

  ghost predicate Crossed(unicode: Unicode, names: set<string>, b: string) {
    exists a, k | a in names && 0 < k < |AliasSegments(unicode, b)| ::
      AliasSegments(unicode, a) == AliasSegments(unicode, b)[..k]
  }

  ghost predicate NoneCrossed(unicode: Unicode, names: set<string>, some: set<string>) {
    forall b | b in some :: !Crossed(unicode, names, b)
  }

  lemma CrossedInside(unicode: Unicode, names: set<string>)
    ensures NoAliasInside(unicode, names) <==> NoneCrossed(unicode, names, names)
  {}

  lemma CrossedAbove(unicode: Unicode, names: set<string>, aliases: set<string>, b: string)
    requires LowersSegments(unicode) && b in names && forall n | n in names :: SafeSkillPath(unicode, n)
    requires aliases == AliasesOf(unicode, names)
    ensures AliasAbove(aliases, AliasSegments(unicode, b)) <==> Crossed(unicode, names, b)
  {
    var segments := AliasSegments(unicode, b);
    AliasProper(unicode, b);
    if AliasAbove(aliases, segments) {
      var k :| 0 < k < |segments| && PathOf(segments, k) in aliases;
      var a :| a in names && Alias(unicode, a) == Join(segments[..k]);
      AliasProper(unicode, a);
      JoinedOnce(AliasSegments(unicode, a), segments[..k]);
      assert Crossed(unicode, names, b);
    }
    if Crossed(unicode, names, b) {
      var a, k :| a in names && 0 < k < |segments| && AliasSegments(unicode, a) == segments[..k];
      assert Alias(unicode, a) in aliases && PathOf(segments, k) == Alias(unicode, a);
    }
  }

  /** ValidateSkillFiles, whatever orders its maps yield their keys in. */
  method ValidateSkillFiles(unicode: Unicode, files: map<string, SkillFile>) returns (rejection: Option<Rejection>)
    requires LowersSegments(unicode)
    ensures rejection == Verdict(unicode, files)
  {
    if |files| == 0 || |files| > 32 {
      return Some(BadCount);
    }
    if MANIFEST !in files || !unicode.valid(files[MANIFEST].content) {
      return Some(NoManifest);
    }
    var small := CheckSizes(Safe(unicode), files);
    if !small {
      return Some(UnsafeOrOversized);
    }
    var aliases := CollectAliases(unicode, files.Keys);
    if aliases.None? {
      return Some(ConflictingPaths);
    }
    var apart := CheckAncestors(unicode, files.Keys, aliases.value);
    rejection := if apart then None else Some(ConflictingPaths);
  }

  // ---- What acceptance means ----

  ghost predicate NoneInside(names: set<string>) {
    forall a, b | a in names && b in names && |Split(a)| < |Split(b)| :: Split(a) != Split(b)[..|Split(a)|]
  }

  lemma LowerPrefix(unicode: Unicode, segments: seq<string>, k: nat)
    requires k <= |segments|
    ensures LowerAll(unicode, segments)[..k] == LowerAll(unicode, segments[..k])
  {}

  /** Accepted paths are proper, NUL-free, and none lies inside another: neither as written nor in lower case. */
  lemma AcceptedPathsStandApart(unicode: Unicode, files: map<string, SkillFile>)
    requires LowersSegments(unicode) && Verdict(unicode, files).None?
    ensures MANIFEST in files && NoneInside(files.Keys) && NoAliasInside(unicode, files.Keys)
    ensures forall n | n in files :: AllProper(Split(n)) && NUL !in n
  {
    hide LowersSegments, SafeSkillPath, LowerAll, Alias, SizeOf, Split, AllProper;
    forall n | n in files ensures AllProper(Split(n)) && NUL !in n {
      assert Small(Safe(unicode), n, files[n]);
      SafeIsProper(unicode, n);
    }
    forall a, b | a in files && b in files && |Split(a)| < |Split(b)| ensures Split(a) != Split(b)[..|Split(a)|] {
      var k := |Split(a)|;
      LowerPrefix(unicode, Split(b), k);
      assert AliasSegments(unicode, a) != AliasSegments(unicode, b)[..k];
    }
  }
}
