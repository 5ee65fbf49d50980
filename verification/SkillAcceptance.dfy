/** Exactly which sets of files a skill may bring, and what the others are refused for. */
module SkillAcceptance {
  import opened Wrappers
  import opened ByteStrings
  import opened SkillPaths
  import opened SkillFiles
  import opened SafePaths

  predicate CountOk(files: map<string, SkillFile>) {
    1 <= |files| <= 32
  }

  predicate ManifestOk(unicode: Unicode, files: map<string, SkillFile>) {
    "SKILL.md" in files && unicode.valid(files["SKILL.md"].content)
  }

  /** Portable paths, at most 8 MiB each and 32 MiB together. */
  ghost predicate SizesOk(unicode: Unicode, files: map<string, SkillFile>) {
    && (forall n <- files :: Portable(unicode, n) && |files[n].content| <= 8 * 1024 * 1024)
    && SizeOf(files, files.Keys) <= 32 * 1024 * 1024
  }

  /** Whatever the case of its letters, `a` is `b` or a directory on the way to it. */
  predicate Reaches(unicode: Unicode, a: string, b: string) {
    && |Split(a)| <= |Split(b)|
    && forall i | 0 <= i < |Split(a)| :: unicode.lower(Split(a)[i]) == unicode.lower(Split(b)[i])
  }

  ghost predicate Apart(unicode: Unicode, names: set<string>) {
    forall a, b | a in names && b in names && a != b :: !Reaches(unicode, a, b)
  }

  ghost predicate AllSafe(unicode: Unicode, names: set<string>) {
    forall n | n in names :: SafeSkillPath(unicode, n)
  }

  lemma ReachesIff(unicode: Unicode, a: string, b: string)
    ensures Reaches(unicode, a, b) <==>
            |Split(a)| <= |Split(b)| && AliasSegments(unicode, a) == AliasSegments(unicode, b)[..|Split(a)|]
  {
    var x, y := AliasSegments(unicode, a), AliasSegments(unicode, b);
    if |Split(a)| <= |Split(b)| {
      assert forall i | 0 <= i < |Split(a)| :: y[..|Split(a)|][i] == y[i];
    }
  }

  lemma SameAlias(unicode: Unicode, a: string, b: string)
    requires LowersSegments(unicode) && SafeSkillPath(unicode, a) && SafeSkillPath(unicode, b)
    ensures Alias(unicode, a) == Alias(unicode, b) <==> AliasSegments(unicode, a) == AliasSegments(unicode, b)
  {
    AliasProper(unicode, a);
    AliasProper(unicode, b);
  }

  lemma ApartIff(unicode: Unicode, names: set<string>)
    requires LowersSegments(unicode) && AllSafe(unicode, names)
    ensures Apart(unicode, names) <==> DistinctAliases(unicode, names) && NoAliasInside(unicode, names)
  {
    hide LowersSegments, SafeSkillPath, AliasSegments, Alias, Split, Reaches;
    forall a, b | a in names && b in names ensures Reaches(unicode, a, b) <==> Clashes(unicode, a, b) {
      PairClashes(unicode, a, b);
    }
    forall a, b, k | a in names && b in names && 0 < k < |AliasSegments(unicode, b)|
                     && AliasSegments(unicode, a) == AliasSegments(unicode, b)[..k]
      ensures a != b && Clashes(unicode, a, b)
    {}
  }

  /** The same alias, or an alias that is a directory of the other. */
  ghost predicate Clashes(unicode: Unicode, a: string, b: string) {
    || Alias(unicode, a) == Alias(unicode, b)
    || exists k | 0 < k < |AliasSegments(unicode, b)| :: AliasSegments(unicode, a) == AliasSegments(unicode, b)[..k]
  }

  lemma PairClashes(unicode: Unicode, a: string, b: string)
    requires LowersSegments(unicode) && SafeSkillPath(unicode, a) && SafeSkillPath(unicode, b)
    ensures Reaches(unicode, a, b) <==> Clashes(unicode, a, b)
  {
    hide LowersSegments, SafeSkillPath, Alias, Split, Reaches, LowerAll;
    SameAlias(unicode, a, b);
    ReachesIff(unicode, a, b);
    var x, y := AliasSegments(unicode, a), AliasSegments(unicode, b);
    assert |x| == |Split(a)| > 0 && |y| == |Split(b)|;
    assert |x| <= |y| ==> (y[..|x|] == y <==> |x| == |y|);
  }

  lemma SizesIff(unicode: Unicode, files: map<string, SkillFile>)
    ensures AllSmall(Safe(unicode), files) <==> SizesOk(unicode, files)
  {
    hide SafeSkillPath, Portable, SizeOf;
    forall n | n in files ensures Small(Safe(unicode), n, files[n])
                                  <==> Portable(unicode, n) && |files[n].content| <= 8 * 1024 * 1024
    {
      SafePathIff(unicode, n);
    }
  }

  /** The verdict on a set of files, by what the files are. */
  lemma VerdictIs(unicode: Unicode, files: map<string, SkillFile>)
    requires LowersSegments(unicode)
    ensures Verdict(unicode, files)
         == if !CountOk(files) then Some(BadCount)
            else if !ManifestOk(unicode, files) then Some(NoManifest)
            else if !SizesOk(unicode, files) then Some(UnsafeOrOversized)
            else if !Apart(unicode, files.Keys) then Some(ConflictingPaths)
            else None
  {
    hide SafeSkillPath, DistinctAliases, NoAliasInside, Apart, SizeOf;
    SizesIff(unicode, files);
    if AllSmall(Safe(unicode), files) {
      forall n | n in files.Keys ensures SafeSkillPath(unicode, n) {
        assert Small(Safe(unicode), n, files[n]);
      }
      ApartIff(unicode, files.Keys);
    }
  }
}
