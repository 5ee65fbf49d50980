/** Validated skills, exported and published at any time, stay available exactly as they were. */
module PublishedExports {
  import opened Wrappers
  import opened GitObjects
  import opened GitTree
  import opened GitRender
  import opened GitMarketplace
  import opened GitHistory
  import opened GitTheorems
  import opened SkillPaths
  import SkillFiles
  import opened Exporter
  import opened ExportTheorems
  import opened ExportReadBack

  /** What ValidateSkillFiles accepts is what the exporter needs. */
  lemma ValidatedFilesAreGood(unicode: Unicode, files: map<string, SkillFiles.SkillFile>, contents: map<string, string>)
    requires SkillFiles.LowersSegments(unicode) && SkillFiles.Verdict(unicode, files).None?
    requires contents.Keys == files.Keys
    ensures GoodFiles(contents)
  {
    SkillFiles.AcceptedPathsStandApart(unicode, files);
  }

  /**
    Every export ever published can still be checked out, file by file and mode by mode, after any further
    rebuilds.
  */
  lemma PublishedExportsReadBack(env: Env, hash: Hash, steps: seq<Step>, i: nat,
                                 docs: Documents, entries: seq<ExportInput>, fuel: nat)
    returns (commit: Commit, view: Node)
    requires env.Sound() && Admissible(env, hash, steps) && i < |History(env, hash, steps)|
    requires AllLoaded(entries) && History(env, hash, steps)[i].tree == Export(docs, entries).0
    requires AllWithin(History(env, hash, steps)[i].m, fuel)
    ensures ReadCommit(env, Rows(env, hash, steps), History(env, hash, steps)[i].tip) == Some(commit)
    ensures ReadTree(env, Rows(env, hash, steps), commit.tree, fuel) == Some(view)
    ensures ShowsTree(view, Export(docs, entries).0, History(env, hash, steps)[i].modes)
  {
    var rows, history := InvAt(env, hash, steps);
    assert Readable(env, history[i]) && HoldsAll(env, rows, history[i].objects);
    commit, view := PublicationShown(env, rows, history[i], docs, entries, fuel);
  }

  lemma PublicationShown(env: Env, rows: map<string, string>, pub: Publication, docs: Documents,
                         entries: seq<ExportInput>, fuel: nat)
    returns (commit: Commit, view: Node)
    requires env.Sound() && Readable(env, pub) && HoldsAll(env, rows, pub.objects) && AllWithin(pub.m, fuel)
    requires AllLoaded(entries) && pub.tree == Export(docs, entries).0
    ensures ReadCommit(env, rows, pub.tip) == Some(commit)
    ensures ReadTree(env, rows, commit.tree, fuel) == Some(view)
    ensures ShowsTree(view, Export(docs, entries).0, pub.modes)
  {
    commit := HeldCommitReads(env, rows, pub);
    view := ExportReadsBack(env, rows, docs, entries, pub.modes, pub.m, pub.parent, pub.signature, fuel);
  }
}
