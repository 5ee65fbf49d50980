/** No exported path lies inside another, so a clone of the published repository is exactly the export. */
module ExportReadBack {
  import opened Wrappers
  import opened ByteStrings
  import opened GitObjects
  import opened GitTree
  import opened GitRender
  import opened GitMarketplace
  import opened SkillPaths
  import opened Exporter
  import opened ExportTheorems

  // ---- Segments of exported paths ----

  lemma PlainConstants()
    ensures '/' !in PLUGINS && '/' !in SKILLS && '/' !in CODEX_PLUGIN && '/' !in PLUGIN_JSON && '/' !in AGENTS
    ensures '/' !in MARKETPLACE_JSON
    ensures NUL !in PLUGINS && NUL !in SKILLS && NUL !in CODEX_PLUGIN && NUL !in PLUGIN_JSON && NUL !in AGENTS
    ensures NUL !in MARKETPLACE_JSON
    ensures PLUGINS != AGENTS && SKILLS != CODEX_PLUGIN
    ensures PLUGINS != "" && AGENTS != "" && PLUGIN_JSON != "" && MARKETPLACE_JSON != ""
  {
    assert PLUGINS[0] == 'p' && AGENTS[0] == '.' && SKILLS[0] == 's' && CODEX_PLUGIN[0] == '.';
  }

  lemma SplitThen(first: string, rest: string)
    requires '/' !in first
    ensures Split(first + "/" + rest) == [first] + Split(rest)
  {
    SplitPlain(first);
    SplitConcat(first, rest);
  }

  /** A path of five parts, the last of them itself a path. */
  lemma SplitFive(a: string, b: string, c: string, d: string, rest: string)
    requires '/' !in a && '/' !in b && '/' !in c && '/' !in d
    ensures Split(a + "/" + b + "/" + c + "/" + d + "/" + rest) == [a, b, c, d] + Split(rest)
  {
    var three := d + "/" + rest;
    var two := c + "/" + three;
    var one := b + "/" + two;
    assert a + "/" + b + "/" + c + "/" + d + "/" + rest == a + "/" + one;
    SplitThen(d, rest);
    SplitThen(c, three);
    SplitThen(b, two);
    SplitThen(a, one);
    assert [a] + ([b] + ([c] + ([d] + Split(rest)))) == [a, b, c, d] + Split(rest);
  }

  lemma SkillSegments(plugin: string, skill: string, name: string)
    requires '/' !in plugin && '/' !in skill
    ensures Split(SkillPath(plugin, skill, name)) == [PLUGINS, plugin, SKILLS, skill] + Split(name)
  {
    PlainConstants();
    SplitFive(PLUGINS, plugin, SKILLS, skill, name);
  }

  lemma SplitThree(a: string, b: string, c: string)
    requires '/' !in a && '/' !in b && '/' !in c
    ensures Split(a + "/" + b + "/" + c) == [a, b, c]
  {
    assert a + "/" + b + "/" + c == a + "/" + (b + "/" + c);
    SplitPlain(c);
    SplitThen(b, c);
    SplitThen(a, b + "/" + c);
  }

  lemma SplitFour(a: string, b: string, c: string, d: string)
    requires '/' !in a && '/' !in b && '/' !in c && '/' !in d
    ensures Split(a + "/" + b + "/" + c + "/" + d) == [a, b, c, d]
  {
    var rest := b + "/" + c + "/" + d;
    assert a + "/" + b + "/" + c + "/" + d == a + "/" + rest;
    SplitThree(b, c, d);
    SplitThen(a, rest);
  }

  lemma PluginSegments(plugin: string)
    requires '/' !in plugin
    ensures Split(PluginPath(plugin)) == [PLUGINS, plugin, CODEX_PLUGIN, PLUGIN_JSON]
  {
    PlainConstants();
    SplitFour(PLUGINS, plugin, CODEX_PLUGIN, PLUGIN_JSON);
  }

  lemma ManifestSegments()
    ensures Split(ManifestPath()) == [AGENTS, PLUGINS, MARKETPLACE_JSON]
  {
    PlainConstants();
    SplitThree(AGENTS, PLUGINS, MARKETPLACE_JSON);
  }

  // ---- What each path looks like ----

  ghost predicate SkillShape(owners: map<string, ExportInput>, segments: seq<string>, name: string) {
    && |segments| > 4 && segments[0] == PLUGINS && segments[2] == SKILLS
    && segments[1] in owners && name in SkillSet(owners[segments[1]], segments[3])
    && segments[4..] == Split(name)
  }

  ghost predicate PluginShape(segments: seq<string>) {
    |segments| == 4 && segments[0] == PLUGINS && segments[2] == CODEX_PLUGIN && segments[3] == PLUGIN_JSON
  }

  ghost predicate ManifestShape(segments: seq<string>) {
    |segments| == 3 && segments[0] == AGENTS && segments[2] == MARKETPLACE_JSON
  }

  ghost predicate Shaped(owners: map<string, ExportInput>, segments: seq<string>) {
    ManifestShape(segments) || PluginShape(segments) || exists name :: SkillShape(owners, segments, name)
  }

  /** The owners are loaded entries under their own slugs. */
  ghost predicate GoodOwners(owners: map<string, ExportInput>) {
    forall slug | slug in owners :: owners[slug].slug == slug && Loaded(owners[slug])
  }

  lemma OwnersGood(docs: Documents, entries: seq<ExportInput>)
    requires AllLoaded(entries)
    ensures GoodOwners(Owners(docs, entries))
  {
    forall slug | slug in Owners(docs, entries)
      ensures Owners(docs, entries)[slug].slug == slug && Loaded(Owners(docs, entries)[slug])
    {
      OwnerOf(docs, entries, slug);
    }
  }

  lemma PluginIsShaped(slug: string)
    requires '/' !in slug
    ensures PluginShape(Split(PluginPath(slug)))
  {
    PluginSegments(slug);
  }

  lemma SkillIsShaped(owners: map<string, ExportInput>, slug: string, skill: string, name: string)
    requires '/' !in slug && '/' !in skill && slug in owners && name in SkillSet(owners[slug], skill)
    ensures SkillShape(owners, Split(SkillPath(slug, skill, name)), name)
  {
    SkillSegments(slug, skill, name);
    assert ([PLUGINS, slug, SKILLS, skill] + Split(name))[4..] == Split(name);
  }

  /** The two kinds of path an entry contributes. */
  lemma EntryPathCases(entry: ExportInput, path: string) returns (skill: string, name: string)
    requires PathOfEntry(entry, path)
    ensures path == PluginPath(entry.slug) || SkillFileOf(entry, path, skill, name)
  {
    skill, name := "", "";
    if path != PluginPath(entry.slug) {
      skill, name :| SkillFileOf(entry, path, skill, name);
    }
  }

  lemma OwnedShape(owners: map<string, ExportInput>, slug: string, path: string)
    requires GoodOwners(owners) && slug in owners && PathOfEntry(owners[slug], path)
    ensures Shaped(owners, Split(path))
  {
    assert Loaded(owners[slug]) && owners[slug].slug == slug;
    var skill, name := EntryPathCases(owners[slug], path);
    if SkillFileOf(owners[slug], path, skill, name) {
      SkillIsShaped(owners, slug, skill, name);
    } else {
      PluginIsShaped(slug);
    }
  }

  lemma ExportedShape(docs: Documents, entries: seq<ExportInput>, path: string)
    requires AllLoaded(entries) && path in Export(docs, entries).0
    ensures Shaped(Owners(docs, entries), Split(path))
  {
    if path == ManifestPath() {
      ManifestSegments();
    } else {
      OwnersGood(docs, entries);
      var slug := PathOwner(docs, entries, path);
      OwnedShape(Owners(docs, entries), slug, path);
    }
  }

  lemma GoodSkillSet(entry: ExportInput, skill: string)
    requires Loaded(entry)
    ensures GoodFiles(SkillSet(entry, skill))
  {}

  /** Two files of skills: one can lie inside the other only within one skill, and there none does. */
  lemma SkillShapesApart(owners: map<string, ExportInput>, p: seq<string>, n: string, q: seq<string>, o: string)
    requires GoodOwners(owners) && SkillShape(owners, p, n) && SkillShape(owners, q, o) && |p| < |q|
    ensures p != q[..|p|]
  {
    assert Loaded(owners[p[1]]);
    GoodSkillSet(owners[p[1]], p[3]);
    if q[1] == p[1] && q[3] == p[3] {
      PrefixBelow(p, q, 4);
      assert Split(n) != Split(o)[..|Split(n)|];
    } else {
      assert q[..|p|][1] == q[1] && q[..|p|][3] == q[3];
    }
  }

  lemma PrefixBelow(p: seq<string>, q: seq<string>, k: nat)
    requires k <= |p| <= |q|
    ensures p == q[..|p|] ==> p[k..] == q[k..][..|p| - k]
  {}

  lemma ShapesApart(owners: map<string, ExportInput>, p: seq<string>, q: seq<string>)
    requires GoodOwners(owners) && Shaped(owners, p) && Shaped(owners, q) && |p| < |q|
    ensures p != q[..|p|]
  {
    PlainConstants();
    if |p| > 4 {
      var n :| SkillShape(owners, p, n);
      var o :| SkillShape(owners, q, o);
      SkillShapesApart(owners, p, n, q, o);
    } else if |p| == 4 {
      assert q[..|p|][2] == q[2];
    } else {
      assert q[..|p|][0] == q[0];
    }
  }

  // ---- Trimming and NULs ----

  /** A path whose first and last segments are not empty is not changed by trimming slashes. */
  lemma SolidPath(path: string)
    requires Split(path)[0] != "" && Split(path)[|Split(path)| - 1] != ""
    ensures TrimSlashes(path) == path && Segments(path) == Split(path)
  {
    assert path != "" && path[0] != '/';
    TrailingSlash(path);
  }

  lemma TrailingSlash(path: string)
    ensures path != "" && path[|path| - 1] == '/' ==> Split(path)[|Split(path)| - 1] == ""
  {
    if path != "" && path[|path| - 1] == '/' {
      var head := path[..|path| - 1];
      assert path == head + "/" + "";
      SplitConcat(head, "");
      assert Split("") == [""];
    }
  }

  lemma ShapeSolid(owners: map<string, ExportInput>, path: string)
    requires GoodOwners(owners) && Shaped(owners, Split(path))
    ensures Segments(path) == Split(path)
  {
    PlainConstants();
    var segments := Split(path);
    if !ManifestShape(segments) && !PluginShape(segments) {
      var name :| SkillShape(owners, segments, name);
      assert Loaded(owners[segments[1]]);
      GoodSkillSet(owners[segments[1]], segments[3]);
      assert AllProper(Split(name));
      assert Proper(Split(name)[|Split(name)| - 1]);
      assert segments[|segments| - 1] == segments[4..][|segments| - 5];
    }
    SolidPath(path);
  }

  lemma SkillPathBytes(plugin: string, skill: string, name: string)
    requires NUL !in plugin && NUL !in skill && NUL !in name
    ensures NUL !in SkillPath(plugin, skill, name)
  {
    PlainConstants();
  }

  lemma PluginPathBytes(plugin: string)
    requires NUL !in plugin
    ensures NUL !in PluginPath(plugin)
  {
    PlainConstants();
  }

  lemma OwnedBytes(entry: ExportInput, path: string)
    requires Loaded(entry) && PathOfEntry(entry, path)
    ensures NUL !in path
  {
    var skill, name := EntryPathCases(entry, path);
    if SkillFileOf(entry, path, skill, name) {
      GoodSkillSet(entry, skill);
      SkillPathBytes(entry.slug, skill, name);
    } else {
      PluginPathBytes(entry.slug);
    }
  }

  lemma ExportedBytes(docs: Documents, entries: seq<ExportInput>, path: string)
    requires AllLoaded(entries) && path in Export(docs, entries).0
    ensures NUL !in path
  {
    PlainConstants();
    if path != ManifestPath() {
      var slug := PathOwner(docs, entries, path);
      OwnerOf(docs, entries, slug);
      OwnedBytes(Owners(docs, entries)[slug], path);
    }
  }

  // ---- The whole way ----

  /** Exported paths are told apart by their segments, and none lies inside another. */
  lemma ExportedPathsStandApart(docs: Documents, entries: seq<ExportInput>, modes: set<string>, m: map<Path, Blob>)
    requires AllLoaded(entries) && Chosen(Export(docs, entries).0, modes, m)
    ensures Unambiguous(Export(docs, entries).0.Keys) && PrefixFree(m.Keys)
  {
    hide Export, Owners, AllLoaded, Shaped, GoodOwners, PrefixFree;
    var tree, owners := Export(docs, entries).0, Owners(docs, entries);
    OwnersGood(docs, entries);
    forall path | path in tree ensures Segments(path) == Split(path) && Shaped(owners, Split(path)) {
      ExportedShape(docs, entries, path);
      ShapeSolid(owners, path);
    }
    forall a, b | a in tree && b in tree && Segments(a) == Segments(b) ensures a == b {
      JoinSplit(a);
      JoinSplit(b);
    }
    ShapedPathsApart(owners, tree, modes, m);
  }

  lemma ShapedPathsApart(owners: map<string, ExportInput>, tree: map<string, string>, modes: set<string>,
                         m: map<Path, Blob>)
    requires GoodOwners(owners) && Chosen(tree, modes, m)
    requires forall path | path in tree :: Shaped(owners, Segments(path))
    ensures PrefixFree(m.Keys)
  {
    forall p, q | p in m.Keys && q in m.Keys && |p| < |q| ensures p != q[..|p|] {
      var a :| a in tree && Segments(a) == p;
      var b :| b in tree && Segments(b) == q;
      ShapesApart(owners, p, q);
    }
  }

  /**
   * Whatever table of objects holds those of a build of an export, checking out the tree of its commit yields
   * exactly the exported files with their modes: every exported path, and nothing else.
   */
  lemma ExportReadsBack(env: Env, files: map<string, string>, docs: Documents, entries: seq<ExportInput>,
                        modes: set<string>, m: map<Path, Blob>, parent: Option<string>, signature: string, fuel: nat)
    returns (view: Node)
    requires env.Sound() && GoodParent(parent)
    requires AllLoaded(entries) && Chosen(Export(docs, entries).0, modes, m) && AllWithin(m, fuel)
    requires HoldsAll(env, files, BuildObjects(env, Trie(m), parent, signature))
    ensures ReadTree(env, files, Render(env, Trie(m)).sum, fuel) == Some(view)
    ensures ShowsTree(view, Export(docs, entries).0, modes)
  {
    hide AllLoaded, Export, Chosen, HoldsAll, Trie, Shows, ShowsTree, Unambiguous, PrefixFree, AllWithin;
    ExportedPathsStandApart(docs, entries, modes, m);
    ExportedNames(docs, entries, modes, m);
    view := CloneReadBack(env, files, m, parent, signature, fuel);
    ShownFiles(Export(docs, entries).0, modes, m, view);
  }

  lemma ExportedNames(docs: Documents, entries: seq<ExportInput>, modes: set<string>, m: map<Path, Blob>)
    requires AllLoaded(entries) && Chosen(Export(docs, entries).0, modes, m)
    ensures NamesWithout(Trie(m), NUL)
  {
    var tree := Export(docs, entries).0;
    forall path | path in tree ensures NUL !in path {
      ExportedBytes(docs, entries, path);
    }
    TrieWithout(tree, modes, m, NUL);
  }

  ghost predicate ShowsTree(view: Node, tree: map<string, string>, modes: set<string>) {
    && (forall path | path in tree :: Lookup(view, Segments(path)) == Some(BlobAt(tree, modes, path)))
    && (forall q: Path | Lookup(view, q).Some? :: exists path :: path in tree && Segments(path) == q)
  }

  lemma ShownFiles(tree: map<string, string>, modes: set<string>, m: map<Path, Blob>, view: Node)
    requires Unambiguous(tree.Keys) && Chosen(tree, modes, m) && Shows(view, m)
    ensures ShowsTree(view, tree, modes)
  {
    forall path | path in tree ensures Lookup(view, Segments(path)) == Some(BlobAt(tree, modes, path)) {
      ChosenAt(tree, modes, m, path);
      assert Lookup(view, Segments(path)) == Get(m, Segments(path));
    }
    forall q: Path | Lookup(view, q).Some? ensures exists path :: path in tree && Segments(path) == q {
      assert Lookup(view, q) == Get(m, q);
    }
  }
}
