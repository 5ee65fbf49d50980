/** The bare repository built from an exported tree: objects, one commit, and the reference files. */
module GitMarketplace {
  import opened Wrappers
  import opened ByteStrings
  import opened GitObjects
  import opened GitTree
  import opened GitRender
  import opened GitReadBack

  const COMMIT_KIND := "commit"
  const HEAD := "HEAD"
  const MAIN_REF := "refs/heads/main"
  const INFO_REFS := "info/refs"
  const INFO_PACKS := "objects/info/packs"
  const CONFIG := "config"
  const DESCRIPTION := "description"

  // ---- From paths to segments ----

  function Segments(path: string): Path {
    Split(TrimSlashes(path))
  }

  function BlobAt(tree: map<string, string>, modes: set<string>, path: string): Blob
    requires path in tree
  {
    Blob(tree[path], path in modes)
  }

  /** A file for each list of segments among these paths. When several paths trim to one, any of them may win. */
  ghost predicate ChosenFrom(tree: map<string, string>, modes: set<string>, paths: set<string>, m: map<Path, Blob>)
    requires paths <= tree.Keys
  {
    && (forall path | path in paths :: Segments(path) in m)
    && (forall q | q in m :: exists path :: path in paths && Segments(path) == q && m[q] == BlobAt(tree, modes, path))
  }

  ghost predicate Chosen(tree: map<string, string>, modes: set<string>, m: map<Path, Blob>) {
    ChosenFrom(tree, modes, tree.Keys, m)
  }

  ghost predicate Unambiguous(paths: set<string>) {
    forall a, b | a in paths && b in paths && Segments(a) == Segments(b) :: a == b
  }

  lemma ChosenAt(tree: map<string, string>, modes: set<string>, m: map<Path, Blob>, path: string)
    requires Unambiguous(tree.Keys) && Chosen(tree, modes, m) && path in tree
    ensures Segments(path) in m && m[Segments(path)] == BlobAt(tree, modes, path)
  {
    var other :| other in tree && Segments(other) == Segments(path) && m[Segments(path)] == BlobAt(tree, modes, other);
  }

  /** With one path for each list of segments there is nothing to choose. */
  lemma ChosenOnce(tree: map<string, string>, modes: set<string>, a: map<Path, Blob>, b: map<Path, Blob>)
    requires Unambiguous(tree.Keys) && Chosen(tree, modes, a) && Chosen(tree, modes, b)
    ensures a == b
  {
    forall q ensures q in a <==> q in b {
      if q in a {
        var path :| path in tree && Segments(path) == q;
      }
      if q in b {
        var path :| path in tree && Segments(path) == q;
      }
    }
    forall q | q in a ensures a[q] == b[q] {
      var path :| path in tree && Segments(path) == q;
      ChosenAt(tree, modes, a, path);
      ChosenAt(tree, modes, b, path);
    }
  }

  /** A byte that no path contains is in no name of the trie; a slash never is. */
  lemma TrieWithout(tree: map<string, string>, modes: set<string>, m: map<Path, Blob>, c: char)
    requires Chosen(tree, modes, m)
    requires c == '/' || forall path | path in tree :: c !in path
    ensures NamesWithout(Trie(m), c)
  {
    forall q: Path | Lookup(Trie(m), q).Some? ensures PathWithout(q, c) {
      assert Get(m, q) == Lookup(Trie(m), q);
      var path :| path in tree && Segments(path) == q;
      SegmentsWithout(path, c);
    }
    PathsWithout(Trie(m), c);
  }

  lemma {:induction false} TrimmedBytes(s: string, c: char)
    requires c !in s
    ensures c !in TrimLeadingSlashes(s) && c !in TrimTrailingSlashes(s)
    decreases |s|
  {
    if s != "" {
      TrimmedBytes(s[1..], c);
      TrimmedBytes(s[..|s| - 1], c);
    }
  }

  lemma SegmentsWithout(path: string, c: char)
    requires c == '/' || c !in path
    ensures PathWithout(Segments(path), c)
  {
    if c == '/' {
      SplitSlashFree(TrimSlashes(path));
    } else {
      TrimmedBytes(path, c);
      TrimmedBytes(TrimLeadingSlashes(path), c);
      SplitBytes(TrimSlashes(path), c);
    }
    forall i | 0 <= i < |Segments(path)| ensures c !in Segments(path)[i] {
      assert Segments(path)[i] in Segments(path);
    }
  }

  /** The loop over the exported paths, in whatever order the map yields them. */
  method BuildTrie(tree: map<string, string>, modes: set<string>) returns (root: Node)
    ensures exists m :: Chosen(tree, modes, m) && root == Trie(m)
  {
    root := EMPTY;
    ghost var m: map<Path, Blob> := map[];
    EmptyRepresents();
    var left := tree.Keys;
    while left != {}
      invariant left <= tree.Keys
      invariant ChosenFrom(tree, modes, tree.Keys - left, m) && Represents(root, m)
      decreases |left|
    {
      var path :| path in left;
      var blob := Blob(tree[path], path in modes);
      InsertRepresents(root, m, Segments(path), blob);
      ChooseOneMore(tree, modes, tree.Keys - left, m, path);
      root := Insert(root, Segments(path), blob);
      m := m[Segments(path) := blob];
      assert tree.Keys - (left - {path}) == tree.Keys - left + {path};
      left := left - {path};
    }
    assert tree.Keys - left == tree.Keys;
    OneTrie(root, Trie(m), m);
  }

  lemma ChooseOneMore(tree: map<string, string>, modes: set<string>, paths: set<string>, m: map<Path, Blob>,
                      path: string)
    requires paths <= tree.Keys && path in tree && ChosenFrom(tree, modes, paths, m)
    ensures ChosenFrom(tree, modes, paths + {path}, m[Segments(path) := BlobAt(tree, modes, path)])
  {
    var after := m[Segments(path) := BlobAt(tree, modes, path)];
    forall q | q in after
      ensures exists p :: p in paths + {path} && Segments(p) == q && after[q] == BlobAt(tree, modes, p)
    {
      if q == Segments(path) {
        assert path in paths + {path};
      } else {
        var p :| p in paths && Segments(p) == q && m[q] == BlobAt(tree, modes, p);
        assert p in paths + {path};
      }
    }
  }

  // ---- The repository ----

  ghost predicate GoodParent(parent: Option<string>) {
    parent.Some? ==> |parent.value| == 20 && IsBytes(parent.value)
  }

  ghost function CommitObject(env: Env, root: Node, parent: Option<string>, signature: string): string
    requires env.Sound() && GoodParent(parent)
  {
    Full(COMMIT_KIND, CommitText(Render(env, root).sum, parent, signature))
  }

  /** Everything a build writes, in order. */
  ghost function BuildObjects(env: Env, root: Node, parent: Option<string>, signature: string): seq<string>
    requires env.Sound() && GoodParent(parent)
  {
    Render(env, root).written + [CommitObject(env, root, parent, signature)]
  }

  function ReferenceFiles(tip: string): map<string, string>
    requires IsBytes(tip)
  {
    map[
      HEAD := "ref: refs/heads/main\n",
      MAIN_REF := Hex(tip) + "\n",
      INFO_REFS := RefsLine(tip),
      INFO_PACKS := "",
      CONFIG := "[core]\n\trepositoryformatversion = 0\n\tfilemode = true\n\tbare = true\n",
      DESCRIPTION := "PluginPocket marketplace (served live)\n"
    ]
  }

  ghost function Tip(env: Env, root: Node, parent: Option<string>, signature: string): string
    requires env.Sound() && GoodParent(parent)
  {
    env.sha(CommitObject(env, root, parent, signature))
  }

  ghost function Built(env: Env, root: Node, parent: Option<string>, signature: string): map<string, string>
    requires env.Sound() && GoodParent(parent)
  {
    StoreAll(env, map[], BuildObjects(env, root, parent, signature)) + ReferenceFiles(Tip(env, root, parent, signature))
  }

  /** Built for a non-empty parent as a child of it, otherwise as a root commit. */
  method BuildGitMarketplace(env: Env, tree: map<string, string>, parent: Option<string>, modes: set<string>,
                             timestamp: nat)
    returns (files: map<string, string>)
    requires env.Sound() && GoodParent(parent)
    ensures exists m :: Chosen(tree, modes, m) && files == Built(env, Trie(m), parent, Signature(timestamp))
  {
    var root := BuildTrie(tree, modes);
    ghost var m :| Chosen(tree, modes, m) && root == Trie(m);
    TrieWithout(tree, modes, m, '/');
    var repo := new Repo(env);
    var treeSum := repo.WriteTree(root);
    var signature := Signature(timestamp);
    var text := WriteCommitText(treeSum, parent, signature);
    StoreConcat(env, map[], Render(env, root).written, [CommitObject(env, root, parent, signature)]);
    var tip := repo.Store(COMMIT_KIND, text);
    files := WriteReferences(repo.files, tip);
  }

  method WriteCommitText(treeSum: string, parent: Option<string>, signature: string) returns (text: string)
    requires IsBytes(treeSum) && GoodParent(parent)
    ensures text == CommitText(treeSum, parent, signature)
  {
    text := HeaderText("tree", treeSum);
    if parent.Some? {
      text := text + HeaderText("parent", parent.value);
    }
    text := text + signature;
  }

  method WriteReferences(objects: map<string, string>, tip: string) returns (files: map<string, string>)
    requires IsBytes(tip)
    ensures files == objects + ReferenceFiles(tip)
  {
    files := objects;
    files := files[HEAD := "ref: refs/heads/main\n"];
    files := files[MAIN_REF := Hex(tip) + "\n"];
    files := files[INFO_REFS := RefsLine(tip)];
    files := files[INFO_PACKS := ""];
    files := files[CONFIG := "[core]\n\trepositoryformatversion = 0\n\tfilemode = true\n\tbare = true\n"];
    files := files[DESCRIPTION := "PluginPocket marketplace (served live)\n"];
  }

  /** No reference file is in the way of an object. */
  lemma ReferencesAreNoObjects(tip: string, path: string)
    requires IsBytes(tip) && path in ReferenceFiles(tip)
    ensures |path| < 49
  {}

  lemma BuiltNamesTip(env: Env, root: Node, parent: Option<string>, signature: string)
    requires env.Sound() && GoodParent(parent)
    ensures var files := Built(env, root, parent, signature);
            INFO_REFS in files && GitTip(files[INFO_REFS]) == Some(Tip(env, root, parent, signature))
  {
    TipRoundTrip(Tip(env, root, parent, signature));
    RefsNameTip(Tip(env, root, parent, signature));
  }

  lemma RefsNameTip(tip: string)
    requires IsBytes(tip)
    ensures INFO_REFS in ReferenceFiles(tip) && ReferenceFiles(tip)[INFO_REFS] == RefsLine(tip)
  {
    assert |INFO_REFS| == 9 && |INFO_PACKS| == 18 && |CONFIG| == 6 && |DESCRIPTION| == 11;
  }

  lemma BuiltHolds(env: Env, root: Node, parent: Option<string>, signature: string)
    requires env.Sound() && GoodParent(parent) && Distinguished(env, BuildObjects(env, root, parent, signature))
    ensures HoldsAll(env, Built(env, root, parent, signature), BuildObjects(env, root, parent, signature))
  {
    var objects := BuildObjects(env, root, parent, signature);
    var tip := Tip(env, root, parent, signature);
    StoredAll(env, map[], objects);
    forall o | o in objects ensures Holds(env, Built(env, root, parent, signature), o) {
      var path := ObjectPath(env.sha(o));
      assert Holds(env, StoreAll(env, map[], objects), o);
      assert path !in ReferenceFiles(tip) by {
        if path in ReferenceFiles(tip) { ReferencesAreNoObjects(tip, path); }
      }
    }
  }

  // ---- Reading it ----

  function ReadCommit(env: Env, files: map<string, string>, tip: string): Option<Commit> {
    match Fetch(env, files, tip)
    case None => None
    case Some(full) =>
      match ParseObject(full)
      case None => None
      case Some(typed) => if typed.0 == COMMIT_KIND then ParseCommit(typed.1) else None
  }

  lemma HeldCommit(env: Env, files: map<string, string>, text: string)
    requires env.Sound() && Holds(env, files, Full(COMMIT_KIND, text))
    ensures ReadCommit(env, files, env.sha(Full(COMMIT_KIND, text))) == ParseCommit(text)
  {
    HeldObject(env, files, COMMIT_KIND, text);
  }

  lemma SumIsDigest(env: Env, root: Node)
    requires env.Sound()
    ensures |Render(env, root).sum| == 20 && IsBytes(Render(env, root).sum)
  {}

  lemma CommitReadBack(env: Env, files: map<string, string>, root: Node, parent: Option<string>, signature: string)
    requires env.Sound() && GoodParent(parent) && EndsParents(signature)
    requires Holds(env, files, CommitObject(env, root, parent, signature))
    ensures ReadCommit(env, files, Tip(env, root, parent, signature))
         == Some(Commit(Render(env, root).sum, if parent.Some? then [parent.value] else []))
  {
    SumIsDigest(env, root);
    HeldCommit(env, files, CommitText(Render(env, root).sum, parent, signature));
    CommitRoundTrip(Render(env, root).sum, parent, signature);
  }

  /** What a clone of a repository holding these objects sees. */
  lemma CloneReadBack(env: Env, files: map<string, string>, m: map<Path, Blob>, parent: Option<string>,
                      signature: string, fuel: nat)
    returns (view: Node)
    requires env.Sound() && GoodParent(parent) && NamesWithout(Trie(m), NUL) && AllWithin(m, fuel)
    requires HoldsAll(env, files, BuildObjects(env, Trie(m), parent, signature))
    ensures ReadTree(env, files, Render(env, Trie(m)).sum, fuel) == Some(view)
    ensures Shows(view, m) <==> PrefixFree(m.Keys)
  {
    var root := Trie(m);
    HeldParts(env, files, Render(env, root).written, [CommitObject(env, root, parent, signature)]);
    forall q: Path | Lookup(root, q).Some? ensures |q| <= fuel {
      assert Get(m, q) == Lookup(root, q);
    }
    DepthBound(root, fuel);
    ReadBack(env, files, root, fuel);
    VisibleIff(root, m);
    view := Visible(root);
  }

  /**
   * The tip named by info/refs is a commit on the tree of this build and on the parent that was given,
   * and checking that tree out yields exactly the exported files if and only if no path lies inside another.
   */
  lemma MarketplaceReadBack(env: Env, tree: map<string, string>, modes: set<string>, m: map<Path, Blob>,
                            parent: Option<string>, signature: string, fuel: nat)
    returns (tip: string, commit: Commit, view: Node)
    requires env.Sound() && GoodParent(parent) && EndsParents(signature) && Chosen(tree, modes, m)
    requires forall path | path in tree :: NUL !in path
    requires AllWithin(m, fuel)
    requires Distinguished(env, BuildObjects(env, Trie(m), parent, signature))
    ensures var files := Built(env, Trie(m), parent, signature);
            && INFO_REFS in files && GitTip(files[INFO_REFS]) == Some(tip)
            && ReadCommit(env, files, tip) == Some(commit)
            && commit.parents == (if parent.Some? then [parent.value] else [])
            && ReadTree(env, files, commit.tree, fuel) == Some(view)
    ensures Shows(view, m) <==> PrefixFree(m.Keys)
  {
    var root := Trie(m);
    var files := Built(env, root, parent, signature);
    tip := Tip(env, root, parent, signature);
    commit := Commit(Render(env, root).sum, if parent.Some? then [parent.value] else []);
    BuiltHolds(env, root, parent, signature);
    BuiltNamesTip(env, root, parent, signature);
    HeldRoot(env, files, Render(env, root).written, CommitObject(env, root, parent, signature));
    CommitReadBack(env, files, root, parent, signature);
    TrieWithout(tree, modes, m, NUL);
    view := CloneReadBack(env, files, m, parent, signature, fuel);
  }

  /** Whatever orders the map was iterated in, two builds of one tree write the same repository. */
  lemma BuildIsDeterministic(env: Env, tree: map<string, string>, modes: set<string>, a: map<Path, Blob>,
                             b: map<Path, Blob>, parent: Option<string>, signature: string)
    requires env.Sound() && GoodParent(parent) && Unambiguous(tree.Keys)
    requires Chosen(tree, modes, a) && Chosen(tree, modes, b)
    ensures Render(env, Trie(a)).sum == Render(env, Trie(b)).sum
    ensures Built(env, Trie(a), parent, signature) == Built(env, Trie(b), parent, signature)
  {
    ChosenOnce(tree, modes, a, b);
  }
}
