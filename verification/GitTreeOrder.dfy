/** The entries of every stored tree are in the order that git requires, as they are read back. */
module GitTreeOrder {
  import opened Wrappers
  import opened ByteStrings
  import opened GitObjects
  import opened GitTree
  import opened GitOrder
  import opened GitRender
  import opened GitReadBack
  import opened GitMarketplace

  // ---- Byte order ----

  /** `a` and `b` agree up to some place, where `a` ends or has the smaller byte. */
  ghost predicate BytesBefore(a: string, b: string) {
    exists k :: AgreeTo(a, b, k)
  }

  ghost predicate AgreeTo(a: string, b: string, k: nat) {
    k <= |a| && k <= |b| && a[..k] == b[..k] && (k == |a| || (k < |b| && a[k] < b[k]))
  }

  lemma {:induction false} AtMostIs(a: string, b: string)
    ensures AtMost(a, b) ==> BytesBefore(a, b)
  {
    if a == "" {
      assert AgreeTo(a, b, 0);
    } else if AtMost(a, b) {
      if a[0] < b[0] {
        assert AgreeTo(a, b, 0);
      } else {
        AtMostIs(a[1..], b[1..]);
        var k: nat :| AgreeTo(a[1..], b[1..], k);
        assert a[..k + 1] == [a[0]] + a[1..][..k] && b[..k + 1] == [b[0]] + b[1..][..k];
        assert AgreeTo(a, b, k + 1);
      }
    }
  }

  // ---- One tree ----

  /** A directory is compared with a slash after its name. */
  function Compared(e: Entry): string {
    if e.mode == "40000" then e.name + "/" else e.name
  }

  ghost predicate InGitOrder(entries: seq<Entry>) {
    forall i, j | 0 <= i < j < |entries| :: BytesBefore(Compared(entries[i]), Compared(entries[j]))
  }

  /** No name is both a file and a directory. */
  ghost predicate Single(node: Node) {
    && (forall n | n in node.files :: n !in node.dirs)
    && forall n | n in node.dirs :: Single(node.dirs[n])
  }

  lemma {:induction false} EntryAt(env: Env, node: Node, kids: map<string, Rendering>, names: seq<string>, i: nat)
    requires Known(node, kids, names) && i < |names|
    ensures names[i] in node.files || names[i] in kids
    ensures Entries(env, node, kids, names)[i] == EntryOf(env, node, kids, names[i])
  {
    if i < |names| - 1 { EntryAt(env, node, kids, names[..|names| - 1], i); }
  }

  lemma ModeTexts()
    ensures REGULAR != "40000" && EXECUTABLE != "40000" && DIRECTORY == "40000"
  {
    assert REGULAR[0] == '1' && EXECUTABLE[0] == '1';
  }

  lemma ComparedAt(env: Env, node: Node, kids: map<string, Rendering>, names: seq<string>, i: nat)
    requires Known(node, kids, names) && i < |names| && kids.Keys == node.dirs.Keys
    requires forall n | n in node.files :: n !in node.dirs
    ensures Compared(Entries(env, node, kids, names)[i]) == SortKey(node.dirs.Keys, names[i])
  {
    EntryAt(env, node, kids, names, i);
    ModeTexts();
  }

  lemma EntriesInOrder(env: Env, node: Node)
    requires forall n | n in node.files :: n !in node.dirs
    ensures Known(node, Kids(env, node), Listing(node))
    ensures InGitOrder(Entries(env, node, Kids(env, node), Listing(node)))
  {
    hide Entries, AtMost, SortKey, Compared, BytesBefore;
    ListingKnown(node, Kids(env, node));
    var names, kids := Listing(node), Kids(env, node);
    var entries := Entries(env, node, kids, names);
    forall i, j | 0 <= i < j < |entries| ensures BytesBefore(Compared(entries[i]), Compared(entries[j])) {
      ComparedAt(env, node, kids, names, i);
      ComparedAt(env, node, kids, names, j);
      assert KeyAtMost(node.dirs.Keys, names[i], names[j]);
      AtMostIs(SortKey(node.dirs.Keys, names[i]), SortKey(node.dirs.Keys, names[j]));
    }
  }

  // ---- Every tree of a build ----

  /** If this object is a tree, its entries can be read, and they are in order. */
  ghost predicate TreeOk(object_: string) {
    forall body | ParseObject(object_) == Some(("tree", body)) ::
      ParseEntries(body).Some? && InGitOrder(ParseEntries(body).value)
  }

  lemma BlobOk(blob: Blob)
    ensures TreeOk(BlobObject(blob))
  {
    ObjectRoundTrip(BLOB_KIND, blob.content);
    assert BLOB_KIND[0] != "tree"[0];
  }

  lemma TreeIsOk(env: Env, node: Node)
    requires env.Sound() && NamesWithout(node, NUL) && forall n | n in node.files :: n !in node.dirs
    ensures Known(node, Kids(env, node), Listing(node))
    ensures TreeOk(TreeObject(env, node, Kids(env, node), Listing(node)))
  {
    hide InGitOrder, Entries;
    EntriesInOrder(env, node);
    var entries := Entries(env, node, Kids(env, node), Listing(node));
    EntriesValid(env, node, Listing(node));
    EntriesRoundTrip(entries);
    ObjectRoundTrip(TREE_KIND, Encode(entries));
  }

  lemma {:induction false} WritesOk(node: Node, kids: map<string, Rendering>, names: seq<string>)
    requires Known(node, kids, names)
    requires forall n | n in kids :: forall o <- kids[n].written :: TreeOk(o)
    ensures forall o <- Writes(node, kids, names) :: TreeOk(o)
  {
    hide TreeOk;
    if names != [] {
      WritesOk(node, kids, names[..|names| - 1]);
      var n := names[|names| - 1];
      if n in node.files { BlobOk(node.files[n]); }
    }
  }

  lemma {:induction false} RenderedOk(env: Env, node: Node)
    requires env.Sound() && NamesWithout(node, NUL) && Single(node)
    ensures forall o <- Render(env, node).written :: TreeOk(o)
  {
    hide TreeOk, Render;
    RenderIs(env, node);
    var kids := Kids(env, node);
    forall n | n in kids ensures forall o <- kids[n].written :: TreeOk(o) {
      RenderedOk(env, node.dirs[n]);
    }
    WritesOk(node, kids, Listing(node));
    TreeIsOk(env, node);
  }

  /** Without a path inside another, no name is both a file and a directory. */
  lemma {:induction false} SingleTrie(node: Node)
    requires Pruned(node)
    requires forall p: Path, q: Path | Lookup(node, p).Some? && Lookup(node, q).Some? && |p| < |q| :: p != q[..|p|]
    ensures Single(node)
    decreases node
  {
    forall n | n in node.dirs ensures n !in node.files && Single(node.dirs[n]) {
      var some := SomeFile(node.dirs[n]);
      var longer: Path := [n] + some;
      var one: Path := [n];
      assert longer[1..] == some && longer[..|one|] == one;
      assert Lookup(node, longer).Some? && Lookup(node, one).None?;
      BelowApart(node, n);
      SingleTrie(node.dirs[n]);
    }
  }

  lemma BelowApart(node: Node, n: string)
    requires n in node.dirs
    requires forall p: Path, q: Path | Lookup(node, p).Some? && Lookup(node, q).Some? && |p| < |q| :: p != q[..|p|]
    ensures forall p: Path, q: Path | Lookup(node.dirs[n], p).Some? && Lookup(node.dirs[n], q).Some? && |p| < |q| ::
              p != q[..|p|]
  {
    forall p: Path, q: Path | Lookup(node.dirs[n], p).Some? && Lookup(node.dirs[n], q).Some? && |p| < |q|
      ensures p != q[..|p|]
    {
      var p', q': Path := [n] + p, [n] + q;
      assert q'[..|p'|] == [n] + q[..|p|];
      assert p'[1..] == p && q'[1..] == q;
      assert Lookup(node, p').Some? && Lookup(node, q').Some?;
    }
  }

  /** Every object of a build that is a tree can be read back, and lists its entries in git's order. */
  lemma BuiltTreesInOrder(env: Env, m: map<Path, Blob>, parent: Option<string>, signature: string, o: string)
    requires env.Sound() && GoodParent(parent) && PrefixFree(m.Keys)
    requires NamesWithout(Trie(m), NUL) && o in BuildObjects(env, Trie(m), parent, signature)
    ensures TreeOk(o)
  {
    hide TreeOk, Render, Trie, CommitObject;
    var root := Trie(m);
    assert Represents(root, m);
    forall p: Path, q: Path | Lookup(root, p).Some? && Lookup(root, q).Some? && |p| < |q| ensures p != q[..|p|] {
      assert Lookup(root, p) == Get(m, p) && Lookup(root, q) == Get(m, q);
      assert p in m.Keys && q in m.Keys;
    }
    SingleTrie(root);
    RenderedOk(env, root);
    CommitOk(env, root, parent, signature);
  }

  lemma CommitOk(env: Env, root: Node, parent: Option<string>, signature: string)
    requires env.Sound() && GoodParent(parent)
    ensures TreeOk(CommitObject(env, root, parent, signature))
  {
    hide CommitText, Render;
    RenderIs(env, root);
    var text := CommitText(Render(env, root).sum, parent, signature);
    ObjectRoundTrip(COMMIT_KIND, text);
    assert COMMIT_KIND[0] != "tree"[0];
  }
}
