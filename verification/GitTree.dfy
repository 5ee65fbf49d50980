/** The tree of a repository: a trie over path segments, and the map of paths it stands for. */
module GitTree {
  import opened Wrappers

  datatype Blob = Blob(content: string, executable: bool)

  datatype Node = Node(files: map<string, Blob>, dirs: map<string, Node>)

  const EMPTY := Node(map[], map[])

  type Path = p: seq<string> | p != [] witness [""]

  function Get(m: map<Path, Blob>, q: Path): Option<Blob> {
    if q in m then Some(m[q]) else None
  }

  // ---- Looking up and inserting ----

  function Lookup(node: Node, q: Path): Option<Blob>
    decreases |q|
  {
    if |q| == 1 then if q[0] in node.files then Some(node.files[q[0]]) else None
    else if q[0] in node.dirs then Lookup(node.dirs[q[0]], q[1..])
    else None
  }

  function Child(node: Node, name: string): Node {
    if name in node.dirs then node.dirs[name] else EMPTY
  }

  /** Walks down, making directories that are missing, and puts the file at the end. */
  function Insert(node: Node, q: Path, blob: Blob): Node
    decreases |q|
  {
    if |q| == 1 then node.(files := node.files[q[0] := blob])
    else node.(dirs := node.dirs[q[0] := Insert(Child(node, q[0]), q[1..], blob)])
  }

  lemma {:induction false} InsertedIsFound(node: Node, p: Path, blob: Blob, q: Path)
    ensures Lookup(Insert(node, p, blob), q) == if p == q then Some(blob) else Lookup(node, q)
    decreases |p|
  {
    if |p| > 1 && |q| > 1 && p[0] == q[0] {
      InsertedIsFound(Child(node, p[0]), p[1..], blob, q[1..]);
      assert p == [p[0]] + p[1..] && q == [q[0]] + q[1..];
      assert p[1..] == q[1..] <==> p == q;
      NothingInEmpty(q[1..]);
    } else if |p| == 1 && |q| == 1 {
      assert p == [p[0]] && q == [q[0]];
    }
  }

  lemma NothingInEmpty(q: Path)
    ensures Lookup(EMPTY, q) == None
  {}

  // ---- Every directory holds a file ----

  predicate Inhabited(node: Node) { node.files != map[] || node.dirs != map[] }

  ghost predicate Pruned(node: Node) {
    forall n | n in node.dirs :: Inhabited(node.dirs[n]) && Pruned(node.dirs[n])
  }

  lemma {:induction false} InsertedStaysPruned(node: Node, p: Path, blob: Blob)
    requires Pruned(node)
    ensures Pruned(Insert(node, p, blob)) && Inhabited(Insert(node, p, blob))
    decreases |p|
  {
    var after := Insert(node, p, blob);
    if |p| == 1 {
      assert p[0] in after.files;
    } else {
      InsertedStaysPruned(Child(node, p[0]), p[1..], blob);
      assert p[0] in after.dirs;
    }
  }

  lemma {:induction false} SomeFile(node: Node) returns (q: Path)
    requires Pruned(node) && Inhabited(node)
    ensures Lookup(node, q).Some?
  {
    if node.files != map[] {
      var n :| n in node.files;
      q := [n];
    } else {
      var n :| n in node.dirs;
      var rest := SomeFile(node.dirs[n]);
      q := [n] + rest;
      assert q[1..] == rest;
    }
  }

  // ---- A map of paths has one trie ----

  ghost predicate Shows(node: Node, m: map<Path, Blob>) {
    forall q: Path :: Lookup(node, q) == Get(m, q)
  }

  ghost predicate Represents(node: Node, m: map<Path, Blob>) {
    Pruned(node) && Shows(node, m)
  }

  ghost predicate SameFiles(a: Node, b: Node) {
    forall q: Path :: Lookup(a, q) == Lookup(b, q)
  }

  lemma SameBelow(a: Node, b: Node, n: string)
    requires SameFiles(a, b) && n in a.dirs && n in b.dirs
    ensures SameFiles(a.dirs[n], b.dirs[n])
  {
    forall q: Path ensures Lookup(a.dirs[n], q) == Lookup(b.dirs[n], q) {
      var longer: Path := [n] + q;
      assert longer[1..] == q;
      assert Lookup(a, longer) == Lookup(b, longer);
    }
  }

  lemma DirsIncluded(a: Node, b: Node)
    requires Pruned(a) && SameFiles(a, b)
    ensures a.dirs.Keys <= b.dirs.Keys
  {
    forall n | n in a.dirs ensures n in b.dirs {
      var q := SomeFile(a.dirs[n]);
      var longer: Path := [n] + q;
      assert longer[1..] == q;
      assert Lookup(a, longer) == Lookup(b, longer);
    }
  }

  lemma FilesAgree(a: Node, b: Node)
    requires SameFiles(a, b)
    ensures a.files == b.files
  {
    forall n ensures (n in a.files <==> n in b.files) && (n in a.files ==> a.files[n] == b.files[n]) {
      assert Lookup(a, [n]) == Lookup(b, [n]);
    }
  }

  lemma {:induction false} PrunedTriesAreEqual(a: Node, b: Node)
    requires Pruned(a) && Pruned(b) && SameFiles(a, b)
    ensures a == b
    decreases a
  {
    FilesAgree(a, b);
    DirsIncluded(a, b);
    DirsIncluded(b, a);
    forall n | n in a.dirs ensures a.dirs[n] == b.dirs[n] {
      SameBelow(a, b, n);
      PrunedTriesAreEqual(a.dirs[n], b.dirs[n]);
    }
    assert a.dirs == b.dirs;
  }

  lemma OneTrie(a: Node, b: Node, m: map<Path, Blob>)
    requires Represents(a, m) && Represents(b, m)
    ensures a == b
  {
    forall q: Path ensures Lookup(a, q) == Lookup(b, q) {
      assert Lookup(a, q) == Get(m, q) == Lookup(b, q);
    }
    PrunedTriesAreEqual(a, b);
  }

  lemma EmptyRepresents()
    ensures Represents(EMPTY, map[])
  {
    forall q: Path ensures Lookup(EMPTY, q) == Get(map[], q) {
      NothingInEmpty(q);
    }
  }

  lemma InsertRepresents(node: Node, m: map<Path, Blob>, p: Path, blob: Blob)
    requires Represents(node, m)
    ensures Represents(Insert(node, p, blob), m[p := blob])
  {
    InsertedStaysPruned(node, p, blob);
    forall q: Path ensures Lookup(Insert(node, p, blob), q) == Get(m[p := blob], q) {
      InsertedIsFound(node, p, blob, q);
      assert Lookup(node, q) == Get(m, q);
    }
  }

  lemma {:induction false} TrieExists(m: map<Path, Blob>) returns (node: Node)
    ensures Represents(node, m)
    decreases |m|
  {
    if m == map[] {
      EmptyRepresents();
      node := EMPTY;
    } else {
      var p :| p in m;
      var rest := m - {p};
      assert rest.Keys == m.Keys - {p};
      assert |rest| < |m|;
      var below := TrieExists(rest);
      InsertRepresents(below, rest, p, m[p]);
      assert rest[p := m[p]] == m;
      node := Insert(below, p, m[p]);
    }
  }

  /** The trie of a map of paths, however it was put together. */
  ghost function Trie(m: map<Path, Blob>): (node: Node)
    ensures Represents(node, m)
  {
    assert exists node :: Represents(node, m) by {
      var node := TrieExists(m);
    }
    var node :| Represents(node, m);
    node
  }

  // ---- What survives when a file and a directory share a name ----

  /** A tree object lists a name once, as a file if there is one. */
  function Visible(node: Node): Node {
    Node(node.files, map n | n in node.dirs && n !in node.files :: Visible(node.dirs[n]))
  }

  ghost predicate Hidden(node: Node, q: Path) {
    exists k | 0 < k < |q| :: Lookup(node, q[..k]).Some?
  }

  ghost predicate PrefixFree(paths: set<Path>) {
    forall p, q | p in paths && q in paths && |p| < |q| :: p != q[..|p|]
  }

  lemma HiddenBelow(node: Node, q: Path)
    requires |q| > 1 && q[0] !in node.files
    ensures Hidden(node, q) <==> q[0] in node.dirs && Hidden(node.dirs[q[0]], q[1..])
  {
    if Hidden(node, q) {
      var k :| 0 < k < |q| && Lookup(node, q[..k]).Some?;
      assert q[..k][0] == q[0];
      assert q[..k][1..] == q[1..][..k - 1];
    }
    if q[0] in node.dirs && Hidden(node.dirs[q[0]], q[1..]) {
      var k :| 0 < k < |q| - 1 && Lookup(node.dirs[q[0]], q[1..][..k]).Some?;
      assert q[..k + 1][1..] == q[1..][..k] && q[..k + 1][0] == q[0];
      assert Lookup(node, q[..k + 1]).Some?;
    }
  }

  lemma {:induction false} VisibleFiles(node: Node, q: Path)
    ensures Lookup(Visible(node), q) == if Hidden(node, q) then None else Lookup(node, q)
    decreases |q|
  {
    if |q| > 1 {
      if q[0] in node.files {
        assert Lookup(node, q[..1]).Some?;
      } else {
        HiddenBelow(node, q);
        if q[0] in node.dirs {
          VisibleFiles(node.dirs[q[0]], q[1..]);
        }
      }
    }
  }

  lemma NothingHidden(node: Node, m: map<Path, Blob>, q: Path)
    requires Represents(node, m) && PrefixFree(m.Keys) && q in m
    ensures !Hidden(node, q)
  {
    forall k | 0 < k < |q| ensures Lookup(node, q[..k]).None? {
      var p: Path := q[..k];
      assert q[..|p|] == p && |p| < |q|;
      assert p !in m.Keys;
      assert Lookup(node, p) == Get(m, p);
    }
  }

  lemma HidingPrefix(node: Node, m: map<Path, Blob>, p: Path, q: Path)
    requires Represents(node, m) && p in m && |p| < |q|
    ensures p == q[..|p|] ==> Hidden(node, q)
  {
    assert Lookup(node, p) == Get(m, p);
  }

  /** Everything survives exactly when no path is a proper prefix of another. */
  lemma VisibleIff(node: Node, m: map<Path, Blob>)
    requires Represents(node, m)
    ensures Shows(Visible(node), m) <==> PrefixFree(m.Keys)
  {
    if PrefixFree(m.Keys) {
      forall q: Path ensures Lookup(Visible(node), q) == Get(m, q) {
        VisibleFiles(node, q);
        assert Lookup(node, q) == Get(m, q);
        if q in m { NothingHidden(node, m, q); }
      }
    }
    if Shows(Visible(node), m) {
      forall p, q | p in m.Keys && q in m.Keys && |p| < |q| ensures p != q[..|p|] {
        HidingPrefix(node, m, p, q);
        VisibleFiles(node, q);
        assert Lookup(Visible(node), q) == Get(m, q);
      }
    }
  }

  // ---- Depth and names ----

  /** No path in the trie has more than k segments. */
  ghost predicate Within(node: Node, k: nat) {
    k > 0 && forall n | n in node.dirs :: Within(node.dirs[n], k - 1)
  }

  ghost predicate AllWithin(m: map<Path, Blob>, k: nat) {
    k > 0 && forall q | q in m :: |q| <= k
  }

  lemma {:induction false} DepthBound(node: Node, k: nat)
    requires Pruned(node) && k > 0 && forall q: Path | Lookup(node, q).Some? :: |q| <= k
    ensures Within(node, k)
    decreases node
  {
    forall n | n in node.dirs ensures Within(node.dirs[n], k - 1) {
      forall q: Path | Lookup(node.dirs[n], q).Some? ensures |q| <= k - 1 {
        var longer: Path := [n] + q;
        assert longer[1..] == q;
        assert Lookup(node, longer).Some?;
      }
      var some := SomeFile(node.dirs[n]);
      DepthBound(node.dirs[n], k - 1);
    }
  }

  /** A byte that no name in the trie contains. */
  ghost predicate NamesWithout(node: Node, c: char) {
    && (forall n | n in node.files :: c !in n)
    && (forall n | n in node.dirs :: c !in n && NamesWithout(node.dirs[n], c))
  }

  ghost predicate PathWithout(q: Path, c: char) { forall i | 0 <= i < |q| :: c !in q[i] }

  lemma {:induction false} PathsWithout(node: Node, c: char)
    requires Pruned(node) && forall q: Path | Lookup(node, q).Some? :: PathWithout(q, c)
    ensures NamesWithout(node, c)
    decreases node
  {
    forall n | n in node.files ensures c !in n {
      assert Lookup(node, [n]).Some?;
      assert PathWithout([n], c);
      assert [n][0] == n;
    }
    forall n | n in node.dirs ensures c !in n && NamesWithout(node.dirs[n], c) {
      var some := SomeFile(node.dirs[n]);
      var first: Path := [n] + some;
      assert first[1..] == some && Lookup(node, first).Some? && first[0] == n;
      forall q: Path | Lookup(node.dirs[n], q).Some? ensures PathWithout(q, c) {
        var longer: Path := [n] + q;
        assert longer[1..] == q;
        assert Lookup(node, longer).Some?;
        forall i | 0 <= i < |q| ensures c !in q[i] {
          assert longer[i + 1] == q[i];
        }
      }
      PathsWithout(node.dirs[n], c);
    }
  }
}
