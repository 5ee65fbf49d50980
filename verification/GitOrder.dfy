/** The order of the entries of a tree object: byte order, with a slash after every directory name. */
module GitOrder {
  import opened ByteStrings
  import opened GitTree

  function SortKey(dirs: set<string>, n: string): string {
    if n in dirs then n + "/" else n
  }

  predicate KeyAtMost(dirs: set<string>, a: string, b: string) {
    AtMost(SortKey(dirs, a), SortKey(dirs, b))
  }

  ghost predicate Ordered(dirs: set<string>, names: seq<string>) {
    forall i, j | 0 <= i < j < |names| :: KeyAtMost(dirs, names[i], names[j])
  }

  /** The key of a name gives the name back. */
  lemma KeyName(dirs: set<string>, n: string)
    requires '/' !in n
    ensures Split(SortKey(dirs, n))[0] == n
  {
    SplitPlain(n);
    if n in dirs {
      assert n + "/" == n + "/" + "";
      SplitConcat(n, "");
    }
  }

  lemma KeyAntisymmetric(dirs: set<string>, a: string, b: string)
    requires '/' !in a && '/' !in b && KeyAtMost(dirs, a, b) && KeyAtMost(dirs, b, a)
    ensures a == b
  {
    AtMostAntisymmetric(SortKey(dirs, a), SortKey(dirs, b));
    KeyName(dirs, a);
    KeyName(dirs, b);
  }

  function InsertName(dirs: set<string>, names: seq<string>, n: string): seq<string> {
    if names == [] || KeyAtMost(dirs, n, names[0]) then [n] + names
    else [names[0]] + InsertName(dirs, names[1..], n)
  }

  lemma {:induction false} InsertKeepsNames(dirs: set<string>, names: seq<string>, n: string)
    ensures multiset(InsertName(dirs, names, n)) == multiset(names) + multiset{n}
  {
    if names != [] && !KeyAtMost(dirs, n, names[0]) {
      InsertKeepsNames(dirs, names[1..], n);
      assert names == [names[0]] + names[1..];
    }
  }

  lemma {:induction false} InsertKeepsOrder(dirs: set<string>, names: seq<string>, n: string)
    requires Ordered(dirs, names)
    ensures Ordered(dirs, InsertName(dirs, names, n))
  {
    if names != [] {
      AtMostTotal(SortKey(dirs, n), SortKey(dirs, names[0]));
      if KeyAtMost(dirs, n, names[0]) {
        forall j | 0 <= j < |names| ensures KeyAtMost(dirs, n, names[j]) {
          if j > 0 { AtMostTransitive(SortKey(dirs, n), SortKey(dirs, names[0]), SortKey(dirs, names[j])); }
        }
      } else {
        InsertKeepsOrder(dirs, names[1..], n);
        InsertKeepsNames(dirs, names[1..], n);
        var rest := InsertName(dirs, names[1..], n);
        forall j | 0 <= j < |rest| ensures KeyAtMost(dirs, names[0], rest[j]) {
          assert rest[j] in multiset(rest);
          if rest[j] != n {
            assert rest[j] in multiset(names[1..]);
            assert rest[j] in names[1..];
            var i :| 0 <= i < |names| - 1 && names[1..][i] == rest[j];
            assert names[i + 1] == rest[j];
          }
        }
      }
    }
  }

  lemma FirstIsLeast(dirs: set<string>, names: seq<string>, n: string)
    requires Ordered(dirs, names) && n in names
    ensures KeyAtMost(dirs, names[0], n)
  {
    var i :| 0 <= i < |names| && names[i] == n;
    AtMostTotal(SortKey(dirs, n), SortKey(dirs, n));
  }

  lemma SameMembers(a: seq<string>, b: seq<string>)
    requires multiset(a) == multiset(b)
    ensures |a| == |b| && forall n :: n in a <==> n in b
  {
    assert |multiset(a)| == |a| && |multiset(b)| == |b|;
    forall n ensures n in a <==> n in b {
      assert n in a <==> n in multiset(a);
      assert n in b <==> n in multiset(b);
    }
  }

  lemma TailBag(a: seq<string>)
    requires a != []
    ensures multiset(a[1..]) == multiset(a) - multiset{a[0]}
  {
    assert a == [a[0]] + a[1..];
  }

  lemma SameFirst(dirs: set<string>, a: seq<string>, b: seq<string>)
    requires Ordered(dirs, a) && Ordered(dirs, b) && a != [] && b != []
    requires a[0] in b && b[0] in a && '/' !in a[0] && '/' !in b[0]
    ensures a[0] == b[0]
  {
    FirstIsLeast(dirs, a, b[0]);
    FirstIsLeast(dirs, b, a[0]);
    KeyAntisymmetric(dirs, a[0], b[0]);
  }

  lemma SameTails(a: seq<string>, b: seq<string>)
    requires a != [] && b != [] && a[0] == b[0] && multiset(a) == multiset(b)
    ensures multiset(a[1..]) == multiset(b[1..])
    ensures a[1..] == b[1..] ==> a == b
  {
    TailBag(a);
    TailBag(b);
    assert a == [a[0]] + a[1..] && b == [b[0]] + b[1..];
  }

  lemma OrderedTail(dirs: set<string>, a: seq<string>)
    requires Ordered(dirs, a) && a != []
    ensures Ordered(dirs, a[1..])
  {
    forall i, j | 0 <= i < j < |a[1..]| ensures KeyAtMost(dirs, a[1..][i], a[1..][j]) {
      assert KeyAtMost(dirs, a[i + 1], a[j + 1]);
    }
  }

  /** An order leaves one sequence of given names, whatever order they were collected in. */
  lemma {:induction false} OrderedOnce(dirs: set<string>, a: seq<string>, b: seq<string>)
    requires Ordered(dirs, a) && Ordered(dirs, b) && multiset(a) == multiset(b)
    requires forall i | 0 <= i < |a| :: '/' !in a[i]
    ensures a == b
  {
    hide Ordered;
    SameMembers(a, b);
    if a != [] {
      assert a[0] in b && b[0] in a;
      SameFirst(dirs, a, b);
      SameTails(a, b);
      OrderedTail(dirs, a);
      OrderedTail(dirs, b);
      OrderedOnce(dirs, a[1..], b[1..]);
    }
  }

  // ---- The entries of a node ----

  ghost predicate Lists(node: Node, names: seq<string>) {
    && Ordered(node.dirs.Keys, names)
    && multiset(names) == multiset(node.files.Keys) + multiset(node.dirs.Keys)
  }

  lemma ListedNames(node: Node, names: seq<string>)
    requires Lists(node, names)
    ensures forall n :: n in names <==> n in node.files || n in node.dirs
  {
    forall n ensures n in names <==> n in node.files || n in node.dirs {
      assert n in names <==> n in multiset(names);
    }
  }

  lemma {:induction false} SortedExists(dirs: set<string>, bag: multiset<string>) returns (names: seq<string>)
    ensures Ordered(dirs, names) && multiset(names) == bag
    decreases |bag|
  {
    if bag == multiset{} {
      names := [];
    } else {
      var n :| n in bag;
      var rest := SortedExists(dirs, bag - multiset{n});
      names := InsertName(dirs, rest, n);
      InsertKeepsOrder(dirs, rest, n);
      InsertKeepsNames(dirs, rest, n);
    }
  }

  /** The names of a node in the order of its tree object. */
  ghost function Listing(node: Node): (names: seq<string>)
    ensures Lists(node, names)
  {
    assert exists names :: Lists(node, names) by {
      var names := SortedExists(node.dirs.Keys, multiset(node.files.Keys) + multiset(node.dirs.Keys));
      assert Lists(node, names);
    }
    var names :| Lists(node, names);
    names
  }

  lemma ListingIs(node: Node, names: seq<string>)
    requires Lists(node, names) && NamesWithout(node, '/')
    ensures names == Listing(node)
  {
    ListedNames(node, names);
    forall i | 0 <= i < |names| ensures '/' !in names[i] {
      assert names[i] in names;
    }
    OrderedOnce(node.dirs.Keys, names, Listing(node));
  }

  /** Puts every one of these names, taken in some order, into the sorted names. */
  method SortInto(dirs: set<string>, sorted: seq<string>, more: set<string>) returns (names: seq<string>)
    requires Ordered(dirs, sorted)
    ensures Ordered(dirs, names) && multiset(names) == multiset(sorted) + multiset(more)
  {
    names := sorted;
    var left := more;
    while left != {}
      invariant Ordered(dirs, names)
      invariant multiset(names) + multiset(left) == multiset(sorted) + multiset(more)
      decreases |left|
    {
      var n :| n in left;
      InsertKeepsOrder(dirs, names, n);
      InsertKeepsNames(dirs, names, n);
      assert multiset(left) == multiset(left - {n}) + multiset{n};
      names := InsertName(dirs, names, n);
      left := left - {n};
    }
  }

  method SortedNames(node: Node) returns (names: seq<string>)
    requires NamesWithout(node, '/')
    ensures names == Listing(node)
  {
    names := SortInto(node.dirs.Keys, [], node.files.Keys);
    names := SortInto(node.dirs.Keys, names, node.dirs.Keys);
    ListingIs(node, names);
  }
}
