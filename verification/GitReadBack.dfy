/** A written tree reads back as the map of paths it was built from. */
module GitReadBack {
  import opened Wrappers
  import opened ByteStrings
  import opened GitObjects
  import opened GitTree
  import opened GitOrder
  import opened GitRender

  /** What the entries of these names say about a node. */
  ghost function Part(node: Node, names: seq<string>): Node {
    Node(
      map n | n in node.files && n in names :: node.files[n],
      map n | n in node.dirs && n !in node.files && n in names :: Visible(node.dirs[n])
    )
  }

  lemma PartOfListing(node: Node)
    ensures Part(node, Listing(node)) == Visible(node)
  {
    ListedNames(node, Listing(node));
    assert Part(node, Listing(node)).files == node.files;
    assert Part(node, Listing(node)).dirs == Visible(node).dirs;
  }

  lemma PartGrows(node: Node, names: seq<string>, n: string)
    requires n in node.files || n in node.dirs
    ensures n in node.files ==>
      Part(node, names + [n]) == Part(node, names).(files := Part(node, names).files[n := node.files[n]])
    ensures n !in node.files ==>
      Part(node, names + [n]) == Part(node, names).(dirs := Part(node, names).dirs[n := Visible(node.dirs[n])])
  {
    var before, after := Part(node, names), Part(node, names + [n]);
    if n in node.files {
      assert after.files == before.files[n := node.files[n]];
      assert after.dirs == before.dirs;
    } else {
      assert after.dirs == before.dirs[n := Visible(node.dirs[n])];
      assert after.files == before.files;
    }
  }

  lemma HeldObject(env: Env, files: map<string, string>, kind: string, content: string)
    requires env.Sound() && ' ' !in kind && Holds(env, files, Full(kind, content))
    ensures var full := Fetch(env, files, env.sha(Full(kind, content)));
            full.Some? && ParseObject(full.value) == Some((kind, content))
  {
    ObjectRoundTrip(kind, content);
  }

  lemma BlobReadBack(env: Env, files: map<string, string>, blob: Blob)
    requires env.Sound() && Holds(env, files, BlobObject(blob))
    ensures ReadBlob(env, files, env.sha(BlobObject(blob))) == Some(blob.content)
  {
    HeldObject(env, files, BLOB_KIND, blob.content);
  }

  lemma ModesApart(blob: Blob)
    ensures Mode(blob) != DIRECTORY && (Mode(blob) == REGULAR || Mode(blob) == EXECUTABLE)
    ensures Mode(blob) == EXECUTABLE <==> blob.executable
  {
    assert |REGULAR| == 6 && |EXECUTABLE| == 6 && |DIRECTORY| == 5;
    assert REGULAR[3] != EXECUTABLE[3];
  }

  lemma EntriesValid(env: Env, node: Node, names: seq<string>)
    requires env.Sound() && NamesWithout(node, NUL) && Known(node, Kids(env, node), names)
    ensures AllValid(Entries(env, node, Kids(env, node), names))
  {
    if names != [] {
      var before := names[..|names| - 1];
      EntriesValid(env, node, before);
      var n := names[|names| - 1];
      assert EntryOf(env, node, Kids(env, node), n).Valid() by {
        if n in node.files {
        } else {
          RenderIs(env, node.dirs[n]);
        }
      }
    }
  }

  /** Reading one entry puts in place what its name stands for. */
  lemma {:induction false} EntryReadBack(env: Env, files: map<string, string>, node: Node, names: seq<string>,
                                         n: string, fuel: nat)
    requires env.Sound() && NamesWithout(node, NUL)
    requires n in node.files || (n in node.dirs && Within(node.dirs[n], fuel))
    requires HoldsAll(env, files, WritesOf(node, Kids(env, node), n))
    ensures ReadEntry(env, files, EntryOf(env, node, Kids(env, node), n), Part(node, names), fuel)
         == Some(Part(node, names + [n]))
    decreases node, 0
  {
    PartGrows(node, names, n);
    if n in node.files {
      assert BlobObject(node.files[n]) in WritesOf(node, Kids(env, node), n);
      BlobReadBack(env, files, node.files[n]);
      ModesApart(node.files[n]);
      var blob := node.files[n];
      assert blob == Blob(blob.content, Mode(blob) == EXECUTABLE);
    } else {
      ReadBack(env, files, node.dirs[n], fuel);
    }
  }

  lemma HeldParts(env: Env, files: map<string, string>, a: seq<string>, b: seq<string>)
    requires env.Sound() && HoldsAll(env, files, a + b)
    ensures HoldsAll(env, files, a) && HoldsAll(env, files, b)
  {
    assert forall o | o in a || o in b :: o in a + b;
  }

  lemma ReadOneMore(env: Env, files: map<string, string>, entries: seq<Entry>, e: Entry, fuel: nat, node: Node)
    requires ReadEntries(env, files, entries, fuel) == Some(node)
    ensures ReadEntries(env, files, entries + [e], fuel) == ReadEntry(env, files, e, node, fuel)
  {
    var more := entries + [e];
    assert more[..|more| - 1] == entries && more[|more| - 1] == e;
  }

  /** A held tree object is read entry by entry. */
  lemma ReadRoot(env: Env, files: map<string, string>, entries: seq<Entry>, fuel: nat)
    requires env.Sound() && AllValid(entries) && Holds(env, files, Full(TREE_KIND, Encode(entries)))
    ensures ReadTree(env, files, env.sha(Full(TREE_KIND, Encode(entries))), fuel + 1)
         == ReadEntries(env, files, entries, fuel)
  {
    HeldObject(env, files, TREE_KIND, Encode(entries));
    EntriesRoundTrip(entries);
  }

  /** The names again, less the last one, and the last one. */
  lemma LastName(env: Env, node: Node, kids: map<string, Rendering>, names: seq<string>)
    returns (before: seq<string>, n: string)
    requires Known(node, kids, names) && names != []
    ensures names == before + [n] && |before| < |names| && Known(node, kids, before)
    ensures n in node.files || n in kids
    ensures Entries(env, node, kids, names) == Entries(env, node, kids, before) + [EntryOf(env, node, kids, n)]
    ensures Writes(node, kids, names) == Writes(node, kids, before) + WritesOf(node, kids, n)
  {
    before, n := names[..|names| - 1], names[|names| - 1];
  }

  lemma {:induction false} EntriesReadBack(env: Env, files: map<string, string>, node: Node, names: seq<string>,
                                           fuel: nat)
    requires env.Sound() && NamesWithout(node, NUL) && Within(node, fuel + 1)
    requires Known(node, Kids(env, node), names)
    requires HoldsAll(env, files, Writes(node, Kids(env, node), names))
    ensures ReadEntries(env, files, Entries(env, node, Kids(env, node), names), fuel) == Some(Part(node, names))
    decreases node, 1, |names|
  {
    var kids := Kids(env, node);
    if names == [] {
      assert Part(node, names) == EMPTY;
    } else {
      var before, n := LastName(env, node, kids, names);
      HeldParts(env, files, Writes(node, kids, before), WritesOf(node, kids, n));
      EntriesReadBack(env, files, node, before, fuel);
      EntryReadBack(env, files, node, before, n, fuel);
      ReadOneMore(env, files, Entries(env, node, kids, before), EntryOf(env, node, kids, n), fuel, Part(node, before));
    }
  }

  lemma HeldRoot(env: Env, files: map<string, string>, writes: seq<string>, root: string)
    requires env.Sound() && HoldsAll(env, files, writes + [root])
    ensures HoldsAll(env, files, writes) && Holds(env, files, root)
  {
    HeldParts(env, files, writes, [root]);
    assert root in [root];
  }

  /** The entries of a rendered tree, and what is written before its root object. */
  lemma RootParts(env: Env, node: Node) returns (entries: seq<Entry>, writes: seq<string>)
    requires env.Sound() && NamesWithout(node, NUL)
    ensures Known(node, Kids(env, node), Listing(node)) && AllValid(entries)
    ensures entries == Entries(env, node, Kids(env, node), Listing(node))
    ensures writes == Writes(node, Kids(env, node), Listing(node))
    ensures Render(env, node).sum == env.sha(Full(TREE_KIND, Encode(entries)))
    ensures Render(env, node).written == writes + [Full(TREE_KIND, Encode(entries))]
  {
    RenderIs(env, node);
    entries := Entries(env, node, Kids(env, node), Listing(node));
    writes := Writes(node, Kids(env, node), Listing(node));
    EntriesValid(env, node, Listing(node));
  }

  lemma ListingReadBack(env: Env, files: map<string, string>, node: Node, entries: seq<Entry>, writes: seq<string>,
                        depth: nat)
    requires env.Sound() && NamesWithout(node, NUL) && Within(node, depth + 1) && AllValid(entries)
    requires Known(node, Kids(env, node), Listing(node))
    requires entries == Entries(env, node, Kids(env, node), Listing(node))
    requires writes == Writes(node, Kids(env, node), Listing(node))
    requires HoldsAll(env, files, writes) && Holds(env, files, Full(TREE_KIND, Encode(entries)))
    ensures ReadTree(env, files, env.sha(Full(TREE_KIND, Encode(entries))), depth + 1) == Some(Visible(node))
    decreases node, 2
  {
    EntriesReadBack(env, files, node, Listing(node), depth);
    PartOfListing(node);
    ReadRoot(env, files, entries, depth);
  }

  /** Checking out a stored tree gives the trie, less the directories that a file of the same name hides. */
  lemma {:induction false} ReadBack(env: Env, files: map<string, string>, node: Node, fuel: nat)
    requires env.Sound() && NamesWithout(node, NUL) && Within(node, fuel)
    requires HoldsAll(env, files, Render(env, node).written)
    ensures ReadTree(env, files, Render(env, node).sum, fuel) == Some(Visible(node))
    decreases node, 3
  {
    var entries, writes := RootParts(env, node);
    HeldRoot(env, files, writes, Full(TREE_KIND, Encode(entries)));
    ListingReadBack(env, files, node, entries, writes, fuel - 1);
  }

  // ---- Storing without collisions ----

  ghost function Objects(objects: seq<string>): set<string> {
    set o | o in objects
  }

  ghost predicate Distinguished(env: Env, objects: seq<string>) {
    CollisionFree(env, Objects(objects))
  }

  /** Storing keeps every other path. */
  lemma {:induction false} StoreKeepsOthers(env: Env, files: map<string, string>, objects: seq<string>, path: string)
    requires env.Sound() && forall o | o in objects :: ObjectPath(env.sha(o)) != path
    ensures path in StoreAll(env, files, objects) <==> path in files
    ensures path in files ==> StoreAll(env, files, objects)[path] == files[path]
  {
    if objects != [] {
      assert objects[|objects| - 1] in objects;
      StoreKeepsOthers(env, files, objects[..|objects| - 1], path);
    }
  }

  lemma {:induction false} StoredObject(env: Env, files: map<string, string>, objects: seq<string>, full: string)
    requires env.Sound() && full in objects
    requires forall o | o in objects && env.sha(o) == env.sha(full) :: o == full
    ensures Holds(env, StoreAll(env, files, objects), full)
  {
    var last := objects[|objects| - 1];
    assert last in objects;
    if last != full {
      var before := objects[..|objects| - 1];
      assert full in before;
      StoredObject(env, files, before, full);
      if ObjectPath(env.sha(last)) == ObjectPath(env.sha(full)) {
        ObjectPathInjective(env.sha(last), env.sha(full));
      }
    }
  }

  /** Without collisions every stored object is held, wherever in the order it came. */
  lemma StoredAll(env: Env, files: map<string, string>, objects: seq<string>)
    requires env.Sound() && Distinguished(env, objects)
    ensures HoldsAll(env, StoreAll(env, files, objects), objects)
  {
    forall o | o in objects ensures Holds(env, StoreAll(env, files, objects), o) {
      forall p | p in objects && env.sha(p) == env.sha(o) ensures p == o {
        assert p in Objects(objects) && o in Objects(objects);
      }
      StoredObject(env, files, objects, o);
    }
  }

  /** Paths of the object table are those of stored objects. */
  lemma {:induction false} StoredPaths(env: Env, files: map<string, string>, objects: seq<string>, path: string)
    requires env.Sound() && path in StoreAll(env, files, objects) && path !in files
    ensures exists o :: o in objects && path == ObjectPath(env.sha(o))
  {
    if objects != [] {
      var last := objects[|objects| - 1];
      if path == ObjectPath(env.sha(last)) {
        assert last in objects;
      } else {
        StoredPaths(env, files, objects[..|objects| - 1], path);
        var o :| o in objects[..|objects| - 1] && path == ObjectPath(env.sha(o));
        assert o in objects;
      }
    }
  }
}
