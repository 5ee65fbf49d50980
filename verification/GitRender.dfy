/** Writing a trie as blob and tree objects, and reading it back from its root digest. */
module GitRender {
  import opened Wrappers
  import opened ByteStrings
  import opened GitObjects
  import opened GitTree
  import opened GitOrder

  const BLOB_KIND := "blob"
  const TREE_KIND := "tree"
  const REGULAR := "100644"
  const EXECUTABLE := "100755"
  const DIRECTORY := "40000"

  /** The digest of a tree object, and every object written for it, in order. */
  datatype Rendering = Rendering(sum: string, written: seq<string>)

  function BlobObject(blob: Blob): string { Full(BLOB_KIND, blob.content) }

  function Mode(blob: Blob): string { if blob.executable then EXECUTABLE else REGULAR }

  ghost predicate Known(node: Node, kids: map<string, Rendering>, names: seq<string>) {
    forall i | 0 <= i < |names| :: names[i] in node.files || names[i] in kids
  }

  /** A name that is both a file and a directory is written as the file. */
  function EntryOf(env: Env, node: Node, kids: map<string, Rendering>, n: string): Entry
    requires n in node.files || n in kids
  {
    if n in node.files then Entry(Mode(node.files[n]), n, env.sha(BlobObject(node.files[n])))
    else Entry(DIRECTORY, n, kids[n].sum)
  }

  function WritesOf(node: Node, kids: map<string, Rendering>, n: string): seq<string>
    requires n in node.files || n in kids
  {
    if n in node.files then [BlobObject(node.files[n])] else kids[n].written
  }

  ghost function Entries(env: Env, node: Node, kids: map<string, Rendering>, names: seq<string>): (r: seq<Entry>)
    requires Known(node, kids, names)
    ensures |r| == |names|
  {
    if names == [] then []
    else Entries(env, node, kids, names[..|names| - 1]) + [EntryOf(env, node, kids, names[|names| - 1])]
  }

  ghost function Writes(node: Node, kids: map<string, Rendering>, names: seq<string>): seq<string>
    requires Known(node, kids, names)
  {
    if names == [] then []
    else Writes(node, kids, names[..|names| - 1]) + WritesOf(node, kids, names[|names| - 1])
  }

  ghost function TreeObject(env: Env, node: Node, kids: map<string, Rendering>, names: seq<string>): string
    requires Known(node, kids, names)
  {
    Full(TREE_KIND, Encode(Entries(env, node, kids, names)))
  }

  lemma ListingKnown(node: Node, kids: map<string, Rendering>)
    requires kids.Keys == node.dirs.Keys
    ensures Known(node, kids, Listing(node))
  {
    ListedNames(node, Listing(node));
    forall i | 0 <= i < |Listing(node)| ensures Listing(node)[i] in node.files || Listing(node)[i] in kids {
      assert Listing(node)[i] in Listing(node);
    }
  }

  ghost function Render(env: Env, node: Node): Rendering {
    var kids := map n | n in node.dirs :: Render(env, node.dirs[n]);
    ListingKnown(node, kids);
    var root := TreeObject(env, node, kids, Listing(node));
    Rendering(env.sha(root), Writes(node, kids, Listing(node)) + [root])
  }

  ghost function Kids(env: Env, node: Node): (kids: map<string, Rendering>)
    ensures kids.Keys == node.dirs.Keys
  {
    map n | n in node.dirs :: Render(env, node.dirs[n])
  }

  /** A rendering without its recursion in sight. */
  lemma RenderIs(env: Env, node: Node)
    ensures Known(node, Kids(env, node), Listing(node))
    ensures var root := TreeObject(env, node, Kids(env, node), Listing(node));
            Render(env, node) == Rendering(env.sha(root), Writes(node, Kids(env, node), Listing(node)) + [root])
  {
    ListingKnown(node, Kids(env, node));
  }

  // ---- Writing ----

  lemma {:induction false} EncodeAppend(entries: seq<Entry>, e: Entry)
    ensures Encode(entries + [e]) == Encode(entries) + e.Bytes()
  {
    if entries == [] {
      assert entries + [e] == [e];
      assert Encode([e]) == e.Bytes() + Encode([]);
    } else {
      EncodeAppend(entries[1..], e);
      assert (entries + [e])[1..] == entries[1..] + [e];
    }
  }

  lemma {:induction false} StoreConcat(env: Env, files: map<string, string>, a: seq<string>, b: seq<string>)
    requires env.Sound()
    ensures StoreAll(env, files, a + b) == StoreAll(env, StoreAll(env, files, a), b)
  {
    if b == [] {
      assert a + b == a;
    } else {
      StoreConcat(env, files, a, b[..|b| - 1]);
      assert (a + b)[..|a + b| - 1] == a + b[..|b| - 1];
    }
  }

  /** One more name: one more entry, and what it writes. */
  lemma OneMoreName(env: Env, node: Node, kids: map<string, Rendering>, names: seq<string>, i: nat)
    requires i < |names| && Known(node, kids, names)
    ensures Known(node, kids, names[..i]) && Known(node, kids, names[..i + 1])
    ensures names[i] in node.files || names[i] in kids
    ensures Encode(Entries(env, node, kids, names[..i + 1]))
         == Encode(Entries(env, node, kids, names[..i])) + EntryOf(env, node, kids, names[i]).Bytes()
    ensures Writes(node, kids, names[..i + 1]) == Writes(node, kids, names[..i]) + WritesOf(node, kids, names[i])
  {
    assert names[..i + 1][..i] == names[..i] && names[..i + 1][i] == names[i];
    EncodeAppend(Entries(env, node, kids, names[..i]), EntryOf(env, node, kids, names[i]));
  }

  /** The first i names have been written: their entries are serialized and their objects stored. */
  ghost predicate Written(env: Env, start: map<string, string>, node: Node, kids: map<string, Rendering>,
                          names: seq<string>, i: nat, serialized: string, files: map<string, string>)
    requires env.Sound() && i <= |names|
  {
    && Known(node, kids, names[..i])
    && serialized == Encode(Entries(env, node, kids, names[..i]))
    && files == StoreAll(env, start, Writes(node, kids, names[..i]))
  }

  lemma NoneWritten(env: Env, start: map<string, string>, node: Node, kids: map<string, Rendering>, names: seq<string>)
    requires env.Sound()
    ensures Written(env, start, node, kids, names, 0, "", start)
  {}

  lemma KnownName(node: Node, kids: map<string, Rendering>, names: seq<string>, i: nat)
    requires i < |names| && Known(node, kids, names)
    ensures names[i] in node.files || names[i] in kids
  {}

  lemma OneMoreWritten(env: Env, start: map<string, string>, node: Node, kids: map<string, Rendering>,
                       names: seq<string>, i: nat, serialized: string, files: map<string, string>, entry: string,
                           after: map<string, string>)
    requires env.Sound() && i < |names| && Known(node, kids, names)
    requires Written(env, start, node, kids, names, i, serialized, files)
    requires names[i] in node.files || names[i] in kids
    requires entry == EntryOf(env, node, kids, names[i]).Bytes()
    requires after == StoreAll(env, files, WritesOf(node, kids, names[i]))
    ensures Written(env, start, node, kids, names, i + 1, serialized + entry, after)
  {
    OneMoreName(env, node, kids, names, i);
    StoreConcat(env, start, Writes(node, kids, names[..i]), WritesOf(node, kids, names[i]));
  }

  lemma AllWritten(env: Env, start: map<string, string>, node: Node, kids: map<string, Rendering>, names: seq<string>,
                   serialized: string, files: map<string, string>)
    requires env.Sound() && Written(env, start, node, kids, names, |names|, serialized, files)
    ensures Known(node, kids, names)
    ensures serialized == Encode(Entries(env, node, kids, names))
    ensures files == StoreAll(env, start, Writes(node, kids, names))
  {
    assert names[..|names|] == names;
  }

  class Repo {
    const env: Env
    var files: map<string, string>

    constructor (env: Env)
      ensures this.env == env && files == map[]
    {
      this.env := env;
      files := map[];
    }

    method Store(kind: string, content: string) returns (sum: string)
      requires env.Sound()
      modifies this
      ensures sum == env.sha(Full(kind, content))
      ensures files == StoreAll(env, old(files), [Full(kind, content)])
    {
      var full := Full(kind, content);
      sum := env.sha(full);
      files := files[ObjectPath(sum) := env.deflate(full)];
      assert [full][..0] == [];
    }

    /** writeGitTree */
    method WriteTree(node: Node) returns (sum: string)
      requires env.Sound() && NamesWithout(node, '/')
      modifies this
      ensures sum == Render(env, node).sum
      ensures files == StoreAll(env, old(files), Render(env, node).written)
      decreases node, 2
    {
      var names := SortedNames(node);
      RenderIs(env, node);
      var serialized := WriteNames(node, names);
      StoreConcat(env, old(files), Writes(node, Kids(env, node), names), [Full(TREE_KIND, serialized)]);
      sum := Store(TREE_KIND, serialized);
    }

    /** Its loop over the sorted names. */
    method WriteNames(node: Node, names: seq<string>) returns (serialized: string)
      requires env.Sound() && NamesWithout(node, '/') && Known(node, Kids(env, node), names)
      modifies this
      ensures serialized == Encode(Entries(env, node, Kids(env, node), names))
      ensures files == StoreAll(env, old(files), Writes(node, Kids(env, node), names))
      decreases node, 1
    {
      serialized := "";
      NoneWritten(env, files, node, Kids(env, node), names);
      var i := 0;
      while i < |names|
        invariant 0 <= i <= |names|
        invariant Written(env, old(files), node, Kids(env, node), names, i, serialized, files)
      {
        ghost var before := files;
        KnownName(node, Kids(env, node), names, i);
        var entry := WriteName(node, names[i]);
        OneMoreWritten(env, old(files), node, Kids(env, node), names, i, serialized, before, entry, files);
        serialized := serialized + entry;
        i := i + 1;
      }
      AllWritten(env, old(files), node, Kids(env, node), names, serialized, files);
    }

    /** The body of its loop: stores what one name stands for and gives its entry. */
    method WriteName(node: Node, name: string) returns (entry: string)
      requires env.Sound() && NamesWithout(node, '/')
      requires name in node.files || name in node.dirs
      modifies this
      ensures entry == EntryOf(env, node, Kids(env, node), name).Bytes()
      ensures files == StoreAll(env, old(files), WritesOf(node, Kids(env, node), name))
      decreases node, 0
    {
      if name in node.files {
        var blob := node.files[name];
        var blobSum := Store(BLOB_KIND, blob.content);
        var mode := REGULAR;
        if blob.executable {
          mode := EXECUTABLE;
        }
        return mode + " " + name + [NUL] + blobSum;
      }
      var childSum := WriteTree(node.dirs[name]);
      entry := DIRECTORY + " " + name + [NUL] + childSum;
    }
  }

  // ---- Reading ----

  function ReadBlob(env: Env, files: map<string, string>, sum: string): Option<string> {
    match Fetch(env, files, sum)
    case None => None
    case Some(full) =>
      match ParseObject(full)
      case None => None
      case Some(typed) => if typed.0 == BLOB_KIND then Some(typed.1) else None
  }

  /** Checks out a tree, directory by directory; `fuel` bounds the depth of directories. */
  function ReadTree(env: Env, files: map<string, string>, sum: string, fuel: nat): Option<Node>
    decreases fuel, 0, 0
  {
    if fuel == 0 then None
    else
      match Fetch(env, files, sum)
      case None => None
      case Some(full) =>
        match ParseObject(full)
        case None => None
        case Some(typed) =>
          if typed.0 != TREE_KIND then None
          else
            match ParseEntries(typed.1)
            case None => None
            case Some(entries) => ReadEntries(env, files, entries, fuel - 1)
  }

  function ReadEntries(env: Env, files: map<string, string>, entries: seq<Entry>, fuel: nat): Option<Node>
    decreases fuel, |entries|
  {
    if entries == [] then Some(EMPTY)
    else
      match ReadEntries(env, files, entries[..|entries| - 1], fuel)
      case None => None
      case Some(node) => ReadEntry(env, files, entries[|entries| - 1], node, fuel)
  }

  function ReadEntry(env: Env, files: map<string, string>, e: Entry, node: Node, fuel: nat): Option<Node>
    decreases fuel, 0, 1
  {
    if e.mode == DIRECTORY then
      match ReadTree(env, files, e.sum, fuel)
      case None => None
      case Some(child) => Some(node.(dirs := node.dirs[e.name := child]))
    else if e.mode == REGULAR || e.mode == EXECUTABLE then
      match ReadBlob(env, files, e.sum)
      case None => None
      case Some(content) => Some(node.(files := node.files[e.name := Blob(content, e.mode == EXECUTABLE)]))
    else None
  }
}
