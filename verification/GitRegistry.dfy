/** The registry object: the rebuild transaction and the file reads, statement by statement. */
module GitRegistries {
  import opened Wrappers
  import opened ByteStrings
  import opened GitObjects
  import opened GitTree
  import opened GitMarketplace
  import opened GitHistory

  class GitRegistry {
    const env: Env
    const hash: Hash
    var rows: map<string, string>
    var treeHash: string
    var builtAt: Option<int>

    constructor (env: Env, hash: Hash)
      ensures this.env == env && this.hash == hash && Contents() == INITIAL
    {
      this.env, this.hash := env, hash;
      rows, treeHash, builtAt := map[], "", None;
    }

    ghost function Contents(): State
      reads this
    {
      State(rows, treeHash, builtAt)
    }

    /**
     * ensureBuilt with what LoadExportInputs and the exporter yield inside the transaction, and whether they
     * (`loaded`) and the statements through the commit (`committed`) worked; gives the choices it made.
     */
    method EnsureBuilt(now: int, tree: map<string, string>, modes: set<string>, timestamp: nat, loaded: bool,
                       committed: bool)
      returns (ok: bool, ghost m: map<Path, Blob>)
      requires env.Sound()
      modifies this
      ensures Chosen(tree, modes, m)
      ensures Contents()
          == After(env, hash, old(Contents()), Rebuilding(now, tree, modes, m, timestamp, loaded && committed))
      ensures ok <==> Fresh(old(Contents()), now) || (loaded && committed)
    {
      if builtAt.Some? && builtAt.value > now - FRESH_FOR {
        m := SomeChoice(tree, modes);
        return true, m;
      }
      ok, m := Transact(now, tree, modes, timestamp, loaded, committed);
    }

    /** The transaction of a rebuild that is due: what it wrote is taken back when it does not get through. */
    method Transact(now: int, tree: map<string, string>, modes: set<string>, timestamp: nat, loaded: bool,
                    committed: bool)
      returns (ok: bool, ghost m: map<Path, Blob>)
      requires env.Sound() && !Fresh(Contents(), now)
      modifies this
      ensures Chosen(tree, modes, m)
      ensures Contents() == After(env, hash, old(Contents()), Rebuilding(now, tree, modes, m, timestamp, ok))
      ensures ok <==> loaded && committed
    {
      hide AfterBuilt, Chosen;
      var before := (rows, treeHash, builtAt);
      if !loaded {
        m := SomeChoice(tree, modes);
        return false, m;
      }
      m := Rebuild(now, tree, modes, timestamp);
      ok := committed;
      if !committed {
        rows, treeHash, builtAt := before.0, before.1, before.2;
      }
    }

    /** The statements of the transaction. */
    method Rebuild(now: int, tree: map<string, string>, modes: set<string>, timestamp: nat)
      returns (ghost m: map<Path, Blob>)
      requires env.Sound() && !Fresh(Contents(), now)
      modifies this
      ensures Chosen(tree, modes, m)
      ensures Contents() == AfterBuilt(env, hash, old(Contents()), Rebuilding(now, tree, modes, m, timestamp, true))
    {
      hide Chosen, Files, ServedTip;
      var current := hash(tree, modes);
      if current != treeHash {
        m := Publish(tree, modes, timestamp);
      } else {
        m := SomeChoice(tree, modes);
      }
      treeHash := current;
      builtAt := Some(now);
    }

    /** The branch that publishes: the tip of info/refs becomes the parent, and every built file is upserted. */
    method Publish(tree: map<string, string>, modes: set<string>, timestamp: nat) returns (ghost m: map<Path, Blob>)
      requires env.Sound()
      modifies this`rows
      ensures Chosen(tree, modes, m)
      ensures rows
          == old(rows) + Files(env, GitHistory.Publish(env, tree, modes, m, ServedTip(old(rows)), Signature(timestamp)))
    {
      hide Chosen, Files, GitHistory.Publish, GitTip;
      var refs := if INFO_REFS in rows then rows[INFO_REFS] else "";
      var files;
      files, m := BuildNext(env, tree, GitTip(refs), modes, timestamp);
      rows := rows + files;
    }

    /**
      File: an object that is there is served as it is; anything else waits for a rebuild, and fails when
      that fails.
    */
    method File(path: string, now: int, tree: map<string, string>, modes: set<string>, timestamp: nat,
                loaded: bool, committed: bool)
      returns (content: Option<string>, ok: bool, ghost m: map<Path, Blob>)
      requires env.Sound()
      modifies this
      ensures Chosen(tree, modes, m)
      ensures Contents() == if ServedAtOnce(old(rows), path) then old(Contents())
                            else After(env, hash, old(Contents()),
                                       Rebuilding(now, tree, modes, m, timestamp, loaded && committed))
      ensures ok <==> ServedAtOnce(old(rows), path) || Fresh(old(Contents()), now) || (loaded && committed)
      ensures content == if ok && path in rows then Some(rows[path]) else None
    {
      if |path| >= 8 && path[..8] == "objects/" {
        if path in rows {
          m := SomeChoice(tree, modes);
          return Some(rows[path]), true, m;
        }
      }
      ok, m := EnsureBuilt(now, tree, modes, timestamp, loaded, committed);
      content := if ok && path in rows then Some(rows[path]) else None;
    }
  }

  predicate ServedAtOnce(rows: map<string, string>, path: string) {
    |path| >= 8 && path[..8] == "objects/" && path in rows
  }

  /** The step of one call. */
  ghost function Rebuilding(now: int, tree: map<string, string>, modes: set<string>, m: map<Path, Blob>,
                            timestamp: nat, ok: bool): Step
  {
    Step.EnsureBuilt(now, tree, modes, m, Signature(timestamp), ok)
  }

  /** The step that EnsureBuilt takes is one the theorems speak of, whenever the exported paths have no NUL. */
  lemma RebuildIsLegal(now: int, tree: map<string, string>, modes: set<string>, m: map<Path, Blob>, timestamp: nat,
                       ok: bool)
    requires Chosen(tree, modes, m) && forall path | path in tree :: NUL !in path
    ensures Legal(Rebuilding(now, tree, modes, m, timestamp, ok))
  {
    SignatureEndsParents(timestamp);
  }

  /** A build, with the choices it made. */
  method BuildNext(env: Env, tree: map<string, string>, parent: Parent, modes: set<string>, timestamp: nat)
    returns (files: map<string, string>, ghost m: map<Path, Blob>)
    requires env.Sound()
    ensures Chosen(tree, modes, m)
    ensures files == Files(env, Publish(env, tree, modes, m, parent, Signature(timestamp)))
  {
    files := BuildGitMarketplace(env, tree, parent, modes, timestamp);
    m :| Chosen(tree, modes, m) && files == Built(env, Trie(m), parent, Signature(timestamp));
    ghost var published := FilesAreBuilt(env, tree, modes, m, parent, Signature(timestamp));
  }

  /** Some choice always exists. */
  ghost method SomeChoice(tree: map<string, string>, modes: set<string>) returns (m: map<Path, Blob>)
    ensures Chosen(tree, modes, m)
  {
    m := map[];
    var left := tree.Keys;
    while left != {}
      invariant left <= tree.Keys && ChosenFrom(tree, modes, tree.Keys - left, m)
      decreases |left|
    {
      var path :| path in left;
      ChooseOneMore(tree, modes, tree.Keys - left, m, path);
      m := m[Segments(path) := BlobAt(tree, modes, path)];
      assert tree.Keys - (left - {path}) == tree.Keys - left + {path};
      left := left - {path};
    }
    assert tree.Keys - left == tree.Keys;
  }
}
