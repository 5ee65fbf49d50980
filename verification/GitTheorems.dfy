/** What clones can rely on, over every run of rebuilds. */
module GitTheorems {
  import opened Wrappers
  import opened ByteStrings
  import opened GitObjects
  import opened GitTree
  import opened GitRender
  import opened GitReadBack
  import opened GitMarketplace
  import opened GitHistory

  /** The objects that a run writes do not collide; every step is one the service can take. */
  ghost predicate Admissible(env: Env, hash: Hash, steps: seq<Step>)
    requires env.Sound()
  {
    AllLegal(steps) && CollisionFree(env, AllObjects(env, History(env, hash, steps)))
  }

  ghost function Rows(env: Env, hash: Hash, steps: seq<Step>): map<string, string>
    requires env.Sound()
  {
    Final(env, hash, steps).rows
  }

  lemma InvAt(env: Env, hash: Hash, steps: seq<Step>) returns (rows: map<string, string>, history: seq<Publication>)
    requires env.Sound() && Admissible(env, hash, steps)
    ensures rows == Rows(env, hash, steps) && history == History(env, hash, steps)
    ensures Inv(env, hash, rows, Final(env, hash, steps).treeHash, history)
  {
    RunKeeps(env, hash, steps);
    rows, history := Rows(env, hash, steps), History(env, hash, steps);
  }

  /**
   * Every commit ever published stays readable: its parent is the publication before it, and checking out
   * its tree still yields exactly what was exported then, if and only if no exported path lay inside another.
   */
  lemma EveryPublicationReadsBack(env: Env, hash: Hash, steps: seq<Step>, i: nat, fuel: nat)
    returns (commit: Commit, view: Node)
    requires env.Sound() && Admissible(env, hash, steps)
    requires i < |History(env, hash, steps)| && AllWithin(History(env, hash, steps)[i].m, fuel)
    ensures var rows, history := Rows(env, hash, steps), History(env, hash, steps);
            && ReadCommit(env, rows, history[i].tip) == Some(commit)
            && commit.parents == ParentTips(history, i)
            && ReadTree(env, rows, commit.tree, fuel) == Some(view)
            && (Shows(view, history[i].m) <==> PrefixFree(history[i].m.Keys))
  {
    var rows, history := InvAt(env, hash, steps);
    commit, view := PublicationReadsBack(env, rows, history, i, fuel);
  }

  function ParentTips(history: seq<Publication>, i: nat): seq<string>
    requires i < |history|
  {
    if i == 0 then [] else [history[i - 1].tip]
  }

  lemma PublicationReadsBack(env: Env, rows: map<string, string>, history: seq<Publication>, i: nat, fuel: nat)
    returns (commit: Commit, view: Node)
    requires env.Sound() && AllHeld(env, rows, history) && Linked(history) && AllReadable(env, history)
    requires i < |history| && AllWithin(history[i].m, fuel)
    ensures ReadCommit(env, rows, history[i].tip) == Some(commit)
    ensures commit.parents == ParentTips(history, i)
    ensures ReadTree(env, rows, commit.tree, fuel) == Some(view)
    ensures Shows(view, history[i].m) <==> PrefixFree(history[i].m.Keys)
  {
    assert Readable(env, history[i]) && HoldsAll(env, rows, history[i].objects);
    assert Follows(history, i);
    commit, view := HeldReads(env, rows, history[i], fuel);
  }

  lemma HeldReads(env: Env, rows: map<string, string>, pub: Publication, fuel: nat) returns (commit: Commit, view: Node)
    requires env.Sound() && HoldsAll(env, rows, pub.objects) && Readable(env, pub) && AllWithin(pub.m, fuel)
    ensures ReadCommit(env, rows, pub.tip) == Some(commit)
    ensures commit.parents == if pub.parent.Some? then [pub.parent.value] else []
    ensures ReadTree(env, rows, commit.tree, fuel) == Some(view)
    ensures Shows(view, pub.m) <==> PrefixFree(pub.m.Keys)
  {
    commit := HeldCommitReads(env, rows, pub);
    view := HeldTreeReads(env, rows, pub, commit.tree, fuel);
  }

  lemma HeldCommitReads(env: Env, rows: map<string, string>, pub: Publication) returns (commit: Commit)
    requires env.Sound() && HoldsAll(env, rows, pub.objects) && Readable(env, pub)
    ensures ReadCommit(env, rows, pub.tip) == Some(commit)
    ensures commit.tree == Render(env, Trie(pub.m)).sum
    ensures commit.parents == if pub.parent.Some? then [pub.parent.value] else []
  {
    var root := Trie(pub.m);
    HeldRoot(env, rows, Render(env, root).written, CommitObject(env, root, pub.parent, pub.signature));
    CommitReadBack(env, rows, root, pub.parent, pub.signature);
    commit := ReadCommit(env, rows, pub.tip).value;
  }

  lemma HeldTreeReads(env: Env, rows: map<string, string>, pub: Publication, sum: string, fuel: nat)
    returns (view: Node)
    requires env.Sound() && HoldsAll(env, rows, pub.objects) && Readable(env, pub) && AllWithin(pub.m, fuel)
    requires sum == Render(env, Trie(pub.m)).sum
    ensures ReadTree(env, rows, sum, fuel) == Some(view)
    ensures Shows(view, pub.m) <==> PrefixFree(pub.m.Keys)
  {
    TrieWithout(pub.tree, pub.modes, pub.m, NUL);
    view := CloneReadBack(env, rows, pub.m, pub.parent, pub.signature, fuel);
  }

  // ---- One line of history ----

  /** The commit reached by following the first parent n times. */
  function Ancestor(read: Reader, tip: string, n: nat): Option<string>
    decreases n
  {
    if n == 0 then Some(tip)
    else
      match read(tip)
      case None => None
      case Some(commit) => if commit.parents == [] then None else Ancestor(read, commit.parents[0], n - 1)
  }

  type Reader = string -> Option<Commit>

  function Commits(env: Env, rows: map<string, string>): Reader {
    tip => ReadCommit(env, rows, tip)
  }

  /** Commits that can be read, each with the one before it as its only parent. */
  ghost predicate Chain(read: Reader, history: seq<Publication>) {
    forall i | 0 <= i < |history| :: Link(read, history, i)
  }

  predicate Link(read: Reader, history: seq<Publication>, i: nat)
    requires i < |history|
  {
    Child(read, history[i].tip, ParentTips(history, i))
  }

  predicate Child(read: Reader, tip: string, parents: seq<string>) {
    read(tip).Some? && read(tip).value.parents == parents
  }

  lemma TipIsChild(env: Env, rows: map<string, string>, pub: Publication)
    requires env.Sound() && HoldsAll(env, rows, pub.objects) && Readable(env, pub)
    ensures Child(Commits(env, rows), pub.tip, if pub.parent.Some? then [pub.parent.value] else [])
  {
    var commit := HeldCommitReads(env, rows, pub);
  }

  lemma HistoryChain(env: Env, rows: map<string, string>, history: seq<Publication>) returns (read: Reader)
    requires env.Sound() && AllHeld(env, rows, history) && Linked(history) && AllReadable(env, history)
    ensures read == Commits(env, rows) && Chain(read, history)
  {
    read := Commits(env, rows);
    forall i | 0 <= i < |history| ensures Link(read, history, i) {
      assert Readable(env, history[i]) && HoldsAll(env, rows, history[i].objects);
      assert Follows(history, i);
      TipIsChild(env, rows, history[i]);
    }
  }

  lemma OneUp(read: Reader, tip: string, parent: string, n: nat)
    requires Child(read, tip, [parent]) && n > 0
    ensures Ancestor(read, tip, n) == Ancestor(read, parent, n - 1)
  {}

  lemma {:induction false} AncestorInChain(read: Reader, history: seq<Publication>, i: nat, n: nat)
    requires Chain(read, history) && n <= i < |history|
    ensures Ancestor(read, history[i].tip, n) == Some(history[i - n].tip)
    decreases n
  {
    if n > 0 {
      assert Link(read, history, i);
      OneUp(read, history[i].tip, history[i - 1].tip, n);
      AncestorInChain(read, history, i - 1, n - 1);
    }
  }

  /** The served tip is the last publication. */
  lemma TipIsLast(env: Env, hash: Hash, steps: seq<Step>)
    requires env.Sound() && Admissible(env, hash, steps)
    ensures var history := History(env, hash, steps);
            ServedTip(Rows(env, hash, steps)) == if history == [] then None else Some(history[|history| - 1].tip)
  {
    hide ServesLast, ServedTip, Rows, Admissible, Final;
    ServesAt(env, hash, steps);
    ParentIsLast(env, Rows(env, hash, steps), History(env, hash, steps));
  }

  lemma ServesAt(env: Env, hash: Hash, steps: seq<Step>)
    requires env.Sound() && Admissible(env, hash, steps)
    ensures ServesLast(env, Rows(env, hash, steps), History(env, hash, steps))
  {
    RunKeeps(env, hash, steps);
  }

  lemma ChainAt(env: Env, hash: Hash, steps: seq<Step>) returns (read: Reader, history: seq<Publication>)
    requires env.Sound() && Admissible(env, hash, steps)
    ensures read == Commits(env, Rows(env, hash, steps)) && history == History(env, hash, steps)
    ensures Chain(read, history)
  {
    var rows;
    rows, history := InvAt(env, hash, steps);
    read := HistoryChain(env, rows, history);
  }

  /**
    Every earlier publication is an ancestor of the last, at its distance: a clone made at any time can
    fast-forward.
  */
  lemma LastDescendsFromAll(env: Env, hash: Hash, steps: seq<Step>, i: nat)
    returns (read: Reader, history: seq<Publication>)
    requires env.Sound() && Admissible(env, hash, steps) && i < |History(env, hash, steps)|
    ensures read == Commits(env, Rows(env, hash, steps)) && history == History(env, hash, steps)
    ensures Ancestor(read, history[|history| - 1].tip, |history| - 1 - i) == Some(history[i].tip)
  {
    read, history := ChainAt(env, hash, steps);
    LastDescends(read, history, i);
  }

  lemma LastDescends(read: Reader, history: seq<Publication>, i: nat)
    requires Chain(read, history) && i < |history|
    ensures Ancestor(read, history[|history| - 1].tip, |history| - 1 - i) == Some(history[i].tip)
  {
    AncestorInChain(read, history, |history| - 1, |history| - 1 - i);
  }

  // ---- Nothing is taken back ----

  lemma AdmissibleBefore(env: Env, hash: Hash, steps: seq<Step>)
    requires env.Sound() && Admissible(env, hash, steps) && steps != []
    ensures Admissible(env, hash, steps[..|steps| - 1])
  {
    var before, last := steps[..|steps| - 1], steps[|steps| - 1];
    var st, history := Final(env, hash, before), History(env, hash, before);
    if Publishes(hash, st, last) {
      CollisionFreeBefore(env, history, NewPublication(env, st, last));
    }
  }

  /** A rebuild appends to the history or leaves it. */
  lemma {:induction false} HistoryOnlyGrows(env: Env, hash: Hash, steps: seq<Step>, k: nat)
    requires env.Sound() && k <= |steps|
    ensures var now, later := History(env, hash, steps[..k]), History(env, hash, steps);
            |now| <= |later| && later[..|now|] == now
    decreases |steps|
  {
    if k == |steps| {
      assert steps[..k] == steps;
    } else {
      var before := steps[..|steps| - 1];
      assert before[..k] == steps[..k];
      HistoryOnlyGrows(env, hash, before, k);
    }
  }

  lemma PublicationStays(env: Env, hash: Hash, steps: seq<Step>, i: nat)
    requires env.Sound() && steps != [] && i < |History(env, hash, steps[..|steps| - 1])|
    ensures i < |History(env, hash, steps)|
    ensures History(env, hash, steps)[i] == History(env, hash, steps[..|steps| - 1])[i]
  {}

  lemma RowKept(env: Env, hash: Hash, steps: seq<Step>, path: string)
    requires env.Sound() && Admissible(env, hash, steps) && steps != []
    requires var before := Rows(env, hash, steps[..|steps| - 1]); path in before && |path| == 49
    ensures var before, after := Rows(env, hash, steps[..|steps| - 1]), Rows(env, hash, steps);
            path in after && after[path] == before[path]
  {
    AdmissibleBefore(env, hash, steps);
    var before := steps[..|steps| - 1];
    var rows, history := InvAt(env, hash, before);
    var o := ObjectAt(env, rows, history, path);
    var i :| 0 <= i < |history| && o in history[i].objects;
    var after, later := InvAt(env, hash, steps);
    PublicationStays(env, hash, steps, i);
    SameRow(env, rows, history, after, later, i, o);
  }

  lemma SameRow(env: Env, rows: map<string, string>, history: seq<Publication>,
                after: map<string, string>, later: seq<Publication>, i: nat, o: string)
    requires env.Sound() && AllHeld(env, rows, history) && AllHeld(env, after, later)
    requires i < |history| && i < |later| && later[i] == history[i] && o in history[i].objects
    ensures var path := ObjectPath(env.sha(o)); path in rows && path in after && rows[path] == after[path]
  {
    StillHeld(env, rows, history, i, o);
    StillHeld(env, after, later, i, o);
  }

  lemma ObjectAt(env: Env, rows: map<string, string>, history: seq<Publication>, path: string) returns (o: string)
    requires env.Sound() && NoOtherObjects(env, rows, history) && path in rows && |path| == 49
    ensures o in AllObjects(env, history) && path == ObjectPath(env.sha(o))
  {
    o :| o in AllObjects(env, history) && path == ObjectPath(env.sha(o));
  }

  lemma StillHeld(env: Env, rows: map<string, string>, history: seq<Publication>, i: nat, o: string)
    requires env.Sound() && AllHeld(env, rows, history) && i < |history| && o in history[i].objects
    ensures Holds(env, rows, o)
  {
    assert HoldsAll(env, rows, history[i].objects);
  }

  /** An object row, once there, is the same after every later step: reading it needs no rebuild. */
  lemma {:induction false} ObjectRowsAreImmutable(env: Env, hash: Hash, steps: seq<Step>, k: nat, path: string)
    requires env.Sound() && Admissible(env, hash, steps) && k <= |steps|
    requires path in Rows(env, hash, steps[..k]) && |path| == 49
    ensures path in Rows(env, hash, steps) && Rows(env, hash, steps)[path] == Rows(env, hash, steps[..k])[path]
    decreases |steps|
  {
    if k == |steps| {
      assert steps[..k] == steps;
    } else {
      var before := steps[..|steps| - 1];
      AdmissibleBefore(env, hash, steps);
      assert before[..k] == steps[..k];
      ObjectRowsAreImmutable(env, hash, before, k, path);
      RowKept(env, hash, steps, path);
    }
  }

  // ---- The tip is current ----

  /**
   * After a rebuild that was due and got through, the last publication has the fingerprint of what was just exported:
   * it was published now, or an equal fingerprint was published before.
   */
  lemma RebuildServesExport(env: Env, hash: Hash, steps: seq<Step>)
    requires env.Sound() && NeverEmpty(hash) && Admissible(env, hash, steps)
    requires steps != [] && steps[|steps| - 1].EnsureBuilt? && steps[|steps| - 1].ok
    requires !Fresh(Final(env, hash, steps[..|steps| - 1]), steps[|steps| - 1].now)
    ensures var history, last := History(env, hash, steps), steps[|steps| - 1];
            && history != []
            && hash(history[|history| - 1].tree, history[|history| - 1].modes) == hash(last.tree, last.modes)
  {
    var last := steps[|steps| - 1];
    var rows, history := InvAt(env, hash, steps);
    assert Final(env, hash, steps).treeHash == hash(last.tree, last.modes);
  }
}
