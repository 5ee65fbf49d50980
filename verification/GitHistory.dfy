/** The published history: rebuilds by any replica, one row-locked transaction each. */
module GitHistory {
  import opened Wrappers
  import opened ByteStrings
  import opened GitObjects
  import opened GitTree
  import opened GitReadBack
  import opened GitMarketplace

  type Parent = p: Option<string> | p.Some? ==> |p.value| == 20 && IsBytes(p.value) witness None

  /** The file rows and the singleton state row. Times are in milliseconds. */
  datatype State = State(rows: map<string, string>, treeHash: string, builtAt: Option<int>)

  const INITIAL := State(map[], "", None)

  const FRESH_FOR := 60_000

  type Hash = (map<string, string>, set<string>) -> string

  /** A hexadecimal SHA-256 is never the empty default of the column. */
  ghost predicate NeverEmpty(hash: Hash) {
    forall tree, modes :: hash(tree, modes) != ""
  }

  /**
   * EnsureBuilt is one rebuild transaction, with what it exported, the choices of its trie loop, its clock, the
   * author and committer lines it wrote, and whether it got through: one that fails anywhere is rolled back.
   * Invalidate is the trigger on the marketplace items.
   */
  datatype Step =
    | EnsureBuilt(now: int, tree: map<string, string>, modes: set<string>, m: map<Path, Blob>, signature: string,
                  ok: bool)
    | Invalidate

  ghost predicate Legal(step: Step) {
    step.EnsureBuilt? ==>
      && Chosen(step.tree, step.modes, step.m)
      && (forall path | path in step.tree :: NUL !in path)
      && EndsParents(step.signature)
  }

  type Digest = s: string | |s| == 20 && IsBytes(s) witness "00000000000000000000"

  /** One build that was published: what went in, the objects it wrote, and its commit. */
  datatype Publication = Publication(
    tree: map<string, string>, modes: set<string>, m: map<Path, Blob>, parent: Parent, signature: string,
    objects: seq<string>, tip: Digest)

  ghost predicate Recorded(env: Env, pub: Publication)
    requires env.Sound()
  {
    && pub.objects == BuildObjects(env, Trie(pub.m), pub.parent, pub.signature)
    && pub.tip == Tip(env, Trie(pub.m), pub.parent, pub.signature)
  }

  predicate Fresh(st: State, now: int) {
    st.builtAt.Some? && st.builtAt.value > now - FRESH_FOR
  }

  function ServedTip(rows: map<string, string>): Parent {
    GitTip(if INFO_REFS in rows then rows[INFO_REFS] else "")
  }

  predicate Publishes(hash: Hash, st: State, step: Step) {
    step.EnsureBuilt? && step.ok && !Fresh(st, step.now) && hash(step.tree, step.modes) != st.treeHash
  }

  ghost function Publish(env: Env, tree: map<string, string>, modes: set<string>, m: map<Path, Blob>, parent: Parent,
                         signature: string)
    : (pub: Publication)
    requires env.Sound()
    ensures Recorded(env, pub)
  {
    Publication(tree, modes, m, parent, signature,
      BuildObjects(env, Trie(m), parent, signature), Tip(env, Trie(m), parent, signature))
  }

  ghost function NewPublication(env: Env, st: State, step: Step): Publication
    requires env.Sound() && step.EnsureBuilt?
  {
    Publish(env, step.tree, step.modes, step.m, ServedTip(st.rows), step.signature)
  }

  /** The files of a publication, which are those that its build returns. */
  ghost function Files(env: Env, pub: Publication): map<string, string>
    requires env.Sound()
  {
    StoreAll(env, map[], pub.objects) + ReferenceFiles(pub.tip)
  }

  lemma FilesAreBuilt(env: Env, tree: map<string, string>, modes: set<string>, m: map<Path, Blob>, parent: Parent,
                      signature: string)
    returns (files: map<string, string>)
    requires env.Sound()
    ensures files == Files(env, Publish(env, tree, modes, m, parent, signature))
    ensures files == Built(env, Trie(m), parent, signature)
  {
    files := Built(env, Trie(m), parent, signature);
  }

  /** The state after a rebuild that was due and got through. */
  ghost function AfterBuilt(env: Env, hash: Hash, st: State, step: Step): State
    requires env.Sound() && step.EnsureBuilt?
  {
    var current := hash(step.tree, step.modes);
    State(
      if current != st.treeHash then st.rows + Files(env, NewPublication(env, st, step)) else st.rows,
      current, Some(step.now))
  }

  ghost function After(env: Env, hash: Hash, st: State, step: Step): State
    requires env.Sound()
  {
    if step.Invalidate? then st.(builtAt := None)
    else if Fresh(st, step.now) || !step.ok then st
    else AfterBuilt(env, hash, st, step)
  }

  /** The state after these steps. */
  ghost function Final(env: Env, hash: Hash, steps: seq<Step>): State
    requires env.Sound()
  {
    if steps == [] then INITIAL
    else After(env, hash, Final(env, hash, steps[..|steps| - 1]), steps[|steps| - 1])
  }

  /** What these steps published, oldest first. */
  ghost function History(env: Env, hash: Hash, steps: seq<Step>): seq<Publication>
    requires env.Sound()
  {
    if steps == [] then []
    else
      var before, last := steps[..|steps| - 1], steps[|steps| - 1];
      if Publishes(hash, Final(env, hash, before), last)
        then History(env, hash, before) + [NewPublication(env, Final(env, hash, before), last)]
        else History(env, hash, before)
  }

  ghost predicate AllLegal(steps: seq<Step>) { forall i | 0 <= i < |steps| :: Legal(steps[i]) }

  ghost function AllObjects(env: Env, history: seq<Publication>): set<string>
    requires env.Sound()
  {
    set i, o | 0 <= i < |history| && o in history[i].objects :: o
  }

  // ---- The invariant ----

  ghost predicate AllHeld(env: Env, rows: map<string, string>, history: seq<Publication>)
    requires env.Sound()
  {
    forall i | 0 <= i < |history| :: HoldsAll(env, rows, history[i].objects)
  }

  /** The parent of a publication is the one before it. */
  predicate Follows(history: seq<Publication>, i: nat)
    requires i < |history|
  {
    if i == 0 then history[i].parent.None?
    else history[i].parent.Some? && history[i].parent.value == history[i - 1].tip
  }

  ghost predicate Linked(history: seq<Publication>) {
    forall i | 0 <= i < |history| :: Follows(history, i)
  }

  ghost predicate ServesLast(env: Env, rows: map<string, string>, history: seq<Publication>)
    requires env.Sound()
  {
    if history == [] then INFO_REFS !in rows
    else INFO_REFS in rows && rows[INFO_REFS] == RefsLine(history[|history| - 1].tip)
  }

  ghost predicate HashOfLast(hash: Hash, treeHash: string, history: seq<Publication>) {
    treeHash == if history == [] then "" else hash(history[|history| - 1].tree, history[|history| - 1].modes)
  }

  /** The path of a published object. */
  ghost predicate PathOfObject(env: Env, objects: set<string>, path: string)
    requires env.Sound()
  {
    exists o :: o in objects && path == ObjectPath(env.sha(o))
  }

  /** Every row at an object path is one of the published objects. */
  ghost predicate NoOtherObjects(env: Env, rows: map<string, string>, history: seq<Publication>)
    requires env.Sound()
  {
    forall path | path in rows && |path| == 49 :: PathOfObject(env, AllObjects(env, history), path)
  }

  ghost predicate Readable(env: Env, pub: Publication)
    requires env.Sound()
  {
    && Recorded(env, pub)
    && Chosen(pub.tree, pub.modes, pub.m)
    && (forall path | path in pub.tree :: NUL !in path)
    && EndsParents(pub.signature)
  }

  ghost predicate AllReadable(env: Env, history: seq<Publication>)
    requires env.Sound()
  {
    forall i | 0 <= i < |history| :: Readable(env, history[i])
  }

  // ---- One publication ----

  lemma BuiltPaths(env: Env, pub: Publication, path: string)
    requires env.Sound() && path in Files(env, pub) && |path| == 49
    ensures PathOfObject(env, Objects(pub.objects), path)
  {
    NoReference(pub.tip, path);
    StoredPaths(env, map[], pub.objects, path);
    var o :| o in pub.objects && path == ObjectPath(env.sha(o));
    assert o in Objects(pub.objects);
  }

  lemma FilesHold(env: Env, pub: Publication)
    requires env.Sound() && Distinguished(env, pub.objects)
    ensures HoldsAll(env, Files(env, pub), pub.objects)
  {
    StoredAll(env, map[], pub.objects);
    forall o | o in pub.objects ensures Holds(env, Files(env, pub), o) {
      assert Holds(env, StoreAll(env, map[], pub.objects), o);
      NoReference(pub.tip, ObjectPath(env.sha(o)));
    }
  }

  lemma NoReference(tip: string, path: string)
    requires IsBytes(tip) && |path| == 49
    ensures path !in ReferenceFiles(tip)
  {
    if path in ReferenceFiles(tip) { ReferencesAreNoObjects(tip, path); }
  }

  /** Merging new files keeps every object that does not collide with them. */
  lemma MergeHolds(env: Env, rows: map<string, string>, pub: Publication, o: string)
    requires env.Sound() && Distinguished(env, pub.objects)
    requires Holds(env, rows, o) || o in pub.objects
    requires forall p | p in pub.objects && env.sha(p) == env.sha(o) :: p == o
    ensures Holds(env, rows + Files(env, pub), o)
  {
    if o in pub.objects {
      FilesHold(env, pub);
    } else {
      var path := ObjectPath(env.sha(o));
      assert path !in Files(env, pub) by {
        if path in Files(env, pub) {
          BuiltPaths(env, pub, path);
          var p :| p in Objects(pub.objects) && path == ObjectPath(env.sha(p));
          ObjectPathInjective(env.sha(p), env.sha(o));
        }
      }
    }
  }

  lemma ObjectIn(env: Env, history: seq<Publication>, i: nat, o: string)
    requires env.Sound() && i < |history| && o in history[i].objects
    ensures o in AllObjects(env, history)
  {}

  lemma ObjectsGrow(env: Env, history: seq<Publication>, pub: Publication)
    requires env.Sound()
    ensures AllObjects(env, history + [pub]) == AllObjects(env, history) + Objects(pub.objects)
  {
    var longer := history + [pub];
    forall o ensures o in AllObjects(env, longer) <==> o in AllObjects(env, history) || o in pub.objects {
      if o in AllObjects(env, longer) {
        var i :| 0 <= i < |longer| && o in longer[i].objects;
        if i < |history| {
          assert longer[i] == history[i];
          ObjectIn(env, history, i, o);
        }
      }
      if o in AllObjects(env, history) {
        var i :| 0 <= i < |history| && o in history[i].objects;
        assert longer[i] == history[i];
        ObjectIn(env, longer, i, o);
      }
      if o in pub.objects {
        assert longer[|history|] == pub;
        ObjectIn(env, longer, |history|, o);
      }
    }
  }

  lemma HeldAfter(env: Env, rows: map<string, string>, history: seq<Publication>, pub: Publication)
    requires env.Sound() && AllHeld(env, rows, history)
    requires CollisionFree(env, AllObjects(env, history + [pub]))
    ensures AllHeld(env, rows + Files(env, pub), history + [pub])
  {
    ObjectsGrow(env, history, pub);
    var longer := history + [pub];
    assert Distinguished(env, pub.objects);
    forall i | 0 <= i < |longer| ensures HoldsAll(env, rows + Files(env, pub), longer[i].objects) {
      forall o | o in longer[i].objects ensures Holds(env, rows + Files(env, pub), o) {
        assert o in AllObjects(env, longer);
        forall p | p in pub.objects && env.sha(p) == env.sha(o) ensures p == o {
          assert p in AllObjects(env, longer);
        }
        assert i < |history| ==> longer[i] == history[i];
        MergeHolds(env, rows, pub, o);
      }
    }
  }

  lemma PathAmongMore(env: Env, some: set<string>, more: set<string>, path: string)
    requires env.Sound() && PathOfObject(env, some, path)
    ensures PathOfObject(env, some + more, path) && PathOfObject(env, more + some, path)
  {
    var o :| o in some && path == ObjectPath(env.sha(o));
    assert o in some + more && o in more + some;
  }

  lemma PathsAfter(env: Env, rows: map<string, string>, history: seq<Publication>, pub: Publication)
    requires env.Sound() && NoOtherObjects(env, rows, history)
    ensures NoOtherObjects(env, rows + Files(env, pub), history + [pub])
  {
    ObjectsGrow(env, history, pub);
    forall path | path in rows + Files(env, pub) && |path| == 49
      ensures PathOfObject(env, AllObjects(env, history + [pub]), path)
    {
      if path in Files(env, pub) {
        BuiltPaths(env, pub, path);
        PathAmongMore(env, Objects(pub.objects), AllObjects(env, history), path);
      } else {
        PathAmongMore(env, AllObjects(env, history), Objects(pub.objects), path);
      }
    }
  }

  lemma ServedNow(env: Env, rows: map<string, string>, pub: Publication)
    requires env.Sound()
    ensures var after := rows + Files(env, pub); INFO_REFS in after && after[INFO_REFS] == RefsLine(pub.tip)
  {
    RefsNameTip(pub.tip);
  }

  /** The tip that a rebuild takes as its parent is the last published one. */
  lemma ParentIsLast(env: Env, rows: map<string, string>, history: seq<Publication>)
    requires env.Sound() && ServesLast(env, rows, history)
    ensures ServedTip(rows) == if history == [] then None else Some(history[|history| - 1].tip)
  {
    if history == [] {
      assert TrimSpace("") == "" && Unhex("") == Some("");
    } else {
      TipRoundTrip(history[|history| - 1].tip);
    }
  }

  lemma LinkedAfter(history: seq<Publication>, pub: Publication)
    requires Linked(history)
    requires pub.parent == if history == [] then None else Some(history[|history| - 1].tip)
    ensures Linked(history + [pub])
  {
    var longer := history + [pub];
    forall i | 0 <= i < |longer| ensures Follows(longer, i) {
      if i < |history| {
        assert Follows(history, i);
      }
    }
  }

  // ---- Every run ----

  ghost predicate Inv(env: Env, hash: Hash, rows: map<string, string>, treeHash: string, history: seq<Publication>)
    requires env.Sound()
  {
    && AllHeld(env, rows, history)
    && Linked(history)
    && ServesLast(env, rows, history)
    && HashOfLast(hash, treeHash, history)
    && NoOtherObjects(env, rows, history)
    && AllReadable(env, history)
  }

  lemma ReadableAfter(env: Env, history: seq<Publication>, pub: Publication)
    requires env.Sound() && AllReadable(env, history) && Readable(env, pub)
    ensures AllReadable(env, history + [pub])
  {}

  lemma PublishedInv(env: Env, hash: Hash, rows: map<string, string>, treeHash: string, history: seq<Publication>,
                     pub: Publication)
    requires env.Sound() && Inv(env, hash, rows, treeHash, history) && Readable(env, pub)
    requires pub.parent == ServedTip(rows)
    requires CollisionFree(env, AllObjects(env, history + [pub]))
    ensures Inv(env, hash, rows + Files(env, pub), hash(pub.tree, pub.modes), history + [pub])
  {
    HeldAfter(env, rows, history, pub);
    PathsAfter(env, rows, history, pub);
    ServedNow(env, rows, pub);
    ParentIsLast(env, rows, history);
    LinkedAfter(history, pub);
    ReadableAfter(env, history, pub);
  }

  lemma AfterPublishing(env: Env, hash: Hash, st: State, step: Step)
    requires env.Sound() && Publishes(hash, st, step)
    ensures After(env, hash, st, step).rows == st.rows + Files(env, NewPublication(env, st, step))
    ensures After(env, hash, st, step).treeHash == hash(step.tree, step.modes)
  {}

  lemma AfterOthers(env: Env, hash: Hash, st: State, step: Step)
    requires env.Sound() && !Publishes(hash, st, step)
    ensures After(env, hash, st, step).rows == st.rows && After(env, hash, st, step).treeHash == st.treeHash
  {}

  lemma CollisionFreeBefore(env: Env, history: seq<Publication>, pub: Publication)
    requires env.Sound() && CollisionFree(env, AllObjects(env, history + [pub]))
    ensures CollisionFree(env, AllObjects(env, history))
  {
    ObjectsGrow(env, history, pub);
  }

  lemma {:induction false} RunKeeps(env: Env, hash: Hash, steps: seq<Step>)
    requires env.Sound() && AllLegal(steps) && CollisionFree(env, AllObjects(env, History(env, hash, steps)))
    ensures var st := Final(env, hash, steps);
            Inv(env, hash, st.rows, st.treeHash, History(env, hash, steps))
  {
    if steps != [] {
      var before, last := steps[..|steps| - 1], steps[|steps| - 1];
      var st, history := Final(env, hash, before), History(env, hash, before);
      assert Legal(last);
      if Publishes(hash, st, last) {
        CollisionFreeBefore(env, history, NewPublication(env, st, last));
        RunKeeps(env, hash, before);
        PublishedInv(env, hash, st.rows, st.treeHash, history, NewPublication(env, st, last));
        AfterPublishing(env, hash, st, last);
      } else {
        RunKeeps(env, hash, before);
        AfterOthers(env, hash, st, last);
      }
    }
  }
}
