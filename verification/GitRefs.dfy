/** Where a clone starts: HEAD names the main branch, and the branch names the last publication. */
module GitRefs {
  import opened Wrappers
  import opened ByteStrings
  import opened GitObjects
  import opened GitMarketplace
  import opened GitHistory
  import opened GitTheorems

  // ---- Reading references ----

  const SYMBOLIC := "ref: "

  /** What a symbolic reference names. */
  function Target(text: string): Option<string> {
    if |text| > |SYMBOLIC| && text[..|SYMBOLIC|] == SYMBOLIC && text[|text| - 1] == '\n'
    then Some(text[|SYMBOLIC|..|text| - 1]) else None
  }

  /** The digest in a reference file: forty digits and a newline. */
  function Pointed(text: string): Option<string> {
    if |text| == 41 && text[40] == '\n' then Unhex(text[..40]) else None
  }

  function ResolveHead(files: map<string, string>): Option<string> {
    if "HEAD" !in files then None
    else
      match Target(files["HEAD"])
      case None => None
      case Some(name) => if name in files then Pointed(files[name]) else None
  }

  lemma PointedTip(tip: string)
    requires IsBytes(tip) && |tip| == 20
    ensures Pointed(Hex(tip) + "\n") == Some(tip)
  {
    UnhexHex(tip);
    assert (Hex(tip) + "\n")[..40] == Hex(tip);
  }

  /** Every reference file, each under its own name. */
  lemma ReferenceAt(tip: string)
    requires IsBytes(tip)
    ensures HEAD in ReferenceFiles(tip) && ReferenceFiles(tip)[HEAD] == SYMBOLIC + MAIN_REF + "\n"
    ensures MAIN_REF in ReferenceFiles(tip) && ReferenceFiles(tip)[MAIN_REF] == Hex(tip) + "\n"
  {
    hide Hex;
    DistinctNames();
    assert "ref: refs/heads/main\n" == SYMBOLIC + MAIN_REF + "\n";
  }

  lemma TargetOf(name: string)
    ensures Target(SYMBOLIC + name + "\n") == Some(name)
  {
    var text := SYMBOLIC + name + "\n";
    assert text[..|SYMBOLIC|] == SYMBOLIC;
    assert text[|SYMBOLIC|..|text| - 1] == name;
  }

  lemma HeadNamesMain(tip: string)
    requires IsBytes(tip)
    ensures HEAD in ReferenceFiles(tip) && HEAD == "HEAD"
    ensures Target(ReferenceFiles(tip)[HEAD]) == Some(MAIN_REF)
  {
    hide ReferenceFiles, Target;
    ReferenceAt(tip);
    TargetOf(MAIN_REF);
  }

  lemma DistinctNames()
    ensures |HEAD| == 4 && |MAIN_REF| == 15 && |INFO_REFS| == 9 && |INFO_PACKS| == 18 && |CONFIG| == 6
    ensures |DESCRIPTION| == 11
  {}

  lemma MainPoints(tip: string)
    requires IsBytes(tip) && |tip| == 20
    ensures MAIN_REF in ReferenceFiles(tip) && Pointed(ReferenceFiles(tip)[MAIN_REF]) == Some(tip)
  {
    hide ReferenceFiles, Pointed;
    ReferenceAt(tip);
    PointedTip(tip);
  }

  // ---- Over every run ----

  /** The three ways to the tip: through HEAD, through the branch, and through info/refs. */
  ghost predicate HeadIs(rows: map<string, string>, history: seq<Publication>) {
    if history == [] then HEAD !in rows && MAIN_REF !in rows
    else ResolveHead(rows) == Some(history[|history| - 1].tip)
  }

  lemma PublishedHead(env: Env, rows: map<string, string>, pub: Publication)
    requires env.Sound()
    ensures ResolveHead(rows + Files(env, pub)) == Some(pub.tip)
  {
    HeadNamesMain(pub.tip);
    MainPoints(pub.tip);
  }

  lemma {:induction false} HeadServesLast(env: Env, hash: Hash, steps: seq<Step>)
    requires env.Sound()
    ensures HeadIs(Rows(env, hash, steps), History(env, hash, steps))
  {
    hide ResolveHead;
    hide ReferenceFiles;
    if steps != [] {
      var before, last := steps[..|steps| - 1], steps[|steps| - 1];
      HeadServesLast(env, hash, before);
      var st := Final(env, hash, before);
      if Publishes(hash, st, last) {
        AfterPublishing(env, hash, st, last);
        PublishedHead(env, st.rows, NewPublication(env, st, last));
      } else {
        AfterOthers(env, hash, st, last);
      }
    }
  }

  /**
    After any rebuilds, following HEAD through its branch ends at the tip that info/refs names: the last
    publication.
  */
  lemma AllReferencesAgree(env: Env, hash: Hash, steps: seq<Step>)
    requires env.Sound() && Admissible(env, hash, steps) && History(env, hash, steps) != []
    ensures var rows, history := Rows(env, hash, steps), History(env, hash, steps);
            && INFO_REFS in rows
            && ResolveHead(rows) == GitTip(rows[INFO_REFS]) == Some(history[|history| - 1].tip)
  {
    HeadServesLast(env, hash, steps);
    TipIsLast(env, hash, steps);
    ServesAt(env, hash, steps);
  }

  // ---- When a rebuild is due ----

  /** The last rebuild was a minute ago, or there was none since the last change. */
  predicate Due(st: State, now: int) {
    st.builtAt.None? || st.builtAt.value <= now - 60_000
  }

  lemma DueIff(st: State, now: int)
    ensures Due(st, now) <==> !GitHistory.Fresh(st, now)
  {}

  /**
   * A call within a minute of the last rebuild changes nothing. Any other call that gets through leaves the last
   * publication with the fingerprint of what it exported, and starts the minute anew.
   */
  lemma RebuiltWhenDue(env: Env, hash: Hash, steps: seq<Step>)
    requires env.Sound() && NeverEmpty(hash) && Admissible(env, hash, steps)
    requires steps != [] && steps[|steps| - 1].EnsureBuilt?
    ensures var before, last := Final(env, hash, steps[..|steps| - 1]), steps[|steps| - 1];
            var after, history := Final(env, hash, steps), History(env, hash, steps);
            if Due(before, last.now) && last.ok then
              && history != [] && after.builtAt == Some(last.now)
              && hash(history[|history| - 1].tree, history[|history| - 1].modes) == hash(last.tree, last.modes)
            else after == before
  {
    DueIff(Final(env, hash, steps[..|steps| - 1]), steps[|steps| - 1].now);
    if Due(Final(env, hash, steps[..|steps| - 1]), steps[|steps| - 1].now) && steps[|steps| - 1].ok {
      RebuildServesExport(env, hash, steps);
    }
  }

  /** The export differs from what was published last. */
  ghost predicate Differs(hash: Hash, history: seq<Publication>, step: Step)
    requires step.EnsureBuilt?
  {
    history == [] ||
    hash(history[|history| - 1].tree, history[|history| - 1].modes) != hash(step.tree, step.modes)
  }

  /** One more publication: of this export, with the one before it as its parent. */
  ghost predicate OneMore(before: seq<Publication>, after: seq<Publication>, step: Step)
    requires step.EnsureBuilt?
  {
    && |after| == |before| + 1 && after[..|before|] == before
    && var pub := after[|before|];
       && pub.tree == step.tree && pub.modes == step.modes && pub.signature == step.signature
       && pub.parent == if before == [] then None else Some(before[|before| - 1].tip)
  }

  lemma HistoryNext(env: Env, hash: Hash, init: seq<Step>, step: Step)
    requires env.Sound()
    ensures var st := Final(env, hash, init);
            History(env, hash, init + [step])
            == if Publishes(hash, st, step) then History(env, hash, init) + [NewPublication(env, st, step)]
               else History(env, hash, init)
    ensures Final(env, hash, init + [step]) == After(env, hash, Final(env, hash, init), step)
  {
    hide Publishes, NewPublication, After;
    assert (init + [step])[..|init|] == init;
  }

  lemma AdmissibleInit(env: Env, hash: Hash, init: seq<Step>, step: Step)
    requires env.Sound() && Admissible(env, hash, init + [step])
    ensures Admissible(env, hash, init)
  {
    hide Admissible;
    var steps := init + [step];
    AdmissibleBefore(env, hash, steps);
    assert steps[..|steps| - 1] == init;
  }

  /** A rebuild that is due, gets through and finds a new export publishes exactly one commit; nothing else does. */
  lemma PublishedIff(env: Env, hash: Hash, init: seq<Step>, step: Step)
    requires env.Sound() && NeverEmpty(hash) && Admissible(env, hash, init + [step])
    ensures var before, after := History(env, hash, init), History(env, hash, init + [step]);
            if step.EnsureBuilt? && step.ok && Due(Final(env, hash, init), step.now) && Differs(hash, before, step)
            then OneMore(before, after, step)
            else after == before && Rows(env, hash, init + [step]) == Rows(env, hash, init)
  {
    hide Publishes, NewPublication, After, Admissible, Differs, OneMore, History, Final, ServedTip;
    AdmissibleInit(env, hash, init, step);
    HistoryNext(env, hash, init, step);
    PublishesIff(env, hash, init, step);
    var st, before := Final(env, hash, init), History(env, hash, init);
    if Publishes(hash, st, step) {
      TipIsLast(env, hash, init);
      NewIsOneMore(env, st, before, step);
    } else {
      AfterOthers(env, hash, st, step);
    }
  }

  lemma PublishesIff(env: Env, hash: Hash, init: seq<Step>, step: Step)
    requires env.Sound() && NeverEmpty(hash) && Admissible(env, hash, init)
    ensures var st := Final(env, hash, init);
            Publishes(hash, st, step) <==>
            step.EnsureBuilt? && step.ok && Due(st, step.now) && Differs(hash, History(env, hash, init), step)
  {
    hide Admissible, Final, History;
    HashAt(env, hash, init);
    DueIff(Final(env, hash, init), if step.EnsureBuilt? then step.now else 0);
  }

  lemma NewIsOneMore(env: Env, st: State, before: seq<Publication>, step: Step)
    requires env.Sound() && step.EnsureBuilt?
    requires ServedTip(st.rows) == if before == [] then None else Some(before[|before| - 1].tip)
    ensures OneMore(before, before + [NewPublication(env, st, step)], step)
  {
    hide ServedTip;
  }

  lemma HashAt(env: Env, hash: Hash, steps: seq<Step>)
    requires env.Sound() && Admissible(env, hash, steps)
    ensures HashOfLast(hash, Final(env, hash, steps).treeHash, History(env, hash, steps))
  {
    RunKeeps(env, hash, steps);
  }

  /** A change of the marketplace makes the next call due, whatever the clock says. */
  lemma ChangeIsPublished(env: Env, hash: Hash, steps: seq<Step>)
    requires env.Sound() && NeverEmpty(hash) && Admissible(env, hash, steps)
    requires |steps| >= 2 && steps[|steps| - 2].Invalidate? && steps[|steps| - 1].EnsureBuilt? && steps[|steps| - 1].ok
    ensures var history, last := History(env, hash, steps), steps[|steps| - 1];
            && history != []
            && hash(history[|history| - 1].tree, history[|history| - 1].modes) == hash(last.tree, last.modes)
  {
    var before := steps[..|steps| - 1];
    assert before[|before| - 1] == steps[|steps| - 2];
    assert Final(env, hash, before).builtAt == None;
    RebuiltWhenDue(env, hash, steps);
  }
}
