/**
  Recovery of abandoned calls: batches of old pending calls, each call settled in a
  transaction of its own, with other callers' transactions committing before every
  query and before every settlement.
*/
module LedgerRecovery {
  import opened Wrappers
  import opened LedgerModel
  import opened LedgerInvariant
  import opened LedgerProofs
  import opened LedgerTheorems
  import opened LedgerRuns

  // ---- The sweep as a run ----

  /** What the sweep does next: query a batch, settle the calls left of one, or nothing more. */
  datatype Phase = Querying | Settling(ids: seq<nat>) | Over(complete: bool)

  /**
    `mine` are the calls this sweep settled, `theirs` the old pending ones that others
    settled meanwhile, `rest` those that the last query saw and left for a later batch.
   */
  datatype Sweep = Sweep(db: Db, phase: Phase, total: nat, batches: nat, mine: set<nat>, theirs: set<nat>,
                         rest: set<nat>)

  ghost function StaleSet(calls: seq<Call>, before: int): set<nat> {
    set i | 0 <= i < |calls| && IsStale(calls[i], before)
  }

  ghost function Members(ids: seq<nat>): set<nat> {
    set id <- ids
  }

  /** What others commit beside the sweep: anything, with the cut-off already in the past. */
  ghost predicate Beside(ops: seq<Op>, before: int) {
    ValidOps(ops) && forall op <- ops :: op.DoReserve? ==> op.catalog.now >= before
  }

  ghost function AfterOthers(s: Sweep, before: int, ops: seq<Op>): (t: Sweep)
    requires Beside(ops, before) && CallsHaveWallets(s.db)
    ensures CallsHaveWallets(t.db) && t.phase == s.phase
  {
    var db := RunFrom(s.db, ops);
    s.(db := db, theirs := s.theirs + (StaleSet(s.db.calls, before) - StaleSet(db.calls, before)))
  }

  function Batch(calls: seq<Call>, before: int): seq<nat> {
    var stale := Stale(calls, before);
    if |stale| > RECOVER_BATCH then stale[..RECOVER_BATCH] else stale
  }

  ghost function Query(s: Sweep, before: int): Sweep {
    var ids := Batch(s.db.calls, before);
    if ids == [] then s.(phase := Over(true))
    else s.(phase := Settling(ids), batches := s.batches + 1, rest := StaleSet(s.db.calls, before) - Members(ids))
  }

  /** One settlement: a call that others settled first answers false and is not counted. */
  ghost function SettleNext(s: Sweep): (t: Sweep)
    requires CallsHaveWallets(s.db) && s.phase.Settling? && s.phase.ids != []
    ensures CallsHaveWallets(t.db)
  {
    var id, left := s.phase.ids[0], s.phase.ids[1..];
    FinishWallets(s.db, id);
    match Finish(s.db, id, Recovered, None)
    case (_, Failure(_)) => s.(phase := Over(false))
    case (after, Success(changed)) =>
      var on := s.(db := after, phase := if left == [] then Querying else Settling(left));
      if changed then on.(total := s.total + 1, mine := s.mine + {id}) else on
  }

  lemma FinishWallets(db: Db, id: nat)
    requires CallsHaveWallets(db)
    ensures id < |db.calls| ==> db.calls[id].wallet < |db.wallets|
    ensures CallsHaveWallets(Finish(db, id, Recovered, None).0)
  {
    if id < |db.calls| {
      assert db.calls[id] in db.calls;
      assert Apply(db, DoFinish(id, Recovered, None)) == Finish(db, id, Recovered, None).0;
    }
  }

  /** One transaction of the sweep, after whatever others committed. */
  ghost function Act(s: Sweep, before: int, ops: seq<Op>): (t: Sweep)
    requires Beside(ops, before) && CallsHaveWallets(s.db)
    ensures CallsHaveWallets(t.db)
  {
    if s.phase.Over? || s.phase == Settling([]) then s
    else
      var met := AfterOthers(s, before, ops);
      if met.phase.Querying? then Query(met, before) else SettleNext(met)
  }

  ghost predicate AllBeside(others: seq<seq<Op>>, before: int) {
    forall i | 0 <= i < |others| :: Beside(others[i], before)
  }

  ghost function Started(db: Db, before: int): Sweep {
    Sweep(db, Querying, 0, 0, {}, {}, StaleSet(db.calls, before))
  }

  /** The sweep after as many of its own transactions as `others` has entries. */
  ghost function SweepRun(db: Db, before: int, others: seq<seq<Op>>): (s: Sweep)
    requires AllBeside(others, before) && CallsHaveWallets(db)
    ensures CallsHaveWallets(s.db)
  {
    if others == [] then Started(db, before)
    else Act(SweepRun(db, before, others[..|others| - 1]), before, others[|others| - 1])
  }

  // ---- What every transaction keeps ----

  /** The calls that were old and pending at the start: settled by this sweep, by others, or still there. */
  ghost predicate Divided(start: Db, before: int, s: Sweep) {
    var left := StaleSet(s.db.calls, before);
    && s.mine + s.theirs + left == StaleSet(start.calls, before)
    && s.mine !! s.theirs && s.mine !! left && s.theirs !! left
    && s.total == |s.mine|
  }

  ghost predicate MineRecovered(s: Sweep) {
    forall id <- s.mine :: id < |s.db.calls| && s.db.calls[id].status.Recovered?
  }

  ghost predicate OldIds(calls: seq<Call>, before: int, ids: seq<nat>) {
    forall id <- ids :: id < |calls| && calls[id].created < before
  }

  ghost predicate Selected(s: Sweep, before: int) {
    match s.phase
    case Querying => StaleSet(s.db.calls, before) <= s.rest
    case Settling(ids) =>
      && 0 < |ids| <= RECOVER_BATCH && OldIds(s.db.calls, before, ids)
      && StaleSet(s.db.calls, before) <= s.rest + Members(ids)
    case Over(complete) => complete ==> StaleSet(s.db.calls, before) == {}
  }

  /** Whatever a batch leaves over, it was full; so the batches never outnumber what there was at the start. */
  ghost predicate Bounded(start: Db, before: int, s: Sweep) {
    var count := |StaleSet(start.calls, before)|;
    && (s.batches > 0 ==> RECOVER_BATCH * (s.batches - 1) < count)
    && (s.rest != {} ==> RECOVER_BATCH * s.batches + |s.rest| <= count)
  }

  /** How many transactions of its own the sweep can have made by now. */
  ghost predicate Timely(s: Sweep, steps: nat) {
    match s.phase
    case Querying => steps <= (RECOVER_BATCH + 1) * s.batches
    case Settling(ids) => |ids| <= RECOVER_BATCH && steps <= (RECOVER_BATCH + 1) * s.batches - |ids|
    case Over(_) => true
  }

  ghost predicate SweepOk(start: Db, before: int, s: Sweep) {
    && Inv(s.db) && CallsEvolve(start.calls, s.db.calls)
    && Divided(start, before, s) && MineRecovered(s) && Selected(s, before) && Bounded(start, before, s)
  }

  // ---- Others ----

  /** A new call is not older than the clock of the transaction that inserts it. */
  lemma NewCallsRecent(db: Db, op: Op, before: int, i: nat)
    requires ValidOp(op) && CallsHaveWallets(db)
    requires op.DoReserve? ==> op.catalog.now >= before
    requires |db.calls| <= i < |Apply(db, op).calls|
    ensures !IsStale(Apply(db, op).calls[i], before)
  {
    match op
    case DoReserve(request, catalog) => NewCallPriced(db, request, catalog);
    case DoFund(user, team, credits, key, ownerOk, userOk, userStillOk) =>
      var from, to, row := FundEffect(db, user, team, credits, key, ownerOk, userOk, userStillOk);
    case _ =>
  }

  /**
    Other transactions running beside the sweep never add to its work, as long
    as their clocks are past the cut-off.
   */
  lemma OthersAddNothing(db: Db, op: Op, before: int, i: nat)
    requires ValidOp(op) && CallsHaveWallets(db)
    requires op.DoReserve? ==> op.catalog.now >= before
    requires i in Stale(Apply(db, op).calls, before)
    ensures i in Stale(db.calls, before)
  {
    StepEvolves(db, op);
    if i < |db.calls| {
      assert RowEvolves(db.calls[i], Apply(db, op).calls[i]);
    } else {
      NewCallsRecent(db, op, before, i);
    }
  }

  lemma {:induction false} RunAddsNothing(db: Db, ops: seq<Op>, before: int)
    requires Beside(ops, before) && CallsHaveWallets(db)
    ensures StaleSet(RunFrom(db, ops).calls, before) <= StaleSet(db.calls, before)
  {
    if ops != [] {
      var init, last := ops[..|ops| - 1], ops[|ops| - 1];
      assert forall op | op in init :: op in ops;
      RunAddsNothing(db, init, before);
      assert last in ops;
      forall i | i in StaleSet(RunFrom(db, ops).calls, before) ensures i in StaleSet(RunFrom(db, init).calls, before) {
        OthersAddNothing(RunFrom(db, init), last, before, i);
      }
    }
  }

  lemma OthersKeepIds(a: seq<Call>, b: seq<Call>, before: int, ids: seq<nat>)
    requires CallsEvolve(a, b) && OldIds(a, before, ids)
    ensures OldIds(b, before, ids)
  {
    forall id | id in ids ensures id < |b| && b[id].created < before {
      assert RowEvolves(a[id], b[id]);
    }
  }

  lemma OthersKeepMine(s: Sweep, b: seq<Call>)
    requires MineRecovered(s) && CallsEvolve(s.db.calls, b)
    ensures forall id <- s.mine :: id < |b| && b[id].status.Recovered?
  {
    forall id | id in s.mine ensures id < |b| && b[id].status.Recovered? {
      assert RowEvolves(s.db.calls[id], b[id]);
    }
  }

  lemma CallsEvolveOn(a: seq<Call>, b: seq<Call>, c: seq<Call>)
    requires CallsEvolve(a, b) && CallsEvolve(b, c)
    ensures CallsEvolve(a, c)
  {
    forall i | 0 <= i < |a| ensures RowEvolves(a[i], c[i]) {
      assert RowEvolves(a[i], b[i]) && RowEvolves(b[i], c[i]);
    }
  }

  /** What is no longer old and pending moves to `theirs`. */
  lemma DividedOn(start: Db, before: int, s: Sweep, calls: seq<Call>, t: Sweep)
    requires Divided(start, before, s) && StaleSet(calls, before) <= StaleSet(s.db.calls, before)
    requires t.db.calls == calls && t.mine == s.mine && t.total == s.total
    requires t.theirs == s.theirs + (StaleSet(s.db.calls, before) - StaleSet(calls, before))
    ensures Divided(start, before, t)
  {}

  lemma SelectedOn(before: int, s: Sweep, t: Sweep)
    requires Selected(s, before) && !s.phase.Over? && t.phase == s.phase && t.rest == s.rest
    requires CallsEvolve(s.db.calls, t.db.calls)
    requires StaleSet(t.db.calls, before) <= StaleSet(s.db.calls, before)
    ensures Selected(t, before)
  {
    if s.phase.Settling? {
      OthersKeepIds(s.db.calls, t.db.calls, before, s.phase.ids);
    }
  }

  /** Others may settle old calls, never make any. */
  lemma OthersKept(start: Db, before: int, s: Sweep, ops: seq<Op>)
    requires CallsHaveWallets(s.db) && SweepOk(start, before, s) && Beside(ops, before) && !s.phase.Over?
    ensures SweepOk(start, before, AfterOthers(s, before, ops))
  {
    var t := AfterOthers(s, before, ops);
    var db := RunOnward(s.db, before, ops);
    CallsEvolveOn(start.calls, s.db.calls, db.calls);
    OthersKeepMine(s, db.calls);
    DividedOn(start, before, s, db.calls, t);
    SelectedOn(before, s, t);
  }

  lemma RunOnward(before: Db, cutoff: int, ops: seq<Op>) returns (db: Db)
    requires CallsHaveWallets(before) && Inv(before) && Beside(ops, cutoff)
    ensures db == RunFrom(before, ops) && Inv(db) && CallsEvolve(before.calls, db.calls)
    ensures StaleSet(db.calls, cutoff) <= StaleSet(before.calls, cutoff)
  {
    RunFromKept(before, ops);
    RunFromEvolves(before, ops);
    RunAddsNothing(before, ops, cutoff);
    db := RunFrom(before, ops);
  }

  // ---- The sweep's own transactions ----

  ghost predicate Increasing(ids: seq<nat>) {
    forall i, j | 0 <= i < j < |ids| :: ids[i] < ids[j]
  }

  /** The query sees every old pending call, each once. */
  lemma {:induction false} StaleOnce(calls: seq<Call>, before: int, n: nat)
    requires n <= |calls|
    ensures Increasing(StaleFrom(calls, before, n))
    decreases |calls| - n
  {
    if n < |calls| {
      StaleOnce(calls, before, n + 1);
      var more := StaleFrom(calls, before, n + 1);
      assert forall i | 0 <= i < |more| :: more[i] in more;
    }
  }

  lemma {:induction false} IncreasingSize(ids: seq<nat>)
    requires Increasing(ids)
    ensures |Members(ids)| == |ids|
  {
    if ids != [] {
      var init, last := ids[..|ids| - 1], ids[|ids| - 1];
      IncreasingSize(init);
      assert forall i | 0 <= i < |init| :: init[i] == ids[i] && ids[i] < last;
      assert last !in Members(init);
      assert Members(ids) == Members(init) + {last};
    }
  }

  lemma StaleIsSet(calls: seq<Call>, before: int)
    ensures Members(Stale(calls, before)) == StaleSet(calls, before)
    ensures |Stale(calls, before)| == |StaleSet(calls, before)|
  {
    StaleOnce(calls, before, 0);
    IncreasingSize(Stale(calls, before));
    assert Members(Stale(calls, before)) == StaleSet(calls, before);
  }

  /** A batch holds old pending calls, all of them if it is not full. */
  lemma BatchExact(calls: seq<Call>, before: int)
    ensures var ids, stale := Batch(calls, before), StaleSet(calls, before);
            && Members(ids) <= stale && |ids| <= RECOVER_BATCH && |Members(ids)| == |ids|
            && (ids == [] <==> stale == {})
            && (|ids| < RECOVER_BATCH ==> Members(ids) == stale)
  {
    var ids, all := Batch(calls, before), Stale(calls, before);
    StaleIsSet(calls, before);
    StaleOnce(calls, before, 0);
    assert Increasing(ids);
    IncreasingSize(ids);
    if ids == [] {
      assert all == [];
    } else {
      assert ids[0] in Members(ids);
    }
    assert |ids| < RECOVER_BATCH ==> ids == all;
  }

  lemma QueryKept(start: Db, before: int, s: Sweep)
    requires SweepOk(start, before, s) && s.phase.Querying?
    ensures SweepOk(start, before, Query(s, before))
  {
    BatchExact(s.db.calls, before);
    var ids, stale := Batch(s.db.calls, before), StaleSet(s.db.calls, before);
    if ids != [] {
      SubsetSize(stale, s.rest);
      BatchCounts(ids, stale, s.batches, |StaleSet(start.calls, before)|);
      forall id | id in ids ensures id < |s.db.calls| && s.db.calls[id].created < before {
        assert id in Members(ids);
      }
    }
  }

  lemma {:induction false} SubsetSize(a: set<nat>, b: set<nat>)
    requires a <= b
    ensures |a| <= |b|
  {
    assert b == a + (b - a);
  }

  lemma BatchCounts(ids: seq<nat>, stale: set<nat>, batches: nat, count: nat)
    requires Members(ids) <= stale && |Members(ids)| == |ids| && 0 < |ids| <= RECOVER_BATCH
    requires |ids| < RECOVER_BATCH ==> Members(ids) == stale
    requires RECOVER_BATCH * batches + |stale| <= count
    ensures RECOVER_BATCH * batches < count
    ensures var rest := stale - Members(ids);
            rest != {} ==> RECOVER_BATCH * (batches + 1) + |rest| <= count
  {
    var chosen := Members(ids);
    assert stale == chosen + (stale - chosen);
    assert ids[0] in chosen;
    SubsetSize(chosen, stale);
  }

  /** The call settled by a finish is the only one that stops being old and pending. */
  lemma FinishStale(db: Db, id: nat, before: int)
    requires CallsHaveWallets(db) && id < |db.calls| && db.calls[id].created < before
    requires db.calls[id].wallet < |db.wallets| && Finish(db, id, Recovered, None).1.Success?
    ensures var (after, result) := Finish(db, id, Recovered, None);
            && StaleSet(after.calls, before) == StaleSet(db.calls, before) - {id}
            && (result.value <==> id in StaleSet(db.calls, before))
            && (result.value ==> after.calls[id].status.Recovered?)
            && CallsEvolve(db.calls, after.calls)
  {
    FinishEvolves(db, id, Recovered, None);
  }

  /** One finish of the sweep, and what it leaves of the old pending calls. */
  lemma OwnFinish(db: Db, id: nat, before: int) returns (after: Db, changed: bool)
    requires CallsHaveWallets(db) && Inv(db) && id < |db.calls| && db.calls[id].created < before
    requires db.calls[id].wallet < |db.wallets| && Finish(db, id, Recovered, None).1.Success?
    ensures (after, Success(changed)) == Finish(db, id, Recovered, None)
    ensures Inv(after) && CallsEvolve(db.calls, after.calls)
    ensures StaleSet(after.calls, before) == StaleSet(db.calls, before) - {id}
    ensures changed <==> id in StaleSet(db.calls, before)
    ensures changed ==> after.calls[id].status.Recovered?
  {
    FinishStale(db, id, before);
    FinishKept(db, id, Recovered, None);
    after, changed := Finish(db, id, Recovered, None).0, Finish(db, id, Recovered, None).1.value;
  }

  lemma DividedMore(start: Db, before: int, s: Sweep, id: nat, calls: seq<Call>, t: Sweep)
    requires Divided(start, before, s) && StaleSet(calls, before) == StaleSet(s.db.calls, before) - {id}
    requires t.db.calls == calls && t.theirs == s.theirs
    requires if id in StaleSet(s.db.calls, before) then t.mine == s.mine + {id} && t.total == s.total + 1
             else t.mine == s.mine && t.total == s.total
    ensures Divided(start, before, t)
  {
    MoveOne(s.mine, s.theirs, StaleSet(s.db.calls, before), id);
    if id !in StaleSet(s.db.calls, before) {
      assert StaleSet(calls, before) == StaleSet(s.db.calls, before);
    }
  }

  /** One element moves from the third of three disjoint sets to the first. */
  lemma MoveOne(mine: set<nat>, theirs: set<nat>, left: set<nat>, id: nat)
    requires mine !! theirs && mine !! left && theirs !! left
    ensures id in left ==>
              && |mine + {id}| == |mine| + 1 && mine + {id} + theirs + (left - {id}) == mine + theirs + left
              && mine + {id} !! theirs && mine + {id} !! (left - {id}) && theirs !! (left - {id})
  {
    if id in left {
      assert mine + {id} + theirs + (left - {id}) == mine + theirs + left;
    }
  }

  lemma SelectedNext(before: int, s: Sweep, calls: seq<Call>, t: Sweep)
    requires Selected(s, before) && s.phase.Settling? && s.phase.ids != []
    requires CallsEvolve(s.db.calls, calls) && t.db.calls == calls && t.rest == s.rest
    requires StaleSet(calls, before) == StaleSet(s.db.calls, before) - {s.phase.ids[0]}
    requires t.phase == if s.phase.ids[1..] == [] then Querying else Settling(s.phase.ids[1..])
    ensures Selected(t, before)
  {
    OneFewer(s.phase.ids);
    OthersKeepIds(s.db.calls, calls, before, s.phase.ids);
    assert Members([]) == {};
  }

  lemma SettleKept(start: Db, before: int, s: Sweep)
    requires CallsHaveWallets(s.db) && SweepOk(start, before, s) && s.phase.Settling? && s.phase.ids != []
    ensures SweepOk(start, before, SettleNext(s))
  {
    var id, t := s.phase.ids[0], SettleNext(s);
    FinishWallets(s.db, id);
    assert id in s.phase.ids;
    if Finish(s.db, id, Recovered, None).1.Success? {
      var after, changed := OwnFinish(s.db, id, before);
      CallsEvolveOn(start.calls, s.db.calls, after.calls);
      OthersKeepMine(s, after.calls);
      DividedMore(start, before, s, id, after.calls, t);
      SelectedNext(before, s, after.calls, t);
    }
  }

  lemma OneFewer(ids: seq<nat>)
    requires ids != []
    ensures Members(ids) == Members(ids[1..]) + {ids[0]}
    ensures forall id <- ids[1..] :: id in ids
  {
    assert ids == [ids[0]] + ids[1..];
  }

  lemma ActKept(start: Db, before: int, s: Sweep, ops: seq<Op>)
    requires CallsHaveWallets(s.db) && SweepOk(start, before, s) && Beside(ops, before)
    ensures SweepOk(start, before, Act(s, before, ops))
  {
    if !s.phase.Over? && s.phase != Settling([]) {
      OthersKept(start, before, s, ops);
      var met := AfterOthers(s, before, ops);
      if met.phase.Querying? {
        QueryKept(start, before, met);
      } else {
        SettleKept(start, before, met);
      }
    }
  }

  lemma ActTimely(s: Sweep, before: int, ops: seq<Op>, steps: nat)
    requires CallsHaveWallets(s.db) && Beside(ops, before) && Timely(s, steps) && s.phase != Settling([])
    ensures Timely(Act(s, before, ops), steps + 1) && Act(s, before, ops).phase != Settling([])
  {
    if !s.phase.Over? {
      var met := AfterOthers(s, before, ops);
      if met.phase.Querying? {
        BatchExact(met.db.calls, before);
      }
    }
  }

  lemma {:induction false} SweepKept(db: Db, before: int, others: seq<seq<Op>>)
    requires AllBeside(others, before) && CallsHaveWallets(db) && Inv(db)
    ensures var s := SweepRun(db, before, others);
            SweepOk(db, before, s) && Timely(s, |others|) && s.phase != Settling([])
  {
    if others == [] {
      forall i | 0 <= i < |db.calls| ensures RowEvolves(db.calls[i], db.calls[i]) {}
    } else {
      var init, last := others[..|others| - 1], others[|others| - 1];
      SweepKept(db, before, init);
      ActKept(db, before, SweepRun(db, before, init), last);
      ActTimely(SweepRun(db, before, init), before, last, |init|);
    }
  }

  // ---- What the sweep promises ----

  /**
    However others race with it, the calls that were old and pending at the start are exactly those this sweep
    settled, those others settled, and those still pending; no call is in two of the three. The total it reports
    counts exactly its own.
   */
  lemma SweepCounts(db: Db, before: int, others: seq<seq<Op>>)
    requires AllBeside(others, before) && CallsHaveWallets(db) && Inv(db)
    ensures var s := SweepRun(db, before, others);
            var left := StaleSet(s.db.calls, before);
            && Inv(s.db) && s.total == |s.mine|
            && s.mine + s.theirs + left == StaleSet(db.calls, before)
            && s.mine !! s.theirs && s.mine !! left && s.theirs !! left
            && (forall id <- s.mine :: id < |s.db.calls| && s.db.calls[id].status.Recovered?)
  {
    SweepKept(db, before, others);
  }

  /** The empty query at its end means that no old pending call is left, and then every one of them was settled. */
  lemma SweepCompletes(db: Db, before: int, others: seq<seq<Op>>)
    requires AllBeside(others, before) && CallsHaveWallets(db) && Inv(db)
    requires SweepRun(db, before, others).phase == Over(true)
    ensures var s := SweepRun(db, before, others);
            && StaleSet(s.db.calls, before) == {}
            && s.total + |s.theirs| == |StaleSet(db.calls, before)|
  {
    SweepKept(db, before, others);
    var s := SweepRun(db, before, others);
    assert s.mine + s.theirs == StaleSet(db.calls, before);
  }

  /**
    The loop ends: it queries at most one non-empty batch for every hundred calls that were there at the start,
    and after its settlements of those it is over, whatever others do.
   */
  lemma SweepEnds(db: Db, before: int, others: seq<seq<Op>>)
    requires AllBeside(others, before) && CallsHaveWallets(db) && Inv(db)
    ensures var s, most := SweepRun(db, before, others),
                           (|StaleSet(db.calls, before)| + RECOVER_BATCH - 1) / RECOVER_BATCH;
            && s.batches <= most
            && (|others| > (RECOVER_BATCH + 1) * most ==> s.phase.Over?)
  {
    SweepKept(db, before, others);
  }

  // ---- One batch ----

  lemma ActRest(s: Sweep, before: int, ops: seq<Op>)
    requires CallsHaveWallets(s.db) && Beside(ops, before)
    ensures var t := Act(s, before, ops); s.batches <= t.batches && (t.batches == s.batches ==> t.rest == s.rest)
  {}

  /** What a query leaves for later stays the same until the next one. */
  lemma {:induction false} RestSame(db: Db, before: int, others: seq<seq<Op>>, i: nat)
    requires AllBeside(others, before) && CallsHaveWallets(db) && i <= |others|
    ensures var s, t := SweepRun(db, before, others[..i]), SweepRun(db, before, others);
            s.batches <= t.batches && (t.batches == s.batches ==> t.rest == s.rest)
    decreases |others|
  {
    if i == |others| {
      assert others[..i] == others;
    } else {
      var init := others[..|others| - 1];
      assert init[..i] == others[..i];
      RestSame(db, before, init, i);
      ActRest(SweepRun(db, before, init), before, others[|others| - 1]);
    }
  }

  lemma QueryLeaves(s: Sweep, before: int)
    requires Query(s, before).phase.Settling?
    ensures var t := Query(s, before);
            |t.phase.ids| > 0 && |t.rest| + |t.phase.ids| == |StaleSet(s.db.calls, before)|
  {
    BatchExact(s.db.calls, before);
    var ids, stale := Batch(s.db.calls, before), StaleSet(s.db.calls, before);
    assert stale == Members(ids) + (stale - Members(ids));
  }

  /**
    Once a batch is through, there are fewer old pending calls than when it was queried, by at least its size,
    whoever settled them.
   */
  lemma FinishedBatchLowers(db: Db, before: int, others: seq<seq<Op>>, i: nat)
    requires AllBeside(others, before) && CallsHaveWallets(db) && Inv(db) && i < |others|
    requires var s, t := SweepRun(db, before, others[..i]), SweepRun(db, before, others[..i + 1]);
             s.phase.Querying? && t.phase.Settling?
             && SweepRun(db, before, others).phase.Querying? && SweepRun(db, before, others).batches == t.batches
    ensures var s, t := SweepRun(db, before, others[..i]), SweepRun(db, before, others[..i + 1]);
            |StaleSet(SweepRun(db, before, others).db.calls, before)| + |t.phase.ids|
              <= |StaleSet(s.db.calls, before)|
    ensures |SweepRun(db, before, others[..i + 1]).phase.ids| > 0
  {
    var s := SweepRun(db, before, others[..i]);
    assert others[..i + 1][..i] == others[..i];
    var met := AfterOthers(s, before, others[i]);
    QueryLeaves(met, before);
    RunAddsNothing(s.db, others[i], before);
    SubsetSize(StaleSet(met.db.calls, before), StaleSet(s.db.calls, before));
    RestSame(db, before, others, i + 1);
    SweepKept(db, before, others);
    SubsetSize(StaleSet(SweepRun(db, before, others).db.calls, before), SweepRun(db, before, others).rest);
  }

  // ---- When a settlement is refused ----

  lemma {:induction false} BalanceWithinTotal(wallets: seq<Wallet>, w: nat)
    requires w < |wallets| && forall i | 0 <= i < |wallets| :: wallets[i].balance >= 0
    ensures wallets[w].balance <= TotalBalance(wallets)
  {
    var last := |wallets| - 1;
    if w < last {
      BalanceWithinTotal(wallets[..last], w);
    } else if last > 0 {
      BalanceWithinTotal(wallets[..last], 0);
    }
  }

  lemma {:induction false} KeptWithinOutstanding(calls: seq<Call>, id: nat, count: nat)
    requires id < |calls| && CallsOk(calls, count)
    ensures Kept(calls[id]) <= Outstanding(calls)
  {
    var last := |calls| - 1;
    assert CallOk(calls[last], count);
    if id < last {
      KeptWithinOutstanding(calls[..last], id, count);
    } else if last > 0 {
      KeptWithinOutstanding(calls[..last], 0, count);
      assert CallOk(calls[0], count);
    }
  }

  /** A refund always fits while all credits ever issued fit the balance column. */
  lemma RefundFits(db: Db, id: nat)
    requires Inv(db) && id < |db.calls| && db.calls[id].status.Pending? && External(db.ledger) <= MAX_INT64
    ensures db.calls[id].wallet < |db.wallets| && Fits(db, db.calls[id].wallet, db.calls[id].requested)
  {
    assert CallOk(db.calls[id], |db.wallets|);
    BalanceWithinTotal(db.wallets, db.calls[id].wallet);
    KeptWithinOutstanding(db.calls, id, |db.wallets|);
  }

  /**
    Only a refund that would leave the balance column stops the sweep early, and that takes more credits than
    it holds.
  */
  lemma RefusedOnlyOutOfRange(s: Sweep)
    requires Inv(s.db) && CallsHaveWallets(s.db) && s.phase.Settling? && s.phase.ids != []
    requires s.phase.ids[0] < |s.db.calls| && SettleNext(s).phase == Over(false)
    ensures External(s.db.ledger) > MAX_INT64
  {
    if External(s.db.ledger) <= MAX_INT64 && s.db.calls[s.phase.ids[0]].status.Pending? {
      RefundFits(s.db, s.phase.ids[0]);
    }
  }
}
