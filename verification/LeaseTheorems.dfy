/** What holds in every reachable state and over every run of the lease protocol. */
module LeaseTheorems {
  import opened Wrappers
  import opened SessionPool
  import opened LeaseProtocol
  import opened LeaseInvariant
  import opened LeaseProofs
  import opened LeaseRegistry

  // ---- Slots and lease counters ----

  /** Actors that occupy a slot of any pool, live or retired, of an upstream row. */
  function RowHolders(s: State, row: int): set<nat> {
    set a | a in s.actors && HoldsSlot(s.actors[a].pc)
            && s.actors[a].pool in s.pools && s.pools[s.actors[a].pool].key.row == row
  }

  lemma SubsetSize<T>(a: set<T>, b: set<T>)
    requires a <= b
    ensures |a| <= |b|
  {
    assert b == a + (b - a);
  }

  /** A pool with a lease is not forgotten, so its row is still served by its provider. */
  lemma HolderServed(s: State, a: nat)
    requires Inv(s) && a in s.actors && HoldsLease(s.actors[a].pc)
    ensures s.actors[a].pool in s.pools && s.actors[a].pool !in s.unregistered
    ensures var row := s.pools[s.actors[a].pool].key.row;
            row in s.httpProviders && s.httpProviders[row] == s.actors[a].provider
  {
    assert ActorOk(s, s.actors[a]);
    assert PoolLifecycle(s, s.actors[a].pool);
    MemberCounts(s.actors, a, LeaseOf(s.actors[a].pool));
  }

  /**
    Channel occupancy is exactly the actors between send and receive, a pool's
    counter is exactly its actors between entry and finishLease, and all pools
    of one upstream row together never occupy more than one provider's slots.
  */
  lemma SlotsAreHeld(s: State)
    requires Reachable(s)
    ensures forall v <- s.providers :: s.providers[v].slots == Count(s.actors, SlotOf(v)) <= SLOTS
    ensures forall p <- s.pools :: s.pools[p].leases == Count(s.actors, LeaseOf(p))
    ensures forall row :: |RowHolders(s, row)| <= SLOTS
  {
    ReachableInv(s);
    forall row ensures |RowHolders(s, row)| <= SLOTS {
      RowBounded(s, row);
    }
  }

  lemma RowBounded(s: State, row: int)
    requires Inv(s)
    ensures |RowHolders(s, row)| <= SLOTS
  {
    if a :| a in RowHolders(s, row) {
      HolderServed(s, a);
      var v := s.actors[a].provider;
      forall b <- RowHolders(s, row) ensures b in Members(s.actors, SlotOf(v)) {
        HolderServed(s, b);
      }
      SubsetSize(RowHolders(s, row), Members(s.actors, SlotOf(v)));
    } else {
      assert RowHolders(s, row) == {};
    }
  }

  // ---- Sessions ----

  ghost predicate HeldIn(s: State, x: Session, p: nat) {
    exists a :: a in s.actors && s.actors[a].pool == p && Recorded(s.actors[a].pc) && Holding(s.actors[a].pc) == Some(x)
  }

  ghost predicate AttachedIn(s: State, x: Session, p: nat) {
    exists a :: a in s.actors && s.actors[a].pool == p && Attached(s.actors[a].pc) && Holding(s.actors[a].pc) == Some(x)
  }

  /** The holder of a session, and the only one. */
  lemma HandsApart(s: State, a: nat, b: nat)
    requires Owned(s) && a in s.actors && b in s.actors && a != b && Holding(s.actors[a].pc).Some?
    ensures Holding(s.actors[b].pc) != Holding(s.actors[a].pc)
  {}

  lemma HandNotIdle(s: State, a: nat, p: nat)
    requires Owned(s) && a in s.actors && p in s.pools && Holding(s.actors[a].pc).Some?
    ensures Holding(s.actors[a].pc).value !in s.pools[p].idle
  {
    assert PoolSessions(s, p);
  }

  lemma StacksApart(s: State, p: nat, q: nat, x: Session)
    requires Owned(s) && p in s.pools && q in s.pools && p != q && x in s.pools[p].idle
    ensures x !in s.pools[q].idle
  {
    assert PoolSessions(s, p) && PoolSessions(s, q);
  }

  lemma StackOk(s: State, p: nat)
    requires Owned(s) && Lifecycle(s) && p in s.pools
    ensures NoDuplicates(s.pools[p].idle) && (s.pools[p].retired ==> s.pools[p].idle == [])
  {
    assert PoolSessions(s, p) && PoolLifecycle(s, p);
  }

  /** Every session is in one place: not in two hands, nor in a hand and on a stack, nor twice on stacks. */
  ghost predicate OnePlace(s: State) {
    && (forall a <- s.actors, b <- s.actors | a != b && Holding(s.actors[a].pc).Some? ::
          Holding(s.actors[b].pc) != Holding(s.actors[a].pc))
    && (forall a <- s.actors, p <- s.pools | Holding(s.actors[a].pc).Some? ::
          Holding(s.actors[a].pc).value !in s.pools[p].idle)
    && (forall p <- s.pools, q <- s.pools, x | p != q && x in s.pools[p].idle :: x !in s.pools[q].idle)
    && (forall p <- s.pools :: NoDuplicates(s.pools[p].idle))
  }

  lemma OwnedIsOnePlace(s: State)
    requires Owned(s) && Lifecycle(s)
    ensures OnePlace(s)
  {
    forall a <- s.actors, b <- s.actors | a != b && Holding(s.actors[a].pc).Some?
      ensures Holding(s.actors[b].pc) != Holding(s.actors[a].pc) { HandsApart(s, a, b); }
    forall a <- s.actors, p <- s.pools | Holding(s.actors[a].pc).Some?
      ensures Holding(s.actors[a].pc).value !in s.pools[p].idle { HandNotIdle(s, a, p); }
    forall p <- s.pools, q <- s.pools, x | p != q && x in s.pools[p].idle
      ensures x !in s.pools[q].idle { StacksApart(s, p, q, x); }
    forall p <- s.pools ensures NoDuplicates(s.pools[p].idle) { StackOk(s, p); }
  }

  /** In every reachable state no session is in two places, and a retired pool keeps none idle. */
  lemma OneOwner(s: State)
    requires Reachable(s)
    ensures OnePlace(s)
    ensures forall p <- s.pools | s.pools[p].retired :: s.pools[p].idle == []
  {
    ReachableInv(s);
    OwnedIsOnePlace(s);
    forall p <- s.pools | s.pools[p].retired ensures s.pools[p].idle == [] { StackOk(s, p); }
  }

  /** A recorded session is idle in the pool, or in the hands of one of its actors. */
  lemma RecordedIsOwned(s: State, p: nat, x: Session)
    requires Inv(s) && p in s.pools && x in s.pools[p].sessions
    ensures x in s.pools[p].idle || HeldIn(s, x, p)
    ensures s.pools[p].sessions[x] ==> AttachedIn(s, x, p)
  {
    assert PoolSessions(s, p);
    assert OwnedBy(s, x, p) && PlaceOk(s, x);
  }

  lemma IdleIsRecorded(s: State, p: nat, x: Session)
    requires Inv(s) && p in s.pools && x in s.pools[p].idle
    ensures x in s.pools[p].sessions && !s.pools[p].sessions[x]
  {
    assert PoolSessions(s, p);
    assert PlaceOk(s, x);
  }

  lemma HeldIsRecorded(s: State, p: nat, x: Session, a: nat)
    requires Inv(s) && p in s.pools && a in s.actors && s.actors[a].pool == p
    requires Recorded(s.actors[a].pc) && Holding(s.actors[a].pc) == Some(x)
    ensures x in s.pools[p].sessions && (s.pools[p].sessions[x] <==> Attached(s.actors[a].pc))
  {
    assert s.custody[x] == Held(a) && PlaceOk(s, x);
  }

  lemma HeldInRecorded(s: State, p: nat, x: Session)
    requires Inv(s) && p in s.pools
    ensures HeldIn(s, x, p) ==> x in s.pools[p].sessions
    ensures AttachedIn(s, x, p) ==> x in s.pools[p].sessions && s.pools[p].sessions[x]
  {
    hide Inv;
    if HeldIn(s, x, p) {
      var a :| a in s.actors && s.actors[a].pool == p && Recorded(s.actors[a].pc) && Holding(s.actors[a].pc) == Some(x);
      HeldIsRecorded(s, p, x, a);
    }
    if AttachedIn(s, x, p) {
      var a :| a in s.actors && s.actors[a].pool == p && Attached(s.actors[a].pc) && Holding(s.actors[a].pc) == Some(x);
      HeldIsRecorded(s, p, x, a);
    }
  }

  /**
    A pool's session map is exactly its idle stack plus the recorded sessions
    in its actors' hands; a request context is attached exactly to the leased ones.
  */
  lemma SessionMapExact(s: State, p: nat, x: Session)
    requires Reachable(s) && p in s.pools
    ensures x in s.pools[p].sessions <==> x in s.pools[p].idle || HeldIn(s, x, p)
    ensures x in s.pools[p].sessions ==> (s.pools[p].sessions[x] <==> AttachedIn(s, x, p))
  {
    ReachableInv(s);
    if x in s.pools[p].sessions { RecordedIsOwned(s, p, x); }
    if x in s.pools[p].idle { IdleIsRecorded(s, p, x); }
    HeldInRecorded(s, p, x);
  }

  // ---- A discarded session is never leased again ----

  /** A session that has left the protocol stays out of it. */
  lemma GoneStays(s: State, step: Step, x: Session)
    requires Inv(s) && Enabled(s, step) && x in s.custody && s.custody[x] == Gone
    ensures x in Next(s, step).custody && Next(s, step).custody[x] == Gone
  {
    if IsLocal(step) {
      var e := ObligedEffect(s, step);
      GoneApplied(s, step.a, e, x);
    } else {
      SharedKeepsCustody(s, step);
    }
  }

  lemma OpenKeepsCustody(s: State, step: Step)
    requires Enabled(s, step) && (step.OpenCommit? || step.Unregister?)
    ensures NextShared(s, step).custody == s.custody
  {}

  lemma SharedKeepsCustody(s: State, step: Step)
    requires Enabled(s, step) && !IsLocal(step)
    ensures NextShared(s, step).custody == s.custody
  {
    if step.OpenCommit? || step.Unregister? { OpenKeepsCustody(s, step); }
  }

  lemma GoneApplied(s: State, a: nat, e: Effect, x: Session)
    requires Owned(s) && OwnEffect(s, a, e) && x in s.custody && s.custody[x] == Gone
    requires e.pool.Some? ==> e.actor.pool in s.pools
    ensures var s' := Apply(s, a, e); x in s'.custody && s'.custody[x] == Gone
  {
    if e.transfer.Give? && e.transfer.session == x {
      GivenIsOwned(s, a, e);
    }
  }

  /** Only a session someone has, or a new one, changes hands. */
  lemma GivenIsOwned(s: State, a: nat, e: Effect)
    requires Owned(s) && OwnEffect(s, a, e) && e.transfer.Give? && (e.pool.Some? ==> e.actor.pool in s.pools)
    ensures e.transfer.session in s.custody ==> s.custody[e.transfer.session] != Gone
  {
    var x := e.transfer.session;
    if e.transfer.to.Held? {
      BookTaken(OldPool(s, e), PoolAfter(s, e), e.pool.Some?, e.transfer, a, e.actor.pool, OldPc(s, a), e.actor.pc, x);
      if Recorded(e.actor.pc) {
        IdleKnown(s, e.actor.pool, x);
      }
    } else {
      HolderKnown(s, a, x);
    }
  }

  ghost predicate Leasable(s: State, x: Session) {
    || (exists a :: a in s.actors && Holding(s.actors[a].pc) == Some(x))
    || (exists p :: p in s.pools && x in s.pools[p].idle)
  }

  lemma ExecPrefix(steps: seq<Step>, n: nat)
    requires n <= |steps| && Exec(steps).Some?
    ensures Exec(steps[..n]).Some?
  {
    if n < |steps| {
      ExecPrefix(steps[..|steps| - 1], n);
      assert steps[..|steps| - 1][..n] == steps[..n];
    } else {
      assert steps[..n] == steps;
    }
  }

  lemma {:induction false} GoneForever(steps: seq<Step>, n: nat, x: Session)
    requires n <= |steps| && Exec(steps).Some? && Exec(steps[..n]).Some?
    requires x in Exec(steps[..n]).value.custody && Exec(steps[..n]).value.custody[x] == Gone
    ensures x in Exec(steps).value.custody && Exec(steps).value.custody[x] == Gone
  {
    if n < |steps| {
      var init := steps[..|steps| - 1];
      assert init[..n] == steps[..n];
      GoneForever(init, n, x);
      RunKept(init);
      GoneStays(Exec(init).value, steps[|steps| - 1], x);
    } else {
      assert steps[..n] == steps;
    }
  }

  lemma ReleasedIsGone(s: State, a: nat)
    requires Enabled(s, Release(a, true))
    ensures var t := Next(s, Release(a, true));
            s.actors[a].pc.lease in t.custody && t.custody[s.actors[a].pc.lease] == Gone
  {}

  lemma GoneNotLeasable(t: State, x: Session)
    requires Inv(t) && x in t.custody && t.custody[x] == Gone
    ensures !Leasable(t, x)
  {
    assert forall p <- t.pools :: PoolSessions(t, p);
  }

  /** After a lease is released with an error, no later state of the run leases or idles its session. */
  lemma FailedNeverLeasedAgain(steps: seq<Step>, i: nat, a: nat)
    requires i < |steps| && Exec(steps).Some? && Exec(steps[..i]).Some?
    requires steps[i] == Release(a, true) && Enabled(Exec(steps[..i]).value, steps[i])
    ensures !Leasable(Exec(steps).value, Exec(steps[..i]).value.actors[a].pc.lease)
  {
    var s := Exec(steps[..i]).value;
    var x := s.actors[a].pc.lease;
    assert Exec(steps[..i + 1]) == Some(Next(s, steps[i])) by {
      assert steps[..i + 1][..i] == steps[..i] && steps[..i + 1][i] == steps[i];
    }
    ReleasedIsGone(s, a);
    GoneForever(steps, i + 1, x);
    RunKept(steps);
    GoneNotLeasable(Exec(steps).value, x);
  }

  // ---- Forgetting ----

  predicate Cleans(s: State, step: Step, p: nat) {
    step.Unregister? && step.a in s.actors && s.actors[step.a].pool == p
  }

  /** How often a run executed the cleanup section of pool `p`. */
  function Cleanups(steps: seq<Step>, p: nat): nat {
    if steps == [] then 0
    else
      var init := steps[..|steps| - 1];
      Cleanups(init, p) + if Exec(init).Some? && Cleans(Exec(init).value, steps[|steps| - 1], p) then 1 else 0
  }

  lemma SharedUnregisters(s: State, step: Step)
    requires Enabled(s, step) && !IsLocal(step)
    ensures NextShared(s, step).unregistered
         == if step.Unregister? then s.unregistered + {s.actors[step.a].pool} else s.unregistered
  {}

  lemma LocalKeepsBooks(s: State, a: nat, e: Effect)
    ensures Apply(s, a, e).unregistered == s.unregistered && Apply(s, a, e).httpProviders == s.httpProviders
    ensures Apply(s, a, e).swept == s.swept && Apply(s, a, e).waited == s.waited
    ensures Apply(s, a, e).inFlight == s.inFlight + e.flight
  {}

  lemma UnregisteredStep(s: State, step: Step)
    requires Inv(s) && Enabled(s, step)
    ensures Next(s, step).unregistered ==
            if step.Unregister? then s.unregistered + {s.actors[step.a].pool} else s.unregistered
    ensures step.Unregister? ==> s.actors[step.a].pool !in s.unregistered
  {
    if IsLocal(step) {
      LocalKeepsBooks(s, step.a, EffectOf(s, step));
    } else {
      SharedUnregisters(s, step);
      if step.Unregister? {
        CleanupOwner(s, step.a);
      }
    }
  }

  lemma ForgottenIsUnused(s: State, p: nat)
    requires Inv(s) && p in s.pools && s.pools[p].forgotten
    ensures Unused(s.pools[p])
  {
    assert PoolLifecycle(s, p);
    RetiredUnleasedIsEmpty(s, p);
  }

  lemma {:induction false} CleanupsCounted(steps: seq<Step>, p: nat)
    requires Exec(steps).Some?
    ensures Cleanups(steps, p) == if p in Exec(steps).value.unregistered then 1 else 0
  {
    hide Inv, Next;
    if steps != [] {
      var init := steps[..|steps| - 1];
      CleanupsCounted(init, p);
      RunKept(init);
      UnregisteredStep(Exec(init).value, steps[|steps| - 1]);
    }
  }

  /** The cleanup of a pool runs at most once on any run, and only on a retired pool without leases or sessions. */
  lemma ForgottenOnce(steps: seq<Step>, p: nat)
    requires Exec(steps).Some?
    ensures Cleanups(steps, p) <= 1
    ensures var s := Exec(steps).value;
            && (Cleanups(steps, p) == 1 <==> p in s.unregistered)
            && (p in s.unregistered ==> p in s.pools && s.pools[p].forgotten)
            && (p in s.pools && s.pools[p].forgotten ==> Unused(s.pools[p]))
  {
    var s := Exec(steps).value;
    CleanupsCounted(steps, p);
    RunKept(steps);
    if p in s.pools {
      assert PoolLifecycle(s, p);
      if s.pools[p].forgotten { ForgottenIsUnused(s, p); }
    }
  }

  /** No request and no close of pool `p` is still running. An actor that opens a pool has not got one yet. */
  ghost predicate Quiet(actors: map<nat, Actor>, p: nat) {
    forall a <- actors | actors[a].pool == p :: actors[a].pc.Done? || actors[a].pc.Opening?
  }

  /** Once every request and close of a retired pool has finished, the pool has been forgotten and cleaned up. */
  lemma QuiescentRetiredIsForgotten(s: State, p: nat)
    requires Reachable(s) && p in s.pools && s.pools[p].retired && Quiet(s.actors, p)
    ensures s.pools[p].forgotten && p in s.unregistered && s.pools[p].sessions == map[]
  {
    ReachableInv(s);
    QuietCounts(s.actors, p);
    IdlePoolForgotten(s, p);
    ForgottenIsUnused(s, p);
  }

  lemma QuietCounts(actors: map<nat, Actor>, p: nat)
    requires Quiet(actors, p)
    ensures Count(actors, LeaseOf(p)) == 0 && Count(actors, CleanupOf(p)) == 0
  {
    assert Members(actors, LeaseOf(p)) == {} && Members(actors, CleanupOf(p)) == {};
  }

  lemma IdlePoolForgotten(s: State, p: nat)
    requires CountsExact(s) && Lifecycle(s) && p in s.pools && s.pools[p].retired && Quiet(s.actors, p)
    requires Count(s.actors, LeaseOf(p)) == 0 && Count(s.actors, CleanupOf(p)) == 0
    ensures s.pools[p].forgotten && p in s.unregistered
  {
    assert PoolLifecycle(s, p);
  }

  /** The row is served by another provider, or by none. */
  predicate LosesProvider(s: State, t: State, row: int)
    requires row in s.httpProviders
  {
    row !in t.httpProviders || t.httpProviders[row] != s.httpProviders[row]
  }

  /** A provider leaves the registry only with its last pool, and then no slot is held. */
  lemma ProviderDroppedIdle(s: State, step: Step, row: int)
    requires Reachable(s) && Enabled(s, step) && row in s.httpProviders && LosesProvider(s, Next(s, step), row)
    ensures s.httpProviders[row] in s.providers
    ensures s.providers[s.httpProviders[row]].slots == 0
  {
    ReachableInv(s);
    OnlyCleanupDrops(s, step, row);
    CleanupOwner(s, step.a);
    LastPoolHoldsNoSlot(s, s.actors[step.a].pool, s.httpProviders[row]);
  }

  /** The provider of the row goes with the last of its pools. */
  predicate DropsLast(s: State, step: Step, row: int)
    requires Enabled(s, step) && row in s.httpProviders
  {
    && step.Unregister? && s.pools[s.actors[step.a].pool].provider == s.httpProviders[row]
    && s.httpProviders[row] in s.providers && s.providers[s.httpProviders[row]].pools == 1
  }

  lemma OnlyCleanupDrops(s: State, step: Step, row: int)
    requires Enabled(s, step) && row in s.httpProviders
    ensures LosesProvider(s, Next(s, step), row) ==> DropsLast(s, step, row)
  {
    if IsLocal(step) {
      LocalKeepsBooks(s, step.a, EffectOf(s, step));
    } else if step.Unregister? {
      CleanupDrops(s, step.a, row);
    } else {
      ProvidersStay(s, step, row);
    }
  }

  /** Of the steps on the registries, only a cleanup takes a provider out. */
  lemma ProvidersStay(s: State, step: Step, row: int)
    requires Enabled(s, step) && !IsLocal(step) && !step.Unregister? && row in s.httpProviders
    ensures !LosesProvider(s, NextShared(s, step), row)
  {
    if step.OpenCommit? { OpenKeepsProviders(s, step, row); }
  }

  lemma OpenKeepsProviders(s: State, step: Step, row: int)
    requires Enabled(s, step) && step.OpenCommit? && row in s.httpProviders
    ensures !LosesProvider(s, NextShared(s, step), row)
  {}

  lemma CleanupDrops(s: State, a: nat, row: int)
    requires Enabled(s, Unregister(a)) && row in s.httpProviders
    ensures LosesProvider(s, NextShared(s, Unregister(a)), row) ==> DropsLast(s, Unregister(a), row)
  {}

  lemma SlotHolderOf(s: State, p: nat, v: nat, a: nat)
    requires Inv(s) && v in s.providers && Remaining(s, v) == {p} && a in Members(s.actors, SlotOf(v))
    ensures p in s.pools && s.pools[p].leases > 0
  {
    HolderServed(s, a);
    assert ActorOk(s, s.actors[a]);
    assert s.actors[a].pool in Remaining(s, v);
    MemberCounts(s.actors, a, LeaseOf(p));
  }

  lemma LastPoolHoldsNoSlot(s: State, p: nat, v: nat)
    requires Inv(s) && v in s.providers && s.providers[v].pools == 1
    requires p in s.pools && p !in s.unregistered && s.pools[p].provider == v && s.pools[p].forgotten
    ensures s.providers[v].slots == 0
  {
    assert p in Remaining(s, v);
    LastPool(Remaining(s, v), p);
    ForgottenIsUnused(s, p);
    NoSlotHolders(s, p, v);
  }

  lemma NoSlotHolders(s: State, p: nat, v: nat)
    requires Inv(s) && v in s.providers && Remaining(s, v) == {p} && p in s.pools && s.pools[p].leases == 0
    ensures s.providers[v].slots == 0
  {
    var holders := Members(s.actors, SlotOf(v));
    assert s.providers[v].slots == |holders|;
    if holders != {} {
      var a :| a in holders;
      SlotHolderOf(s, p, v, a);
    }
  }

  lemma LastPool(pools: set<nat>, p: nat)
    requires p in pools && |pools| == 1
    ensures pools == {p}
  {
    assert |pools - {p}| == 0;
  }

  /** New requests for the pool's key get this pool. */
  predicate Found(s: State, q: nat) {
    q in s.pools && s.pools[q].key in s.httpPools && s.httpPools[s.pools[q].key] == q
  }

  /** The step is the cleanup of pool `q` itself. */
  predicate CleansUp(s: State, step: Step, q: nat)
    requires Enabled(s, step)
  {
    step.Unregister? && s.actors[step.a].pool == q
  }

  /** The step registers another pool under the key of pool `q`. */
  predicate Replaces(s: State, step: Step, q: nat)
    requires Enabled(s, step) && q in s.pools
  {
    step.OpenCommit? && s.actors[step.a].pc.key == s.pools[q].key
  }

  lemma FoundApplied(s: State, a: nat, e: Effect, q: nat)
    requires ShapeEffect(s, a, e) && q in s.pools
    ensures Found(Apply(s, a, e), q) <==> Found(s, q)
  {
    Identity(s, a, e);
  }

  lemma FoundLocal(s: State, step: Step, q: nat)
    requires Reachable(s) && Enabled(s, step) && IsLocal(step) && Found(s, q)
    ensures Found(Next(s, step), q)
  {
    ReachableInv(s);
    var e := ObligedEffect(s, step);
    FoundApplied(s, step.a, e, q);
  }

  lemma OpensOverRetired(s: State, step: Step)
    requires LiveRegistered(s) && Enabled(s, step) && step.OpenCommit?
    ensures var key := s.actors[step.a].pc.key; key in s.httpPools ==>
              s.httpPools[key] in s.pools && s.pools[s.httpPools[key]].retired
  {}

  lemma FoundOpen(s: State, step: Step, q: nat)
    requires Reachable(s) && Enabled(s, step) && step.OpenCommit? && Found(s, q)
    ensures Found(NextShared(s, step), q) <==> !Replaces(s, step, q)
    ensures Replaces(s, step, q) ==> s.pools[q].retired
  {
    assert LiveRegistered(s) by { ReachableInv(s); }
    OpensOverRetired(s, step);
  }

  lemma FoundCleanup(s: State, a: nat, q: nat)
    requires Reachable(s) && Enabled(s, Unregister(a)) && Found(s, q)
    ensures Found(NextShared(s, Unregister(a)), q) <==> !CleansUp(s, Unregister(a), q)
    ensures CleansUp(s, Unregister(a), q) ==> s.pools[q].retired
  {
    CleanupRetired(s, a);
  }

  lemma CleanupRetired(s: State, a: nat)
    requires Reachable(s) && Enabled(s, Unregister(a))
    ensures s.pools[s.actors[a].pool].retired
  {
    ReachableInv(s);
    CleanupOwner(s, a);
  }

  lemma FoundClosePool(s: State, a: nat, pool: nat, q: nat)
    requires Enabled(s, GatewayClosePool(a, pool)) && Found(s, q)
    ensures Found(NextShared(s, GatewayClosePool(a, pool)), q)
  {}

  lemma FoundGateway(s: State, step: Step, q: nat)
    requires Enabled(s, step) && (step.GatewayCancel? || step.GatewaySweep? || step.GatewayWait?) && Found(s, q)
    ensures Found(NextShared(s, step), q) <==> !step.GatewaySweep?
  {
    match step
    case GatewayCancel => assert NextShared(s, step).httpPools == s.httpPools;
    case GatewaySweep => assert NextShared(s, step).httpPools == map[];
    case GatewayWait => assert NextShared(s, step).httpPools == s.httpPools;
  }

  /**
    In every reachable state a registered pool stays the one found under its
    key, whatever step comes next, but for three: Gateway.Close's sweep, its own
    cleanup, and the registration of a successor. The last two need it retired:
    the cleanup of an old pool never takes out its successor, and no pool is
    registered over a live one.
  */
  lemma SuccessorKept(s: State, step: Step, q: nat)
    requires Reachable(s) && Enabled(s, step) && Found(s, q)
    ensures Found(Next(s, step), q) <==> !(step.GatewaySweep? || CleansUp(s, step, q) || Replaces(s, step, q))
    ensures CleansUp(s, step, q) || Replaces(s, step, q) ==> s.pools[q].retired
  {
    hide Enabled, NextShared, Found;
    if IsLocal(step) {
      FoundLocal(s, step, q);
    } else if step.OpenCommit? {
      FoundOpen(s, step, q);
    } else if step.Unregister? {
      FoundCleanup(s, step.a, q);
    } else if step.GatewayClosePool? {
      FoundClosePool(s, step.a, step.pool, q);
    } else {
      FoundGateway(s, step, q);
    }
  }

  /**
    Until Gateway.Close sweeps, every pool that is not retired is found under its key, so at most one is live
    per key.
  */
  lemma LiveIsRegistered(s: State, p: nat)
    requires Reachable(s) && p in s.pools && !s.pools[p].retired && !s.swept
    ensures s.pools[p].key in s.httpPools && s.httpPools[s.pools[p].key] == p
    ensures forall q <- s.pools | q != p && s.pools[q].key == s.pools[p].key :: s.pools[q].retired
  {
    ReachableInv(s);
  }

  // ---- Handing a lease over ----

  /** An established lease always has a way on: its caller still waits, or the goroutine may give it back. */
  lemma EstablishedNotStranded(s: State, a: nat)
    requires Reachable(s) && a in s.actors && s.actors[a].pc.Established?
    ensures Enabled(s, HandOver(a)) || Enabled(s, SelfRelease(a))
  {
    hide Enabled, Inv, Reachable;
    ReachableInv(s);
    EstablishedMoves(s, a);
  }

  lemma EstablishedMoves(s: State, a: nat)
    requires Inv(s) && a in s.actors && s.actors[a].pc.Established?
    ensures Enabled(s, HandOver(a)) || Enabled(s, SelfRelease(a))
  {
    hide Inv, Enabled;
    EstablishedActor(s, a);
    EstablishedSteps(s, a);
  }

  lemma EstablishedActor(s: State, a: nat)
    requires Inv(s) && a in s.actors && s.actors[a].pc.Established?
    ensures At(s, a) && (s.actors[a].caller.Expecting? || Interrupted(s, a))
  {
    assert ActorOk(s, s.actors[a]);
  }

  lemma EstablishedSteps(s: State, a: nat)
    requires At(s, a) && s.actors[a].pc.Established? && (s.actors[a].caller.Expecting? || Interrupted(s, a))
    ensures Enabled(s, HandOver(a)) || Enabled(s, SelfRelease(a))
  {}

  /** The step establishes a lease for actor `a`. */
  predicate Establishing(s: State, step: Step, a: nat) {
    step.RecordLease? && step.a == a && Enabled(s, step) && Establishes(s, step)
  }

  /** What can happen to the lease of one request. */
  datatype Mark = Granted | HandedOver | GivenBack | ReleasedByCaller

  /** The step marks the lease of actor `a`. */
  predicate Marks(s: State, step: Step, a: nat, m: Mark) {
    match m
    case Granted => Establishing(s, step, a)
    case HandedOver => step == HandOver(a)
    case GivenBack => step == SelfRelease(a)
    case ReleasedByCaller => step.Release? && step.a == a
  }

  /** How often a run marked the lease of actor `a` that way. */
  function Times(steps: seq<Step>, a: nat, m: Mark): nat {
    if steps == [] then 0
    else
      var init := steps[..|steps| - 1];
      match Exec(init)
      case None => Times(init, a, m)
      case Some(s) => Times(init, a, m) + (if Marks(s, steps[|steps| - 1], a, m) then 1 else 0)
  }

  /** The tally of an actor at a program counter. */
  ghost predicate FateAt(pc: Pc, granted: int, handed: int, back: int, released: int) {
    && 0 <= granted <= 1
    && (Acquiring(pc) && !pc.Established? ==> granted == 0)
    && granted == handed + back + Bit(pc.Established?)
    && handed == released + Bit(pc.InUse?)
  }

  /** An actor that has not arrived has no marks. */
  ghost predicate FateOk(s: State, a: nat, granted: int, handed: int, back: int, released: int) {
    FateAt(OldPc(s, a), granted, handed, back, released) && (a !in s.actors ==> granted == 0)
  }

  function MarkBit(s: State, step: Step, a: nat, m: Mark): int {
    Bit(Marks(s, step, a, m))
  }

  /** The tally agrees with the actor's counter before and after the effect. */
  ghost predicate FateMoves(s: State, step: Step, pc: Pc, g: int, h: int, b: int, r: int)
    requires IsLocal(step)
  {
    FateOk(s, step.a, g, h, b, r) ==>
      FateAt(pc, g + MarkBit(s, step, step.a, Granted), h + MarkBit(s, step, step.a, HandedOver),
             b + MarkBit(s, step, step.a, GivenBack), r + MarkBit(s, step, step.a, ReleasedByCaller))
  }

  lemma FateVisit(s: State, step: Step, g: int, h: int, b: int, r: int)
    requires IsVisit(step) && Enabled(s, step)
    ensures FateMoves(s, step, EffectOf(s, step).actor.pc, g, h, b, r)
  {}

  lemma FateSpawn(s: State, step: Step, g: int, h: int, b: int, r: int)
    requires IsSpawn(step) && Enabled(s, step)
    ensures FateMoves(s, step, EffectOf(s, step).actor.pc, g, h, b, r)
  {}

  lemma FateWait(s: State, step: Step, g: int, h: int, b: int, r: int)
    requires IsWait(step) && Enabled(s, step)
    ensures FateMoves(s, step, EffectOf(s, step).actor.pc, g, h, b, r)
  {}

  lemma FateDialed(s: State, step: Step, g: int, h: int, b: int, r: int)
    requires (step.PickSession? || step.Dial? || step.HandOver?) && Enabled(s, step)
    ensures FateMoves(s, step, EffectOf(s, step).actor.pc, g, h, b, r)
  {}

  lemma FateRecord(s: State, step: Step, g: int, h: int, b: int, r: int)
    requires step.RecordLease? && Enabled(s, step)
    ensures FateMoves(s, step, EffectOf(s, step).actor.pc, g, h, b, r)
  {}

  lemma FateReleased(s: State, step: Step, g: int, h: int, b: int, r: int)
    requires (step.SelfRelease? || step.Release?) && Enabled(s, step)
    ensures FateMoves(s, step, EffectOf(s, step).actor.pc, g, h, b, r)
  {}

  /** No lease is ahead or in hand at this counter. */
  predicate Past(pc: Pc) {
    !Acquiring(pc) && !pc.InUse?
  }

  predicate IsTail(step: Step) {
    step.ReturnSlot? || step.FinishLease? || IsCleanup(step)
  }

  lemma ReturnIsPast(s: State, step: Step)
    requires (step.ReturnSlot? || step.FinishLease? || step.SignalDone?) && Enabled(s, step)
    ensures Past(OldPc(s, step.a)) && Past(EffectOf(s, step).actor.pc)
  {}

  lemma CheckIsPast(s: State, step: Step)
    requires step.CheckUnused? && Enabled(s, step)
    ensures Past(OldPc(s, step.a)) && Past(EffectOf(s, step).actor.pc)
  {}

  lemma CloseIsPast(s: State, step: Step)
    requires (step.CancelPool? || step.RetirePool?) && Enabled(s, step)
    ensures Past(OldPc(s, step.a)) && Past(EffectOf(s, step).actor.pc)
  {}

  lemma TailIsPast(s: State, step: Step)
    requires IsTail(step) && IsLocal(step) && Enabled(s, step)
    ensures Past(OldPc(s, step.a)) && Past(EffectOf(s, step).actor.pc)
  {
    hide Enabled, EffectOf, Past;
    if step.CheckUnused? { CheckIsPast(s, step); }
    else if step.CancelPool? || step.RetirePool? { CloseIsPast(s, step); }
    else { ReturnIsPast(s, step); }
  }

  lemma FateTail(s: State, step: Step, g: int, h: int, b: int, r: int)
    requires IsTail(step) && IsLocal(step) && Enabled(s, step)
    ensures FateMoves(s, step, EffectOf(s, step).actor.pc, g, h, b, r)
  {
    hide Enabled, EffectOf;
    TailIsPast(s, step);
  }

  lemma FateLocal(s: State, step: Step, g: int, h: int, b: int, r: int)
    requires IsLocal(step) && Enabled(s, step)
    ensures FateMoves(s, step, EffectOf(s, step).actor.pc, g, h, b, r)
  {
    hide FateMoves, EffectOf, Enabled;
    if IsVisit(step) { FateVisit(s, step, g, h, b, r); }
    else if IsSpawn(step) { FateSpawn(s, step, g, h, b, r); }
    else if IsWait(step) { FateWait(s, step, g, h, b, r); }
    else if step.RecordLease? { FateRecord(s, step, g, h, b, r); }
    else if IsSession(step) { FateDialed(s, step, g, h, b, r); }
    else if step.SelfRelease? || step.Release? { FateReleased(s, step, g, h, b, r); }
    else { FateTail(s, step, g, h, b, r); }
  }

  /** Where one step leaves actor `a`. */
  lemma PcLocal(s: State, step: Step, a: nat)
    requires Enabled(s, step) && IsLocal(step)
    ensures OldPc(Next(s, step), a) == if step.a == a then EffectOf(s, step).actor.pc else OldPc(s, a)
    ensures a in Next(s, step).actors <==> a in s.actors || step.a == a
  {}

  /** What a step on the registries may do to another actor's counter: nothing that a lease depends on. */
  predicate PcAside(before: Pc, after: Pc) {
    || after == before
    || ((before.Opening? || before.Unregistering? || before.Done?)
        && (after.Done? || after.Signalling? || after.Canceling?))
  }

  lemma PcRegistry(s: State, step: Step, a: nat)
    requires Enabled(s, step) && (step.OpenCommit? || step.Unregister?)
    ensures a in s.actors ==> a in NextShared(s, step).actors
    ensures PcAside(OldPc(s, a), OldPc(NextShared(s, step), a))
  {}

  lemma PcGateway(s: State, step: Step, a: nat)
    requires Enabled(s, step) && !IsLocal(step) && !step.OpenCommit? && !step.Unregister?
    ensures a in s.actors ==> a in NextShared(s, step).actors
    ensures PcAside(OldPc(s, a), OldPc(NextShared(s, step), a))
  {}

  lemma PcShared(s: State, step: Step, a: nat)
    requires Enabled(s, step) && !IsLocal(step)
    ensures a in s.actors ==> a in NextShared(s, step).actors
    ensures PcAside(OldPc(s, a), OldPc(NextShared(s, step), a))
  {
    hide Enabled, NextShared, PcAside;
    if step.OpenCommit? || step.Unregister? { PcRegistry(s, step, a); } else { PcGateway(s, step, a); }
  }

  lemma FateShared(s: State, step: Step, a: nat, g: int, h: int, b: int, r: int)
    requires Enabled(s, step) && !IsLocal(step) && FateOk(s, a, g, h, b, r)
    ensures FateAt(OldPc(NextShared(s, step), a), g, h, b, r)
  {
    hide Enabled, NextShared;
    PcShared(s, step, a);
  }

  lemma NoMarks(s: State, step: Step, a: nat)
    requires !IsLocal(step) || step.a != a
    ensures forall m: Mark :: !Marks(s, step, a, m)
  {}

  ghost predicate RunFate(steps: seq<Step>, a: nat)
    requires Exec(steps).Some?
  {
    FateOk(Exec(steps).value, a, Times(steps, a, Granted), Times(steps, a, HandedOver), Times(steps, a, GivenBack),
           Times(steps, a, ReleasedByCaller))
  }

  lemma FateStep(s: State, step: Step, a: nat, g: int, h: int, b: int, r: int)
    requires Enabled(s, step) && FateOk(s, a, g, h, b, r)
    ensures FateOk(Next(s, step), a, g + MarkBit(s, step, a, Granted), h + MarkBit(s, step, a, HandedOver),
                   b + MarkBit(s, step, a, GivenBack), r + MarkBit(s, step, a, ReleasedByCaller))
  {
    if IsLocal(step) && step.a == a {
      FateActing(s, step, g, h, b, r);
    } else {
      FateElsewhere(s, step, a, g, h, b, r);
      NoMarks(s, step, a);
    }
  }

  lemma FateActing(s: State, step: Step, g: int, h: int, b: int, r: int)
    requires Enabled(s, step) && IsLocal(step) && FateOk(s, step.a, g, h, b, r)
    ensures FateOk(Next(s, step), step.a, g + MarkBit(s, step, step.a, Granted),
                   h + MarkBit(s, step, step.a, HandedOver),
                   b + MarkBit(s, step, step.a, GivenBack), r + MarkBit(s, step, step.a, ReleasedByCaller))
  {
    FateLocal(s, step, g, h, b, r);
    PcLocal(s, step, step.a);
  }

  lemma FateElsewhere(s: State, step: Step, a: nat, g: int, h: int, b: int, r: int)
    requires Enabled(s, step) && FateOk(s, a, g, h, b, r) && (!IsLocal(step) || step.a != a)
    ensures FateOk(Next(s, step), a, g, h, b, r)
  {
    if IsLocal(step) {
      PcLocal(s, step, a);
    } else {
      FateShared(s, step, a, g, h, b, r);
      PcShared(s, step, a);
    }
  }

  lemma {:induction false} FateKept(steps: seq<Step>, a: nat)
    requires Exec(steps).Some?
    ensures RunFate(steps, a)
  {
    if steps != [] {
      var init := steps[..|steps| - 1];
      FateKept(init, a);
      FateStep(Exec(init).value, steps[|steps| - 1], a, Times(init, a, Granted), Times(init, a, HandedOver),
               Times(init, a, GivenBack), Times(init, a, ReleasedByCaller));
    }
  }

  /**
    On every run a finished lease request was granted at most one lease, and
    that lease was either handed to its caller and released once by it, or
    given back by the acquiring goroutine: never both, never neither.
  */
  lemma LeaseHandedOrReturned(steps: seq<Step>, a: nat)
    requires Exec(steps).Some? && a in Exec(steps).value.actors && Exec(steps).value.actors[a].pc.Done?
    ensures Times(steps, a, Granted) <= 1
    ensures Times(steps, a, Granted) == Times(steps, a, HandedOver) + Times(steps, a, GivenBack)
    ensures Times(steps, a, ReleasedByCaller) == Times(steps, a, HandedOver)
  {
    FateKept(steps, a);
  }

  // ---- Gateway.Close ----

  /** Only the section that counts a lease under the lock adds to the wait group. */
  lemma FlightOf(s: State, step: Step)
    requires Enabled(s, step) && IsLocal(step)
    ensures EffectOf(s, step).flight > 0 ==> step.CountFlight?
  {
    hide Enabled, AcquireEffect, ReleaseEffect;
    if IsAcquiring(step) { FlightAcquired(s, step); } else { FlightReleased(s, step); }
  }

  lemma FlightAcquired(s: State, step: Step)
    requires Enabled(s, step) && IsAcquiring(step)
    ensures AcquireEffect(s, step).flight > 0 ==> step.CountFlight?
  {}

  lemma FlightReleased(s: State, step: Step)
    requires Enabled(s, step) && IsLocal(step) && !IsAcquiring(step)
    ensures ReleaseEffect(s, step).flight <= 0
  {}

  lemma CounterLocked(s: State, step: Step)
    requires Enabled(s, step) && step.CountFlight? && Shape(s)
    ensures s.lock.Some?
  {
    assert HoldsLock(s.actors[step.a].pc) <==> s.lock == Some(step.a);
  }

  lemma NotCounting(s: State, step: Step)
    requires Enabled(s, step) && Inv(s) && s.swept
    ensures !step.CountFlight?
  {
    if step.CountFlight? { CounterLocked(s, step); }
  }

  lemma RegistryFlights(s: State, step: Step)
    requires Enabled(s, step) && (step.OpenCommit? || step.Unregister?)
    ensures NextShared(s, step).inFlight == s.inFlight && NextShared(s, step).swept == s.swept
  {}

  lemma SharedFlights(s: State, step: Step)
    requires Enabled(s, step) && !IsLocal(step)
    ensures NextShared(s, step).inFlight == s.inFlight && (s.swept ==> NextShared(s, step).swept)
  {
    if step.OpenCommit? || step.Unregister? { RegistryFlights(s, step); }
  }

  lemma FlightsFall(s: State, step: Step)
    requires Inv(s) && s.swept && Enabled(s, step)
    ensures Next(s, step).swept && Next(s, step).inFlight <= s.inFlight && (s.waited ==> Next(s, step).waited)
  {
    NotCounting(s, step);
    if IsLocal(step) {
      LocalKeepsBooks(s, step.a, EffectOf(s, step));
      FlightOf(s, step);
    } else {
      SharedFlights(s, step);
      SharedWaited(s, step);
    }
  }

  lemma SharedWaited(s: State, step: Step)
    requires Enabled(s, step) && !IsLocal(step)
    ensures s.waited ==> NextShared(s, step).waited
  {}

  /** After Close leaves its critical section no step adds an in-flight lease. */
  lemma NoNewFlights(s: State, step: Step)
    requires Reachable(s) && s.swept && Enabled(s, step)
    ensures Next(s, step).swept && Next(s, step).inFlight <= s.inFlight
  {
    ReachableInv(s);
    FlightsFall(s, step);
  }

  /** Close has left its critical section and the wait group is down to zero; `waited` adds that its wait returned. */
  predicate Drained(s: State, waited: bool) {
    s.swept && s.inFlight == 0 && (waited ==> s.waited)
  }

  lemma DrainedStays(s: State, t: State, step: Step, waited: bool)
    requires Inv(s) && Drained(s, waited) && Enabled(s, step) && t == Next(s, step) && t.inFlight >= 0
    ensures Drained(t, waited)
  {
    FlightsFall(s, step);
  }

  lemma CountedFlights(t: State)
    requires Inv(t)
    ensures t.inFlight >= 0
  {}

  lemma {:induction false} DrainedForever(steps: seq<Step>, n: nat, waited: bool)
    requires n <= |steps| && Exec(steps).Some? && Exec(steps[..n]).Some? && Drained(Exec(steps[..n]).value, waited)
    ensures Drained(Exec(steps).value, waited)
  {
    if n < |steps| {
      var init := steps[..|steps| - 1];
      assert init[..n] == steps[..n];
      DrainedForever(init, n, waited);
      RunKept(init);
      RunKept(steps);
      CountedFlights(Exec(steps).value);
      DrainedStays(Exec(init).value, Exec(steps).value, steps[|steps| - 1], waited);
    } else {
      assert steps[..n] == steps;
    }
  }

  /** Every pool is retired and has no session left, idle or leased. */
  ghost predicate Emptied(t: State) {
    forall p <- t.pools :: t.pools[p].retired && t.pools[p].idle == [] && t.pools[p].sessions == map[]
  }

  /**
    From the moment the wait group is down to zero after Close's critical
    section, every later state of the run has no request holding an upstream
    session; once Close's own wait has returned, every pool of every later state
    is retired and has no session left.
  */
  lemma ClosedMeansNoSessions(steps: seq<Step>, n: nat)
    requires n <= |steps| && Exec(steps).Some? && Exec(steps[..n]).Some? && Drained(Exec(steps[..n]).value, false)
    ensures var t := Exec(steps).value;
            && t.inFlight == 0
            && (forall a <- t.actors :: Holding(t.actors[a].pc).None?)
            && (Exec(steps[..n]).value.waited ==> t.waited && Emptied(t))
  {
    var t := Exec(steps).value;
    DrainedForever(steps, n, Exec(steps[..n]).value.waited);
    RunKept(steps);
    NoFlightActors(t.actors);
    if t.waited { WaitedIsEmpty(t); }
  }

  lemma WaitedIsEmpty(t: State)
    requires Inv(t) && t.waited && forall a <- t.actors :: !HoldsFlight(t.actors[a].pc)
    ensures Emptied(t)
  {
    forall p <- t.pools ensures t.pools[p].idle == [] && t.pools[p].sessions == map[] {
      NoFlightsNoSessions(t, p);
    }
  }

  lemma NoFlightActors(actors: map<nat, Actor>)
    requires Count(actors, Flight) == 0
    ensures forall a <- actors :: !HoldsFlight(actors[a].pc)
  {
    assert forall a <- actors | HoldsFlight(actors[a].pc) :: a in Members(actors, Flight);
  }

  lemma NoFlightsNoSessions(s: State, p: nat)
    requires Owned(s) && Lifecycle(s) && p in s.pools && s.pools[p].retired
    requires forall a <- s.actors :: !HoldsFlight(s.actors[a].pc)
    ensures s.pools[p].idle == [] && s.pools[p].sessions == map[]
  {
    assert PoolLifecycle(s, p);
    assert s.pools[p].sessions.Keys == {} by {
      forall x | x in s.pools[p].sessions ensures false { SessionHasOwner(s, p, x); }
    }
  }

  /** A session on the books is idle, or in flight with an actor. */
  lemma SessionHasOwner(s: State, p: nat, x: Session)
    requires Owned(s) && p in s.pools && x in s.pools[p].sessions
    ensures x in s.pools[p].idle || exists a <- s.actors :: HoldsFlight(s.actors[a].pc)
  {
    assert PoolSessions(s, p);
    assert OwnedBy(s, x, p) && PlaceOk(s, x);
  }
}
