/** The steps under Gateway.mu that register, forget or sweep pools keep the invariant. */
module LeaseRegistry {
  import opened Wrappers
  import opened SessionPool
  import opened LeaseProtocol
  import opened LeaseInvariant
  import opened LeaseProofs

  lemma CancelKept(s: State)
    requires Inv(s) && Enabled(s, GatewayCancel)
    ensures Inv(NextShared(s, GatewayCancel))
  {
    var s' := s.(canceled := true);
    CancelShape(s);
    BooksAllSame(s, s');
    SharedSame(s, s');
    CancelRegistered(s);
  }

  lemma CancelShape(s: State)
    requires Shape(s)
    ensures Shape(s.(canceled := true))
  {
    var s' := s.(canceled := true);
    forall a <- s'.actors ensures ActorOk(s', s'.actors[a]) { assert ActorOk(s, s.actors[a]); }
  }

  lemma CancelRegistered(s: State)
    requires LiveRegistered(s)
    ensures LiveRegistered(s.(canceled := true))
  {
    ClosersSame(s, s.(canceled := true));
  }

  /** Pending forced closes read only the actors and the set of pools still to close. */
  lemma ClosersSame(s: State, s': State)
    requires s'.actors == s.actors && s'.toClose == s.toClose
    ensures forall p :: ForcedClosePending(s, p) ==> ForcedClosePending(s', p)
  {}

  lemma PlacesSame(s: State, s': State)
    requires s'.pools == s.pools && s'.actors == s.actors && s'.custody == s.custody && Owned(s)
    ensures forall x <- s'.custody :: PlaceOk(s', x)
  {
    forall x <- s'.custody ensures PlaceOk(s', x) { assert PlaceOk(s, x); }
  }

  /** Counts, ownership and lifecycle when pools, actors, providers and custody stay. */
  lemma BooksAllSame(s: State, s': State)
    requires s'.pools == s.pools && s'.actors == s.actors && s'.custody == s.custody
    requires s'.unregistered == s.unregistered
    requires s'.providers == s.providers && s'.inFlight == s.inFlight
    requires CountsExact(s) && Owned(s) && Lifecycle(s)
    ensures CountsExact(s') && Owned(s') && Lifecycle(s')
  {
    PlacesSame(s, s');
    forall p <- s'.pools ensures PoolSessions(s', p) && PoolLifecycle(s', p) {
      assert PoolSessions(s, p) && PoolLifecycle(s, p);
      BooksSame(s, s', p);
    }
  }

  /** Books and lifecycle read only pools, actors, custody and the set of forgotten pools. */
  lemma BooksSame(s: State, s': State, p: nat)
    requires s'.pools == s.pools && s'.actors == s.actors && s'.custody == s.custody
    requires s'.unregistered == s.unregistered
    requires p in s.pools && PoolSessions(s, p) && PoolLifecycle(s, p)
    ensures PoolSessions(s', p) && PoolLifecycle(s', p)
  {
    forall x <- s.pools[p].sessions ensures OwnedBy(s', x, p) { assert OwnedBy(s, x, p); }
    if CheckPending(s, p) {
      var b :| b in s.actors && s.actors[b].pool == p && s.actors[b].pc.Checking?;
      assert b in s'.actors && s'.actors[b].pool == p && s'.actors[b].pc.Checking?;
    }
  }

  lemma SweepKept(s: State)
    requires Inv(s) && Enabled(s, GatewaySweep)
    ensures Inv(NextShared(s, GatewaySweep))
  {
    var s' := NextShared(s, GatewaySweep);
    OthersSame(s, s');
    forall p <- s'.pools | !s'.pools[p].retired ensures ForcedClosePending(s', p) {
      assert s.httpPools[s.pools[p].key] in s.httpPools.Values;
    }
  }

  /** Everything but registration is the same when only the registry of keys, the sweep and the wait change. */
  lemma OthersSame(s: State, s': State)
    requires Inv(s)
    requires s' == s.(httpPools := s'.httpPools, toClose := s'.toClose, swept := s'.swept, waited := s'.waited)
    requires s'.httpPools == s.httpPools || s'.httpPools == map[]
    requires s'.toClose <= s.pools.Keys
    ensures Shape(s') && CountsExact(s') && Owned(s') && Lifecycle(s') && Shared(s')
  {
    OthersShape(s, s');
    BooksAllSame(s, s');
    SharedSame(s, s');
  }

  lemma OthersShape(s: State, s': State)
    requires Shape(s)
    requires s' == s.(httpPools := s'.httpPools, toClose := s'.toClose, swept := s'.swept, waited := s'.waited)
    requires s'.httpPools == s.httpPools || s'.httpPools == map[]
    requires s'.toClose <= s.pools.Keys
    ensures Shape(s')
  {
    forall a <- s'.actors ensures ActorOk(s', s'.actors[a]) { assert ActorOk(s, s.actors[a]); }
  }

  lemma CloserArrives(s: State, a: nat, pool: nat)
    requires Inv(s) && a !in s.actors && pool in s.pools
    ensures Inv(Apply(s, a, CloserEffect(s, pool)))
  {
    var e := CloserEffect(s, pool);
    FactsHold(s, a);
    CloserObliged(s, a, pool);
    AppliedKept(s, a, e);
  }

  lemma CloserObliged(s: State, a: nat, pool: nat)
    requires Shape(s) && LocalFacts(s, a) && a !in s.actors && pool in s.pools
    ensures Obliged(s, a, CloserEffect(s, pool))
  {}

  lemma ClosePoolRegistered(t: State, a: nat, pool: nat)
    requires LiveRegistered(t) && t.swept && a in t.actors && t.actors[a].pool == pool
    requires t.actors[a].pc == Canceling(true)
    ensures LiveRegistered(t.(toClose := t.toClose - {pool}))
  {
    var s' := t.(toClose := t.toClose - {pool});
    forall p <- s'.pools | !s'.pools[p].retired ensures ForcedClosePending(s', p) {
      assert ForcedClosePending(t, p);
      if p == pool {
        assert a in s'.actors && s'.actors[a].pool == p && s'.actors[a].pc == Canceling(true);
      } else if p !in t.toClose {
        var b :| b in t.actors && t.actors[b].pool == p
            && (t.actors[b].pc == Canceling(true) || t.actors[b].pc == Retiring(true));
        assert b in s'.actors && s'.actors[b].pool == p
            && (s'.actors[b].pc == Canceling(true) || s'.actors[b].pc == Retiring(true));
      }
    }
  }

  lemma ClosePoolKept(s: State, a: nat, pool: nat)
    requires Inv(s) && Enabled(s, GatewayClosePool(a, pool))
    ensures Inv(NextShared(s, GatewayClosePool(a, pool)))
  {
    CloserArrives(s, a, pool);
    var t := Apply(s, a, CloserEffect(s, pool));
    OthersSame(t, NextShared(s, GatewayClosePool(a, pool)));
    ClosePoolRegistered(t, a, pool);
  }

  lemma WaitKept(s: State)
    requires Inv(s) && Enabled(s, GatewayWait)
    ensures Inv(NextShared(s, GatewayWait))
  {
    OthersSame(s, s.(waited := true));
    WaitRegistered(s);
  }

  lemma WaitRegistered(s: State)
    requires LiveRegistered(s) && Enabled(s, GatewayWait)
    ensures LiveRegistered(s.(waited := true))
  {
    ClosersSame(s, s.(waited := true));
    assert forall p <- s.pools | !s.pools[p].retired :: ForcedClosePending(s, p);
  }

  // ---- Registering a pool ----

  lemma OpenObliged(s: State, step: Step)
    requires step.OpenCommit? && LocalFacts(s, step.a) && Enabled(s, step)
    ensures Obliged(s, step.a, RegistryEffect(s, step))
  {}

  lemma OpenActorKept(s: State, step: Step)
    requires Inv(s) && step.OpenCommit? && Enabled(s, step)
    ensures Inv(Apply(s, step.a, RegistryEffect(s, step)))
  {
    hide Inv, Obliged, Enabled;
    FactsHold(s, step.a);
    OpenObliged(s, step);
    AppliedKept(s, step.a, RegistryEffect(s, step));
  }

  /** What the section that adds a pool may rely on. */
  ghost predicate Addable(s: State, key: Key, pool: nat, provider: nat) {
    && pool !in s.pools && !s.swept && !s.waited && s.lock.None?
    && (if key.row in s.httpProviders then provider == s.httpProviders[key.row] && provider in s.providers
        else provider !in s.providers)
    && (key in s.httpPools ==> s.httpPools[key] in s.pools && s.pools[s.httpPools[key]].retired)
  }

  lemma AddKept(s: State, key: Key, pool: nat, provider: nat)
    requires Inv(s) && Addable(s, key, pool, provider)
    ensures Inv(AddPool(s, key, pool, provider))
  {
    AddShape(s, key, pool, provider);
    AddRegistered(s, key, pool, provider);
    AddCounts(s, key, pool, provider);
    AddOwned(s, key, pool, provider);
    AddLifecycle(s, key, pool, provider);
    AddShared(s, key, pool, provider);
  }

  lemma AddRegistered(s: State, key: Key, pool: nat, provider: nat)
    requires Shape(s) && LiveRegistered(s) && Addable(s, key, pool, provider)
    ensures LiveRegistered(AddPool(s, key, pool, provider))
  {
    assert forall a <- s.actors :: !HoldsLock(s.actors[a].pc);
  }

  lemma AddShape(s: State, key: Key, pool: nat, provider: nat)
    requires Shape(s) && Addable(s, key, pool, provider)
    ensures Shape(AddPool(s, key, pool, provider))
  {
    var s' := AddPool(s, key, pool, provider);
    forall a <- s'.actors ensures ActorOk(s', s'.actors[a]) { assert ActorOk(s, s.actors[a]); }
  }

  /** No actor belongs to a pool or provider that does not exist yet. */
  lemma NoMembers(s: State, kind: Kind)
    requires Shape(s)
    requires kind.SlotOf? || kind.LeaseOf? || kind.CleanupOf?
    requires if kind.SlotOf? then kind.provider !in s.providers else kind.pool !in s.pools
    ensures Count(s.actors, kind) == 0
  {
    assert forall a <- s.actors :: ActorOk(s, s.actors[a]);
    assert Members(s.actors, kind) == {};
  }

  lemma AddCounts(s: State, key: Key, pool: nat, provider: nat)
    requires Shape(s) && CountsExact(s) && Addable(s, key, pool, provider)
    ensures CountsExact(AddPool(s, key, pool, provider))
  {
    NoMembers(s, LeaseOf(pool));
    if provider !in s.providers { NoMembers(s, SlotOf(provider)); }
    AddCounted(s, key, pool, provider);
  }

  lemma AddCounted(s: State, key: Key, pool: nat, provider: nat)
    requires CountsExact(s) && Addable(s, key, pool, provider)
    requires Count(s.actors, LeaseOf(pool)) == 0
    requires (provider !in s.providers ==> Count(s.actors, SlotOf(provider)) == 0)
    ensures CountsExact(AddPool(s, key, pool, provider))
  {}

  lemma AddOwned(s: State, key: Key, pool: nat, provider: nat)
    requires Owned(s) && Addable(s, key, pool, provider)
    ensures Owned(AddPool(s, key, pool, provider))
  {
    var s' := AddPool(s, key, pool, provider);
    forall x <- s'.custody ensures PlaceOk(s', x) { assert PlaceOk(s, x); }
    forall p <- s'.pools ensures PoolSessions(s', p) {
      if p != pool {
        assert PoolSessions(s, p);
        forall x <- s'.pools[p].sessions ensures OwnedBy(s', x, p) { assert OwnedBy(s, x, p); }
      }
    }
  }

  lemma AddLifecycle(s: State, key: Key, pool: nat, provider: nat)
    requires Shape(s) && Lifecycle(s) && Addable(s, key, pool, provider)
    ensures Lifecycle(AddPool(s, key, pool, provider))
  {
    var s' := AddPool(s, key, pool, provider);
    NoMembers(s, CleanupOf(pool));
    forall p <- s'.pools ensures PoolLifecycle(s', p) {
      if p != pool {
        assert PoolLifecycle(s, p);
        if CheckPending(s, p) {
          var b :| b in s.actors && s.actors[b].pool == p && s.actors[b].pc.Checking?;
          assert b in s'.actors && s'.actors[b].pool == p && s'.actors[b].pc.Checking?;
        }
      }
    }
  }

  lemma AddShared(s: State, key: Key, pool: nat, provider: nat)
    requires Shape(s) && Shared(s) && Addable(s, key, pool, provider)
    ensures Shared(AddPool(s, key, pool, provider))
  {
    hide Remaining;
    var s' := AddPool(s, key, pool, provider);
    forall v <- s'.providers ensures s'.providers[v].pools == |Remaining(s', v)| {
      AddRemaining(s, key, pool, provider, v);
    }
    forall p <- s'.pools | p !in s'.unregistered
      ensures s'.pools[p].key.row in s'.httpProviders && s'.httpProviders[s'.pools[p].key.row] == s'.pools[p].provider
    {
      AddServed(s, key, pool, provider, p);
    }
  }

  lemma AddServed(s: State, key: Key, pool: nat, provider: nat, p: nat)
    requires Shared(s) && Addable(s, key, pool, provider)
    requires var s' := AddPool(s, key, pool, provider); p in s'.pools && p !in s'.unregistered
    ensures var s' := AddPool(s, key, pool, provider);
            s'.pools[p].key.row in s'.httpProviders && s'.httpProviders[s'.pools[p].key.row] == s'.pools[p].provider
  {
    hide Remaining;
  }

  lemma AddRemaining(s: State, key: Key, pool: nat, provider: nat, v: nat)
    requires Shape(s) && Addable(s, key, pool, provider)
    ensures Remaining(AddPool(s, key, pool, provider), v) == Remaining(s, v) + if v == provider then {pool} else {}
    ensures pool !in Remaining(s, v)
    ensures v !in s.providers ==> Remaining(s, v) == {}
  {}

  lemma OpenKept(s: State, step: Step)
    requires Inv(s) && step.OpenCommit? && Enabled(s, step)
    ensures Inv(NextShared(s, step))
  {
    OpenActorKept(s, step);
    var t := Apply(s, step.a, RegistryEffect(s, step));
    assert HoldsLock(s.actors[step.a].pc) <==> s.lock == Some(step.a);
    AddKept(t, s.actors[step.a].pc.key, step.pool, step.provider);
  }

  // ---- Forgetting a pool ----

  /** Actor `a` is about to take pool `p` out of the registries and moves on by `e`. */
  ghost predicate Dropping(s: State, a: nat, e: Effect, p: nat) {
    && a in s.actors && s.actors[a].pc.Unregistering? && s.actors[a].pool == p
    && p in s.pools && s.pools[p].provider in s.providers
    && e == Goto(s, a, if s.actors[a].pc.counted then Signalling else Done)
  }

  lemma DropObliged(s: State, a: nat, e: Effect, p: nat)
    requires LocalFacts(s, a) && Dropping(s, a, e, p)
    ensures ShapeEffect(s, a, e) && CountEffect(s, a, e) && OwnEffect(s, a, e)
  {}

  lemma DropActorParts(s: State, a: nat, e: Effect, p: nat)
    requires Inv(s) && Dropping(s, a, e, p)
    ensures var t := Apply(s, a, e); Shape(t) && CountsExact(t) && Owned(t) && Shared(t)
  {
    FactsHold(s, a);
    DropObliged(s, a, e, p);
    ShapeLocal(s, a, e);
    CountedLocal(s, a, e);
    OwnedLocal(s, a, e);
    SharedLocal(s, a, e);
  }

  lemma DropLeavesClosers(s: State, a: nat, e: Effect, p: nat)
    requires LiveRegistered(s) && Dropping(s, a, e, p)
    ensures LiveRegistered(Apply(s, a, e))
  {
    var t := Apply(s, a, e);
    forall q <- t.pools | !t.pools[q].retired && t.swept ensures ForcedClosePending(t, q) {
      assert ForcedClosePending(s, q);
      if q !in s.toClose {
        var b :| b in s.actors && s.actors[b].pool == q
            && (s.actors[b].pc == Canceling(true) || s.actors[b].pc == Retiring(true));
        assert b in t.actors && t.actors[b].pool == q
            && (t.actors[b].pc == Canceling(true) || t.actors[b].pc == Retiring(true));
      }
    }
  }

  /** The one cleanup of a pool runs on a retired pool that is still in the registries' books. */
  lemma CleanupOwner(s: State, a: nat)
    requires Inv(s) && a in s.actors && s.actors[a].pc.Unregistering? && s.actors[a].pool in s.pools
    ensures s.pools[s.actors[a].pool].retired && s.pools[s.actors[a].pool].forgotten
    ensures s.actors[a].pool !in s.unregistered
    ensures Count(s.actors, CleanupOf(s.actors[a].pool)) == 1
  {
    assert PoolLifecycle(s, s.actors[a].pool);
    MemberCounts(s.actors, a, CleanupOf(s.actors[a].pool));
  }

  lemma DropLifecycle(s: State, a: nat, e: Effect, p: nat)
    requires Lifecycle(s) && Dropping(s, a, e, p)
    requires s.pools[p].forgotten && p !in s.unregistered
    ensures Lifecycle(DropPool(Apply(s, a, e), p))
  {
    var s' := DropPool(Apply(s, a, e), p);
    CountStep(s.actors, a, e.actor);
    forall q <- s'.pools ensures PoolLifecycle(s', q) {
      assert PoolLifecycle(s, q);
      assert Count(s'.actors, CleanupOf(q))
          == Count(s.actors, CleanupOf(q)) + Delta(s.actors, a, e.actor, CleanupOf(q));
      if CheckPending(s, q) {
        var b :| b in s.actors && s.actors[b].pool == q && s.actors[b].pc.Checking?;
        assert b in s'.actors && s'.actors[b].pool == q && s'.actors[b].pc.Checking?;
      }
    }
  }

  lemma DropShared(s: State, p: nat)
    requires Shape(s) && Shared(s) && p in s.pools && p !in s.unregistered
    ensures Shared(DropPool(s, p))
  {
    var s', v := DropPool(s, p), s.pools[p].provider;
    assert p in Remaining(s, v);
    forall w <- s'.providers ensures s'.providers[w].pools == |Remaining(s', w)| {
      assert Remaining(s', w) == Remaining(s, w) - {p};
    }
    forall q <- s'.pools | q !in s'.unregistered
      ensures s'.pools[q].key.row in s'.httpProviders && s'.httpProviders[s'.pools[q].key.row] == s'.pools[q].provider
    {
      if s'.pools[q].provider == v {
        assert q in Remaining(s', v);
      }
    }
  }

  lemma DropShape(s: State, p: nat)
    requires Shape(s) && p in s.pools
    ensures Shape(DropPool(s, p))
  {
    var s' := DropPool(s, p);
    forall a <- s'.actors ensures ActorOk(s', s'.actors[a]) { assert ActorOk(s, s.actors[a]); }
  }

  lemma DropCounts(s: State, p: nat)
    requires CountsExact(s) && p in s.pools && s.pools[p].provider in s.providers
    ensures CountsExact(DropPool(s, p))
  {}

  lemma DropOwned(s: State, p: nat)
    requires Owned(s) && p in s.pools && s.pools[p].provider in s.providers
    ensures Owned(DropPool(s, p))
  {
    var s' := DropPool(s, p);
    PlacesSame(s, s');
    forall q <- s'.pools ensures PoolSessions(s', q) {
      assert PoolSessions(s, q);
      forall x <- s'.pools[q].sessions ensures OwnedBy(s', x, q) { assert OwnedBy(s, x, q); }
    }
  }

  lemma DropRegistered(s: State, p: nat)
    requires LiveRegistered(s) && p in s.pools && s.pools[p].retired && s.pools[p].provider in s.providers
    ensures LiveRegistered(DropPool(s, p))
  {
    var s' := DropPool(s, p);
    forall q <- s'.pools | !s'.pools[q].retired && s'.swept ensures ForcedClosePending(s', q) {
      assert ForcedClosePending(s, q);
      if q !in s.toClose {
        var b :| b in s.actors && s.actors[b].pool == q
            && (s.actors[b].pc == Canceling(true) || s.actors[b].pc == Retiring(true));
        assert b in s'.actors && s'.actors[b].pool == q
            && (s'.actors[b].pc == Canceling(true) || s'.actors[b].pc == Retiring(true));
      }
    }
  }

  lemma DropKept(s: State, a: nat, e: Effect, p: nat)
    requires Inv(s) && Dropping(s, a, e, p)
    ensures Inv(DropPool(Apply(s, a, e), p))
  {
    var t := Apply(s, a, e);
    CleanupOwner(s, a);
    DropActorParts(s, a, e, p);
    DropLeavesClosers(s, a, e, p);
    DropShared(t, p);
    DropShape(t, p);
    DropCounts(t, p);
    DropOwned(t, p);
    DropRegistered(t, p);
    DropLifecycle(s, a, e, p);
  }

  lemma UnregisterKept(s: State, step: Step)
    requires Inv(s) && step.Unregister? && Enabled(s, step)
    ensures Inv(NextShared(s, step))
  {
    DropKept(s, step.a, RegistryEffect(s, step), s.actors[step.a].pool);
  }

  // ---- The invariant over runs ----

  lemma RegistryStepKept(s: State, step: Step)
    requires Inv(s) && Enabled(s, step) && (step.OpenCommit? || step.Unregister?)
    ensures Inv(NextShared(s, step))
  {
    if step.OpenCommit? { OpenKept(s, step); } else { UnregisterKept(s, step); }
  }

  lemma GatewayStepKept(s: State, step: Step)
    requires Inv(s) && Enabled(s, step) && (step.GatewayCancel? || step.GatewaySweep? || step.GatewayWait?)
    ensures Inv(NextShared(s, step))
  {
    match step
    case GatewayCancel => CancelKept(s);
    case GatewaySweep => SweepKept(s);
    case GatewayWait => WaitKept(s);
  }

  lemma SharedStepKept(s: State, step: Step)
    requires Inv(s) && Enabled(s, step) && !IsLocal(step)
    ensures Inv(NextShared(s, step))
  {
    if step.OpenCommit? || step.Unregister? {
      RegistryStepKept(s, step);
    } else if step.GatewayClosePool? {
      ClosePoolKept(s, step.a, step.pool);
    } else {
      GatewayStepKept(s, step);
    }
  }

  /** Every step keeps the invariant. */
  lemma StepKept(s: State, step: Step)
    requires Inv(s) && Enabled(s, step)
    ensures Inv(Next(s, step))
  {
    if IsLocal(step) { LocalKept(s, step); } else { SharedStepKept(s, step); }
  }

  lemma {:induction false} RunKept(steps: seq<Step>)
    ensures Exec(steps).Some? ==> Inv(Exec(steps).value)
  {
    if steps == [] {
      assert Members(Initial.actors, Flight) == {};
    } else {
      RunKept(steps[..|steps| - 1]);
      if Exec(steps).Some? {
        StepKept(Exec(steps[..|steps| - 1]).value, steps[|steps| - 1]);
      }
    }
  }

  lemma ReachableInv(s: State)
    requires Reachable(s)
    ensures Inv(s)
  {
    var steps :| Exec(steps) == Some(s);
    RunKept(steps);
  }
}
