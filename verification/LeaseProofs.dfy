/**
  The invariant is inductive. A step of one actor is judged by its effect
  alone: scalar obligations on the effect imply that every quantified part of
  the invariant is kept.
*/
module LeaseProofs {
  import opened Wrappers
  import opened SessionPool
  import opened LeaseProtocol
  import opened LeaseInvariant

  // ---- Obligations on the effect of a local step ----

  function OldPc(s: State, a: nat): Pc {
    if a in s.actors then s.actors[a].pc else Done
  }

  function OldPool(s: State, e: Effect): Pool {
    if e.actor.pool in s.pools then s.pools[e.actor.pool] else NewPool(Key(0, 0), 0)
  }

  function PoolAfter(s: State, e: Effect): Pool {
    if e.pool.Some? then e.pool.value else OldPool(s, e)
  }

  function Bit(b: bool): int {
    if b then 1 else 0
  }

  /** Identity, lock and frame. */
  ghost predicate ShapeEffect(s: State, a: nat, e: Effect) {
    && ActorOk(s, e.actor)
    && (a in s.actors && !s.actors[a].pc.Opening?
        ==> e.actor.pool == s.actors[a].pool && e.actor.provider == s.actors[a].provider)
    && (HoldsLock(e.actor.pc) <==> e.lock == Some(a))
    && (e.lock == s.lock || (s.lock in {None, Some(a)} && e.lock in {None, Some(a)}))
    && (e.pool.Some? ==> e.actor.pool in s.pools
                         && e.pool.value.key == s.pools[e.actor.pool].key
                         && e.pool.value.provider == s.pools[e.actor.pool].provider)
    && (e.slots != 0 ==> e.actor.provider in s.providers)
  }

  /** Counters move with the actor. */
  ghost predicate CountEffect(s: State, a: nat, e: Effect) {
    var before, after := OldPc(s, a), e.actor.pc;
    && PoolAfter(s, e).leases == OldPool(s, e).leases + Bit(HoldsLease(after)) - Bit(HoldsLease(before))
    && e.slots == Bit(HoldsSlot(after)) - Bit(HoldsSlot(before))
    && (e.slots == 1 ==> e.actor.provider in s.providers && s.providers[e.actor.provider].slots < SLOTS)
    && e.flight == Bit(HoldsFlight(after)) - Bit(HoldsFlight(before))
  }

  /** How the pool's books follow one session moving between the idle stack and an actor's hands. */
  ghost predicate BookStep(p: Pool, q: Pool, written: bool, t: Transfer, me: nat, home: nat, before: Pc, after: Pc) {
    match t
    case Stay =>
      && Holding(after) == Holding(before) && q.idle == p.idle
      && ((q.sessions == p.sessions && Recorded(after) == Recorded(before) && Attached(after) == Attached(before))
          || (Holding(after).Some? && Attached(after) && written
              && q.sessions == p.sessions[Holding(after).value := true]))
    case Give(x, Held(b)) =>
      && b == me && Holding(before) == None && Holding(after) == Some(x) && !Attached(after) && q.sessions == p.sessions
      && if Recorded(after) then written && p.idle == q.idle + [x] else q.idle == p.idle
    case Give(x, Gone) =>
      && Holding(before) == Some(x) && Holding(after) == None && written && q.idle == p.idle
          && q.sessions == p.sessions - {x}
    case Give(x, Idle(h)) =>
      && h == home && Holding(before) == Some(x) && Recorded(before) && Holding(after) == None
      && written && q.idle == p.idle + [x] && q.sessions == p.sessions[x := false]
    case EvictIdle =>
      && Holding(before) == None && Holding(after) == None
      && written && q.idle == [] && q.sessions == p.sessions - (set x <- p.idle)
  }

  /** Sessions change hands one at a time; a connection that is not on the books yet is new. */
  ghost predicate OwnEffect(s: State, a: nat, e: Effect) {
    && BookStep(OldPool(s, e), PoolAfter(s, e), e.pool.Some?, e.transfer, a, e.actor.pool, OldPc(s, a), e.actor.pc)
    && (e.transfer.Give? && e.transfer.to.Held? && !Recorded(e.actor.pc) ==> e.transfer.session !in s.custody)
  }

  /** Retirement, forgetting and the pending check. */
  ghost predicate LifeEffect(s: State, a: nat, e: Effect) {
    var before, after := OldPc(s, a), e.actor.pc;
    var p, p' := OldPool(s, e), PoolAfter(s, e);
    && (e.pool.Some? ==>
          && (p.retired ==> p'.retired)
          && (p'.retired ==> p'.idle == [])
          && (p.forgotten ==> p'.forgotten)
          && (p'.forgotten ==> p'.retired && p'.leases == 0))
    && Bit(after.Unregistering?) - Bit(before.Unregistering?) == Bit(p'.forgotten) - Bit(p.forgotten)
    && (p'.retired && p'.leases == 0 && !p'.forgotten ==>
          after.Checking? || (p.retired && p.leases == 0 && !p.forgotten && !before.Checking?))
  }

  /** Registration and the gateway's shutdown. */
  ghost predicate RegEffect(s: State, a: nat, e: Effect) {
    var before, after := OldPc(s, a), e.actor.pc;
    && (before == Canceling(true) ==> after == before || after == Retiring(true))
    && (before == Retiring(true) ==> after == before || (e.pool.Some? && e.pool.value.retired))
    && (after.Opening? && after.key in s.httpPools
        ==> s.httpPools[after.key] in s.pools && s.pools[s.httpPools[after.key]].retired)
    && (s.swept ==> e.lock.None?)
    && (s.waited ==> e.flight == 0)
  }

  ghost predicate Obliged(s: State, a: nat, e: Effect) {
    ShapeEffect(s, a, e) && CountEffect(s, a, e) && OwnEffect(s, a, e) && LifeEffect(s, a, e) && RegEffect(s, a, e)
  }

  // ---- The obligations suffice ----

  lemma ShapeLocal(s: State, a: nat, e: Effect)
    requires Shape(s) && ShapeEffect(s, a, e)
    ensures Shape(Apply(s, a, e))
  {
    var s' := Apply(s, a, e);
    forall b <- s'.actors ensures ActorOk(s', s'.actors[b]) {
      if b != a { assert ActorOk(s, s.actors[b]); }
    }
    forall b <- s'.actors ensures HoldsLock(s'.actors[b].pc) <==> s'.lock == Some(b) {
      if b != a { assert HoldsLock(s.actors[b].pc) <==> s.lock == Some(b); }
    }
  }

  /** One kind of count after replacing one actor. */
  lemma CountOne(actors: map<nat, Actor>, a: nat, actor: Actor, kind: Kind)
    ensures Count(actors[a := actor], kind) == Count(actors, kind) + Delta(actors, a, actor, kind)
  {
    CountStep(actors, a, actor);
  }

  lemma SlotsLocal(s: State, a: nat, e: Effect, v: nat)
    requires ShapeEffect(s, a, e) && CountEffect(s, a, e) && v in s.providers
    requires s.providers[v].slots == Count(s.actors, SlotOf(v)) <= SLOTS
    requires a in s.actors ==> ActorOk(s, s.actors[a])
    ensures Apply(s, a, e).providers[v].slots == Count(Apply(s, a, e).actors, SlotOf(v)) <= SLOTS
  {
    CountOne(s.actors, a, e.actor, SlotOf(v));
  }

  lemma LeasesLocal(s: State, a: nat, e: Effect, p: nat)
    requires ShapeEffect(s, a, e) && CountEffect(s, a, e) && p in s.pools
    requires s.pools[p].leases == Count(s.actors, LeaseOf(p))
    requires a in s.actors ==> ActorOk(s, s.actors[a])
    ensures Apply(s, a, e).pools[p].leases == Count(Apply(s, a, e).actors, LeaseOf(p))
  {
    CountOne(s.actors, a, e.actor, LeaseOf(p));
  }

  lemma CountedLocal(s: State, a: nat, e: Effect)
    requires Shape(s) && CountsExact(s) && ShapeEffect(s, a, e) && CountEffect(s, a, e)
    ensures CountsExact(Apply(s, a, e))
  {
    var s' := Apply(s, a, e);
    forall v <- s'.providers ensures s'.providers[v].slots == Count(s'.actors, SlotOf(v)) <= SLOTS {
      SlotsLocal(s, a, e, v);
    }
    forall p <- s'.pools ensures s'.pools[p].leases == Count(s'.actors, LeaseOf(p)) {
      LeasesLocal(s, a, e, p);
    }
    CountStep(s.actors, a, e.actor);
    assert Count(s'.actors, Flight) == Count(s.actors, Flight) + Delta(s.actors, a, e.actor, Flight);
  }

  lemma LifecycleLocal(s: State, a: nat, e: Effect)
    requires Shape(s) && Lifecycle(s) && ShapeEffect(s, a, e) && LifeEffect(s, a, e)
    ensures Lifecycle(Apply(s, a, e))
  {
    hide ActorOk, HoldsLock, HoldsLease, HoldsSlot, HoldsFlight;
    var s' := Apply(s, a, e);
    CountStep(s.actors, a, e.actor);
    forall p <- s'.pools ensures PoolLifecycle(s', p) {
      assert PoolLifecycle(s, p);
      assert Count(s'.actors, CleanupOf(p))
          == Count(s.actors, CleanupOf(p)) + Delta(s.actors, a, e.actor, CleanupOf(p));
      var pool := s'.pools[p];
      if pool.retired && pool.leases == 0 && !pool.forgotten {
        if p == e.actor.pool && e.actor.pc.Checking? {
          assert a in s'.actors;
        } else {
          var b :| b in s.actors && s.actors[b].pool == p && s.actors[b].pc.Checking?;
          assert b in s'.actors && s'.actors[b].pool == p && s'.actors[b].pc.Checking?;
        }
        assert CheckPending(s', p);
      }
    }
  }

  lemma RemainingSame(s: State, t: State, v: nat)
    requires s.pools.Keys == t.pools.Keys && s.unregistered == t.unregistered
    requires forall p <- s.pools :: t.pools[p].provider == s.pools[p].provider
    ensures Remaining(t, v) == Remaining(s, v)
  {
    forall p ensures p in Remaining(t, v) <==> p in Remaining(s, v) {
      assert p in t.pools.Keys <==> p in s.pools.Keys;
    }
  }

  /** A local step keeps every pool's identity and every provider's count of pools. */
  lemma Identity(s: State, a: nat, e: Effect)
    requires e.pool.Some? ==> e.actor.pool in s.pools && e.pool.value.key == s.pools[e.actor.pool].key
                              && e.pool.value.provider == s.pools[e.actor.pool].provider
    ensures var t := Apply(s, a, e);
            && t.pools.Keys == s.pools.Keys && t.providers.Keys == s.providers.Keys
            && (forall p <- s.pools :: t.pools[p].provider == s.pools[p].provider && t.pools[p].key == s.pools[p].key)
            && (forall v <- s.providers :: t.providers[v].pools == s.providers[v].pools)
  {}

  lemma SharedLocal(s: State, a: nat, e: Effect)
    requires Shared(s) && ShapeEffect(s, a, e)
    ensures Shared(Apply(s, a, e))
  {
    Identity(s, a, e);
    SharedSame(s, Apply(s, a, e));
  }

  lemma SharedSame(s: State, t: State)
    requires Shared(s) && s.httpProviders == t.httpProviders && s.unregistered == t.unregistered
    requires s.pools.Keys == t.pools.Keys && s.providers.Keys == t.providers.Keys
    requires forall p <- s.pools :: t.pools[p].provider == s.pools[p].provider && t.pools[p].key == s.pools[p].key
    requires forall v <- s.providers :: t.providers[v].pools == s.providers[v].pools
    ensures Shared(t)
  {
    forall v <- t.providers ensures t.providers[v].pools == |Remaining(t, v)| {
      assert v in s.providers.Keys;
      RemainingSame(s, t, v);
    }
    forall p <- t.pools | p !in t.unregistered
      ensures t.pools[p].key.row in t.httpProviders && t.httpProviders[t.pools[p].key.row] == t.pools[p].provider
    {
      assert p in s.pools.Keys;
    }
  }

  lemma RegisteredLocal(s: State, a: nat, e: Effect)
    requires Shape(s) && LiveRegistered(s) && ShapeEffect(s, a, e) && LifeEffect(s, a, e) && RegEffect(s, a, e)
    ensures LiveRegistered(Apply(s, a, e))
  {
    var s' := Apply(s, a, e);
    forall p <- s'.pools | !s'.pools[p].retired
      ensures if s'.swept then ForcedClosePending(s', p)
              else s'.pools[p].key in s'.httpPools && s'.httpPools[s'.pools[p].key] == p
    {
      assert !s.pools[p].retired;
      if s.swept && p !in s.toClose {
        var b :| b in s.actors && s.actors[b].pool == p
            && (s.actors[b].pc == Canceling(true) || s.actors[b].pc == Retiring(true));
        assert b in s'.actors && s'.actors[b].pool == p
            && (s'.actors[b].pc == Canceling(true) || s'.actors[b].pc == Retiring(true));
      }
    }
  }

  // ---- Session ownership: the books ----

  predicate Moves(t: Transfer, x: Session) {
    t.Give? && t.session == x
  }

  lemma BookIdle(p: Pool, q: Pool, w: bool, t: Transfer, me: nat, home: nat, before: Pc, after: Pc, x: Session)
    requires BookStep(p, q, w, t, me, home, before, after) && !Moves(t, x) && !t.EvictIdle?
    requires Holding(before) != Some(x)
    requires x in p.idle && x in p.sessions && !p.sessions[x]
    ensures x in q.idle && x in q.sessions && !q.sessions[x]
  {}

  lemma BookLeased(p: Pool, q: Pool, w: bool, t: Transfer, me: nat, home: nat, before: Pc, after: Pc, x: Session)
    requires BookStep(p, q, w, t, me, home, before, after) && !Moves(t, x) && Holding(before) != Some(x)
    requires x !in p.idle && x in p.sessions
    ensures x in q.sessions && q.sessions[x] == p.sessions[x]
  {}

  lemma BookOwn(p: Pool, q: Pool, w: bool, t: Transfer, me: nat, home: nat, before: Pc, after: Pc, x: Session)
    requires BookStep(p, q, w, t, me, home, before, after) && !Moves(t, x) && Holding(before) == Some(x)
    requires Recorded(before) ==> x in p.sessions && p.sessions[x] == Attached(before)
    ensures Holding(after) == Some(x) && t.Stay?
    ensures Recorded(after) ==> x in q.sessions && q.sessions[x] == Attached(after)
  {}

  /** A session newly in hand: off the stack, or fresh. */
  lemma BookTaken(p: Pool, q: Pool, w: bool, t: Transfer, me: nat, home: nat, before: Pc, after: Pc, x: Session)
    requires BookStep(p, q, w, t, me, home, before, after) && t.Give? && t.session == x && t.to.Held?
    ensures t.to == Held(me) && Holding(before) == None && Holding(after) == Some(x) && !Attached(after)
    ensures q.sessions == p.sessions
    ensures Recorded(after) ==> w && x in p.idle
  {
    if Recorded(after) {
      assert p.idle[|q.idle|] == x;
    }
  }

  lemma BookReturned(p: Pool, q: Pool, w: bool, t: Transfer, me: nat, home: nat, before: Pc, after: Pc, x: Session)
    requires BookStep(p, q, w, t, me, home, before, after) && t.Give? && t.session == x && t.to.Idle?
    ensures w && t.to == Idle(home) && Holding(before) == Some(x) && x in q.idle && x in q.sessions && !q.sessions[x]
  {
    assert q.idle[|p.idle|] == x;
  }

  /** What is on the stack afterwards was there before, or was put back; what was popped is not. */
  lemma BookStack(p: Pool, q: Pool, w: bool, t: Transfer, me: nat, home: nat, before: Pc, after: Pc)
    requires BookStep(p, q, w, t, me, home, before, after) && NoDuplicates(p.idle)
    requires Holding(before).Some? ==> Holding(before).value !in p.idle
    requires t.Give? && t.to.Held? && !Recorded(after) ==> t.session !in p.idle
    ensures NoDuplicates(q.idle)
    ensures forall x <- q.idle :: if Moves(t, x) then t.to == Idle(home) else x in p.idle && !t.EvictIdle?
  {
    if t.Give? && t.to.Held? && Recorded(after) {
      assert p.idle[|q.idle|] == t.session;
      assert forall i | 0 <= i < |q.idle| :: q.idle[i] == p.idle[i];
    }
  }

  lemma BookSessions(p: Pool, q: Pool, w: bool, t: Transfer, me: nat, home: nat, before: Pc, after: Pc, x: Session)
    requires BookStep(p, q, w, t, me, home, before, after) && x in q.sessions
    ensures x in p.sessions || Moves(t, x) || (Holding(after) == Some(x) && Recorded(after) && t.Stay?)
    ensures Moves(t, x) ==> t.to != Gone
    ensures t.EvictIdle? ==> x !in p.idle
  {}

  // ---- Session ownership: the state ----

  /** The effect leaves session `x` where it is. */
  predicate Untouched(s: State, e: Effect, x: Session) {
    match e.transfer
    case Stay => true
    case Give(y, _) => x != y
    case EvictIdle => x !in s.custody || s.custody[x] != Idle(e.actor.pool)
  }

  /** The parts of the step's shape that ownership needs. */
  ghost predicate SamePlace(s: State, a: nat, e: Effect) {
    && (a in s.actors && !s.actors[a].pc.Opening? ==> e.actor.pool == s.actors[a].pool)
    && (e.pool.Some? ==> e.actor.pool in s.pools)
  }

  lemma CustodyKept(s: State, a: nat, e: Effect, x: Session)
    requires x in s.custody && Untouched(s, e, x)
    ensures x in Apply(s, a, e).custody && Apply(s, a, e).custody[x] == s.custody[x]
  {}

  lemma IdleStays(s: State, a: nat, e: Effect, x: Session, p: nat)
    requires x in s.custody && Untouched(s, e, x) && s.custody[x] == Idle(p) && PlaceOk(s, x) && SamePlace(s, a, e)
    requires p == e.actor.pool && e.pool.Some? ==>
               x in e.pool.value.idle && x in e.pool.value.sessions && !e.pool.value.sessions[x]
    ensures PlaceOk(Apply(s, a, e), x)
  {
    CustodyKept(s, a, e, x);
  }

  lemma HeldElsewhere(s: State, a: nat, e: Effect, x: Session, b: nat)
    requires x in s.custody && Untouched(s, e, x) && s.custody[x] == Held(b) && b != a && PlaceOk(s, x)
    requires SamePlace(s, a, e)
    requires e.pool.Some? && x in s.pools[e.actor.pool].sessions ==>
               x in e.pool.value.sessions && e.pool.value.sessions[x] == s.pools[e.actor.pool].sessions[x]
    ensures PlaceOk(Apply(s, a, e), x)
  {
    CustodyKept(s, a, e, x);
  }

  lemma HeldHere(s: State, a: nat, e: Effect, x: Session)
    requires x in s.custody && Untouched(s, e, x) && s.custody[x] == Held(a) && SamePlace(s, a, e)
    requires Holding(e.actor.pc) == Some(x)
    requires Recorded(e.actor.pc) ==> e.actor.pool in s.pools && x in PoolAfter(s, e).sessions
                                      && PoolAfter(s, e).sessions[x] == Attached(e.actor.pc)
    ensures PlaceOk(Apply(s, a, e), x)
  {
    CustodyKept(s, a, e, x);
  }

  /** The step's own pool, before and after, as its books see it. */
  lemma HolderKnown(s: State, a: nat, x: Session)
    requires Owned(s) && Holding(OldPc(s, a)) == Some(x)
    ensures x in s.custody && s.custody[x] == Held(a) && PlaceOk(s, x)
  {
    assert a in s.actors;
  }

  lemma IdleKnown(s: State, p: nat, x: Session)
    requires Owned(s) && p in s.pools && x in s.pools[p].idle
    ensures x in s.custody && s.custody[x] == Idle(p) && PlaceOk(s, x)
  {
    assert PoolSessions(s, p);
  }

  lemma PlaceUntouched(s: State, a: nat, e: Effect, x: Session)
    requires Owned(s) && SamePlace(s, a, e) && OwnEffect(s, a, e) && x in s.custody && Untouched(s, e, x)
    ensures x in Apply(s, a, e).custody && PlaceOk(Apply(s, a, e), x)
  {
    CustodyKept(s, a, e, x);
    match s.custody[x]
    case Gone =>
    case Idle(p) => IdleUntouched(s, a, e, x, p);
    case Held(b) => if b == a { OwnUntouched(s, a, e, x); } else { HeldUntouched(s, a, e, x, b); }
  }

  lemma IdleUntouched(s: State, a: nat, e: Effect, x: Session, p: nat)
    requires Owned(s) && SamePlace(s, a, e) && OwnEffect(s, a, e)
    requires x in s.custody && Untouched(s, e, x) && s.custody[x] == Idle(p)
    ensures PlaceOk(Apply(s, a, e), x)
  {
    assert PlaceOk(s, x);
    if Holding(OldPc(s, a)) == Some(x) {
      HolderKnown(s, a, x);
    }
    if p == e.actor.pool && e.pool.Some? {
      BookIdle(OldPool(s, e), PoolAfter(s, e), true, e.transfer, a, p, OldPc(s, a), e.actor.pc, x);
    }
    IdleStays(s, a, e, x, p);
  }

  lemma HeldUntouched(s: State, a: nat, e: Effect, x: Session, b: nat)
    requires Owned(s) && SamePlace(s, a, e) && OwnEffect(s, a, e)
    requires x in s.custody && Untouched(s, e, x) && s.custody[x] == Held(b) && b != a
    ensures PlaceOk(Apply(s, a, e), x)
  {
    assert PlaceOk(s, x);
    if Holding(OldPc(s, a)) == Some(x) {
      HolderKnown(s, a, x);
    }
    if e.pool.Some? && x in s.pools[e.actor.pool].sessions {
      if x in s.pools[e.actor.pool].idle {
        IdleKnown(s, e.actor.pool, x);
      }
      BookLeased(OldPool(s, e), PoolAfter(s, e), true, e.transfer, a, e.actor.pool, OldPc(s, a), e.actor.pc, x);
    }
    HeldElsewhere(s, a, e, x, b);
  }

  lemma OwnUntouched(s: State, a: nat, e: Effect, x: Session)
    requires Owned(s) && SamePlace(s, a, e) && OwnEffect(s, a, e)
    requires x in s.custody && Untouched(s, e, x) && s.custody[x] == Held(a)
    ensures PlaceOk(Apply(s, a, e), x)
  {
    assert PlaceOk(s, x);
    BookOwn(OldPool(s, e), PoolAfter(s, e), e.pool.Some?, e.transfer, a, e.actor.pool, OldPc(s, a), e.actor.pc, x);
    HeldHere(s, a, e, x);
  }

  lemma PlaceMoved(s: State, a: nat, e: Effect, x: Session)
    requires Owned(s) && SamePlace(s, a, e) && OwnEffect(s, a, e)
    requires x in Apply(s, a, e).custody && !Untouched(s, e, x)
    ensures PlaceOk(Apply(s, a, e), x)
  {
    if e.transfer.Give? && e.transfer.to.Held? {
      BookTaken(OldPool(s, e), PoolAfter(s, e), e.pool.Some?, e.transfer, a, e.actor.pool, OldPc(s, a), e.actor.pc, x);
      if Recorded(e.actor.pc) {
        IdleKnown(s, e.actor.pool, x);
      }
    } else if e.transfer.Give? && e.transfer.to.Idle? {
      BookReturned(OldPool(s, e), PoolAfter(s, e), e.pool.Some?, e.transfer, a, e.actor.pool, OldPc(s, a), e.actor.pc,
                   x);
    }
  }

  lemma StackKept(s: State, a: nat, e: Effect)
    requires Owned(s) && OwnEffect(s, a, e) && e.actor.pool in s.pools
    ensures NoDuplicates(PoolAfter(s, e).idle)
    ensures forall x <- PoolAfter(s, e).idle ::
              if Moves(e.transfer, x) then e.transfer.to == Idle(e.actor.pool)
                  else x in s.pools[e.actor.pool].idle && !e.transfer.EvictIdle?
  {
    var p := e.actor.pool;
    assert NoDuplicates(s.pools[p].idle) by {
      assert PoolSessions(s, p);
    }
    if Holding(OldPc(s, a)).Some? && Holding(OldPc(s, a)).value in s.pools[p].idle {
      HolderKnown(s, a, Holding(OldPc(s, a)).value);
      IdleKnown(s, p, Holding(OldPc(s, a)).value);
    }
    if e.transfer.Give? && e.transfer.session in s.pools[p].idle {
      IdleKnown(s, p, e.transfer.session);
    }
    BookStack(OldPool(s, e), PoolAfter(s, e), e.pool.Some?, e.transfer, a, p, OldPc(s, a), e.actor.pc);
  }

  lemma StackHere(s: State, a: nat, e: Effect)
    requires Owned(s) && SamePlace(s, a, e) && OwnEffect(s, a, e) && e.actor.pool in s.pools
    ensures NoDuplicates(PoolAfter(s, e).idle)
    ensures forall x <- PoolAfter(s, e).idle ::
              x in Apply(s, a, e).custody && Apply(s, a, e).custody[x] == Idle(e.actor.pool)
  {
    StackKept(s, a, e);
    forall x | x in PoolAfter(s, e).idle
      ensures x in Apply(s, a, e).custody && Apply(s, a, e).custody[x] == Idle(e.actor.pool)
    {
      if !Moves(e.transfer, x) {
        IdleKnown(s, e.actor.pool, x);
      }
    }
  }

  /** A session some actor of the pool holds, or that lies idle in it, stays owned by it unless it moved. */
  lemma OwnedStays(s: State, a: nat, e: Effect, x: Session, p: nat)
    requires OwnedBy(s, x, p) && Untouched(s, e, x) && SamePlace(s, a, e)
    requires s.custody[x] == Held(a) ==> e.actor.pool == p && Recorded(e.actor.pc)
    ensures OwnedBy(Apply(s, a, e), x, p)
  {
    CustodyKept(s, a, e, x);
  }

  lemma SessionHere(s: State, a: nat, e: Effect, x: Session)
    requires Owned(s) && SamePlace(s, a, e) && OwnEffect(s, a, e) && e.actor.pool in s.pools
    requires x in PoolAfter(s, e).sessions
    ensures OwnedBy(Apply(s, a, e), x, e.actor.pool)
  {
    var p := e.actor.pool;
    BookSessions(OldPool(s, e), PoolAfter(s, e), e.pool.Some?, e.transfer, a, p, OldPc(s, a), e.actor.pc, x);
    if Moves(e.transfer, x) {
      MovedHere(s, a, e, x);
    } else if Holding(OldPc(s, a)) == Some(x) {
      HolderKnown(s, a, x);
      BookOwn(OldPool(s, e), PoolAfter(s, e), e.pool.Some?, e.transfer, a, p, OldPc(s, a), e.actor.pc, x);
      OwnRecorded(s, a, e, x);
    } else {
      assert PoolSessions(s, p) && OwnedBy(s, x, p);
      OthersHere(s, a, e, x);
    }
  }

  lemma MovedHere(s: State, a: nat, e: Effect, x: Session)
    requires SamePlace(s, a, e) && OwnEffect(s, a, e) && Moves(e.transfer, x) && e.transfer.to != Gone
    requires x in PoolAfter(s, e).sessions && Owned(s) && e.actor.pool in s.pools
    ensures OwnedBy(Apply(s, a, e), x, e.actor.pool)
  {
    if e.transfer.to.Held? {
      BookTaken(OldPool(s, e), PoolAfter(s, e), e.pool.Some?, e.transfer, a, e.actor.pool, OldPc(s, a), e.actor.pc, x);
      assert PoolSessions(s, e.actor.pool) && OwnedBy(s, x, e.actor.pool);
    } else {
      BookReturned(OldPool(s, e), PoolAfter(s, e), e.pool.Some?, e.transfer, a, e.actor.pool, OldPc(s, a), e.actor.pc,
                   x);
    }
  }

  /** The session in the acting hands is recorded in its own pool once it is on the books. */
  lemma OwnRecorded(s: State, a: nat, e: Effect, x: Session)
    requires Owned(s) && OwnEffect(s, a, e) && x in s.custody && s.custody[x] == Held(a) && PlaceOk(s, x)
    requires e.transfer.Stay? && Holding(OldPc(s, a)) == Some(x) && Holding(e.actor.pc) == Some(x)
    requires e.actor.pool in s.pools && x in PoolAfter(s, e).sessions
    ensures OwnedBy(Apply(s, a, e), x, e.actor.pool)
  {
    if x in s.pools[e.actor.pool].sessions {
      assert PoolSessions(s, e.actor.pool) && OwnedBy(s, x, e.actor.pool);
    }
  }

  lemma OthersHere(s: State, a: nat, e: Effect, x: Session)
    requires OwnedBy(s, x, e.actor.pool) && SamePlace(s, a, e) && OwnEffect(s, a, e) && Owned(s)
    requires e.actor.pool in s.pools
    requires !Moves(e.transfer, x) && Holding(OldPc(s, a)) != Some(x)
    requires (e.transfer.EvictIdle? ==> x !in s.pools[e.actor.pool].idle)
    ensures OwnedBy(Apply(s, a, e), x, e.actor.pool)
  {
    assert PlaceOk(s, x);
    OwnedStays(s, a, e, x, e.actor.pool);
  }

  lemma BooksElsewhere(s: State, a: nat, e: Effect, p: nat)
    requires Owned(s) && SamePlace(s, a, e) && OwnEffect(s, a, e) && p in s.pools && p != e.actor.pool
    ensures PoolSessions(Apply(s, a, e), p)
  {
    var s' := Apply(s, a, e);
    assert PoolSessions(s, p);
    forall x | x in s.pools[p].idle ensures x in s'.custody && s'.custody[x] == Idle(p) {
      IdleKnown(s, p, x);
      ElsewhereUntouched(s, a, e, x, p);
      CustodyKept(s, a, e, x);
    }
    forall x | x in s.pools[p].sessions ensures OwnedBy(s', x, p) {
      assert OwnedBy(s, x, p) && PlaceOk(s, x);
      ElsewhereUntouched(s, a, e, x, p);
      OwnedStays(s, a, e, x, p);
    }
  }

  /** A step does not move the sessions of another pool. */
  lemma ElsewhereUntouched(s: State, a: nat, e: Effect, x: Session, p: nat)
    requires Owned(s) && SamePlace(s, a, e) && OwnEffect(s, a, e) && p != e.actor.pool && OwnedBy(s, x, p)
    ensures Untouched(s, e, x) && s.custody[x] != Held(a)
  {
    assert PlaceOk(s, x);
    if Moves(e.transfer, x) {
      if Holding(OldPc(s, a)) == Some(x) {
        HolderKnown(s, a, x);
      } else {
        BookTaken(OldPool(s, e), PoolAfter(s, e), e.pool.Some?, e.transfer, a, e.actor.pool, OldPc(s, a), e.actor.pc,
                  x);
        if Recorded(e.actor.pc) {
          IdleKnown(s, e.actor.pool, x);
        }
      }
    }
  }

  lemma HandsKept(s: State, a: nat, e: Effect, b: nat)
    requires Owned(s) && SamePlace(s, a, e) && OwnEffect(s, a, e)
    requires b in Apply(s, a, e).actors && Holding(Apply(s, a, e).actors[b].pc).Some?
    ensures var s' := Apply(s, a, e);
            var x := Holding(s'.actors[b].pc).value;
            x in s'.custody && s'.custody[x] == Held(b)
  {
    if b == a {
      OwnHand(s, a, e, Holding(e.actor.pc).value);
    } else {
      OtherHand(s, a, e, b, Holding(s.actors[b].pc).value);
    }
  }

  lemma OwnHand(s: State, a: nat, e: Effect, x: Session)
    requires Owned(s) && OwnEffect(s, a, e) && Holding(e.actor.pc) == Some(x)
    ensures x in Apply(s, a, e).custody && Apply(s, a, e).custody[x] == Held(a)
  {
    if e.transfer.Stay? {
      HolderKnown(s, a, x);
    }
  }

  lemma OtherHand(s: State, a: nat, e: Effect, b: nat, x: Session)
    requires Owned(s) && SamePlace(s, a, e) && OwnEffect(s, a, e) && b in s.actors && b != a
    requires Holding(s.actors[b].pc) == Some(x)
    ensures x in Apply(s, a, e).custody && Apply(s, a, e).custody[x] == Held(b)
  {
    HolderKnown(s, b, x);
    OtherUntouched(s, a, e, x, b);
    CustodyKept(s, a, e, x);
  }

  lemma OtherUntouched(s: State, a: nat, e: Effect, x: Session, b: nat)
    requires Owned(s) && SamePlace(s, a, e) && OwnEffect(s, a, e) && x in s.custody && s.custody[x] == Held(b) && b != a
    ensures Untouched(s, e, x)
  {
    if Moves(e.transfer, x) {
      if Holding(OldPc(s, a)) == Some(x) {
        HolderKnown(s, a, x);
      } else {
        BookTaken(OldPool(s, e), PoolAfter(s, e), e.pool.Some?, e.transfer, a, e.actor.pool, OldPc(s, a), e.actor.pc,
                  x);
        if Recorded(e.actor.pc) {
          IdleKnown(s, e.actor.pool, x);
        }
      }
    }
  }

  lemma OwnedLocal(s: State, a: nat, e: Effect)
    requires Shape(s) && Owned(s) && ShapeEffect(s, a, e) && OwnEffect(s, a, e)
    ensures Owned(Apply(s, a, e))
  {
    var s' := Apply(s, a, e);
    forall x <- s'.custody ensures PlaceOk(s', x) {
      if x in s.custody && Untouched(s, e, x) { PlaceUntouched(s, a, e, x); } else { PlaceMoved(s, a, e, x); }
    }
    forall p <- s'.pools ensures PoolSessions(s', p) {
      if p == e.actor.pool { BooksHere(s, a, e); } else { BooksElsewhere(s, a, e, p); }
    }
    forall b <- s'.actors | Holding(s'.actors[b].pc).Some?
      ensures var x := Holding(s'.actors[b].pc).value; x in s'.custody && s'.custody[x] == Held(b)
    {
      HandsKept(s, a, e, b);
    }
  }

  lemma BooksHere(s: State, a: nat, e: Effect)
    requires Owned(s) && SamePlace(s, a, e) && OwnEffect(s, a, e) && e.actor.pool in s.pools
    ensures PoolSessions(Apply(s, a, e), e.actor.pool)
  {
    var s' := Apply(s, a, e);
    assert s'.pools[e.actor.pool] == PoolAfter(s, e);
    StackHere(s, a, e);
    forall x | x in PoolAfter(s, e).sessions ensures OwnedBy(s', x, e.actor.pool) {
      SessionHere(s, a, e, x);
    }
  }

  // ---- Every local step meets the obligations ----

  /** What the invariant says about one actor and its pool. */
  ghost predicate LocalFacts(s: State, a: nat) {
    && (a in s.actors ==>
          var actor := s.actors[a];
          && ActorOk(s, actor)
          && (HoldsLock(actor.pc) <==> s.lock == Some(a))
          && (s.waited ==> !HoldsFlight(actor.pc))
          && (actor.pc.Opening? && actor.pc.key in s.httpPools ==>
                s.httpPools[actor.pc.key] in s.pools && s.pools[s.httpPools[actor.pc.key]].retired)
          && (actor.pool in s.pools ==>
                var p := s.pools[actor.pool];
                && (p.retired ==> p.idle == [])
                && (p.forgotten ==> p.retired && p.leases == 0)
                && (p.retired && p.leases == 0 ==> p.sessions == map[])
                && (HoldsLease(actor.pc) ==> p.leases > 0)))
    && (s.lock.Some? ==> s.lock.value in s.actors)
    && (s.swept ==> s.canceled && s.lock.None?)
    && (s.waited ==> s.swept)
  }

  lemma MemberCounts(actors: map<nat, Actor>, a: nat, kind: Kind)
    requires a in actors && Is(actors[a], kind)
    ensures Count(actors, kind) > 0
  {
    assert a in Members(actors, kind);
  }

  /** A retired pool without leases has no sessions left. */
  lemma RetiredUnleasedIsEmpty(s: State, p: nat)
    requires CountsExact(s) && Owned(s) && Lifecycle(s) && p in s.pools
    requires s.pools[p].retired && s.pools[p].leases == 0
    ensures s.pools[p].sessions == map[]
  {
    assert PoolLifecycle(s, p) && PoolSessions(s, p);
    forall x <- s.pools[p].sessions ensures false {
      assert OwnedBy(s, x, p) && PlaceOk(s, x);
      MemberCounts(s.actors, s.custody[x].actor, LeaseOf(p));
    }
  }

  lemma FactsHold(s: State, a: nat)
    requires Inv(s)
    ensures LocalFacts(s, a)
  {
    if a in s.actors {
      var actor := s.actors[a];
      if HoldsFlight(actor.pc) { MemberCounts(s.actors, a, Flight); }
      if actor.pool in s.pools {
        assert PoolLifecycle(s, actor.pool);
        if HoldsLease(actor.pc) { MemberCounts(s.actors, a, LeaseOf(actor.pool)); }
        if s.pools[actor.pool].retired && s.pools[actor.pool].leases == 0 { RetiredUnleasedIsEmpty(s, actor.pool); }
      }
    }
  }

  lemma OpenCheckObliged(s: State, step: Step)
    requires step.OpenCheck? && LocalFacts(s, step.a) && Enabled(s, step)
    ensures Obliged(s, step.a, EffectOf(s, step))
  {}

  lemma OpenAbortObliged(s: State, step: Step)
    requires step.OpenAbort? && LocalFacts(s, step.a) && Enabled(s, step)
    ensures Obliged(s, step.a, EffectOf(s, step))
  {}

  lemma ContextDoneObliged(s: State, step: Step)
    requires step.ContextDone? && LocalFacts(s, step.a) && Enabled(s, step)
    ensures Obliged(s, step.a, EffectOf(s, step))
  {}

  lemma GiveUpObliged(s: State, step: Step)
    requires step.GiveUp? && LocalFacts(s, step.a) && Enabled(s, step)
    ensures Obliged(s, step.a, EffectOf(s, step))
  {}

  lemma StartLeaseObliged(s: State, step: Step)
    requires step.StartLease? && LocalFacts(s, step.a) && Enabled(s, step) && s.pools[step.pool].provider in s.providers
    ensures Obliged(s, step.a, EffectOf(s, step))
  {}

  lemma ProviderKnown(s: State, p: nat)
    requires Shape(s) && p in s.pools
    ensures s.pools[p].provider in s.providers
  {}

  lemma StartCloseObliged(s: State, step: Step)
    requires step.StartClose? && LocalFacts(s, step.a) && Enabled(s, step)
    requires s.pools[s.httpPools[step.key]].provider in s.providers
    ensures Obliged(s, step.a, EffectOf(s, step))
  {}

  lemma StartLeaseOk(s: State, step: Step)
    requires step.StartLease? && LocalFacts(s, step.a) && Shape(s) && Enabled(s, step)
    ensures Obliged(s, step.a, EffectOf(s, step))
  {
    hide Obliged, EffectOf, Shape, LocalFacts;
    ProviderKnown(s, step.pool);
    StartLeaseObliged(s, step);
  }

  lemma StartCloseOk(s: State, step: Step)
    requires step.StartClose? && LocalFacts(s, step.a) && Shape(s) && Enabled(s, step)
    ensures Obliged(s, step.a, EffectOf(s, step))
  {
    hide Obliged, EffectOf, Shape, LocalFacts;
    ProviderKnown(s, s.httpPools[step.key]);
    StartCloseObliged(s, step);
  }

  lemma EnterPoolObliged(s: State, step: Step)
    requires step.EnterPool? && LocalFacts(s, step.a) && Enabled(s, step)
    ensures Obliged(s, step.a, EffectOf(s, step))
  {}

  lemma TakeSlotObliged(s: State, step: Step)
    requires step.TakeSlot? && LocalFacts(s, step.a) && Enabled(s, step)
    ensures Obliged(s, step.a, EffectOf(s, step))
  {}

  lemma AbandonWaitObliged(s: State, step: Step)
    requires step.AbandonWait? && LocalFacts(s, step.a) && Enabled(s, step)
    ensures Obliged(s, step.a, EffectOf(s, step))
  {}

  lemma LockOwnerObliged(s: State, step: Step)
    requires step.LockOwner? && LocalFacts(s, step.a) && Enabled(s, step)
    ensures Obliged(s, step.a, EffectOf(s, step))
  {}

  lemma CountFlightObliged(s: State, step: Step)
    requires step.CountFlight? && LocalFacts(s, step.a) && Enabled(s, step)
    ensures Obliged(s, step.a, EffectOf(s, step))
  {}

  lemma PickSessionObliged(s: State, step: Step)
    requires step.PickSession? && LocalFacts(s, step.a) && Enabled(s, step)
    ensures Obliged(s, step.a, EffectOf(s, step))
  {}

  lemma DialObliged(s: State, step: Step)
    requires step.Dial? && LocalFacts(s, step.a) && Enabled(s, step)
    ensures Obliged(s, step.a, EffectOf(s, step))
  {}

  lemma HandOverObliged(s: State, step: Step)
    requires step.HandOver? && LocalFacts(s, step.a) && Enabled(s, step)
    ensures Obliged(s, step.a, EffectOf(s, step))
  {}

  /** The outcome of a recording step. */
  predicate Establishes(s: State, step: Step)
    requires step.RecordLease? && Enabled(s, step)
  {
    var Dialed(session, dialed, failed) := s.actors[step.a].pc;
    Record(MyPool(s, step.a), session, failed, step.ctxErr).1
  }

  lemma EstablishObliged(s: State, step: Step)
    requires step.RecordLease?
    requires LocalFacts(s, step.a) && Enabled(s, step) && Establishes(s, step)
    ensures Obliged(s, step.a, EffectOf(s, step))
  {}

  lemma FailObliged(s: State, step: Step)
    requires step.RecordLease?
    requires LocalFacts(s, step.a) && Enabled(s, step) && !Establishes(s, step)
    ensures Obliged(s, step.a, EffectOf(s, step))
  {}

  lemma RecordLeaseObliged(s: State, step: Step)
    requires step.RecordLease? && LocalFacts(s, step.a) && Enabled(s, step)
    ensures Obliged(s, step.a, EffectOf(s, step))
  {
    if Establishes(s, step) { EstablishObliged(s, step); } else { FailObliged(s, step); }
  }

  lemma SelfReleaseObliged(s: State, step: Step)
    requires step.SelfRelease? && LocalFacts(s, step.a) && Enabled(s, step)
    ensures Obliged(s, step.a, EffectOf(s, step))
  {}

  lemma ReleaseObliged(s: State, step: Step)
    requires step.Release? && LocalFacts(s, step.a) && Enabled(s, step)
    ensures Obliged(s, step.a, EffectOf(s, step))
  {}

  lemma ReturnSlotObliged(s: State, step: Step)
    requires step.ReturnSlot? && LocalFacts(s, step.a) && Enabled(s, step)
    ensures Obliged(s, step.a, EffectOf(s, step))
  {}

  lemma FinishLeaseObliged(s: State, step: Step)
    requires step.FinishLease? && LocalFacts(s, step.a) && Enabled(s, step)
    ensures Obliged(s, step.a, EffectOf(s, step))
  {}

  lemma CheckUnusedObliged(s: State, step: Step)
    requires step.CheckUnused? && LocalFacts(s, step.a) && Enabled(s, step)
    ensures Obliged(s, step.a, EffectOf(s, step))
  {}

  lemma SignalDoneObliged(s: State, step: Step)
    requires step.SignalDone? && LocalFacts(s, step.a) && Enabled(s, step)
    ensures Obliged(s, step.a, EffectOf(s, step))
  {}

  lemma CancelPoolObliged(s: State, step: Step)
    requires step.CancelPool? && LocalFacts(s, step.a) && Enabled(s, step)
    ensures Obliged(s, step.a, EffectOf(s, step))
  {}

  lemma RetirePoolObliged(s: State, step: Step)
    requires step.RetirePool? && LocalFacts(s, step.a) && Enabled(s, step)
    ensures Obliged(s, step.a, EffectOf(s, step))
  {}

  predicate IsVisit(step: Step) {
    step.OpenCheck? || step.OpenAbort? || step.ContextDone? || step.GiveUp?
  }

  lemma VisitObliged(s: State, step: Step)
    requires IsVisit(step) && IsLocal(step) && LocalFacts(s, step.a) && Shape(s) && Enabled(s, step)
    ensures Obliged(s, step.a, EffectOf(s, step))
  {
    hide Obliged, EffectOf, Shape, LocalFacts, Enabled;
    match step
    case OpenCheck(_, _) => OpenCheckObliged(s, step);
    case OpenAbort(_) => OpenAbortObliged(s, step);
    case ContextDone(_) => ContextDoneObliged(s, step);
    case GiveUp(_) => GiveUpObliged(s, step);
    case _ =>
  }

  predicate IsSpawn(step: Step) {
    step.StartLease? || step.StartClose? || step.EnterPool?
  }

  lemma SpawnObliged(s: State, step: Step)
    requires IsSpawn(step) && IsLocal(step) && LocalFacts(s, step.a) && Shape(s) && Enabled(s, step)
    ensures Obliged(s, step.a, EffectOf(s, step))
  {
    hide Obliged, EffectOf, Shape, LocalFacts, Enabled;
    match step
    case StartLease(_, _) => StartLeaseOk(s, step);
    case StartClose(_, _) => StartCloseOk(s, step);
    case EnterPool(_) => EnterPoolObliged(s, step);
    case _ =>
  }

  predicate IsWait(step: Step) {
    step.TakeSlot? || step.AbandonWait? || step.LockOwner? || step.CountFlight?
  }

  lemma WaitObliged(s: State, step: Step)
    requires IsWait(step) && IsLocal(step) && LocalFacts(s, step.a) && Shape(s) && Enabled(s, step)
    ensures Obliged(s, step.a, EffectOf(s, step))
  {
    hide Obliged, EffectOf, Shape, LocalFacts, Enabled;
    match step
    case TakeSlot(_) => TakeSlotObliged(s, step);
    case AbandonWait(_) => AbandonWaitObliged(s, step);
    case LockOwner(_) => LockOwnerObliged(s, step);
    case CountFlight(_) => CountFlightObliged(s, step);
    case _ =>
  }

  predicate IsSession(step: Step) {
    step.PickSession? || step.Dial? || step.HandOver? || step.RecordLease?
  }

  lemma SessionObliged(s: State, step: Step)
    requires IsSession(step) && IsLocal(step) && LocalFacts(s, step.a) && Shape(s) && Enabled(s, step)
    ensures Obliged(s, step.a, EffectOf(s, step))
  {
    hide Obliged, EffectOf, Shape, LocalFacts, Enabled;
    match step
    case PickSession(_) => PickSessionObliged(s, step);
    case Dial(_, _) => DialObliged(s, step);
    case HandOver(_) => HandOverObliged(s, step);
    case RecordLease(_, _) => RecordLeaseObliged(s, step);
    case _ =>
  }

  predicate IsReturn(step: Step) {
    step.SelfRelease? || step.Release? || step.ReturnSlot? || step.FinishLease?
  }

  lemma ReturnObliged(s: State, step: Step)
    requires IsReturn(step) && IsLocal(step) && LocalFacts(s, step.a) && Shape(s) && Enabled(s, step)
    ensures Obliged(s, step.a, EffectOf(s, step))
  {
    hide Obliged, EffectOf, Shape, LocalFacts, Enabled;
    match step
    case SelfRelease(_) => SelfReleaseObliged(s, step);
    case Release(_, _) => ReleaseObliged(s, step);
    case ReturnSlot(_) => ReturnSlotObliged(s, step);
    case FinishLease(_) => FinishLeaseObliged(s, step);
    case _ =>
  }

  predicate IsCleanup(step: Step) {
    step.CheckUnused? || step.SignalDone? || step.CancelPool? || step.RetirePool?
  }

  lemma CleanupObliged(s: State, step: Step)
    requires IsCleanup(step) && IsLocal(step) && LocalFacts(s, step.a) && Shape(s) && Enabled(s, step)
    ensures Obliged(s, step.a, EffectOf(s, step))
  {
    hide Obliged, EffectOf, Shape, LocalFacts, Enabled;
    match step
    case CheckUnused(_) => CheckUnusedObliged(s, step);
    case SignalDone(_) => SignalDoneObliged(s, step);
    case CancelPool(_) => CancelPoolObliged(s, step);
    case RetirePool(_) => RetirePoolObliged(s, step);
    case _ =>
  }

  lemma ObligedEffect(s: State, step: Step) returns (e: Effect)
    requires Inv(s) && Enabled(s, step) && IsLocal(step)
    ensures e == EffectOf(s, step) && Next(s, step) == Apply(s, step.a, e) && Obliged(s, step.a, e)
  {
    e := EffectOf(s, step);
    FactsHold(s, step.a);
    StepObliged(s, step);
  }

  lemma StepObliged(s: State, step: Step)
    requires IsLocal(step) && LocalFacts(s, step.a) && Shape(s) && Enabled(s, step)
    ensures Obliged(s, step.a, EffectOf(s, step))
  {
    hide Obliged, EffectOf, Shape, LocalFacts, Enabled;
    if IsVisit(step) { VisitObliged(s, step); }
    else if IsSpawn(step) { SpawnObliged(s, step); }
    else if IsWait(step) { WaitObliged(s, step); }
    else if IsSession(step) { SessionObliged(s, step); }
    else if IsReturn(step) { ReturnObliged(s, step); }
    else { CleanupObliged(s, step); }
  }

  lemma LocalKept(s: State, step: Step)
    requires Inv(s) && Enabled(s, step) && IsLocal(step)
    ensures Inv(Next(s, step))
  {
    var e := ObligedEffect(s, step);
    AppliedKept(s, step.a, e);
  }

  lemma AppliedKept(s: State, a: nat, e: Effect)
    requires Inv(s) && Obliged(s, a, e)
    ensures Inv(Apply(s, a, e))
  {
    ShapeLocal(s, a, e);
    CountedLocal(s, a, e);
    OwnedLocal(s, a, e);
    LifecycleLocal(s, a, e);
    SharedLocal(s, a, e);
    RegisteredLocal(s, a, e);
  }
}
