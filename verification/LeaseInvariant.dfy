/** The inductive invariant of the lease protocol. */
module LeaseInvariant {
  import opened Wrappers
  import opened SessionPool
  import opened LeaseProtocol

  // ---- What a program counter owns ----

  predicate HoldsSlot(pc: Pc) {
    pc.SlotHeld? || pc.OwnerLocked? || pc.Counted? || pc.Picked? || pc.Dialed?
    || pc.Established? || pc.InUse? || pc.ReturningSlot?
  }

  predicate HoldsLease(pc: Pc) {
    pc.Waiting? || HoldsSlot(pc) || pc.Finishing?
  }

  predicate HoldsFlight(pc: Pc) {
    || pc.Counted? || pc.Picked? || pc.Dialed? || pc.Established? || pc.InUse? || pc.Signalling?
    || (pc.ReturningSlot? && pc.counted) || (pc.Finishing? && pc.counted)
    || (pc.Checking? && pc.counted) || (pc.Unregistering? && pc.counted)
  }

  /** The acquiring goroutine is still running, or waits to hand its lease over. */
  predicate Acquiring(pc: Pc) {
    pc.Entering? || pc.Waiting? || pc.SlotHeld? || pc.OwnerLocked? || pc.Counted? || pc.Picked? || pc.Dialed?
    || pc.Established?
  }

  predicate HoldsLock(pc: Pc) {
    pc.OwnerLocked? || pc.Opening?
  }

  /** The session in the actor's hands. */
  function Holding(pc: Pc): Option<Session> {
    match pc
    case Picked(reused, _) => reused
    case Dialed(session, _, _) => session
    case Established(x) => Some(x)
    case InUse(x) => Some(x)
    case _ => None
  }

  /** A request context is attached to the session. */
  predicate Attached(pc: Pc) {
    pc.Established? || pc.InUse?
  }

  /** The session is in the pool's session map: every one but a fresh, unrecorded connection. */
  predicate Recorded(pc: Pc) {
    Holding(pc).Some? && !(pc.Dialed? && pc.dialed)
  }

  // ---- Counting actors ----

  datatype Kind = SlotOf(provider: nat) | LeaseOf(pool: nat) | Flight | CleanupOf(pool: nat)

  predicate Is(actor: Actor, kind: Kind) {
    match kind
    case SlotOf(v) => actor.provider == v && HoldsSlot(actor.pc)
    case LeaseOf(p) => actor.pool == p && HoldsLease(actor.pc)
    case Flight => HoldsFlight(actor.pc)
    case CleanupOf(p) => actor.pool == p && actor.pc.Unregistering?
  }

  function Members(actors: map<nat, Actor>, kind: Kind): set<nat> {
    set a | a in actors && Is(actors[a], kind)
  }

  function Count(actors: map<nat, Actor>, kind: Kind): nat {
    |Members(actors, kind)|
  }

  /** How replacing actor `a` changes a count. */
  function Delta(actors: map<nat, Actor>, a: nat, actor: Actor, kind: Kind): int {
    (if Is(actor, kind) then 1 else 0) - (if a in actors && Is(actors[a], kind) then 1 else 0)
  }

  lemma CountStep(actors: map<nat, Actor>, a: nat, actor: Actor)
    ensures forall kind :: Count(actors[a := actor], kind) == Count(actors, kind) + Delta(actors, a, actor, kind)
  {
    forall kind ensures Count(actors[a := actor], kind) == Count(actors, kind) + Delta(actors, a, actor, kind) {
      var before, after := Members(actors, kind), Members(actors[a := actor], kind);
      if Is(actor, kind) {
        assert after == before + {a};
      } else {
        assert after == before - {a};
      }
    }
  }

  // ---- The invariant ----

  ghost predicate ActorOk(s: State, actor: Actor) {
    && (actor.pc.Done? || actor.pc.Opening?
        || (actor.pool in s.pools && actor.provider in s.providers && s.pools[actor.pool].provider == actor.provider))
    && (actor.pc.Dialed? && !actor.pc.failed ==> actor.pc.session.Some?)
    && (actor.pc.InUse? ==> actor.caller.Received?)
    && (Acquiring(actor.pc) ==> !actor.caller.Received?)
    && ((actor.pc.Entering? || HoldsLease(actor.pc)) && actor.caller.GaveUp? ==> actor.ctxDone || s.canceled)
  }

  ghost predicate Shape(s: State) {
    && (forall a <- s.actors :: ActorOk(s, s.actors[a]))
    && (forall a <- s.actors :: HoldsLock(s.actors[a].pc) <==> s.lock == Some(a))
    && (s.lock.Some? ==> s.lock.value in s.actors)
    && (forall p <- s.pools :: s.pools[p].provider in s.providers
                               && s.providers[s.pools[p].provider].row == s.pools[p].key.row)
    && (forall k <- s.httpPools :: s.httpPools[k] in s.pools && s.pools[s.httpPools[k]].key == k)
    && (forall r <- s.httpProviders :: s.httpProviders[r] in s.providers && s.providers[s.httpProviders[r]].row == r)
    && s.toClose <= s.pools.Keys
    && s.unregistered <= s.pools.Keys
  }

  /** Channel occupancy, lease counters and the wait group are exactly the actors in between. */
  ghost predicate CountsExact(s: State) {
    && (forall v <- s.providers :: s.providers[v].slots == Count(s.actors, SlotOf(v)) <= SLOTS)
    && (forall p <- s.pools :: s.pools[p].leases == Count(s.actors, LeaseOf(p)))
    && s.inFlight == Count(s.actors, Flight)
  }

  ghost predicate NoDuplicates(xs: seq<Session>) {
    forall i, j :: 0 <= i < j < |xs| ==> xs[i] != xs[j]
  }

  /** The pool accounts for `x` in the way its place says. */
  ghost predicate PlaceOk(s: State, x: Session)
    requires x in s.custody
  {
    match s.custody[x]
    case Gone => true
    case Idle(p) => p in s.pools && x in s.pools[p].idle && x in s.pools[p].sessions && !s.pools[p].sessions[x]
    case Held(a) =>
      && a in s.actors && Holding(s.actors[a].pc) == Some(x)
      && (Recorded(s.actors[a].pc) ==>
            s.actors[a].pool in s.pools && x in s.pools[s.actors[a].pool].sessions
            && (s.pools[s.actors[a].pool].sessions[x] <==> Attached(s.actors[a].pc)))
  }

  /** `x` is idle in `p`, or in the hands of an actor of `p` after being recorded. */
  ghost predicate OwnedBy(s: State, x: Session, p: nat) {
    && x in s.custody
    && (s.custody[x] == Idle(p)
        || (s.custody[x].Held? && s.custody[x].actor in s.actors
            && s.actors[s.custody[x].actor].pool == p && Recorded(s.actors[s.custody[x].actor].pc)))
  }

  ghost predicate PoolSessions(s: State, p: nat)
    requires p in s.pools
  {
    && NoDuplicates(s.pools[p].idle)
    && (forall x <- s.pools[p].idle :: x in s.custody && s.custody[x] == Idle(p))
    && (forall x <- s.pools[p].sessions :: OwnedBy(s, x, p))
  }

  ghost predicate Owned(s: State) {
    && (forall x <- s.custody :: PlaceOk(s, x))
    && (forall p <- s.pools :: PoolSessions(s, p))
    && (forall a <- s.actors | Holding(s.actors[a].pc).Some? ::
          var x := Holding(s.actors[a].pc).value; x in s.custody && s.custody[x] == Held(a))
  }

  ghost predicate CheckPending(s: State, p: nat) {
    exists b :: b in s.actors && s.actors[b].pool == p && s.actors[b].pc.Checking?
  }

  ghost predicate PoolLifecycle(s: State, p: nat)
    requires p in s.pools
  {
    var pool := s.pools[p];
    && (pool.retired ==> pool.idle == [])
    && (pool.forgotten ==> pool.retired && pool.leases == 0)
    && (p in s.unregistered ==> pool.forgotten)
    && Count(s.actors, CleanupOf(p)) == (if pool.forgotten && p !in s.unregistered then 1 else 0)
    && (pool.retired && pool.leases == 0 && !pool.forgotten ==> CheckPending(s, p))
  }

  ghost predicate Lifecycle(s: State) {
    forall p <- s.pools :: PoolLifecycle(s, p)
  }

  function Remaining(s: State, v: nat): set<nat> {
    set p | p in s.pools && s.pools[p].provider == v && p !in s.unregistered
  }

  /** A provider counts its pools that are not cleaned up, and such a pool's row is served by that provider. */
  ghost predicate Shared(s: State) {
    && (forall v <- s.providers :: s.providers[v].pools == |Remaining(s, v)|)
    && (forall p <- s.pools | p !in s.unregistered ::
          s.pools[p].key.row in s.httpProviders && s.httpProviders[s.pools[p].key.row] == s.pools[p].provider)
  }

  ghost predicate ForcedClosePending(s: State, p: nat) {
    p in s.toClose
    || exists b :: b in s.actors && s.actors[b].pool == p
                   && (s.actors[b].pc == Canceling(true) || s.actors[b].pc == Retiring(true))
  }

  /** A pool that is not retired is registered under its key, or Gateway.Close is about to retire it. */
  ghost predicate LiveRegistered(s: State) {
    && (forall p <- s.pools | !s.pools[p].retired ::
          if s.swept then ForcedClosePending(s, p)
          else s.pools[p].key in s.httpPools && s.httpPools[s.pools[p].key] == p)
    && (forall a <- s.actors | s.actors[a].pc.Opening? && s.actors[a].pc.key in s.httpPools ::
          s.httpPools[s.actors[a].pc.key] in s.pools && s.pools[s.httpPools[s.actors[a].pc.key]].retired)
    && (s.swept ==> s.canceled && s.lock.None? && s.httpPools == map[])
    && (s.waited ==> s.swept && s.inFlight == 0 && forall p <- s.pools :: s.pools[p].retired)
  }

  ghost predicate Inv(s: State) {
    Shape(s) && CountsExact(s) && Owned(s) && Lifecycle(s) && Shared(s) && LiveRegistered(s)
  }
}
