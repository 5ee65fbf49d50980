/** A request that nothing goes wrong for gets its lease, under every interleaving. */
module LeaseProgress {
  import opened Wrappers
  import opened SessionPool
  import opened LeaseProtocol
  import opened LeaseInvariant
  import opened LeaseRegistry
  import opened LeaseTheorems

  /** The way to a lease, with nothing failed so far. */
  predicate OnTrack(pc: Pc) {
    || pc.Entering? || pc.Waiting? || pc.SlotHeld? || pc.OwnerLocked? || pc.Counted?
    || (pc.Picked? && !pc.stale)
    || (pc.Dialed? && !pc.failed)
    || pc.Established? || pc.InUse?
  }

  /** How many of its own steps a request has made on that way; with eight it has its lease. */
  function Rank(pc: Pc): nat
    requires OnTrack(pc)
  {
    match pc
    case Entering => 0
    case Waiting => 1
    case SlotHeld => 2
    case OwnerLocked => 3
    case Counted => 4
    case Picked(_, _) => 5
    case Dialed(_, _, _) => 6
    case Established(_) => 7
    case _ => 8
  }

  /** Nobody cancels: not the caller, not the gateway, and the pool is not being closed. */
  predicate Calm(s: State, a: nat) {
    && a in s.actors && !s.actors[a].ctxDone && !s.canceled
    && s.actors[a].pool in s.pools && !s.pools[s.actors[a].pool].retired && !s.pools[s.actors[a].pool].canceled
  }

  /** A step of the request itself. Its context ending and its caller leaving are not. */
  predicate Moves(step: Step, a: nat) {
    IsLocal(step) && step.a == a && !step.ContextDone? && !step.GiveUp?
  }

  /** The step does not end the lease, and if it connects, it succeeds. */
  predicate Favourable(s: State, step: Step, a: nat) {
    && !(step.Release? && step.a == a)
    && (step.Dial? && step.a == a && a in s.actors && s.actors[a].pc.Picked? ==>
          step.connected.Some? || s.actors[a].pc.reused.Some?)
  }

  lemma EntersOnTrack(s: State, step: Step, a: nat)
    requires (step.EnterPool? || step.TakeSlot? || step.AbandonWait? || step.LockOwner? || step.CountFlight?)
    requires step.a == a && Enabled(s, step) && Calm(s, a) && OnTrack(s.actors[a].pc)
    ensures OnTrack(EffectOf(s, step).actor.pc) && Rank(EffectOf(s, step).actor.pc) == Rank(s.actors[a].pc) + 1
  {}

  lemma DialsOnTrack(s: State, step: Step, a: nat)
    requires step.PickSession? || step.Dial? || step.RecordLease? || step.HandOver?
    requires step.a == a && Enabled(s, step) && Calm(s, a) && OnTrack(s.actors[a].pc) && Favourable(s, step, a)
    ensures OnTrack(EffectOf(s, step).actor.pc) && Rank(EffectOf(s, step).actor.pc) == Rank(s.actors[a].pc) + 1
  {}

  /** No other step of the request is possible on the way. */
  lemma OnlyTrackSteps(s: State, step: Step, a: nat)
    requires Moves(step, a) && Enabled(s, step) && Calm(s, a) && OnTrack(s.actors[a].pc) && Favourable(s, step, a)
    ensures || step.EnterPool? || step.TakeSlot? || step.AbandonWait? || step.LockOwner? || step.CountFlight?
            || step.PickSession? || step.Dial? || step.RecordLease? || step.HandOver?
  {}

  lemma MovesOnTrack(s: State, step: Step, a: nat)
    requires Moves(step, a) && Enabled(s, step) && Calm(s, a) && OnTrack(s.actors[a].pc) && Favourable(s, step, a)
    ensures a in Next(s, step).actors && OnTrack(Next(s, step).actors[a].pc)
    ensures Rank(Next(s, step).actors[a].pc) == Rank(s.actors[a].pc) + 1
  {
    hide Enabled, EffectOf, OnTrack, Rank, Favourable;
    OnlyTrackSteps(s, step, a);
    PcLocal(s, step, a);
    if step.PickSession? || step.Dial? || step.RecordLease? || step.HandOver? {
      DialsOnTrack(s, step, a);
    } else {
      EntersOnTrack(s, step, a);
    }
  }

  lemma WaitsInPlace(s: State, step: Step, a: nat)
    requires (step.ContextDone? || step.GiveUp?) && Enabled(s, step) && a in s.actors
    ensures a in Next(s, step).actors && Next(s, step).actors[a].pc == s.actors[a].pc
  {}

  /** Steps of others, and what happens around the request, leave it where it is. */
  lemma OthersLeaveIt(s: State, step: Step, a: nat)
    requires !Moves(step, a) && Enabled(s, step) && a in s.actors && OnTrack(s.actors[a].pc)
    ensures a in Next(s, step).actors && Next(s, step).actors[a].pc == s.actors[a].pc
  {
    hide Enabled, EffectOf;
    if step.ContextDone? || step.GiveUp? {
      WaitsInPlace(s, step, a);
    } else if IsLocal(step) {
      PcLocal(s, step, a);
    } else {
      PcShared(s, step, a);
    }
  }

  // ---- Runs ----

  /** From its start on, nothing goes wrong for the request. */
  ghost predicate AllWell(steps: seq<Step>, i: nat, a: nat) {
    forall m | i < m < |steps| && Exec(steps[..m]).Some? ::
      Calm(Exec(steps[..m]).value, a) && Favourable(Exec(steps[..m]).value, steps[m], a)
  }

  /** The request's own steps after its start. */
  function OwnMoves(steps: seq<Step>, i: nat, a: nat): nat {
    if |steps| <= i + 1 then 0
    else
      var init := steps[..|steps| - 1];
      OwnMoves(init, i, a) + if Moves(steps[|steps| - 1], a) then 1 else 0
  }

  lemma Started(s: State, a: nat, pool: nat)
    requires Enabled(s, StartLease(a, pool))
    ensures a in Next(s, StartLease(a, pool)).actors && Next(s, StartLease(a, pool)).actors[a].pc == Entering
  {}

  lemma AllWellBefore(steps: seq<Step>, i: nat, a: nat)
    requires steps != [] && AllWell(steps, i, a)
    ensures AllWell(steps[..|steps| - 1], i, a)
  {
    var init := steps[..|steps| - 1];
    forall m | i < m < |init| && Exec(init[..m]).Some?
      ensures Calm(Exec(init[..m]).value, a) && Favourable(Exec(init[..m]).value, init[m], a)
    {
      assert init[..m] == steps[..m];
    }
  }

  /** Where a request stands after any run in which nothing went wrong for it: exactly as far as it moved. */
  ghost predicate Arrived(s: State, a: nat, moves: nat) {
    a in s.actors && OnTrack(s.actors[a].pc) && Rank(s.actors[a].pc) == moves
  }

  lemma StepArrives(s: State, step: Step, a: nat, moves: nat)
    requires Arrived(s, a, moves) && Enabled(s, step) && Calm(s, a) && Favourable(s, step, a)
    ensures Arrived(Next(s, step), a, moves + if Moves(step, a) then 1 else 0)
  {
    if Moves(step, a) { MovesOnTrack(s, step, a); } else { OthersLeaveIt(s, step, a); }
  }

  /**
    Under every interleaving with other requests, releases, closes of other pools and registrations, a request for
    which nothing goes wrong never leaves the way to its lease, and each of its own steps takes it one further:
    after eight it holds the lease.
   */
  lemma {:induction false} LeaseIsReached(steps: seq<Step>, i: nat, a: nat, pool: nat)
    requires Exec(steps).Some? && i < |steps| && steps[i] == StartLease(a, pool) && AllWell(steps, i, a)
    ensures Arrived(Exec(steps).value, a, OwnMoves(steps, i, a))
    ensures OwnMoves(steps, i, a) <= 8
    ensures Exec(steps).value.actors[a].pc.InUse? <==> OwnMoves(steps, i, a) == 8
  {
    hide Enabled, Next, Calm, Favourable;
    var init, last := steps[..|steps| - 1], steps[|steps| - 1];
    if i == |steps| - 1 {
      Started(Exec(init).value, a, pool);
    } else {
      AllWellBefore(steps, i, a);
      LeaseIsReached(init, i, a, pool);
      assert Exec(steps[..|steps| - 1]).Some?;
      StepArrives(Exec(init).value, last, a, OwnMoves(init, i, a));
    }
  }

  // ---- There is always a next step ----

  /** The step that takes the request further; `unused` is the session that a connection would bring. */
  function NextMove(pc: Pc, a: nat, unused: Session): Step
    requires OnTrack(pc) && !pc.InUse?
  {
    match pc
    case Entering => EnterPool(a)
    case Waiting => TakeSlot(a)
    case SlotHeld => LockOwner(a)
    case OwnerLocked => CountFlight(a)
    case Counted => PickSession(a)
    case Picked(reused, _) => Dial(a, if reused.Some? then None else Some(unused))
    case Dialed(_, _, _) => RecordLease(a, false)
    case _ => HandOver(a)
  }

  lemma NextMoveEnabled(s: State, a: nat, unused: Session)
    requires At(s, a) && Calm(s, a) && OnTrack(s.actors[a].pc) && !s.actors[a].pc.InUse? && unused !in s.custody
    requires s.actors[a].pc.Waiting? ==> s.providers[s.actors[a].provider].slots < SLOTS
    requires s.actors[a].pc.SlotHeld? ==> s.lock.None?
    requires s.actors[a].pc.Dialed? ==> s.actors[a].pc.session.Some?
    requires s.actors[a].pc.Established? ==> s.actors[a].caller.Expecting?
    ensures var step := NextMove(s.actors[a].pc, a, unused);
            Moves(step, a) && Enabled(s, step) && Favourable(s, step, a)
  {}

  lemma HolderOk(s: State, a: nat)
    requires Inv(s) && Calm(s, a) && OnTrack(s.actors[a].pc) && !s.actors[a].pc.InUse?
    ensures At(s, a) && s.actors[a].caller.Expecting?
    ensures s.actors[a].pc.Dialed? ==> s.actors[a].pc.session.Some?
  {
    assert ActorOk(s, s.actors[a]);
  }

  /**
    In every reachable state such a request has a next step, unless all 32 slots of its provider are taken, or
    another goroutine holds the gateway's lock for the moment.
   */
  lemma NeverStuck(s: State, a: nat, unused: Session)
    requires Reachable(s) && Calm(s, a) && OnTrack(s.actors[a].pc) && !s.actors[a].pc.InUse? && unused !in s.custody
    ensures s.actors[a].provider in s.providers
    ensures var step := NextMove(s.actors[a].pc, a, unused);
            || (Moves(step, a) && Enabled(s, step) && Favourable(s, step, a))
            || (s.actors[a].pc.Waiting? && s.providers[s.actors[a].provider].slots >= 32)
            || (s.actors[a].pc.SlotHeld? && s.lock.Some?)
  {
    hide Enabled, Favourable;
    assert At(s, a) && s.actors[a].caller.Expecting? && (s.actors[a].pc.Dialed? ==> s.actors[a].pc.session.Some?) by {
      ReachableInv(s);
      HolderOk(s, a);
    }
    if !(s.actors[a].pc.Waiting? && s.providers[s.actors[a].provider].slots >= SLOTS)
       && !(s.actors[a].pc.SlotHeld? && s.lock.Some?) {
      NextMoveEnabled(s, a, unused);
    }
  }
}
