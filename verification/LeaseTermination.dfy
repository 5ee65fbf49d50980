/** Every goroutine of the lease protocol comes to its end: it can always move on, and it moves boundedly often. */
module LeaseTermination {
  import opened Wrappers
  import opened LeaseProtocol
  import opened LeaseInvariant
  import opened LeaseRegistry
  import opened LeaseTheorems

  /** How many more steps of its own a goroutine makes at most. */
  function Left(pc: Pc): nat {
    match pc
    case Entering => 14
    case Waiting => 13
    case SlotHeld => 12
    case OwnerLocked => 11
    case Counted => 10
    case Picked(_, _) => 9
    case Dialed(_, _, _) => 8
    case Established(_) => 7
    case InUse(_) => 6
    case ReturningSlot(_) => 5
    case Finishing(_) => 4
    case Checking(_) => 3
    case Unregistering(_) => 2
    case Signalling => 1
    case Done => 0
    case Canceling(_) => 5
    case Retiring(_) => 4
    case Opening(_) => 1
  }

  /** A step of this goroutine. Its context ending and its caller leaving happen to it. */
  predicate Steps(s: State, step: Step, a: nat) {
    && a in s.actors
    && ((IsLocal(step) && step.a == a && !step.ContextDone? && !step.GiveUp?)
        || ((step.OpenCommit? || step.Unregister?) && step.a == a))
  }

  /** A lease up to its connection. */
  predicate EntersOrWaits(step: Step) {
    step.OpenAbort? || step.EnterPool? || step.TakeSlot? || step.AbandonWait? || step.LockOwner? || step.CountFlight?
  }

  lemma EnteringShortens(s: State, step: Step, a: nat)
    requires Steps(s, step, a) && Enabled(s, step) && EntersOrWaits(step)
    ensures Left(EffectOf(s, step).actor.pc) < Left(s.actors[a].pc)
  {}

  lemma ConnectingShortens(s: State, step: Step, a: nat)
    requires Steps(s, step, a) && Enabled(s, step) && IsAcquiring(step) && !EntersOrWaits(step)
    ensures Left(EffectOf(s, step).actor.pc) < Left(s.actors[a].pc)
  {}

  lemma ReleasingShortens(s: State, step: Step, a: nat)
    requires Steps(s, step, a) && Enabled(s, step)
    requires step.SelfRelease? || step.Release? || step.ReturnSlot? || step.FinishLease?
    ensures Left(EffectOf(s, step).actor.pc) < Left(s.actors[a].pc)
  {}

  lemma ClosingShortens(s: State, step: Step, a: nat)
    requires Steps(s, step, a) && Enabled(s, step) && IsLocal(step) && !IsAcquiring(step)
    requires !step.SelfRelease? && !step.Release? && !step.ReturnSlot? && !step.FinishLease?
    ensures Left(EffectOf(s, step).actor.pc) < Left(s.actors[a].pc)
  {}

  lemma RegistryShortens(s: State, step: Step, a: nat)
    requires Steps(s, step, a) && Enabled(s, step) && (step.OpenCommit? || step.Unregister?)
    ensures a in Next(s, step).actors && Left(Next(s, step).actors[a].pc) < Left(s.actors[a].pc)
  {}

  /** Each of its own steps takes a goroutine nearer to its end. */
  lemma OwnStepShortens(s: State, step: Step, a: nat)
    requires Steps(s, step, a) && Enabled(s, step)
    ensures a in Next(s, step).actors && Left(Next(s, step).actors[a].pc) < Left(s.actors[a].pc)
  {
    hide Enabled, EffectOf, Left;
    if !IsLocal(step) {
      RegistryShortens(s, step, a);
    } else {
      PcLocal(s, step, a);
      if EntersOrWaits(step) {
        EnteringShortens(s, step, a);
      } else if IsAcquiring(step) {
        ConnectingShortens(s, step, a);
      } else if step.SelfRelease? || step.Release? || step.ReturnSlot? || step.FinishLease? {
        ReleasingShortens(s, step, a);
      } else {
        ClosingShortens(s, step, a);
      }
    }
  }

  lemma HappensInPlace(s: State, step: Step, a: nat)
    requires (step.ContextDone? || step.GiveUp?) && Enabled(s, step) && a in s.actors
    ensures a in Next(s, step).actors && Next(s, step).actors[a].pc == s.actors[a].pc
  {}

  lemma RegistryAside(s: State, step: Step, a: nat)
    requires (step.OpenCommit? || step.Unregister?) && step.a != a && Enabled(s, step) && a in s.actors
    ensures a in Next(s, step).actors && Next(s, step).actors[a] == s.actors[a]
  {}

  lemma GatewayAside(s: State, step: Step, a: nat)
    requires !IsLocal(step) && !step.OpenCommit? && !step.Unregister? && Enabled(s, step) && a in s.actors
    ensures a in Next(s, step).actors && Next(s, step).actors[a] == s.actors[a]
  {}

  lemma OthersLeaveIt(s: State, step: Step, a: nat)
    requires !Steps(s, step, a) && Enabled(s, step) && a in s.actors
    ensures a in Next(s, step).actors && Next(s, step).actors[a].pc == s.actors[a].pc
  {
    hide Enabled, EffectOf;
    if step.ContextDone? || step.GiveUp? {
      HappensInPlace(s, step, a);
    } else if IsLocal(step) {
      PcLocal(s, step, a);
    } else if step.OpenCommit? || step.Unregister? {
      RegistryAside(s, step, a);
    } else {
      GatewayAside(s, step, a);
    }
  }

  // ---- Runs ----

  /** The steps of one goroutine from position `i` on. */
  ghost function OwnSteps(steps: seq<Step>, i: nat, a: nat): nat {
    if |steps| <= i then 0
    else
      var init, step := steps[..|steps| - 1], steps[|steps| - 1];
      OwnSteps(init, i, a) + if Exec(init).Some? && Steps(Exec(init).value, step, a) then 1 else 0
  }

  /** Under every interleaving a goroutine makes no more steps than its program counter has left. */
  lemma {:induction false} StepsAreBounded(steps: seq<Step>, i: nat, a: nat)
    requires Exec(steps).Some? && i <= |steps| && Exec(steps[..i]).Some? && a in Exec(steps[..i]).value.actors
    ensures a in Exec(steps).value.actors
    ensures OwnSteps(steps, i, a) + Left(Exec(steps).value.actors[a].pc) <= Left(Exec(steps[..i]).value.actors[a].pc)
  {
    hide Enabled, Next, Steps, Left;
    if i == |steps| {
      assert steps[..i] == steps;
    } else {
      var init, step := steps[..|steps| - 1], steps[|steps| - 1];
      assert init[..i] == steps[..i];
      StepsAreBounded(init, i, a);
      var s := Exec(init).value;
      if Steps(s, step, a) { OwnStepShortens(s, step, a); } else { OthersLeaveIt(s, step, a); }
    }
  }

  // ---- There is always a next step ----

  /** A step that a goroutine can make from here, if nothing holds it up. */
  function NextOf(s: State, a: nat): Step
    requires a in s.actors && !s.actors[a].pc.Done? && !s.actors[a].pc.InUse?
  {
    var actor := s.actors[a];
    match actor.pc
    case Entering => EnterPool(a)
    case Waiting => if Stopped(s, a) then AbandonWait(a) else TakeSlot(a)
    case SlotHeld => LockOwner(a)
    case OwnerLocked => CountFlight(a)
    case Counted => PickSession(a)
    case Picked(_, _) => Dial(a, None)
    case Dialed(_, _, _) => RecordLease(a, false)
    case Established(_) => if actor.caller.Expecting? then HandOver(a) else SelfRelease(a)
    case ReturningSlot(_) => ReturnSlot(a)
    case Finishing(_) => FinishLease(a)
    case Checking(_) => CheckUnused(a)
    case Unregistering(_) => Unregister(a)
    case Signalling => SignalDone(a)
    case Canceling(_) => CancelPool(a)
    case Retiring(_) => RetirePool(a)
    case Opening(_) => OpenAbort(a)
    case _ => SignalDone(a)
  }

  /** The request's context is done, or its pool or the gateway is being closed. */
  predicate Stopped(s: State, a: nat)
    requires a in s.actors
  {
    s.actors[a].ctxDone || s.canceled || (s.actors[a].pool in s.pools && s.pools[s.actors[a].pool].canceled)
  }

  /** Held up: all slots are taken and nothing stops the wait, or another goroutine holds the gateway's lock. */
  predicate HeldUp(s: State, a: nat)
    requires a in s.actors
  {
    var actor := s.actors[a];
    || (actor.pc.Waiting? && !Stopped(s, a)
        && actor.provider in s.providers && s.providers[actor.provider].slots >= 32)
    || ((actor.pc.SlotHeld? || actor.pc.Unregistering?) && s.lock.Some?)
  }

  /** What the invariant says of one goroutine. */
  predicate Standing(s: State, a: nat)
    requires a in s.actors
  {
    var actor := s.actors[a];
    && (actor.pc.Opening? || (At(s, a) && s.pools[actor.pool].provider == actor.provider))
    && (actor.pc.Dialed? && !actor.pc.failed ==> actor.pc.session.Some?)
    && (actor.pc.Established? && !actor.caller.Expecting? ==> Interrupted(s, a))
  }

  lemma StandsOk(s: State, a: nat)
    requires Inv(s) && a in s.actors && !s.actors[a].pc.Done?
    ensures Standing(s, a)
  {
    hide CountsExact, Owned, Lifecycle, Shared, LiveRegistered;
    assert ActorOk(s, s.actors[a]);
  }

  lemma CanStep(s: State, a: nat)
    requires a in s.actors && !s.actors[a].pc.Done? && !s.actors[a].pc.InUse? && Standing(s, a) && !HeldUp(s, a)
    ensures Steps(s, NextOf(s, a), a) && Enabled(s, NextOf(s, a))
  {}

  /**
    In every reachable state a goroutine that is not at its end, and does not just use its lease, has a next step,
    unless it is held up.
   */
  lemma NeverBlocked(s: State, a: nat)
    requires Reachable(s) && a in s.actors && !s.actors[a].pc.Done? && !s.actors[a].pc.InUse? && !HeldUp(s, a)
    ensures Steps(s, NextOf(s, a), a) && Enabled(s, NextOf(s, a))
  {
    hide Inv, Enabled, NextOf, Standing, HeldUp;
    ReachableInv(s);
    StandsOk(s, a);
    CanStep(s, a);
  }

  lemma LockHolder(s: State)
    requires Inv(s) && s.lock.Some?
    ensures s.lock.value in s.actors && HoldsLock(s.actors[s.lock.value].pc)
  {
    hide CountsExact, Owned, Lifecycle, Shared, LiveRegistered;
  }

  lemma CountReleases(s: State, b: nat)
    requires Enabled(s, CountFlight(b))
    ensures Next(s, CountFlight(b)).lock == None
  {}

  lemma AbortReleases(s: State, b: nat)
    requires Enabled(s, OpenAbort(b))
    ensures Next(s, OpenAbort(b)).lock == None
  {}

  lemma HolderReleases(s: State, b: nat)
    requires b in s.actors && HoldsLock(s.actors[b].pc)
    ensures !s.actors[b].pc.Done? && !s.actors[b].pc.InUse? && !HeldUp(s, b)
    ensures Enabled(s, NextOf(s, b)) ==> Next(s, NextOf(s, b)).lock == None
  {
    hide Enabled, Next;
    if Enabled(s, NextOf(s, b)) {
      if s.actors[b].pc.Opening? { AbortReleases(s, b); } else { CountReleases(s, b); }
    }
  }

  /** Whoever holds the gateway's lock is not held up, and its next step gives the lock back. */
  lemma LockIsGivenBack(s: State)
    requires Reachable(s) && s.lock.Some?
    ensures s.lock.value in s.actors
    ensures var b := s.lock.value;
            && !s.actors[b].pc.Done? && !s.actors[b].pc.InUse? && !HeldUp(s, b)
            && Enabled(s, NextOf(s, b)) && Next(s, NextOf(s, b)).lock == None
  {
    hide Inv, Enabled, NextOf, HeldUp, HoldsLock;
    ReachableInv(s);
    LockHolder(s);
    HolderReleases(s, s.lock.value);
    NeverBlocked(s, s.lock.value);
  }
}
