/**
  The lease protocol around the session pools: every mutex section, slot send
  or receive, wait-group operation and context cancellation is one atomic step.
  Goroutines are actors with a program counter; a run is any interleaving.
*/
module LeaseProtocol {
  import opened Wrappers
  import opened SessionPool

  /** Capacity of a provider's slot channel, shared by all pools of one upstream row. */
  const SLOTS := 32

  datatype Provider = Provider(row: int, slots: int, pools: int)

  /** The two sides of lease(): what the waiting caller has done. */
  datatype Caller = Expecting | Received | GaveUp

  datatype Pc =
    // acquire
    | Entering
    | Waiting
    | SlotHeld
    | OwnerLocked                                                   // holds Gateway.mu, read ctx.Err() == nil
    | Counted
    | Picked(reused: Option<Session>, stale: bool)
    | Dialed(session: Option<Session>, dialed: bool, failed: bool)
    | Established(lease: Session)                                   // acquire returned, not yet handed over
    | InUse(lease: Session)                                         // owned by the caller
    // shared tail of a failed acquire and of release
    | ReturningSlot(counted: bool)
    | Finishing(counted: bool)
    | Checking(counted: bool)
    | Unregistering(counted: bool)
    | Signalling
    | Done
    // httpSessionPool.close
    | Canceling(force: bool)
    | Retiring(force: bool)
    // Gateway.httpPool, holding Gateway.mu, read ctx.Err() == nil
    | Opening(key: Key)

  datatype Actor = Actor(pool: nat, provider: nat, caller: Caller, ctxDone: bool, pc: Pc)

  /** Where a session is: a history variable that the steps never read. */
  datatype Custody = Idle(pool: nat) | Held(actor: nat) | Gone

  datatype State = State(
    pools: map<nat, Pool>,
    providers: map<nat, Provider>,
    httpPools: map<Key, nat>,
    httpProviders: map<int, nat>,
    actors: map<nat, Actor>,
    lock: Option<nat>,          // actor between a check under Gateway.mu and the write it guards
    canceled: bool,             // Gateway.ctx
    swept: bool,                // Gateway.Close has left its critical section
    toClose: set<nat>,          // pools Gateway.Close took out and has not started to close
    waited: bool,               // Gateway.Close's wait returned
    inFlight: int,              // the wait group
    custody: map<Session, Custody>,
    unregistered: set<nat>)     // pools whose forget section has run (history)

  const Initial := State(map[], map[], map[], map[], map[], None, false, false, {}, false, 0, map[], {})

  datatype Step =
    | OpenCheck(a: nat, key: Key)
    | OpenAbort(a: nat)
    | OpenCommit(a: nat, pool: nat, provider: nat)
    | StartLease(a: nat, pool: nat)
    | ContextDone(a: nat)
    | GiveUp(a: nat)
    | EnterPool(a: nat)
    | TakeSlot(a: nat)
    | AbandonWait(a: nat)
    | LockOwner(a: nat)
    | CountFlight(a: nat)
    | PickSession(a: nat)
    | Dial(a: nat, connected: Option<Session>)
    | RecordLease(a: nat, ctxErr: bool)
    | HandOver(a: nat)
    | SelfRelease(a: nat)
    | Release(a: nat, failed: bool)
    | ReturnSlot(a: nat)
    | FinishLease(a: nat)
    | CheckUnused(a: nat)
    | Unregister(a: nat)
    | SignalDone(a: nat)
    | StartClose(a: nat, key: Key)
    | CancelPool(a: nat)
    | RetirePool(a: nat)
    | GatewayCancel
    | GatewaySweep
    | GatewayClosePool(a: nat, pool: nat)
    | GatewayWait

  predicate At(s: State, a: nat) {
    && a in s.actors
    && s.actors[a].pool in s.pools
    && s.actors[a].provider in s.providers
  }

  /** The request's own context or the gateway's is done: lease()'s escape branches. */
  predicate Interrupted(s: State, a: nat)
    requires a in s.actors
  {
    s.actors[a].ctxDone || s.canceled
  }

  predicate Enabled(s: State, step: Step) {
    match step
    case OpenCheck(a, key) =>
      && a !in s.actors && s.lock.None? && !s.canceled
      && (key in s.httpPools ==> s.httpPools[key] in s.pools && s.pools[s.httpPools[key]].retired)
    case OpenAbort(a) => a in s.actors && s.actors[a].pc.Opening?
    case OpenCommit(a, pool, provider) =>
      && a in s.actors && s.actors[a].pc.Opening? && pool !in s.pools
      && var row := s.actors[a].pc.key.row;
         if row in s.httpProviders then provider == s.httpProviders[row] && provider in s.providers
         else provider !in s.providers
    case StartLease(a, pool) => a !in s.actors && pool in s.pools
    case ContextDone(a) => a in s.actors
    case GiveUp(a) => a in s.actors && s.actors[a].caller.Expecting? && Interrupted(s, a)
    case EnterPool(a) => At(s, a) && s.actors[a].pc.Entering?
    case TakeSlot(a) => At(s, a) && s.actors[a].pc.Waiting? && s.providers[s.actors[a].provider].slots < SLOTS
    case AbandonWait(a) =>
      At(s, a) && s.actors[a].pc.Waiting? && (s.actors[a].ctxDone || s.pools[s.actors[a].pool].canceled || s.canceled)
    case LockOwner(a) => At(s, a) && s.actors[a].pc.SlotHeld? && s.lock.None?
    case CountFlight(a) => At(s, a) && s.actors[a].pc.OwnerLocked?
    case PickSession(a) => At(s, a) && s.actors[a].pc.Counted?
    case Dial(a, connected) =>
      && At(s, a) && s.actors[a].pc.Picked?
      && (connected.Some? ==> connected.value !in s.custody
                              && s.actors[a].pc.reused.None? && !s.actors[a].pc.stale)
    case RecordLease(a, ctxErr) =>
      && At(s, a) && s.actors[a].pc.Dialed?
      && (!s.actors[a].pc.failed ==> s.actors[a].pc.session.Some?)
      && (ctxErr ==> s.actors[a].ctxDone || s.canceled || s.pools[s.actors[a].pool].canceled)
    case HandOver(a) => At(s, a) && s.actors[a].pc.Established? && s.actors[a].caller.Expecting?
    case SelfRelease(a) => At(s, a) && s.actors[a].pc.Established? && Interrupted(s, a)
    case Release(a, failed) => At(s, a) && s.actors[a].pc.InUse?
    case ReturnSlot(a) => At(s, a) && s.actors[a].pc.ReturningSlot?
    case FinishLease(a) => At(s, a) && s.actors[a].pc.Finishing?
    case CheckUnused(a) => At(s, a) && s.actors[a].pc.Checking?
    case Unregister(a) =>
      At(s, a) && s.actors[a].pc.Unregistering? && s.lock.None?
      && s.actors[a].provider == s.pools[s.actors[a].pool].provider
    case SignalDone(a) => At(s, a) && s.actors[a].pc.Signalling?
    case StartClose(a, key) =>
      a !in s.actors && s.lock.None? && key in s.httpPools && s.httpPools[key] in s.pools
    case CancelPool(a) => At(s, a) && s.actors[a].pc.Canceling?
    case RetirePool(a) => At(s, a) && s.actors[a].pc.Retiring?
    case GatewayCancel => !s.canceled
    case GatewaySweep => s.canceled && !s.swept && s.lock.None?
    case GatewayClosePool(a, pool) => a !in s.actors && s.swept && pool in s.toClose && pool in s.pools
    case GatewayWait =>
      && s.swept && s.toClose == {} && s.inFlight == 0
      && forall a <- s.actors :: s.actors[a].pc != Canceling(true) && s.actors[a].pc != Retiring(true)
  }

  // ---- Steps of one actor ----

  /** How a step moves sessions between places. */
  datatype Transfer = Stay | Give(session: Session, to: Custody) | EvictIdle

  /**
    What a step of one actor changes: the actor, its pool, its provider's slot
    channel, the wait group, the holder of Gateway.mu, and session custody.
  */
  datatype Effect = Effect(
    actor: Actor,
    pool: Option<Pool>,
    slots: int,
    flight: int,
    lock: Option<nat>,
    transfer: Transfer)

  function MyPool(s: State, a: nat): Pool
    requires At(s, a)
  {
    s.pools[s.actors[a].pool]
  }

  function NewActor(s: State, pool: nat, pc: Pc): Actor
    requires pool in s.pools
  {
    Actor(pool, s.pools[pool].provider, if pc.Entering? then Expecting else GaveUp, false, pc)
  }

  function Goto(s: State, a: nat, pc: Pc): Effect
    requires a in s.actors
  {
    Effect(s.actors[a].(pc := pc), None, 0, 0, s.lock, Stay)
  }

  function GotoWith(s: State, a: nat, pc: Pc, pool: Pool): Effect
    requires At(s, a)
  {
    Goto(s, a, pc).(pool := Some(pool))
  }

  /** The release section and where it leaves the session. */
  function Released(s: State, a: nat, session: Session, failed: bool): Effect
    requires At(s, a)
  {
    var (pool, discarded) := PutBack(MyPool(s, a), session, failed);
    GotoWith(s, a, ReturningSlot(true), pool).(
      transfer := Give(session, if discarded then Gone else Idle(s.actors[a].pool)))
  }

  /** Reuse the idle session, or connect a new one; a pool that was retired in between gives neither. */
  function DialEffect(s: State, a: nat, connected: Option<Session>): Effect
    requires At(s, a) && s.actors[a].pc.Picked?
  {
    var Picked(reused, stale) := s.actors[a].pc;
    if stale then Goto(s, a, Dialed(reused, false, true))
    else if reused.Some? then Goto(s, a, Dialed(reused, false, false))
    else if connected.Some? then Goto(s, a, Dialed(connected, true, false)).(transfer := Give(connected.value, Held(a)))
    else Goto(s, a, Dialed(None, false, true))
  }

  /** The section that records the session with the request's context, or drops it. */
  function RecordEffect(s: State, a: nat, ctxErr: bool): Effect
    requires At(s, a) && s.actors[a].pc.Dialed? && (!s.actors[a].pc.failed ==> s.actors[a].pc.session.Some?)
  {
    var Dialed(session, dialed, failed) := s.actors[a].pc;
    var (pool, established) := Record(MyPool(s, a), session, failed, ctxErr);
    if established then GotoWith(s, a, Established(session.value), pool)
    else
      GotoWith(s, a, ReturningSlot(true), pool).(
        transfer := if session.Some? then Give(session.value, Gone) else Stay)
  }

  function Evicted(custody: map<Session, Custody>, pool: nat): map<Session, Custody> {
    map x <- custody :: if custody[x] == Idle(pool) then Gone else custody[x]
  }

  function Apply(s: State, a: nat, e: Effect): State {
    var actor := e.actor;
    s.(actors := s.actors[a := actor],
       pools := if e.pool.Some? then s.pools[actor.pool := e.pool.value] else s.pools,
       providers := if e.slots != 0 && actor.provider in s.providers
                    then s.providers[actor.provider :=
                        s.providers[actor.provider].(slots := s.providers[actor.provider].slots + e.slots)]
                    else s.providers,
       inFlight := s.inFlight + e.flight,
       lock := e.lock,
       custody := match e.transfer
                  case Stay => s.custody
                  case Give(x, to) => s.custody[x := to]
                  case EvictIdle => Evicted(s.custody, actor.pool))
  }

  predicate IsLocal(step: Step) {
    !step.OpenCommit? && !step.Unregister? && !step.GatewayCancel? && !step.GatewaySweep?
    && !step.GatewayClosePool? && !step.GatewayWait?
  }

  /** Registering a pool, and a lease up to its handover. */
  predicate IsAcquiring(step: Step) {
    || step.OpenCheck? || step.OpenAbort? || step.StartLease? || step.ContextDone? || step.GiveUp? || step.EnterPool?
    || step.TakeSlot? || step.AbandonWait? || step.LockOwner? || step.CountFlight? || step.PickSession? || step.Dial?
    || step.RecordLease? || step.HandOver?
  }

  function AcquireEffect(s: State, step: Step): Effect
    requires Enabled(s, step) && IsAcquiring(step)
  {
    match step
    case OpenCheck(a, key) => Effect(Actor(0, 0, GaveUp, false, Opening(key)), None, 0, 0, Some(a), Stay)
    case OpenAbort(a) => Goto(s, a, Done).(lock := None)
    case StartLease(a, pool) => Effect(NewActor(s, pool, Entering), None, 0, 0, s.lock, Stay)
    case ContextDone(a) => Effect(s.actors[a].(ctxDone := true), None, 0, 0, s.lock, Stay)
    case GiveUp(a) => Effect(s.actors[a].(caller := GaveUp), None, 0, 0, s.lock, Stay)
    case EnterPool(a) =>
      var (pool, entered) := Enter(MyPool(s, a));
      GotoWith(s, a, if entered then Waiting else Done, pool)
    case TakeSlot(a) => Goto(s, a, SlotHeld).(slots := 1)
    case AbandonWait(a) => Goto(s, a, Finishing(false))
    case LockOwner(a) =>
      if s.canceled then Goto(s, a, ReturningSlot(false)) else Goto(s, a, OwnerLocked).(lock := Some(a))
    case CountFlight(a) => Goto(s, a, Counted).(flight := 1, lock := None)
    case PickSession(a) =>
      var (pool, session) := Pick(MyPool(s, a));
      GotoWith(s, a, Picked(session, pool.retired), pool).(
        transfer := if session.Some? then Give(session.value, Held(a)) else Stay)
    case Dial(a, connected) => DialEffect(s, a, connected)
    case RecordLease(a, ctxErr) => RecordEffect(s, a, ctxErr)
    case HandOver(a) => Effect(s.actors[a].(caller := Received, pc := InUse(s.actors[a].pc.lease)), None, 0, 0, s.lock,
                               Stay)
  }

  function ReleaseEffect(s: State, step: Step): Effect
    requires Enabled(s, step) && IsLocal(step) && !IsAcquiring(step)
  {
    match step
    case SelfRelease(a) => Released(s, a, s.actors[a].pc.lease, true)
    case Release(a, failed) => Released(s, a, s.actors[a].pc.lease, failed)
    case ReturnSlot(a) => Goto(s, a, Finishing(s.actors[a].pc.counted)).(slots := -1)
    case FinishLease(a) => GotoWith(s, a, Checking(s.actors[a].pc.counted), LeaseFinished(MyPool(s, a)))
    case CheckUnused(a) =>
      var counted := s.actors[a].pc.counted;
      var (pool, done) := Forget(MyPool(s, a));
      GotoWith(s, a, if done then Unregistering(counted) else if counted then Signalling else Done, pool)
    case SignalDone(a) => Goto(s, a, Done).(flight := -1)
    case StartClose(a, key) => Effect(NewActor(s, s.httpPools[key], Canceling(false)), None, 0, 0, s.lock, Stay)
    case CancelPool(a) => GotoWith(s, a, Retiring(s.actors[a].pc.force), MyPool(s, a).(canceled := true))
    case RetirePool(a) => GotoWith(s, a, Checking(false), Retire(MyPool(s, a))).(transfer := EvictIdle)
  }

  function EffectOf(s: State, step: Step): Effect
    requires Enabled(s, step) && IsLocal(step)
  {
    if IsAcquiring(step) then AcquireEffect(s, step) else ReleaseEffect(s, step)
  }

  // ---- Steps under Gateway.mu that register, forget or sweep pools ----

  /** The sharing part of httpPool: the provider of the row, created on first use, gains one pool. */
  function AddPool(s: State, key: Key, pool: nat, provider: nat): State {
    var shared := if provider in s.providers then s.providers[provider] else Provider(key.row, 0, 0);
    s.(pools := s.pools[pool := NewPool(key, provider)],
       providers := s.providers[provider := shared.(pools := shared.pools + 1)],
       httpProviders := s.httpProviders[key.row := provider],
       httpPools := s.httpPools[key := pool])
  }

  /** The second section of forgetIfUnused: take the pool and possibly its provider out of the registries. */
  function DropPool(s: State, p: nat): State
    requires p in s.pools && s.pools[p].provider in s.providers
  {
    var key, v := s.pools[p].key, s.pools[p].provider;
    var provider := s.providers[v].(pools := s.providers[v].pools - 1);
    s.(httpPools := if key in s.httpPools && s.httpPools[key] == p then s.httpPools - {key} else s.httpPools,
       providers := s.providers[v := provider],
       httpProviders := if provider.pools == 0 && key.row in s.httpProviders && s.httpProviders[key.row] == v
                        then s.httpProviders - {key.row} else s.httpProviders,
       unregistered := s.unregistered + {p})
  }

  /** The actor part of the two registry sections. */
  function RegistryEffect(s: State, step: Step): Effect
    requires (step.OpenCommit? || step.Unregister?) && Enabled(s, step)
  {
    if step.OpenCommit? then Goto(s, step.a, Done).(lock := None)
    else Goto(s, step.a, if s.actors[step.a].pc.counted then Signalling else Done)
  }

  /** The steps that touch the registries or the gateway as a whole. */
  function NextShared(s: State, step: Step): State
    requires Enabled(s, step) && !IsLocal(step)
  {
    match step
    case OpenCommit(a, pool, provider) =>
      AddPool(Apply(s, a, RegistryEffect(s, step)), s.actors[a].pc.key, pool, provider)
    case Unregister(a) => DropPool(Apply(s, a, RegistryEffect(s, step)), s.actors[a].pool)
    case GatewayCancel => s.(canceled := true)
    case GatewaySweep => s.(swept := true, toClose := s.httpPools.Values, httpPools := map[])
    case GatewayClosePool(a, pool) => Apply(s, a, CloserEffect(s, pool)).(toClose := s.toClose - {pool})
    case GatewayWait => s.(waited := true)
  }

  /** Gateway.Close starts the forced close of one pool it took out. */
  function CloserEffect(s: State, pool: nat): Effect
    requires pool in s.pools
  {
    Effect(NewActor(s, pool, Canceling(true)), None, 0, 0, s.lock, Stay)
  }

  function Next(s: State, step: Step): State
    requires Enabled(s, step)
  {
    if IsLocal(step) then Apply(s, step.a, EffectOf(s, step)) else NextShared(s, step)
  }

  /** The state after a run, or None when some step of it was not enabled. */
  function Exec(steps: seq<Step>): Option<State> {
    if steps == [] then Some(Initial)
    else
      match Exec(steps[..|steps| - 1])
      case None => None
      case Some(s) => if Enabled(s, steps[|steps| - 1]) then Some(Next(s, steps[|steps| - 1])) else None
  }

  ghost predicate Reachable(s: State) {
    exists steps :: Exec(steps) == Some(s)
  }
}
