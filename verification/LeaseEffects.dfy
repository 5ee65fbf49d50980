/** What the sections of a pool do, step by step, in terms of the pool, the actor and what they find. */
module LeaseEffects {
  import opened Wrappers
  import opened SessionPool
  import opened LeaseProtocol

  /** The pool is the same but for its counter, its idle stack and its sessions. */
  predicate SameFlags(p: Pool, q: Pool) {
    && q.key == p.key && q.provider == p.provider && q.canceled == p.canceled
    && q.retired == p.retired && q.forgotten == p.forgotten
  }

  /** A request enters a live pool and is counted; a retired one turns it away. */
  lemma EnterIff(s: State, a: nat)
    requires Enabled(s, EnterPool(a))
    ensures var t, home := Next(s, EnterPool(a)), s.actors[a].pool;
            && a in t.actors && home in t.pools
            && if s.pools[home].retired then t.actors[a].pc == Done && t.pools == s.pools
               else t.actors[a].pc == Waiting && t.pools[home] == s.pools[home].(leases := s.pools[home].leases + 1)
  {}

  /** The most recently idle session is taken, if there is one, and the retired flag is read with it. */
  lemma PickTakesLast(s: State, a: nat)
    requires Enabled(s, PickSession(a))
    ensures var t, home := Next(s, PickSession(a)), s.actors[a].pool;
            var p := s.pools[home];
            && a in t.actors && home in t.pools
            && if |p.idle| == 0 then t.actors[a].pc == Picked(None, p.retired) && t.pools == s.pools
               else
                 && t.actors[a].pc == Picked(Some(p.idle[|p.idle| - 1]), p.retired)
                 && t.pools[home] == p.(idle := p.idle[..|p.idle| - 1])
  {}

  /** A pool retired in between fails the attempt; else the idle session is used, else a new connection. */
  lemma DialGives(s: State, a: nat, connected: Option<Session>)
    requires Enabled(s, Dial(a, connected))
    ensures var t, pc := Next(s, Dial(a, connected)), s.actors[a].pc;
            && a in t.actors && t.pools == s.pools
            && t.actors[a].pc == (if pc.stale then Dialed(pc.reused, false, true)
                                  else if pc.reused.Some? then Dialed(pc.reused, false, false)
                                  else Dialed(connected, connected.Some?, connected.None?))
  {}

  /**
    A lease is established with the dialed session, and the session is attached in the pool's map, exactly if the
    dial did not fail, the pool is not retired and no context is done. Otherwise the session is out of the map and
    the slot goes back.
   */
  lemma EstablishedIff(s: State, a: nat, ctxErr: bool)
    requires Enabled(s, RecordLease(a, ctxErr))
    ensures var t, home, pc := Next(s, RecordLease(a, ctxErr)), s.actors[a].pool, s.actors[a].pc;
            && a in t.actors && home in t.pools && SameFlags(s.pools[home], t.pools[home])
            && t.pools[home].idle == s.pools[home].idle && t.pools[home].leases == s.pools[home].leases
            && if !pc.failed && !s.pools[home].retired && !ctxErr then
                 && pc.session.Some? && t.actors[a].pc == Established(pc.session.value)
                 && t.pools[home].sessions == s.pools[home].sessions[pc.session.value := true]
               else
                 && t.actors[a].pc == ReturningSlot(true)
                 && t.pools[home].sessions
                    == s.pools[home].sessions - if pc.session.Some? then {pc.session.value} else {}
  {
    hide Enabled, RecordEffect;
    RecordStep(s, a, ctxErr);
    RecordedIff(s, a, ctxErr);
  }

  lemma RecordStep(s: State, a: nat, ctxErr: bool)
    requires Enabled(s, RecordLease(a, ctxErr))
    ensures At(s, a) && s.actors[a].pc.Dialed? && (!s.actors[a].pc.failed ==> s.actors[a].pc.session.Some?)
    ensures Next(s, RecordLease(a, ctxErr)) == Apply(s, a, RecordEffect(s, a, ctxErr))
  {}

  lemma RecordedIff(s: State, a: nat, ctxErr: bool)
    requires At(s, a) && s.actors[a].pc.Dialed? && (!s.actors[a].pc.failed ==> s.actors[a].pc.session.Some?)
    ensures var e, p, pc := RecordEffect(s, a, ctxErr), s.pools[s.actors[a].pool], s.actors[a].pc;
            && e.actor.pool == s.actors[a].pool && e.pool.Some? && SameFlags(p, e.pool.value)
            && e.pool.value.idle == p.idle && e.pool.value.leases == p.leases
            && if !pc.failed && !p.retired && !ctxErr then
                 e.actor.pc == Established(pc.session.value)
                 && e.pool.value.sessions == p.sessions[pc.session.value := true]
               else
                 e.actor.pc == ReturningSlot(true)
                 && e.pool.value.sessions == p.sessions - if pc.session.Some? then {pc.session.value} else {}
  {}

  /**
    A session given back without error to a live pool is idle again, on top of the stack and without a context;
    after an error, or in a retired pool, it is out of the map.
   */
  lemma ReleasedIff(s: State, a: nat, failed: bool)
    requires Enabled(s, Release(a, failed))
    ensures var t, home, x := Next(s, Release(a, failed)), s.actors[a].pool, s.actors[a].pc.lease;
            var p := s.pools[home];
            && a in t.actors && t.actors[a].pc == ReturningSlot(true) && home in t.pools
            && SameFlags(p, t.pools[home]) && t.pools[home].leases == p.leases
            && if !failed && !p.retired then
                 t.pools[home].idle == p.idle + [x] && t.pools[home].sessions == p.sessions[x := false]
               else t.pools[home].idle == p.idle && t.pools[home].sessions == p.sessions - {x}
  {}

  /** A lease that nobody took over is given back as a failed one. */
  lemma SelfReleasedIff(s: State, a: nat)
    requires Enabled(s, SelfRelease(a))
    ensures var t, home, x := Next(s, SelfRelease(a)), s.actors[a].pool, s.actors[a].pc.lease;
            && a in t.actors && t.actors[a].pc == ReturningSlot(true) && home in t.pools
            && t.pools[home].idle == s.pools[home].idle && t.pools[home].sessions == s.pools[home].sessions - {x}
  {}

  /** So what was released last is what the next request of the pool gets. */
  lemma ReleasedThenPicked(s: State, a: nat, b: nat)
    requires Enabled(s, Release(a, false)) && a != b && b in s.actors && s.actors[b].pool == s.actors[a].pool
    requires !s.pools[s.actors[a].pool].retired && Enabled(s, PickSession(b))
    ensures var t := Next(s, Release(a, false));
            && Enabled(t, PickSession(b))
            && b in Next(t, PickSession(b)).actors
            && Next(t, PickSession(b)).actors[b].pc == Picked(Some(s.actors[a].pc.lease), false)
  {
    ReleasedIff(s, a, false);
    OthersStand(s, a, b);
    PickTakesLast(Next(s, Release(a, false)), b);
  }

  lemma OthersStand(s: State, a: nat, b: nat)
    requires Enabled(s, Release(a, false)) && a != b && b in s.actors && Enabled(s, PickSession(b))
    ensures var t := Next(s, Release(a, false));
            b in t.actors && t.actors[b] == s.actors[b] && Enabled(t, PickSession(b))
  {}

  /** A close keeps new requests out and drops the idle sessions; leased ones stay with their requests. */
  lemma RetireDrops(s: State, a: nat)
    requires Enabled(s, RetirePool(a))
    ensures var t, home := Next(s, RetirePool(a)), s.actors[a].pool;
            && home in t.pools && t.pools[home].retired && t.pools[home].idle == []
            && t.pools[home].leases == s.pools[home].leases && t.pools[home].forgotten == s.pools[home].forgotten
            && (forall x :: x in t.pools[home].sessions <==> x in s.pools[home].sessions && x !in s.pools[home].idle)
            && (forall x <- t.pools[home].sessions :: t.pools[home].sessions[x] == s.pools[home].sessions[x])
            && a in t.actors && t.actors[a].pc == Checking(false)
  {}

  lemma CancelInterrupts(s: State, a: nat)
    requires Enabled(s, CancelPool(a))
    ensures var t, home := Next(s, CancelPool(a)), s.actors[a].pool;
            && home in t.pools && t.pools[home] == s.pools[home].(canceled := true)
            && a in t.actors && t.actors[a].pc == Retiring(s.actors[a].pc.force)
  {}

  /** The counter goes down by one when a request leaves. */
  lemma LeaveCounts(s: State, a: nat)
    requires Enabled(s, FinishLease(a))
    ensures var t, home := Next(s, FinishLease(a)), s.actors[a].pool;
            home in t.pools && t.pools[home] == s.pools[home].(leases := s.pools[home].leases - 1)
  {}

  /** The cleanup of a pool is claimed exactly when it is retired, unused and not claimed yet. */
  lemma ForgottenIff(s: State, a: nat)
    requires Enabled(s, CheckUnused(a))
    ensures var t, home := Next(s, CheckUnused(a)), s.actors[a].pool;
            var p := s.pools[home];
            var claimed := p.retired && p.leases == 0 && |p.sessions| == 0 && !p.forgotten;
            && home in t.pools && a in t.actors
            && t.pools[home] == p.(forgotten := p.forgotten || claimed)
            && (t.actors[a].pc.Unregistering? <==> claimed)
  {}

  // ---- The registries ----

  /** A registered pool is live, empty, and the one found under its key; its row keeps its provider, or gets one. */
  lemma OpenRegisters(s: State, a: nat, pool: nat, provider: nat)
    requires Enabled(s, OpenCommit(a, pool, provider))
    ensures var t, key := Next(s, OpenCommit(a, pool, provider)), s.actors[a].pc.key;
            && pool in t.pools && key in t.httpPools && t.httpPools[key] == pool
            && t.pools[pool] == Pool(key, provider, false, false, false, 0, [], map[])
            && key.row in t.httpProviders && t.httpProviders[key.row] == provider
            && (key.row in s.httpProviders ==> s.httpProviders[key.row] == provider)
            && provider in t.providers
            && t.providers[provider].pools == 1 + (if provider in s.providers then s.providers[provider].pools else 0)
            && t.lock == None
  {}

  /** The cleanup frees the key if it still leads to this pool, and the row's provider with its last pool. */
  lemma CleanupFrees(s: State, a: nat)
    requires Enabled(s, Unregister(a))
    ensures var t, p, v := Next(s, Unregister(a)), s.actors[a].pool, s.actors[a].provider;
            var key := s.pools[p].key;
            && (forall k :: k in t.httpPools <==>
                  k in s.httpPools && !(k == key && s.httpPools[k] == p))
            && (forall k <- t.httpPools :: t.httpPools[k] == s.httpPools[k])
            && v in t.providers && t.providers[v].pools == s.providers[v].pools - 1
            && (forall row :: row in t.httpProviders <==>
                  row in s.httpProviders && !(row == key.row && s.httpProviders[row] == v && t.providers[v].pools == 0))
            && (forall row <- t.httpProviders :: t.httpProviders[row] == s.httpProviders[row])
  {}

  /** Gateway.Close takes every registered pool out, to close it. */
  lemma SweepTakesAll(s: State)
    requires Enabled(s, GatewaySweep)
    ensures var t := Next(s, GatewaySweep);
            && t.swept && t.httpPools == map[]
            && forall p :: p in t.toClose <==> exists k :: k in s.httpPools && s.httpPools[k] == p
  {}
}
