/**
  The mutex-guarded part of one upstream session pool. Every function below is
  one critical section of the pool's mutex; the class performs the same
  sections on its fields.
*/
module SessionPool {
  import opened Wrappers

  type Session = nat

  /** A pool is keyed by its upstream row and the digest of the row's configuration. */
  datatype Key = Key(row: int, config: nat)

  /**
    `sessions` maps every session the pool accounts for to whether a request
    context is attached to it; `idle` is a stack.
  */
  datatype Pool = Pool(
    key: Key,
    provider: nat,
    canceled: bool,
    retired: bool,
    forgotten: bool,
    leases: int,
    idle: seq<Session>,
    sessions: map<Session, bool>)

  function NewPool(key: Key, provider: nat): Pool {
    Pool(key, provider, false, false, false, 0, [], map[])
  }

  /** acquire, first section: refuse a retired pool, otherwise count the lease. */
  function Enter(p: Pool): (Pool, bool) {
    if p.retired then (p, false) else (p.(leases := p.leases + 1), true)
  }

  /** acquire, second section: pop an idle session and read the retired flag. */
  function Pick(p: Pool): (Pool, Option<Session>) {
    if p.idle == [] then (p, None)
    else (p.(idle := p.idle[..|p.idle| - 1]), Some(p.idle[|p.idle| - 1]))
  }

  /** acquire, last section: record the session, or drop it when the attempt failed or was overtaken. */
  function Record(p: Pool, session: Option<Session>, failed: bool, ctxDone: bool): (Pool, bool)
    requires !failed ==> session.Some?
  {
    if !failed && !p.retired && !ctxDone then (p.(sessions := p.sessions[session.value := true]), true)
    else if session.Some? then (p.(sessions := p.sessions - {session.value}), false)
    else (p, false)
  }

  /** release: put the session back on the stack, or drop it after an error or in a retired pool. */
  function PutBack(p: Pool, session: Session, failed: bool): (Pool, bool) {
    if failed || p.retired then (p.(sessions := p.sessions - {session}), true)
    else (p.(sessions := p.sessions[session := false], idle := p.idle + [session]), false)
  }

  /** close: retire the pool and take its idle sessions out. */
  function Retire(p: Pool): Pool {
    p.(retired := true, idle := [], sessions := p.sessions - (set x <- p.idle))
  }

  /** finishLease. */
  function LeaseFinished(p: Pool): Pool {
    p.(leases := p.leases - 1)
  }

  predicate Unused(p: Pool) {
    p.retired && p.leases == 0 && p.sessions == map[]
  }

  /** forgetIfUnused, first section: claim the one cleanup of an unused pool. */
  function Forget(p: Pool): (Pool, bool) {
    var done := Unused(p) && !p.forgotten;
    (if done then p.(forgotten := true) else p, done)
  }

  /** The same sections on the fields of the pool object. */
  class HttpSessionPool {
    const key: Key
    const provider: nat
    var canceled: bool
    var retired: bool
    var forgotten: bool
    var leases: int
    var idle: seq<Session>
    var sessions: map<Session, bool>

    ghost function State(): Pool
      reads this
    {
      Pool(key, provider, canceled, retired, forgotten, leases, idle, sessions)
    }

    constructor (key: Key, provider: nat)
      ensures State() == NewPool(key, provider)
    {
      this.key := key;
      this.provider := provider;
      canceled, retired, forgotten := false, false, false;
      leases := 0;
      idle := [];
      sessions := map[];
    }

    method BeginLease() returns (entered: bool)
      modifies this
      ensures (State(), entered) == Enter(old(State()))
    {
      if retired {
        return false;
      }
      leases := leases + 1;
      return true;
    }

    method PickIdle() returns (session: Option<Session>, stale: bool)
      modifies this
      ensures (State(), session) == Pick(old(State()))
      ensures stale == retired
    {
      session := None;
      var n := |idle|;
      if n > 0 {
        session := Some(idle[n - 1]);
        idle := idle[..n - 1];
      }
      stale := retired;
    }

    method RecordSession(session: Option<Session>, failed: bool, ctxDone: bool) returns (established: bool)
      requires !failed ==> session.Some?
      modifies this
      ensures (State(), established) == Record(old(State()), session, failed, ctxDone)
    {
      var err := failed;
      if !err && (retired || ctxDone) {
        err := true;
      }
      if !err {
        sessions := sessions[session.value := true];
      } else if session.Some? {
        sessions := sessions - {session.value};
      }
      established := !err;
    }

    method ReleaseSession(session: Session, failed: bool) returns (discarded: bool)
      modifies this
      ensures (State(), discarded) == PutBack(old(State()), session, failed)
    {
      discarded := failed || retired;
      if discarded {
        sessions := sessions - {session};
      } else {
        sessions := sessions[session := false];
        idle := idle + [session];
      }
    }

    /**
      close: cancels the pool's own context, retires it, and returns the idle
      sessions to close. A forced close also cancels the request contexts of
      exactly the sessions that carry one.
    */
    method Close(force: bool) returns (closing: seq<Session>, interrupted: set<Session>)
      modifies this
      ensures State() == Retire(old(State()).(canceled := true))
      ensures closing == old(idle)
      ensures interrupted == if force then set x <- old(sessions) | old(sessions)[x] else {}
    {
      canceled := true;
      retired := true;
      closing := idle;
      idle := [];
      interrupted := {};
      if force {
        interrupted := InterruptRequests();
      }
      DropSessions(closing);
    }

    /** The sessions a request context is attached to; each of those contexts is canceled. */
    method InterruptRequests() returns (interrupted: set<Session>)
      ensures interrupted == set x <- sessions | sessions[x]
    {
      interrupted := {};
      var rest := sessions.Keys;
      while rest != {}
        invariant rest <= sessions.Keys
        invariant interrupted == set x | x in sessions && x !in rest && sessions[x]
        decreases |rest|
      {
        var x :| x in rest;
        rest := rest - {x};
        if sessions[x] {
          interrupted := interrupted + {x};
        }
      }
    }

    method DropSessions(closing: seq<Session>)
      modifies this`sessions
      ensures sessions == old(sessions) - (set x <- closing)
    {
      for i := 0 to |closing|
        invariant sessions.Keys == set x <- old(sessions) | x !in closing[..i]
        invariant forall x <- sessions :: sessions[x] == old(sessions)[x]
      {
        sessions := sessions - {closing[i]};
        assert closing[..i + 1] == closing[..i] + [closing[i]];
      }
    }

    method FinishLease()
      modifies this
      ensures State() == LeaseFinished(old(State()))
    {
      leases := leases - 1;
    }

    method ForgetIfUnused() returns (done: bool)
      modifies this
      ensures (State(), done) == Forget(old(State()))
    {
      done := retired && leases == 0 && |sessions| == 0 && !forgotten;
      if done {
        forgotten := true;
      }
    }
  }
}
