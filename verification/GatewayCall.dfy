/**
  One metered tool call: admission, reservation, execution, settlement and the
  answer, with other transactions running in between and with every way the
  reservation's and the settlement's commits can end.
*/
module GatewayCall {
  import opened Wrappers
  import opened LedgerModel
  import opened LedgerInvariant
  import opened LedgerProofs
  import opened LedgerTheorems
  import opened LedgerRuns
  import opened SettlementRules

  /** How a transaction ends as the server sees it: a commit can happen and still be reported as failed. */
  datatype Commit = Acknowledged | RolledBack | Unacknowledged

  datatype Attempt = Attempt(
    admitted: bool, request: ReserveRequest, catalog: Catalog, reserveCommit: Commit,
    policy: Policy, isError: bool, content: seq<Block>, host: Host,
    finishCommit: Commit, noted: bool, data: string)

  /** The attempt's verdict on what the tool returned. */
  ghost predicate Charged(a: Attempt) {
    Settled(a.policy, a.isError, a.content, a.host)
  }

  /** A refused attempt is logged if it can be. */
  ghost function LogDenied(db: Db, a: Attempt): (after: Db)
    requires CallsHaveWallets(db)
    ensures CallsHaveWallets(after)
  {
    if a.noted then
      RecordDenied(db, a.request.user, a.request.token, a.request.wallet, a.request.tool, a.request.requestKey,
                   a.catalog.now, a.data)
    else db
  }

  ghost function Finished(db: Db, id: nat, status: Status, data: string): (r: (Db, Result<bool, Error>))
    requires CallsHaveWallets(db) && id < |db.calls| && IsVerdict(status)
    ensures CallsHaveWallets(r.0) && r.0 == Apply(db, DoFinish(id, status, Some(data)))
  {
    assert db.calls[id] in db.calls;
    var r := Finish(db, id, status, Some(data));
    assert r.0 == Apply(db, DoFinish(id, status, Some(data)));
    r
  }

  /** Settlement and answer once the tool has run. */
  ghost function Settle(db: Db, id: nat, a: Attempt): (r: (Db, bool))
    requires CallsHaveWallets(db) && id < |db.calls|
    ensures CallsHaveWallets(r.0)
  {
    if a.finishCommit.RolledBack? then (db, true)
    else
      match Finished(db, id, if Charged(a) then Succeeded else Errored, a.data)
      case (same, Failure(_)) => (same, true)
      case (after, Success(changed)) => (after, !Charged(a) || (changed && a.finishCommit.Unacknowledged?))
  }

  /**
    `Gateway.call`: the database afterwards and whether the client is told of an
    error. `during` are the others' transactions while the tool runs.
   */
  ghost function Call(db: Db, a: Attempt, during: seq<Op>): (r: (Db, bool))
    requires ValidOps(during) && CallsHaveWallets(db) && ValidCatalog(a.catalog) && a.request.cost <= MAX_CREDITS
    ensures CallsHaveWallets(r.0)
  {
    if !a.admitted then (LogDenied(db, a), true)
    else
      var (reserved, outcome) := Reserve(db, a.request, a.catalog);
      ReserveWallets(db, a.request, a.catalog);
      match outcome
      case Refused(e) => (if e.NotFound? || e.RoleNotAllowed? then LogDenied(db, a) else db, true)
      case Insufficient(id) =>
        if a.reserveCommit.RolledBack? then (db, true)
        else if a.reserveCommit.Unacknowledged? || !a.noted then (reserved, true)
        else (Finished(reserved, id, Errored, a.data).0, true)
      case Reserved(id) =>
        if a.reserveCommit.RolledBack? then (db, true)
        else if a.reserveCommit.Unacknowledged? then (reserved, true)
        else
          RunFromEvolves(reserved, during);
          Settle(RunFrom(reserved, during), id, a)
  }

  lemma ReserveWallets(db: Db, r: ReserveRequest, c: Catalog)
    requires CallsHaveWallets(db) && ValidCatalog(c) && r.cost <= MAX_CREDITS
    ensures CallsHaveWallets(Reserve(db, r, c).0)
    ensures var (after, outcome) := Reserve(db, r, c);
            !outcome.Refused? ==> outcome.id < |after.calls| && after.calls[outcome.id].wallet < |after.wallets|
  {
    var (after, outcome) := Reserve(db, r, c);
    assert Apply(db, DoReserve(r, c)) == after;
    if !outcome.Refused? {
      assert after.calls[outcome.id] in after.calls;
    }
  }

  // ---- What an attempt costs ----

  ghost function Net(h: History): int {
    if h.Nothing? then 0 else Net(h.before) + h.delta
  }

  /** What the attempt moved on its wallet, over everything the ledger says about its call. */
  ghost function OwnNet(db: Db, a: Attempt): int {
    var row := FindCall(db.calls, a.request.token, a.request.requestKey);
    if row.None? then 0 else Net(HistoryOf(db.ledger, row.value))
  }

  lemma NetOfRow(db: Db, id: nat)
    requires Inv(db) && id < |db.calls|
    ensures var c := db.calls[id];
            Net(HistoryOf(db.ledger, id)) == if c.status.Pending? || c.status.Succeeded? then -c.requested else 0
  {
    var c := db.calls[id];
    assert HistoryOf(db.ledger, id) == Settlement(c);
    assert Net(Then(Nothing, c.wallet, -c.requested, Reservation)) == -c.requested;
  }

  /** Others may recover this call, but only the attempt itself settles it, and its key is its own. */
  ghost predicate Undisturbed(ops: seq<Op>, a: Attempt, id: nat) {
    forall op <- ops ::
      && (op.DoFinish? && op.id == id ==> op.status.Recovered?)
      && (op.DoReserve? ==> op.request.token != a.request.token || op.request.requestKey != a.request.requestKey)
      && (op.DoRecordDenied? ==> op.token != a.request.token || op.requestKey != a.request.requestKey)
  }

  predicate OnlyRecovers(before: Status, after: Status) {
    after == before || (before.Pending? && after.Recovered?)
  }

  lemma StepOnlyRecovers(db: Db, op: Op, id: nat)
    requires ValidOp(op) && CallsHaveWallets(db) && id < |db.calls|
    requires op.DoFinish? && op.id == id ==> op.status.Recovered?
    ensures id < |Apply(db, op).calls| && OnlyRecovers(db.calls[id].status, Apply(db, op).calls[id].status)
  {
    StepEvolves(db, op);
    StepSettles(db, op, id);
    assert RowEvolves(db.calls[id], Apply(db, op).calls[id]);
  }

  lemma {:induction false} RunOnlyRecovers(db: Db, ops: seq<Op>, a: Attempt, id: nat)
    requires ValidOps(ops) && CallsHaveWallets(db) && id < |db.calls| && Undisturbed(ops, a, id)
    ensures id < |RunFrom(db, ops).calls| && OnlyRecovers(db.calls[id].status, RunFrom(db, ops).calls[id].status)
  {
    if ops != [] {
      RunOnlyRecovers(db, ops[..|ops| - 1], a, id);
      assert ops[|ops| - 1] in ops;
      StepOnlyRecovers(RunFrom(db, ops[..|ops| - 1]), ops[|ops| - 1], id);
    }
  }

  lemma StepNoRow(db: Db, op: Op, token: int, requestKey: string)
    requires ValidOp(op) && CallsHaveWallets(db) && FindCall(db.calls, token, requestKey).None?
    requires op.DoReserve? ==> op.request.token != token || op.request.requestKey != requestKey
    requires op.DoRecordDenied? ==> op.token != token || op.requestKey != requestKey
    ensures FindCall(Apply(db, op).calls, token, requestKey).None?
  {
    hide Apply, ValidOp, CallsHaveWallets;
    var after := Apply(db, op);
    StepEvolves(db, op);
    forall i | 0 <= i < |after.calls| ensures after.calls[i].token != token || after.calls[i].requestKey != requestKey {
      if i < |db.calls| {
        assert RowEvolves(db.calls[i], after.calls[i]) && db.calls[i] in db.calls;
      } else {
        StepAdds(db, op);
      }
    }
  }

  /** Only a reservation or a logged refusal adds a call row, and it carries the operation's key. */
  lemma StepAdds(db: Db, op: Op)
    requires ValidOp(op) && CallsHaveWallets(db)
    ensures var after := Apply(db, op);
            && |db.calls| <= |after.calls| <= |db.calls| + 1
            && (|after.calls| > |db.calls| ==>
                  var row := after.calls[|db.calls|];
                  || (op.DoReserve? && row.token == op.request.token && row.requestKey == op.request.requestKey)
                  || (op.DoRecordDenied? && row.token == op.token && row.requestKey == op.requestKey))
  {
    match op
    case DoFund(user, team, credits, key, ownerOk, userOk, userStillOk) =>
      if Apply(db, op) != db {
        var from, to, row := FundEffect(db, user, team, credits, key, ownerOk, userOk, userStillOk);
      }
    case _ =>
  }

  lemma {:induction false} RunNoRow(db: Db, ops: seq<Op>, a: Attempt, id: nat)
    requires ValidOps(ops) && CallsHaveWallets(db) && Undisturbed(ops, a, id)
    requires FindCall(db.calls, a.request.token, a.request.requestKey).None?
    ensures FindCall(RunFrom(db, ops).calls, a.request.token, a.request.requestKey).None?
  {
    if ops != [] {
      RunNoRow(db, ops[..|ops| - 1], a, id);
      assert ops[|ops| - 1] in ops;
      StepNoRow(RunFrom(db, ops[..|ops| - 1]), ops[|ops| - 1], a.request.token, a.request.requestKey);
    }
  }

  // ---- The answer tells what the call costs ----

  /** The attempt settled its still pending call as a success and that commit took place. */
  ghost predicate ChargeCommitted(db: Db, a: Attempt, during: seq<Op>)
    requires ValidOps(during) && CallsHaveWallets(db) && ValidCatalog(a.catalog) && a.request.cost <= MAX_CREDITS
  {
    var (reserved, outcome) := Reserve(db, a.request, a.catalog);
    ReserveWallets(db, a.request, a.catalog);
    RunFromEvolves(reserved, during);
    && a.admitted && outcome.Reserved? && a.reserveCommit.Acknowledged?
    && Charged(a) && !a.finishCommit.RolledBack?
    && RunFrom(reserved, during).calls[outcome.id].status.Pending?
  }

  ghost predicate Setting(db: Db, a: Attempt, during: seq<Op>) {
    && Inv(db) && CallsHaveWallets(db) && ValidOps(during)
    && ValidCatalog(a.catalog) && a.request.cost <= MAX_CREDITS
    && FindCall(db.calls, a.request.token, a.request.requestKey).None?
    && Undisturbed(during, a, |db.calls|)
  }

  /** What the attempt's answer and its call row say about each other. */
  ghost predicate Told(c: Call, error: bool, charged: bool, unacknowledged: bool) {
    && (c.status.Succeeded? <==> charged)
    && (charged ==> (error <==> unacknowledged))
    && (!error ==> c.status.Succeeded? || c.status.Recovered?)
  }

  lemma SettleTold(db: Db, id: nat, a: Attempt)
    requires CallsHaveWallets(db) && id < |db.calls|
    requires db.calls[id].status.Pending? || db.calls[id].status.Recovered?
    ensures var (after, error) := Settle(db, id, a);
            var charged := Charged(a) && !a.finishCommit.RolledBack? && db.calls[id].status.Pending?;
            && id < |after.calls| && Told(after.calls[id], error, charged, a.finishCommit.Unacknowledged?)
            && (after == db
                || after == Apply(db, DoFinish(id, if Charged(a) then Succeeded else Errored, Some(a.data))))
  {}

  /** A fresh key never finds a row, so a reservation inserts one. */
  lemma FreshReserve(db: Db, r: ReserveRequest, c: Catalog)
    requires FindCall(db.calls, r.token, r.requestKey).None? && !Reserve(db, r, c).1.Refused?
    ensures var (after, outcome) := Reserve(db, r, c);
            && outcome.id == |db.calls| && |after.calls| == |db.calls| + 1
            && after.calls[outcome.id].status == (if outcome.Reserved? then Pending else Denied)
            && after.calls[outcome.id].token == r.token && after.calls[outcome.id].requestKey == r.requestKey
            && after.calls[outcome.id].requested == PriceOf(r, c).value
  {}

  lemma SettleKept(db: Db, id: nat, a: Attempt)
    requires Inv(db) && CallsHaveWallets(db) && id < |db.calls|
    requires db.calls[id].status.Pending? || db.calls[id].status.Recovered?
    ensures Inv(Settle(db, id, a).0) && Evolves(db, Settle(db, id, a).0)
  {
    SettleTold(db, id, a);
    var op := DoFinish(id, if Charged(a) then Succeeded else Errored, Some(a.data));
    ApplyKept(db, op);
    StepEvolves(db, op);
  }

  /** The database when the tool has run: the reservation, then the others' transactions. */
  lemma ReadyToSettle(db: Db, a: Attempt, during: seq<Op>) returns (ready: Db)
    requires Setting(db, a, during) && Reserve(db, a.request, a.catalog).1.Reserved?
    ensures var reserved := Reserve(db, a.request, a.catalog).0;
            && CallsHaveWallets(reserved) && ready == RunFrom(reserved, during)
            && Inv(ready) && CallsHaveWallets(ready) && Evolves(reserved, ready) && |db.calls| < |ready.calls|
            && (ready.calls[|db.calls|].status.Pending? || ready.calls[|db.calls|].status.Recovered?)
  {
    var reserved := Reserve(db, a.request, a.catalog).0;
    FreshReserve(db, a.request, a.catalog);
    ReserveKept(db, a.request, a.catalog);
    ReserveWallets(db, a.request, a.catalog);
    RunFromKept(reserved, during);
    RunFromEvolves(reserved, during);
    RunOnlyRecovers(reserved, during, a, |db.calls|);
    ready := RunFrom(reserved, during);
  }

  lemma ExecutedTold(db: Db, a: Attempt, during: seq<Op>)
    requires Setting(db, a, during)
    requires a.admitted && a.reserveCommit.Acknowledged? && Reserve(db, a.request, a.catalog).1.Reserved?
    ensures var (after, error) := Call(db, a, during);
            && Inv(after) && |db.calls| < |after.calls|
            && Evolves(Reserve(db, a.request, a.catalog).0, after)
            && Told(after.calls[|db.calls|], error, ChargeCommitted(db, a, during), a.finishCommit.Unacknowledged?)
  {
    var id, reserved := |db.calls|, Reserve(db, a.request, a.catalog).0;
    var ready := ReadyToSettle(db, a, during);
    FreshReserve(db, a.request, a.catalog);
    assert Call(db, a, during) == Settle(ready, id, a);
    SettleTold(ready, id, a);
    SettleKept(ready, id, a);
    EvolvesTrans(reserved, ready, Settle(ready, id, a).0);
  }

  /** The attempt's key has no row, or one that was never charged. */
  ghost predicate Uncharged(before: Db, after: Db, a: Attempt) {
    || FindCall(after.calls, a.request.token, a.request.requestKey).None?
    || (|before.calls| < |after.calls| && !after.calls[|before.calls|].status.Succeeded?
        && after.calls[|before.calls|].token == a.request.token
        && after.calls[|before.calls|].requestKey == a.request.requestKey)
  }

  lemma LoggedUncharged(db: Db, a: Attempt)
    requires Inv(db) && CallsHaveWallets(db) && FindCall(db.calls, a.request.token, a.request.requestKey).None?
    ensures Inv(LogDenied(db, a)) && Uncharged(db, LogDenied(db, a), a)
  {
    var r := a.request;
    RecordDeniedKept(db, r.user, r.token, r.wallet, r.tool, r.requestKey, a.catalog.now, a.data);
  }

  lemma ReservedUncharged(db: Db, a: Attempt)
    requires Inv(db) && CallsHaveWallets(db) && FindCall(db.calls, a.request.token, a.request.requestKey).None?
    requires ValidCatalog(a.catalog) && a.request.cost <= MAX_CREDITS && !Reserve(db, a.request, a.catalog).1.Refused?
    ensures var after := Reserve(db, a.request, a.catalog).0; Inv(after) && Uncharged(db, after, a)
  {
    ReserveKept(db, a.request, a.catalog);
    FreshReserve(db, a.request, a.catalog);
  }

  lemma DeniedUncharged(db: Db, a: Attempt, id: nat, after: Db)
    requires Inv(after) && CallsHaveWallets(after) && Uncharged(db, after, a) && id == |db.calls| < |after.calls|
    requires after.calls[id].status.Denied? && after.calls[id].token == a.request.token
    requires after.calls[id].requestKey == a.request.requestKey
    ensures Inv(Finished(after, id, Errored, a.data).0) && Uncharged(db, Finished(after, id, Errored, a.data).0, a)
  {
    ApplyKept(after, DoFinish(id, Errored, Some(a.data)));
  }

  /** What every lemma about one attempt may rely on. */
  ghost predicate Fresh(db: Db, a: Attempt) {
    && Inv(db) && CallsHaveWallets(db) && ValidCatalog(a.catalog) && a.request.cost <= MAX_CREDITS
    && FindCall(db.calls, a.request.token, a.request.requestKey).None?
  }

  lemma RefusedTold(db: Db, a: Attempt, during: seq<Op>)
    requires Fresh(db, a) && ValidOps(during)
    requires !a.admitted || Reserve(db, a.request, a.catalog).1.Refused?
    ensures var (after, error) := Call(db, a, during);
            error && (after == LogDenied(db, a) || after == db)
  {}

  lemma InsufficientTold(db: Db, a: Attempt, during: seq<Op>, id: nat)
    requires Fresh(db, a) && ValidOps(during) && a.admitted && Reserve(db, a.request, a.catalog).1 == Insufficient(id)
    requires CallsHaveWallets(Reserve(db, a.request, a.catalog).0) && id < |Reserve(db, a.request, a.catalog).0.calls|
    ensures var (after, error) := Call(db, a, during);
            var reserved := Reserve(db, a.request, a.catalog).0;
            error && (after == db || after == reserved || after == Finished(reserved, id, Errored, a.data).0)
  {}

  lemma LostReserveTold(db: Db, a: Attempt, during: seq<Op>)
    requires Fresh(db, a) && ValidOps(during) && a.admitted && !a.reserveCommit.Acknowledged?
    requires Reserve(db, a.request, a.catalog).1.Reserved?
    ensures var (after, error) := Call(db, a, during);
            error && (after == db || after == Reserve(db, a.request, a.catalog).0)
  {}

  /** Every other way an attempt can end is an error that charged nothing. */
  lemma UnexecutedTold(db: Db, a: Attempt, during: seq<Op>)
    requires Fresh(db, a) && ValidOps(during)
    requires !(a.admitted && a.reserveCommit.Acknowledged? && Reserve(db, a.request, a.catalog).1.Reserved?)
    ensures Inv(Call(db, a, during).0) && Call(db, a, during).1 && Uncharged(db, Call(db, a, during).0, a)
  {
    if !a.admitted || Reserve(db, a.request, a.catalog).1.Refused? {
      RefusedTold(db, a, during);
      LoggedUncharged(db, a);
    } else {
      ReservedUncharged(db, a);
      if Reserve(db, a.request, a.catalog).1.Reserved? {
        LostReserveTold(db, a, during);
      } else {
        InsufficientUncharged(db, a, during);
      }
    }
  }

  lemma InsufficientUncharged(db: Db, a: Attempt, during: seq<Op>)
    requires Fresh(db, a) && ValidOps(during) && a.admitted && Reserve(db, a.request, a.catalog).1.Insufficient?
    ensures Inv(Call(db, a, during).0) && Call(db, a, during).1 && Uncharged(db, Call(db, a, during).0, a)
  {
    var id, reserved := Reserve(db, a.request, a.catalog).1.id, Reserve(db, a.request, a.catalog).0;
    ReservedUncharged(db, a);
    ReserveWallets(db, a.request, a.catalog);
    FreshReserve(db, a.request, a.catalog);
    InsufficientTold(db, a, during, id);
    DeniedUncharged(db, a, id, reserved);
  }

  /** The price this attempt freezes. */
  function PriceTag(a: Attempt): int {
    match PriceOf(a.request, a.catalog)
    case Success(price) => price
    case Failure(_) => 0
  }

  /**
    An answer without error costs exactly the reserved price, or nothing when a
    recovery had already given it back. An answer with an error nets to zero
    once recovery has run, except in exactly one case: the charge was committed
    and only its acknowledgement was lost.
   */
  lemma AnswerTellsCost(db: Db, a: Attempt, during: seq<Op>, later: seq<Op>)
    requires Setting(db, a, during) && ValidOps(later) && Undisturbed(later, a, |db.calls|)
    requires AllSettled(RunFrom(Call(db, a, during).0, later), a)
    ensures var (answered, error) := Call(db, a, during);
            var net := OwnNet(RunFrom(answered, later), a);
            && (!error ==> net == if ChargeCommitted(db, a, during) then -PriceTag(a) else 0)
            && (error ==> (net == 0 <==>
                           !(ChargeCommitted(db, a, during) && a.finishCommit.Unacknowledged? && PriceTag(a) != 0)))
  {
    ReserveWallets(db, a.request, a.catalog);
    if a.admitted && a.reserveCommit.Acknowledged? && Reserve(db, a.request, a.catalog).1.Reserved? {
      ExecutedCost(db, a, during, later);
    } else {
      UnexecutedCost(db, a, during, later);
    }
  }

  /** No row of the attempt is still pending: recovery has run. */
  ghost predicate AllSettled(final: Db, a: Attempt) {
    forall c <- final.calls :: c.token == a.request.token && c.requestKey == a.request.requestKey ==> !c.status.Pending?
  }

  lemma ExecutedCost(db: Db, a: Attempt, during: seq<Op>, later: seq<Op>)
    requires Setting(db, a, during) && ValidOps(later) && Undisturbed(later, a, |db.calls|)
    requires AllSettled(RunFrom(Call(db, a, during).0, later), a)
    requires a.admitted && a.reserveCommit.Acknowledged? && Reserve(db, a.request, a.catalog).1.Reserved?
    ensures OwnNet(RunFrom(Call(db, a, during).0, later), a)
         == if ChargeCommitted(db, a, during) then -PriceTag(a) else 0
    ensures !Call(db, a, during).1 || !ChargeCommitted(db, a, during) || a.finishCommit.Unacknowledged?
    ensures ChargeCommitted(db, a, during) && a.finishCommit.Unacknowledged? ==> Call(db, a, during).1
  {
    var answered, id := Call(db, a, during).0, |db.calls|;
    ExecutedTold(db, a, during);
    FreshReserve(db, a.request, a.catalog);
    assert RowEvolves(Reserve(db, a.request, a.catalog).0.calls[id], answered.calls[id]);
    RowTold(answered, a, later, id);
  }

  lemma UnexecutedCost(db: Db, a: Attempt, during: seq<Op>, later: seq<Op>)
    requires Setting(db, a, during) && ValidOps(later) && Undisturbed(later, a, |db.calls|)
    requires AllSettled(RunFrom(Call(db, a, during).0, later), a)
    requires !(a.admitted && a.reserveCommit.Acknowledged? && Reserve(db, a.request, a.catalog).1.Reserved?)
    ensures OwnNet(RunFrom(Call(db, a, during).0, later), a) == 0 && Call(db, a, during).1
  {
    var answered := Call(db, a, during).0;
    UnexecutedTold(db, a, during);
    if FindCall(answered.calls, a.request.token, a.request.requestKey).None? {
      RunNoRow(answered, later, a, |db.calls|);
    } else {
      RowTold(answered, a, later, |db.calls|);
    }
  }

  /** Once the row is no longer pending, the net amount is decided by whether it had succeeded at the answer. */
  lemma RowTold(answered: Db, a: Attempt, later: seq<Op>, id: nat)
    requires Inv(answered) && CallsHaveWallets(answered) && ValidOps(later) && Undisturbed(later, a, id)
    requires id < |answered.calls|
    requires answered.calls[id].token == a.request.token && answered.calls[id].requestKey == a.request.requestKey
    requires AllSettled(RunFrom(answered, later), a)
    ensures OwnNet(RunFrom(answered, later), a) ==
            if answered.calls[id].status.Succeeded? then -answered.calls[id].requested else 0
  {
    var final := FinalRow(answered, a, later, id);
    SettledRow(answered.calls[id], final, a, id);
  }

  lemma FinalRow(answered: Db, a: Attempt, later: seq<Op>, id: nat) returns (final: Db)
    requires Inv(answered) && CallsHaveWallets(answered) && ValidOps(later) && Undisturbed(later, a, id)
    requires id < |answered.calls|
    ensures final == RunFrom(answered, later) && Inv(final) && id < |final.calls|
    ensures RowEvolves(answered.calls[id], final.calls[id])
    ensures OnlyRecovers(answered.calls[id].status, final.calls[id].status)
  {
    final := RunFrom(answered, later);
    RunOnlyRecovers(answered, later, a, id);
    RunFromKept(answered, later);
    RunFromEvolves(answered, later);
  }

  lemma SettledRow(was: LedgerModel.Call, final: Db, a: Attempt, id: nat)
    requires Inv(final) && id < |final.calls| && RowEvolves(was, final.calls[id])
    requires OnlyRecovers(was.status, final.calls[id].status) && AllSettled(final, a)
    requires was.token == a.request.token && was.requestKey == a.request.requestKey
    ensures OwnNet(final, a) == if was.status.Succeeded? then -was.requested else 0
  {
    assert final.calls[id] in final.calls;
    CallFound(final.calls, id);
    NetOfRow(final, id);
  }

  /** Losing the acknowledgement of a charge reports an error for a call that stays charged. */
  lemma LostAcknowledgement(db: Db, a: Attempt)
    requires Setting(db, a, []) && a.admitted && a.reserveCommit.Acknowledged?
    requires Reserve(db, a.request, a.catalog).1.Reserved?
    requires Charged(a) && a.finishCommit.Unacknowledged?
    ensures Call(db, a, []).1 && OwnNet(Call(db, a, []).0, a) == -PriceTag(a)
  {
    FreshReserve(db, a.request, a.catalog);
    var ready := ReadyToSettle(db, a, []);
    ExecutedTold(db, a, []);
    var (answered, error) := Call(db, a, []);
    assert RowEvolves(Reserve(db, a.request, a.catalog).0.calls[|db.calls|], answered.calls[|db.calls|]);
    CallFound(answered.calls, |db.calls|);
    NetOfRow(answered, |db.calls|);
  }

  lemma OneUser() returns (db: Db)
    ensures Inv(db) && CallsHaveWallets(db) && db.calls == [] && |db.wallets| == 1 && db.wallets[0].balance == 10
  {
    assert Inv(Empty);
    OpenKept(Empty, User(1), 10, Local);
    db := Open(Empty, User(1), 10, Local).value;
  }

  lemma FirstCall(host: Host) returns (db: Db, a: Attempt)
    ensures Setting(db, a, []) && a.host == host && a.admitted && a.reserveCommit.Acknowledged?
    ensures Reserve(db, a.request, a.catalog).1.Reserved? && PriceTag(a) == 5
    ensures Charged(a) && a.finishCommit.Unacknowledged?
  {
    db := OneUser();
    var request := ReserveRequest(1, 1, 0, Some(0), "echo", 0, "k");
    var catalog := Catalog(Some(ToolRow(5, [])), true, Some(Role("default", 10000)), true, 0);
    a := Attempt(true, request, catalog, Acknowledged, Absent, false, [], host, Unacknowledged, true, "");
  }

  /** That does happen: a first call of price 5 on a wallet of 10. */
  lemma ChargedButReportedFailed(host: Host)
    ensures exists db, a: Attempt ::
              a.host == host && Setting(db, a, []) && Call(db, a, []).1 && OwnNet(Call(db, a, []).0, a) == -5
  {
    var db, a := FirstCall(host);
    LostAcknowledgement(db, a);
  }
}
