/** What a metered call costs and answers, by what came back from upstream. */
module CallVerdicts {
  import opened Wrappers
  import opened LedgerModel
  import opened LedgerInvariant
  import opened LedgerTheorems
  import opened LedgerRuns
  import opened LedgerEffects
  import opened SettlementMeaning
  import opened GatewayCall

  /** The attempt got its reservation, and was told so. */
  ghost predicate Executes(db: Db, a: Attempt) {
    a.admitted && a.reserveCommit.Acknowledged? && Reserve(db, a.request, a.catalog).1.Reserved?
  }

  /**
    A call that fails upstream is answered as an error, whatever its policy, and costs nothing once its row is no
    longer pending, be it settled by the call itself or recovered at any later time.
   */
  lemma UpstreamErrorIsFree(db: Db, a: Attempt, during: seq<Op>, later: seq<Op>)
    requires Setting(db, a, during) && ValidOps(later) && Undisturbed(later, a, |db.calls|) && a.isError
    ensures GatewayCall.Call(db, a, during).1
    ensures AllSettled(RunFrom(GatewayCall.Call(db, a, during).0, later), a) ==>
              OwnNet(RunFrom(GatewayCall.Call(db, a, during).0, later), a) == 0
  {
    ChargedIff(a.policy, a.isError, a.content, a.host);
    if Executes(db, a) {
      ExecutedTold(db, a, during);
    } else {
      UnexecutedTold(db, a, during);
    }
    if AllSettled(RunFrom(GatewayCall.Call(db, a, during).0, later), a) { AnswerTellsCost(db, a, during, later); }
  }

  /** Nobody recovered the call while its tool ran. */
  ghost predicate LeftAlone(during: seq<Op>, id: nat) {
    forall op <- during :: op.DoFinish? ==> op.id != id
  }

  lemma StepLeavesPending(db: Db, op: Op, id: nat)
    requires ValidOp(op) && CallsHaveWallets(db) && id < |db.calls| && db.calls[id].status.Pending?
    requires op.DoFinish? ==> op.id != id
    ensures id < |Apply(db, op).calls| && Apply(db, op).calls[id].status.Pending?
  {
    StepEvolves(db, op);
    StepSettles(db, op, id);
    assert RowEvolves(db.calls[id], Apply(db, op).calls[id]);
  }

  lemma {:induction false} StillPending(db: Db, ops: seq<Op>, id: nat)
    requires ValidOps(ops) && CallsHaveWallets(db) && id < |db.calls| && db.calls[id].status.Pending?
    requires LeftAlone(ops, id)
    ensures id < |RunFrom(db, ops).calls| && RunFrom(db, ops).calls[id].status.Pending?
  {
    if ops != [] {
      StillPending(db, ops[..|ops| - 1], id);
      assert ops[|ops| - 1] in ops;
      StepLeavesPending(RunFrom(db, ops[..|ops| - 1]), ops[|ops| - 1], id);
    }
  }

  /** What the upstream answered and the policy make of the call. */
  ghost predicate Deserved(a: Attempt) {
    !a.isError && Passes(a.policy, a.content, a.host)
  }

  lemma ReservationPending(db: Db, a: Attempt, during: seq<Op>)
    requires Setting(db, a, during) && Executes(db, a) && LeftAlone(during, |db.calls|)
    ensures ChargeCommitted(db, a, during) <==> Deserved(a) && !a.finishCommit.RolledBack?
  {
    var reserved := Reserve(db, a.request, a.catalog).0;
    FreshReserve(db, a.request, a.catalog);
    ReserveWallets(db, a.request, a.catalog);
    StillPending(reserved, during, |db.calls|);
    ChargedIff(a.policy, a.isError, a.content, a.host);
  }

  /**
    With its commits acknowledged and nobody recovering it, a call is answered without error and costs its price
    exactly if the upstream did not fail and the verdict that counts is favourable; otherwise it is answered as an
    error, and what it had frozen is given back with the settlement.
   */
  lemma VerdictDecides(db: Db, a: Attempt, during: seq<Op>, price: int)
    requires Setting(db, a, during) && Executes(db, a) && LeftAlone(during, |db.calls|) && a.finishCommit.Acknowledged?
    requires Obstacle(db, a.request, a.catalog).None? && Costs(a.request, a.catalog, price)
    ensures var (answered, error) := GatewayCall.Call(db, a, during);
            && |db.calls| < |answered.calls|
            && (error <==> !Deserved(a))
            && (Deserved(a) ==> OwnNet(answered, a) == -price)
            && (!Deserved(a) && !answered.calls[|db.calls|].status.Pending? ==> OwnNet(answered, a) == 0)
  {
    hide GatewayCall.Call, Reserve, OwnNet, Setting, Executes, LeftAlone;
    AnswerIs(db, a, during);
    ReservationPending(db, a, during);
    AnsweredNet(db, a, during);
    RequestedPrice(db, a, during, price);
  }

  lemma PendingAnswer(ready: Db, id: nat, a: Attempt)
    requires CallsHaveWallets(ready) && id < |ready.calls| && ready.calls[id].status.Pending?
    requires a.finishCommit.Acknowledged?
    ensures Settle(ready, id, a).1 <==> !Charged(a)
  {}

  lemma AnswerIs(db: Db, a: Attempt, during: seq<Op>)
    requires Setting(db, a, during) && Executes(db, a) && LeftAlone(during, |db.calls|) && a.finishCommit.Acknowledged?
    ensures GatewayCall.Call(db, a, during).1 <==> !Deserved(a)
  {
    var reserved := Reserve(db, a.request, a.catalog).0;
    var ready := ReadyToSettle(db, a, during);
    FreshReserve(db, a.request, a.catalog);
    StillPending(reserved, during, |db.calls|);
    assert GatewayCall.Call(db, a, during) == Settle(ready, |db.calls|, a);
    PendingAnswer(ready, |db.calls|, a);
    ChargedIff(a.policy, a.isError, a.content, a.host);
  }

  /** The attempt's row at the answer, and what the ledger says about it. */
  lemma AnsweredNet(db: Db, a: Attempt, during: seq<Op>)
    requires Setting(db, a, during) && Executes(db, a)
    ensures var (answered, error) := GatewayCall.Call(db, a, during);
            && |db.calls| < |answered.calls|
            && Told(answered.calls[|db.calls|], error, ChargeCommitted(db, a, during), a.finishCommit.Unacknowledged?)
            && OwnNet(answered, a) == if answered.calls[|db.calls|].status.Pending?
                                         || answered.calls[|db.calls|].status.Succeeded?
                                      then -answered.calls[|db.calls|].requested else 0
  {
    ExecutedTold(db, a, during);
    FreshReserve(db, a.request, a.catalog);
    var answered := GatewayCall.Call(db, a, during).0;
    assert RowEvolves(Reserve(db, a.request, a.catalog).0.calls[|db.calls|], answered.calls[|db.calls|]);
    CallFound(answered.calls, |db.calls|);
    NetOfRow(answered, |db.calls|);
  }

  lemma RequestedPrice(db: Db, a: Attempt, during: seq<Op>, price: int)
    requires Setting(db, a, during) && Executes(db, a)
    requires Obstacle(db, a.request, a.catalog).None? && Costs(a.request, a.catalog, price)
    ensures var answered := GatewayCall.Call(db, a, during).0;
            |db.calls| < |answered.calls| && answered.calls[|db.calls|].requested == price
  {
    ExecutedTold(db, a, during);
    FreshReserve(db, a.request, a.catalog);
    LeastPriceIs(if a.request.toolID.Some? then a.catalog.tool.value.cost else a.request.cost, a.catalog.role.value.bp,
                 price);
    var answered := GatewayCall.Call(db, a, during).0;
    assert RowEvolves(Reserve(db, a.request, a.catalog).0.calls[|db.calls|], answered.calls[|db.calls|]);
  }

  /** There is always a price, and no obstacle, when the reservation went through. */
  lemma ExecutedHasPrice(db: Db, a: Attempt) returns (price: int)
    requires ValidCatalog(a.catalog) && Executes(db, a)
    ensures Obstacle(db, a.request, a.catalog).None? && Costs(a.request, a.catalog, price)
  {
    ReserveRefused(db, a.request, a.catalog);
    price := PriceExists(a.request, a.catalog);
  }

  // ---- Refused calls ----

  /** The refusal is one that is logged: admission was denied, or the tool is gone or not for this role. */
  ghost predicate LoggedRefusal(db: Db, a: Attempt) {
    || !a.admitted
    || Reserve(db, a.request, a.catalog).1 == Refused(NotFound)
    || Reserve(db, a.request, a.catalog).1 == Refused(RoleNotAllowed)
  }

  /** The row of a refused call: it costs nothing and says why. */
  predicate IsDeniedRow(row: LedgerModel.Call, a: Attempt) {
    row == LedgerModel.Call(a.request.user, a.request.token, a.request.wallet, a.request.tool, a.request.requestKey,
                            0, 0, Denied, a.catalog.now, Some(a.data))
  }

  /**
    A refused call moves no credits and is answered as an error. It leaves one row that says it was denied, if the
    refusal is one that is logged, the note gets through, and its key and wallet allow it; otherwise nothing.
   */
  lemma RefusedCallsAreLogged(db: Db, a: Attempt, during: seq<Op>)
    requires ValidOps(during) && CallsHaveWallets(db) && ValidCatalog(a.catalog) && a.request.cost <= MAX_CREDITS
    requires a.admitted ==> Reserve(db, a.request, a.catalog).1.Refused?
    ensures var (after, error) := GatewayCall.Call(db, a, during);
            && error && after.wallets == db.wallets && after.ledger == db.ledger && RestSame(db, after)
            && if LoggedRefusal(db, a) && a.noted && a.request.wallet < |db.wallets| && !RequestedBefore(db, a.request)
               then |after.calls| == |db.calls| + 1 && after.calls[..|db.calls|] == db.calls
                    && IsDeniedRow(after.calls[|db.calls|], a)
               else after == db
  {
    hide Reserve;
    RecordDeniedEffect(db, a.request, a.catalog.now, a.data);
  }

  /**
    A call that the balance does not cover is answered as an error and moves nothing; its row is noted if it
    can be.
  */
  lemma ShortCallsAreNoted(db: Db, a: Attempt, during: seq<Op>)
    requires ValidOps(during) && Inv(db) && CallsHaveWallets(db) && ValidCatalog(a.catalog)
    requires a.request.cost <= MAX_CREDITS && a.admitted && a.reserveCommit.Acknowledged?
    requires Reserve(db, a.request, a.catalog).1.Insufficient?
    ensures var (after, error) := GatewayCall.Call(db, a, during);
            && error && after.wallets == db.wallets && after.ledger == db.ledger && RestSame(db, after)
            && var row := Reserve(db, a.request, a.catalog).1.id;
               && row < |after.calls| && after.calls[row].status.Denied?
               && (a.noted ==> after.calls[row].data == Some(a.data))
  {
    ReserveWallets(db, a.request, a.catalog);
  }
}
