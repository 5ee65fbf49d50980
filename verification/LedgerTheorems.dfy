/** What holds of the ledger over whole runs. */
module LedgerTheorems {
  import opened Wrappers
  import opened LedgerModel
  import opened LedgerInvariant
  import opened LedgerProofs

  // ---- How a database may change ----

  /** A row keeps everything it froze at reservation; a status only ever moves from pending to a verdict. */
  predicate RowEvolves(a: Call, b: Call) {
    && b.user == a.user && b.token == a.token && b.wallet == a.wallet && b.tool == a.tool
    && b.requestKey == a.requestKey && b.requested == a.requested && b.created == a.created
    && (b.status == a.status || (a.status.Pending? && IsVerdict(b.status)))
    && (b.status == a.status ==> b.cost == a.cost)
  }

  predicate CodeEvolves(a: Code, b: Code) {
    b.credits == a.credits && (a.redeemed ==> b.redeemed)
  }

  ghost predicate CallsEvolve(a: seq<Call>, b: seq<Call>) {
    |a| <= |b| && forall i | 0 <= i < |a| :: RowEvolves(a[i], b[i])
  }

  ghost predicate CodesEvolve(a: seq<Code>, b: seq<Code>) {
    |a| <= |b| && forall i | 0 <= i < |a| :: CodeEvolves(a[i], b[i])
  }

  ghost predicate OwnersKept(a: seq<Wallet>, b: seq<Wallet>) {
    |a| <= |b| && forall i | 0 <= i < |a| :: b[i].owner == a[i].owner
  }

  ghost predicate Evolves(a: Db, b: Db) {
    && OwnersKept(a.wallets, b.wallets) && CallsEvolve(a.calls, b.calls) && CodesEvolve(a.codes, b.codes)
    && a.ledger <= b.ledger && a.transfers <= b.transfers
  }

  lemma ReserveEvolves(db: Db, r: ReserveRequest, c: Catalog)
    requires ValidCatalog(c) && r.cost <= MAX_CREDITS
    ensures Evolves(db, Reserve(db, r, c).0)
  {
    if Reserve(db, r, c).0 != db {
      NewCallPriced(db, r, c);
    }
  }

  lemma FinishEvolves(db: Db, id: nat, status: Status, data: Option<string>)
    requires IsVerdict(status) && (id < |db.calls| ==> db.calls[id].wallet < |db.wallets|)
    ensures Evolves(db, Finish(db, id, status, data).0)
  {}

  lemma FundEvolves(db: Db, user: int, team: int, credits: int, key: string, ownerOk: bool, userOk: bool,
                    userStillOk: bool)
    ensures Evolves(db, Fund(db, user, team, credits, key, ownerOk, userOk, userStillOk).0)
  {
    if Fund(db, user, team, credits, key, ownerOk, userOk, userStillOk).0 != db {
      var from, to, row := FundEffect(db, user, team, credits, key, ownerOk, userOk, userStillOk);
    }
  }

  lemma OpenEvolves(db: Db, owner: Owner, initial: int, origin: Origin)
    ensures Open(db, owner, initial, origin).Success? ==> Evolves(db, Open(db, owner, initial, origin).value)
  {}

  lemma RecordDeniedEvolves(db: Db, user: int, token: int, wallet: nat, tool: string, requestKey: string, now: int,
                            data: string)
    ensures Evolves(db, RecordDenied(db, user, token, wallet, tool, requestKey, now, data))
  {}

  lemma AdjustEvolves(db: Db, user: int, delta: int, note: string, key: string, actorOk: bool, actorStillOk: bool)
    ensures Evolves(db, Adjust(db, user, delta, note, key, actorOk, actorStillOk).0)
  {}

  lemma RedeemEvolves(db: Db, user: int, code: Option<nat>, userOk: bool, userStillOk: bool)
    ensures Evolves(db, Redeem(db, user, code, userOk, userStillOk).0)
  {}

  lemma StepEvolves(db: Db, op: Op)
    requires ValidOp(op) && CallsHaveWallets(db)
    ensures Evolves(db, Apply(db, op))
  {
    match op
    case DoReserve(request, catalog) => ReserveEvolves(db, request, catalog);
    case DoFinish(id, status, data) => FinishEvolves(db, id, status, data);
    case DoFund(user, team, credits, key, ownerOk, userOk, userStillOk) =>
      FundEvolves(db, user, team, credits, key, ownerOk, userOk, userStillOk);
    case DoOpen(owner, initial, origin) => OpenEvolves(db, owner, initial, origin);
    case DoMint(credits) =>
    case DoRecordDenied(user, token, wallet, tool, requestKey, now, data) =>
      RecordDeniedEvolves(db, user, token, wallet, tool, requestKey, now, data);
    case DoAdjust(user, delta, note, key, actorOk, actorStillOk) =>
      AdjustEvolves(db, user, delta, note, key, actorOk, actorStillOk);
    case DoRedeem(user, code, userOk, userStillOk) => RedeemEvolves(db, user, code, userOk, userStillOk);
  }

  lemma EvolvesTrans(a: Db, b: Db, c: Db)
    requires Evolves(a, b) && Evolves(b, c)
    ensures Evolves(a, c)
  {
    forall i | 0 <= i < |a.calls| ensures RowEvolves(a.calls[i], c.calls[i]) {
      assert RowEvolves(a.calls[i], b.calls[i]) && RowEvolves(b.calls[i], c.calls[i]);
    }
    forall i | 0 <= i < |a.codes| ensures CodeEvolves(a.codes[i], c.codes[i]) {
      assert CodeEvolves(a.codes[i], b.codes[i]) && CodeEvolves(b.codes[i], c.codes[i]);
    }
  }

  /** The ledger and the transfers are append-only, and a settled call never changes again. */
  lemma {:induction false} RunEvolves(ops: seq<Op>, k: nat)
    requires ValidOps(ops) && k <= |ops|
    ensures Evolves(Run(ops[..k]), Run(ops))
  {
    if k == |ops| {
      assert ops[..k] == ops;
    } else {
      var init := ops[..|ops| - 1];
      RunEvolves(init, k);
      assert init[..k] == ops[..k];
      StepEvolves(Run(init), ops[|ops| - 1]);
      EvolvesTrans(Run(ops[..k]), Run(init), Run(ops));
    }
  }

  // ---- Conservation ----

  /** Sum of the deltas of one kind of entry. */
  ghost function KindTotal(ledger: seq<Entry>, kind: Kind): int {
    if ledger == [] then 0
    else
      var last, before := ledger[|ledger| - 1], KindTotal(ledger[..|ledger| - 1], kind);
      if last.kind == kind then before + last.delta else before
  }

  /** Face value of the codes that were redeemed. */
  ghost function RedeemedValue(codes: seq<Code>): int {
    if codes == [] then 0
    else
      var last, before := codes[|codes| - 1], RedeemedValue(codes[..|codes| - 1]);
      if last.redeemed then before + last.credits else before
  }

  ghost function PendingCredits(calls: seq<Call>): int {
    if calls == [] then 0
    else
      var last, before := calls[|calls| - 1], PendingCredits(calls[..|calls| - 1]);
      if last.status.Pending? then before + last.requested else before
  }

  ghost function SpentCredits(calls: seq<Call>): int {
    if calls == [] then 0
    else
      var last, before := calls[|calls| - 1], SpentCredits(calls[..|calls| - 1]);
      if last.status.Succeeded? then before + last.cost else before
  }

  lemma {:induction false} OutstandingSplits(calls: seq<Call>)
    ensures Outstanding(calls) == PendingCredits(calls) + SpentCredits(calls)
  {
    if calls != [] {
      OutstandingSplits(calls[..|calls| - 1]);
    }
  }

  lemma {:induction false} ExternalSplits(ledger: seq<Entry>)
    ensures External(ledger)
        == KindTotal(ledger, Registration) + KindTotal(ledger, Adjustment) + KindTotal(ledger, Redemption)
  {
    if ledger != [] {
      ExternalSplits(ledger[..|ledger| - 1]);
    }
  }

  lemma KindAppend(ledger: seq<Entry>, e: Entry, kind: Kind)
    ensures KindTotal(ledger + [e], kind) == KindTotal(ledger, kind) + if e.kind == kind then e.delta else 0
  {
    assert (ledger + [e])[..|ledger|] == ledger;
  }

  lemma {:induction false} RedeemedUpdate(codes: seq<Code>, i: nat)
    requires i < |codes| && !codes[i].redeemed
    ensures RedeemedValue(codes[i := codes[i].(redeemed := true)]) == RedeemedValue(codes) + codes[i].credits
  {
    var last, after := |codes| - 1, codes[i := codes[i].(redeemed := true)];
    if i < last {
      assert after[..last] == codes[..last][i := after[i]];
      RedeemedUpdate(codes[..last], i);
    } else {
      assert after[..last] == codes[..last];
    }
  }

  /** Each redeemed code was credited exactly once, and transfers move credits without making any. */
  ghost predicate Tallied(db: Db) {
    KindTotal(db.ledger, Redemption) == RedeemedValue(db.codes) && KindTotal(db.ledger, Transfer) == 0
  }

  lemma RedeemTallied(db: Db, user: int, code: Option<nat>, userOk: bool, userStillOk: bool)
    requires Tallied(db)
    ensures Tallied(Redeem(db, user, code, userOk, userStillOk).0)
  {
    var after := Redeem(db, user, code, userOk, userStillOk).0;
    if after != db {
      RedeemedUpdate(db.codes, code.value);
      KindAppend(db.ledger, after.ledger[|db.ledger|], Redemption);
      KindAppend(db.ledger, after.ledger[|db.ledger|], Transfer);
    }
  }

  lemma FundTallied(db: Db, user: int, team: int, credits: int, key: string, ownerOk: bool, userOk: bool,
                    userStillOk: bool)
    requires Tallied(db)
    ensures Tallied(Fund(db, user, team, credits, key, ownerOk, userOk, userStillOk).0)
  {
    var after := Fund(db, user, team, credits, key, ownerOk, userOk, userStillOk).0;
    if after != db {
      var from, to, row := FundEffect(db, user, team, credits, key, ownerOk, userOk, userStillOk);
      var e, e' := after.ledger[|db.ledger|], after.ledger[|db.ledger| + 1];
      assert after.ledger == db.ledger + [e] + [e'];
      KindAppend(db.ledger, e, Redemption);
      KindAppend(db.ledger, e, Transfer);
      KindAppend(db.ledger + [e], e', Redemption);
      KindAppend(db.ledger + [e], e', Transfer);
    }
  }

  /** A transaction that posts one entry of another kind and leaves the codes alone. */
  lemma OtherTallied(db: Db, after: Db, e: Entry)
    requires Tallied(db) && after.codes == db.codes
    requires after.ledger == db.ledger + [e] && !e.kind.Redemption? && !e.kind.Transfer?
    ensures Tallied(after)
  {
    KindAppend(db.ledger, e, Redemption);
    KindAppend(db.ledger, e, Transfer);
  }

  lemma StepTallied(db: Db, op: Op)
    requires Tallied(db) && ValidOp(op) && CallsHaveWallets(db)
    ensures Tallied(Apply(db, op))
  {
    var after := Apply(db, op);
    match op
    case DoRedeem(user, code, userOk, userStillOk) => RedeemTallied(db, user, code, userOk, userStillOk);
    case DoFund(user, team, credits, key, ownerOk, userOk, userStillOk) =>
      FundTallied(db, user, team, credits, key, ownerOk, userOk, userStillOk);
    case DoMint(credits) =>
      if after != db {
        assert after.codes[..|db.codes|] == db.codes;
      }
    case DoReserve(request, catalog) => ReserveTallied(db, request, catalog);
    case DoFinish(id, status, data) => FinishTallied(db, id, status, data);
    case DoAdjust(user, delta, note, key, actorOk, actorStillOk) =>
      AdjustTallied(db, user, delta, note, key, actorOk, actorStillOk);
    case DoOpen(owner, initial, origin) =>
      if Open(db, owner, initial, origin).Success? { OpenTallied(db, owner, initial, origin); }
    case DoRecordDenied(_, _, _, _, _, _, _) =>
  }

  lemma ReserveTallied(db: Db, r: ReserveRequest, c: Catalog)
    requires Tallied(db)
    ensures Tallied(Reserve(db, r, c).0)
  {
    var after := Reserve(db, r, c).0;
    if after.ledger != db.ledger { OtherTallied(db, after, after.ledger[|db.ledger|]); }
  }

  lemma FinishTallied(db: Db, id: nat, status: Status, data: Option<string>)
    requires Tallied(db) && IsVerdict(status) && (id < |db.calls| ==> db.calls[id].wallet < |db.wallets|)
    ensures Tallied(Finish(db, id, status, data).0)
  {
    var after := Finish(db, id, status, data).0;
    if after.ledger != db.ledger { OtherTallied(db, after, after.ledger[|db.ledger|]); }
  }

  lemma AdjustTallied(db: Db, user: int, delta: int, note: string, key: string, actorOk: bool, actorStillOk: bool)
    requires Tallied(db)
    ensures Tallied(Adjust(db, user, delta, note, key, actorOk, actorStillOk).0)
  {
    var after := Adjust(db, user, delta, note, key, actorOk, actorStillOk).0;
    if after.ledger != db.ledger { OtherTallied(db, after, after.ledger[|db.ledger|]); }
  }

  lemma OpenTallied(db: Db, owner: Owner, initial: int, origin: Origin)
    requires Tallied(db) && Open(db, owner, initial, origin).Success?
    ensures Tallied(Open(db, owner, initial, origin).value)
  {
    var after := Open(db, owner, initial, origin).value;
    if after.ledger != db.ledger { OtherTallied(db, after, after.ledger[|db.ledger|]); }
  }

  lemma {:induction false} RunTallied(ops: seq<Op>)
    requires ValidOps(ops)
    ensures Tallied(Run(ops))
  {
    if ops != [] {
      RunTallied(ops[..|ops| - 1]);
      StepTallied(Run(ops[..|ops| - 1]), ops[|ops| - 1]);
    }
  }

  /**
    Credits are conserved over every run: wallets, frozen credits and spent
    credits together are the opening credits, the adjustments and the redeemed
    codes. Transfers add nothing; reservations, refunds and recoveries leave
    exactly what pending and successful calls keep.
   */
  lemma Conservation(ops: seq<Op>)
    requires ValidOps(ops)
    ensures var db := Run(ops);
            && TotalBalance(db.wallets) + PendingCredits(db.calls) + SpentCredits(db.calls)
               == KindTotal(db.ledger, Registration) + KindTotal(db.ledger, Adjustment) + RedeemedValue(db.codes)
            && KindTotal(db.ledger, Transfer) == 0
  {
    RunKept(ops);
    RunTallied(ops);
    OutstandingSplits(Run(ops).calls);
    ExternalSplits(Run(ops).ledger);
  }

  // ---- Balances and their history ----

  lemma {:induction false} RunningAt(count: nat, ledger: seq<Entry>, i: nat)
    requires Running(count, ledger) && i < |ledger|
    ensures ledger[i].wallet < count && ledger[i].balanceAfter == Deltas(ledger[..i + 1], ledger[i].wallet)
  {
    var last := |ledger| - 1;
    if i < last {
      RunningAt(count, ledger[..last], i);
      assert ledger[..last][..i + 1] == ledger[..i + 1];
    } else {
      assert ledger[..i + 1] == ledger;
    }
  }

  /** The ledger explains every wallet: its balance, its range, and each balance it ever had. */
  lemma LedgerExplainsBalances(ops: seq<Op>)
    requires ValidOps(ops)
    ensures var db := Run(ops);
            && (forall w | 0 <= w < |db.wallets| ::
                  db.wallets[w].balance == Deltas(db.ledger, w) && 0 <= db.wallets[w].balance <= MAX_INT64)
            && (forall i | 0 <= i < |db.ledger| ::
                  db.ledger[i].balanceAfter == Deltas(db.ledger[..i + 1], db.ledger[i].wallet))
  {
    RunKept(ops);
    var db := Run(ops);
    forall i | 0 <= i < |db.ledger|
      ensures db.ledger[i].balanceAfter == Deltas(db.ledger[..i + 1], db.ledger[i].wallet)
    {
      RunningAt(|db.wallets|, db.ledger, i);
    }
  }

  // ---- Every call settles once ----

  /** Whether this step is a finish that reported having settled the call. */
  ghost predicate Settles(db: Db, op: Op, id: nat)
    requires ValidOp(op) && CallsHaveWallets(db)
  {
    op.DoFinish? && op.id == id && Finish(db, op.id, op.status, op.data).1 == Success(true)
  }

  /** How many of a run's finishes, from any caller, reported having settled the call. */
  ghost function Settlers(ops: seq<Op>, id: nat): nat
    requires ValidOps(ops)
  {
    if ops == [] then 0
    else
      var init := ops[..|ops| - 1];
      Settlers(init, id) + if Settles(Run(init), ops[|ops| - 1], id) then 1 else 0
  }

  ghost predicate IsSettled(db: Db, id: nat) {
    id < |db.calls| && IsVerdict(db.calls[id].status)
  }

  lemma StepSettles(db: Db, op: Op, id: nat)
    requires ValidOp(op) && CallsHaveWallets(db)
    ensures IsSettled(Apply(db, op), id) <==> IsSettled(db, id) || Settles(db, op, id)
    ensures !(IsSettled(db, id) && Settles(db, op, id))
  {
    if op.DoFinish? {
      FinishSettles(db, op.id, op.status, op.data, id);
    } else {
      StatusesKept(db, op);
    }
  }

  lemma FinishSettles(db: Db, done: nat, status: Status, data: Option<string>, id: nat)
    requires IsVerdict(status) && CallsHaveWallets(db)
    requires done < |db.calls| ==> db.calls[done].wallet < |db.wallets|
    ensures var (after, result) := Finish(db, done, status, data);
            && (IsSettled(after, id) <==> IsSettled(db, id) || (done == id && result == Success(true)))
            && !(IsSettled(db, id) && done == id && result == Success(true))
  {}

  /** Other transactions leave the status of every call, and the rows they add are not settled. */
  lemma StatusesKept(db: Db, op: Op)
    requires ValidOp(op) && CallsHaveWallets(db) && !op.DoFinish?
    ensures db.calls <= Apply(db, op).calls
    ensures forall i | |db.calls| <= i < |Apply(db, op).calls| :: !IsVerdict(Apply(db, op).calls[i].status)
  {
    match op
    case DoReserve(request, catalog) =>
      if Reserve(db, request, catalog).0 != db { NewCallPriced(db, request, catalog); }
    case DoFund(user, team, credits, key, ownerOk, userOk, userStillOk) =>
      if Apply(db, op) != db {
        var from, to, row := FundEffect(db, user, team, credits, key, ownerOk, userOk, userStillOk);
      }
    case _ =>
  }

  /**
    However finishes, recoveries and retries interleave, at most one of them
    settles a call; the call's ledger lines are then exactly one reservation,
    with one refund of the same amount unless it succeeded.
   */
  lemma {:induction false} SettlesOnce(ops: seq<Op>, id: nat)
    requires ValidOps(ops)
    ensures Settlers(ops, id) == if IsSettled(Run(ops), id) then 1 else 0
    ensures id < |Run(ops).calls| ==> HistoryOf(Run(ops).ledger, id) == Settlement(Run(ops).calls[id])
    ensures id >= |Run(ops).calls| ==> HistoryOf(Run(ops).ledger, id) == Nothing
  {
    RunKept(ops);
    if id >= |Run(ops).calls| {
      NoHistory(Run(ops).ledger, id);
    }
    if ops != [] {
      SettlesOnce(ops[..|ops| - 1], id);
      StepSettles(Run(ops[..|ops| - 1]), ops[|ops| - 1], id);
    }
  }

  /** Later price and multiplier changes do not reach a call: what it froze is what it spends or gets back. */
  lemma AmountFrozen(ops: seq<Op>, k: nat, id: nat)
    requires ValidOps(ops) && k <= |ops| && id < |Run(ops[..k]).calls|
    ensures var before, after := Run(ops[..k]).calls[id], Run(ops).calls;
            && id < |after| && RowEvolves(before, after[id])
            && HistoryOf(Run(ops).ledger, id)
                == Settlement(after[id].(requested := before.requested, wallet := before.wallet))
            && (after[id].status.Succeeded? ==> after[id].cost == before.requested)
            && (!after[id].status.Succeeded? ==> after[id].cost == 0)
  {
    RunEvolves(ops, k);
    RunKept(ops);
    assert RowEvolves(Run(ops[..k]).calls[id], Run(ops).calls[id]);
    assert CallOk(Run(ops).calls[id], |Run(ops).wallets|);
    SettlesOnce(ops, id);
  }

  // ---- Replays ----

  /** The key or code this operation would claim is already taken. */
  ghost predicate Used(db: Db, op: Op) {
    match op
    case DoReserve(r, _) => FindCall(db.calls, r.token, r.requestKey).Some?
    case DoRecordDenied(_, token, _, _, requestKey, _, _) => FindCall(db.calls, token, requestKey).Some?
    case DoAdjust(user, _, _, key, _, _) =>
      FindWallet(db.wallets, User(user)).Some?
      && FindAdjustment(db.ledger, FindWallet(db.wallets, User(user)).value, key).Some?
    case DoRedeem(_, code, _, _) => code.Some? && code.value < |db.codes| && db.codes[code.value].redeemed
    case DoFund(user, team, _, key, _, _, _) => FindTransfer(db.transfers, team, user, key).Some?
    case _ => false
  }

  /** Two operations that claim the same key or code, whatever else they ask for. */
  predicate SameKey(a: Op, b: Op) {
    match a
    case DoReserve(r, _) => b.DoReserve? && b.request.token == r.token && b.request.requestKey == r.requestKey
    case DoRecordDenied(_, token, _, _, requestKey, _, _) =>
      b.DoRecordDenied? && b.token == token && b.requestKey == requestKey
    case DoAdjust(user, _, _, key, _, _) => b.DoAdjust? && b.user == user && b.key == key
    case DoRedeem(_, code, _, _) => b.DoRedeem? && b.code == code
    case DoFund(user, team, _, key, _, _, _) => b.DoFund? && b.user == user && b.team == team && b.key == key
    case _ => false
  }

  lemma UsedBlocks(db: Db, op: Op)
    requires ValidOp(op) && CallsHaveWallets(db) && Used(db, op)
    ensures Apply(db, op) == db
  {}

  lemma ClaimTakesKey(db: Db, op: Op, again: Op)
    requires ValidOp(op) && CallsHaveWallets(db) && SameKey(op, again) && Apply(db, op) != db
    requires OneWalletEach(db.wallets)
    ensures Used(Apply(db, op), again)
  {
    var after := Apply(db, op);
    match op
    case DoReserve(r, c) =>
      NewCallPriced(db, r, c);
      assert after.calls[|db.calls|] in after.calls;
    case DoRecordDenied(_, _, _, _, _, _, _) =>
      assert after.calls[|db.calls|] in after.calls;
    case DoAdjust(user, delta, note, key, _, _) =>
      var w := FindWallet(db.wallets, User(user)).value;
      WalletStays(db.wallets, after.wallets, User(user));
      assert IsAdjustment(after.ledger[|db.ledger|], w, key) && after.ledger[|db.ledger|] in after.ledger;
    case DoRedeem(_, _, _, _) =>
    case DoFund(user, team, credits, key, ownerOk, userOk, userStillOk) =>
      var from, to, row := FundEffect(db, user, team, credits, key, ownerOk, userOk, userStillOk);
      assert after.transfers[|db.transfers|] == row && row in after.transfers;
  }

  lemma {:induction false} WalletStays(a: seq<Wallet>, b: seq<Wallet>, owner: Owner)
    requires OwnersKept(a, b) && OneWalletEach(b) && FindWallet(a, owner).Some?
    ensures FindWallet(b, owner) == FindWallet(a, owner)
  {
    var i := FindWallet(a, owner).value;
    assert b[i].owner == owner && b[i] in b;
  }

  lemma UsedStays(a: Db, b: Db, op: Op)
    requires Evolves(a, b) && Used(a, op) && OneWalletEach(b.wallets)
    ensures Used(b, op)
  {
    match op
    case DoReserve(r, _) => CallStays(a.calls, b.calls, r.token, r.requestKey);
    case DoRecordDenied(_, token, _, _, requestKey, _, _) => CallStays(a.calls, b.calls, token, requestKey);
    case DoAdjust(user, _, _, key, _, _) =>
      WalletStays(a.wallets, b.wallets, User(user));
      var w := FindWallet(a.wallets, User(user)).value;
      var e := a.ledger[FindAdjustment(a.ledger, w, key).value];
      assert e in b.ledger && IsAdjustment(e, w, key);
    case DoRedeem(_, code, _, _) => assert CodeEvolves(a.codes[code.value], b.codes[code.value]);
    case DoFund(user, team, _, key, _, _, _) =>
      var t := a.transfers[FindTransfer(a.transfers, team, user, key).value];
      assert t in b.transfers && IsTransfer(t, team, user, key);
  }

  lemma CallStays(a: seq<Call>, b: seq<Call>, token: int, requestKey: string)
    requires CallsEvolve(a, b) && FindCall(a, token, requestKey).Some?
    ensures FindCall(b, token, requestKey).Some?
  {
    var i := FindCall(a, token, requestKey).value;
    assert RowEvolves(a[i], b[i]) && b[i] in b;
  }

  /**
    Once an operation claimed its key or code, no later operation with that
    key or code changes anything, whatever happened in between and whatever
    amount, price or authorization the later one comes with.
   */
  lemma ReplayChangesNothing(ops: seq<Op>, k: nat, again: Op)
    requires ValidOps(ops) && ValidOp(again) && k < |ops| && SameKey(ops[k], again)
    requires Apply(Run(ops[..k]), ops[k]) != Run(ops[..k])
    ensures Apply(Run(ops), again) == Run(ops)
  {
    ClaimedLater(ops, k, again);
    UsedBlocks(Run(ops), again);
  }

  lemma ClaimedLater(ops: seq<Op>, k: nat, again: Op)
    requires ValidOps(ops) && ValidOp(again) && k < |ops| && SameKey(ops[k], again)
    requires Apply(Run(ops[..k]), ops[k]) != Run(ops[..k])
    ensures Used(Run(ops), again)
  {
    assert OneWalletEach(Run(ops[..k]).wallets) by { RunKept(ops[..k]); }
    assert OneWalletEach(Run(ops).wallets) by { RunKept(ops); }
    assert Used(Apply(Run(ops[..k]), ops[k]), again) by { ClaimTakesKey(Run(ops[..k]), ops[k], again); }
    StepThenEvolves(ops, k);
    UsedStays(Apply(Run(ops[..k]), ops[k]), Run(ops), again);
  }

  lemma CallFound(calls: seq<Call>, id: nat)
    requires UniqueRequests(calls) && id < |calls|
    ensures FindCall(calls, calls[id].token, calls[id].requestKey) == Some(id)
  {
    assert calls[id] in calls;
  }

  /** The row behind an answered reservation. */
  lemma AnsweredRow(db: Db, r: ReserveRequest, c: Catalog)
    returns (id: nat, row: Call, after: Db, outcome: ReserveOutcome)
    requires !Reserve(db, r, c).1.Refused?
    ensures (after, outcome) == Reserve(db, r, c)
    ensures id < |after.calls| && after.calls[id] == row && PriceOf(r, c).Success? && r.wallet < |after.wallets|
    ensures row.token == r.token && row.requestKey == r.requestKey && row.wallet == r.wallet && row.tool == r.tool
    ensures row.requested == PriceOf(r, c).value
    ensures outcome == if row.status.Denied? then Insufficient(id) else Reserved(id)
    ensures r.requestKey != "" && |r.requestKey| <= 200 && r.tool != "" && (r.toolID.None? ==> r.cost >= 0)
  {
    after := Reserve(db, r, c).0;
    outcome := Reserve(db, r, c).1;
    id := outcome.id;
    row := after.calls[id];
  }

  lemma RetryAnswer(db: Db, r: ReserveRequest, c: Catalog, id: nat)
    requires FindCall(db.calls, r.token, r.requestKey) == Some(id) && PriceOf(r, c).Success?
    requires r.requestKey != "" && |r.requestKey| <= 200 && r.tool != "" && (r.toolID.None? ==> r.cost >= 0)
    requires r.wallet < |db.wallets| && db.calls[id].wallet == r.wallet && db.calls[id].tool == r.tool
    ensures Reserve(db, r, c).1 ==
            if db.calls[id].requested != PriceOf(r, c).value then Refused(Conflict)
            else if db.calls[id].status.Denied? then Insufficient(id) else Reserved(id)
  {}

  /** The answered row in any later database. */
  lemma RowLater(after: Db, later: Db, id: nat, row: Call)
    requires Evolves(after, later) && UniqueRequests(later.calls) && id < |after.calls| && after.calls[id] == row
    ensures id < |later.calls| && RowEvolves(row, later.calls[id])
    ensures FindCall(later.calls, row.token, row.requestKey) == Some(id) && |after.wallets| <= |later.wallets|
  {
    assert RowEvolves(after.calls[id], later.calls[id]);
    CallFound(later.calls, id);
  }

  lemma RetriedLater(db: Db, later: Db, r: ReserveRequest, first: Catalog, again: Catalog)
    requires !Reserve(db, r, first).1.Refused? && PriceOf(r, again).Success?
    requires Evolves(Reserve(db, r, first).0, later) && UniqueRequests(later.calls)
    ensures PriceOf(r, first).Success?
    ensures Reserve(later, r, again).1 ==
            if PriceOf(r, again) == PriceOf(r, first) then Reserve(db, r, first).1 else Refused(Conflict)
  {
    var id, row, after, outcome := AnsweredRow(db, r, first);
    RowLater(after, later, id, row);
    RetryAnswer(later, r, again, id);
  }

  /**
    A retried reservation answers with the call of the first attempt while the
    price stands, and is refused once the price the caller would pay differs.
   */
  lemma RetriedReserve(ops: seq<Op>, k: nat, c: Catalog)
    requires ValidOps(ops) && k < |ops| && ops[k].DoReserve?
    requires var first := Reserve(Run(ops[..k]), ops[k].request, ops[k].catalog).1;
             !first.Refused? && PriceOf(ops[k].request, c).Success?
    ensures var r, db := ops[k].request, Run(ops);
            var first, again := Reserve(Run(ops[..k]), r, ops[k].catalog).1, Reserve(db, r, c).1;
            && PriceOf(r, ops[k].catalog).Success?
            && again == if PriceOf(r, c) == PriceOf(r, ops[k].catalog) then first else Refused(Conflict)
  {
    assert Evolves(Reserve(Run(ops[..k]), ops[k].request, ops[k].catalog).0, Run(ops)) by {
      StepThenEvolves(ops, k);
    }
    assert UniqueRequests(Run(ops).calls) by { RunKept(ops); }
    RetriedLater(Run(ops[..k]), Run(ops), ops[k].request, ops[k].catalog, c);
  }

  lemma StepThenEvolves(ops: seq<Op>, k: nat)
    requires ValidOps(ops) && k < |ops|
    ensures Evolves(Apply(Run(ops[..k]), ops[k]), Run(ops))
  {
    var prefix := ops[..k + 1];
    assert prefix[..k] == ops[..k] && prefix[k] == ops[k];
    RunEvolves(ops, k + 1);
  }
}
