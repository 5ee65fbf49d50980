/** Where the credits of a run come from: the requests that were accepted, and nothing else. */
module LedgerGrants {
  import opened Wrappers
  import opened LedgerModel
  import opened LedgerInvariant
  import opened LedgerProofs
  import opened LedgerTheorems
  import opened LedgerEffects

  /** What the operations of one kind put into the system over a run. */
  ghost function GrantedBy(ops: seq<Op>, kind: Kind): int
    requires ValidOps(ops)
  {
    if ops == [] then 0
    else
      var init, op := ops[..|ops| - 1], ops[|ops| - 1];
      GrantedBy(init, kind) + if SourceKind(op) == Some(kind) then Granted(Run(init), op) else 0
  }

  function SourceKind(op: Op): Option<Kind> {
    match op
    case DoOpen(_, _, _) => Some(Registration)
    case DoAdjust(_, _, _, _, _, _) => Some(Adjustment)
    case DoRedeem(_, _, _, _) => Some(Redemption)
    case _ => None
  }

  /** The lines an operation writes of a kind that brings credits in are what its request grants. */
  ghost predicate GrantsMatch(db: Db, op: Op, kind: Kind)
    requires ValidOp(op) && CallsHaveWallets(db)
  {
    KindTotal(Apply(db, op).ledger, kind)
    == KindTotal(db.ledger, kind) + if SourceKind(op) == Some(kind) then Granted(db, op) else 0
  }

  /** One line of this kind, or none. */
  lemma OneLine(before: Db, after: Db, w: nat, delta: int, line: Kind, call: Option<nat>, key: EntryKey, note: string,
                kind: Kind)
    requires Moved(before, after, w, delta, line, call, key, note)
    ensures KindTotal(after.ledger, kind) == KindTotal(before.ledger, kind) + if line == kind then delta else 0
  {
    KindAppend(before.ledger, after.ledger[|before.ledger|], kind);
  }

  lemma WalletUnique(db: Db, v: nat, w: nat, owner: Owner)
    requires Inv(db) && WalletOf(db, v, owner) && WalletOf(db, w, owner)
    ensures v == w
  {
    WalletFound(db, v, owner);
    WalletFound(db, w, owner);
  }

  lemma AdjustGrants(db: Db, user: int, delta: int, note: string, key: string, actorOk: bool, actorStillOk: bool,
                     kind: Kind)
    requires Inv(db) && CallsHaveWallets(db)
    ensures GrantsMatch(db, DoAdjust(user, delta, note, key, actorOk, actorStillOk), kind)
  {
    var op := DoAdjust(user, delta, note, key, actorOk, actorStillOk);
    if w: nat :| WalletOf(db, w, User(user)) {
      AdjustEffect(db, w, user, delta, note, key, actorOk, actorStillOk);
      forall v: nat | WalletOf(db, v, User(user)) ensures v == w { WalletUnique(db, v, w, User(user)); }
      if AdjustAccepted(db, w, delta, note, key, actorOk, actorStillOk) {
        OneLine(db, Apply(db, op), w, delta, Adjustment, None, Chosen(key), note, kind);
      }
    } else {
      forall w | w in db.wallets ensures w.owner != User(user) {
        var i :| 0 <= i < |db.wallets| && db.wallets[i] == w;
        assert !WalletOf(db, i, User(user));
      }
      AdjustNobody(db, user, delta, note, key, actorOk, actorStillOk);
    }
  }

  lemma RedeemGrants(db: Db, user: int, code: Option<nat>, userOk: bool, userStillOk: bool, kind: Kind)
    requires Inv(db) && CallsHaveWallets(db)
    ensures GrantsMatch(db, DoRedeem(user, code, userOk, userStillOk), kind)
  {
    hide Inv, Redeem, FindWallet, KindTotal;
    var op := DoRedeem(user, code, userOk, userStillOk);
    if w: nat :| WalletOf(db, w, User(user)) {
      RedeemEffect(db, w, user, code, userOk, userStillOk);
      forall v: nat | WalletOf(db, v, User(user)) ensures v == w { WalletUnique(db, v, w, User(user)); }
      if Apply(db, op) != db {
        OneLine(db, Apply(db, op), w, db.codes[code.value].credits, Redemption, None, OfRow(code.value),
                "Redeemed code", kind);
      }
    } else {
      forall w | w in db.wallets ensures w.owner != User(user) {
        var i :| 0 <= i < |db.wallets| && db.wallets[i] == w;
        assert !WalletOf(db, i, User(user));
      }
      RedeemNobody(db, user, code, userOk, userStillOk);
    }
  }

  lemma OpenGrants(db: Db, owner: Owner, initial: int, origin: Origin, kind: Kind)
    requires Inv(db) && CallsHaveWallets(db)
    ensures GrantsMatch(db, DoOpen(owner, initial, origin), kind)
  {
    hide Inv, Open, KindTotal;
    var after := Apply(db, DoOpen(owner, initial, origin));
    OpenEffect(db, owner, initial, origin);
    assert OpenAccepted(db, owner, initial) <==> Open(db, owner, initial, origin).Success?;
    if OpenAccepted(db, owner, initial) && initial != 0 {
      assert after.ledger == db.ledger + [after.ledger[|db.ledger|]];
      KindAppend(db.ledger, after.ledger[|db.ledger|], kind);
    } else {
      assert db.ledger + [] == db.ledger;
    }
  }

  /** Reservations, refunds and recoveries bring nothing in, and neither does a line that is not written. */
  lemma ReserveGrants(db: Db, r: ReserveRequest, c: Catalog, kind: Kind)
    requires ValidOp(DoReserve(r, c)) && CallsHaveWallets(db) && IsExternal(kind)
    ensures GrantsMatch(db, DoReserve(r, c), kind)
  {
    var after := Reserve(db, r, c).0;
    if after.ledger != db.ledger { KindAppend(db.ledger, after.ledger[|db.ledger|], kind); }
  }

  lemma FinishGrants(db: Db, id: nat, status: Status, data: Option<string>, kind: Kind)
    requires ValidOp(DoFinish(id, status, data)) && CallsHaveWallets(db) && IsExternal(kind)
    ensures GrantsMatch(db, DoFinish(id, status, data), kind)
  {
    var after := Apply(db, DoFinish(id, status, data));
    if after.ledger != db.ledger { KindAppend(db.ledger, after.ledger[|db.ledger|], kind); }
  }

  /** Nor do the two lines of a funding. */
  lemma FundGrants(db: Db, user: int, team: int, credits: int, key: string, ownerOk: bool, userOk: bool,
                   userStillOk: bool, kind: Kind)
    requires CallsHaveWallets(db) && IsExternal(kind)
    ensures GrantsMatch(db, DoFund(user, team, credits, key, ownerOk, userOk, userStillOk), kind)
  {
    var after := Fund(db, user, team, credits, key, ownerOk, userOk, userStillOk).0;
    if after != db {
      var from, to, row := FundEffect(db, user, team, credits, key, ownerOk, userOk, userStillOk);
      var e, e' := after.ledger[|db.ledger|], after.ledger[|db.ledger| + 1];
      assert after.ledger == db.ledger + [e] + [e'];
      KindAppend(db.ledger, e, kind);
      KindAppend(db.ledger + [e], e', kind);
    }
  }

  lemma NoLines(db: Db, op: Op, kind: Kind)
    requires ValidOp(op) && CallsHaveWallets(db) && (op.DoMint? || op.DoRecordDenied?)
    ensures GrantsMatch(db, op, kind)
  {}

  lemma StepGrants(db: Db, op: Op, kind: Kind)
    requires Inv(db) && CallsHaveWallets(db) && ValidOp(op) && IsExternal(kind)
    ensures GrantsMatch(db, op, kind)
  {
    hide Inv, Apply, GrantsMatch;
    match op
    case DoOpen(owner, initial, origin) => OpenGrants(db, owner, initial, origin, kind);
    case DoAdjust(user, delta, note, key, actorOk, actorStillOk) =>
      AdjustGrants(db, user, delta, note, key, actorOk, actorStillOk, kind);
    case DoRedeem(user, code, userOk, userStillOk) => RedeemGrants(db, user, code, userOk, userStillOk, kind);
    case DoReserve(r, c) => ReserveGrants(db, r, c, kind);
    case DoFinish(id, status, data) => FinishGrants(db, id, status, data, kind);
    case DoFund(user, team, credits, key, ownerOk, userOk, userStillOk) =>
      FundGrants(db, user, team, credits, key, ownerOk, userOk, userStillOk, kind);
    case _ => NoLines(db, op, kind);
  }

  lemma {:induction false} RunGrants(ops: seq<Op>, kind: Kind)
    requires ValidOps(ops) && IsExternal(kind)
    ensures KindTotal(Run(ops).ledger, kind) == GrantedBy(ops, kind)
  {
    if ops != [] {
      var init := ops[..|ops| - 1];
      RunGrants(init, kind);
      RunKept(init);
      StepGrants(Run(init), ops[|ops| - 1], kind);
    }
  }

  /**
    Over every run, wallets, frozen and spent credits together are exactly what the accepted requests brought in:
    the opening credits asked for, the adjustments asked for, and the face values of the codes redeemed.
   */
  lemma CreditsComeFromRequests(ops: seq<Op>)
    requires ValidOps(ops)
    ensures var db := Run(ops);
            TotalBalance(db.wallets) + PendingCredits(db.calls) + SpentCredits(db.calls)
            == GrantedBy(ops, Registration) + GrantedBy(ops, Adjustment) + GrantedBy(ops, Redemption)
  {
    Conservation(ops);
    RunTallied(ops);
    RunGrants(ops, Registration);
    RunGrants(ops, Adjustment);
    RunGrants(ops, Redemption);
  }
}
