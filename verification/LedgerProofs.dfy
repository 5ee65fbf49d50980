/** Every transaction keeps the ledger's invariant. */
module LedgerProofs {
  import opened Wrappers
  import opened LedgerModel
  import opened LedgerInvariant

  /** Posting an external entry that belongs to no call. */
  lemma ExternalKept(db: Db, wallet: nat, delta: int, kind: Kind, key: EntryKey, note: string)
    requires Inv(db) && wallet < |db.wallets| && Fits(db, wallet, delta) && IsExternal(kind)
    requires var e := Entry(wallet, delta, kind, None, key, note, db.wallets[wallet].balance + delta);
             KeyFree(db.ledger, e) && Sourced(e, |db.transfers|, db.codes)
    ensures Inv(Post(db, wallet, delta, kind, None, key, note))
  {
    var e := Entry(wallet, delta, kind, None, key, note, db.wallets[wallet].balance + delta);
    BalancesPost(db, wallet, delta, kind, None, key, note);
    RunningAppend(|db.wallets|, db.ledger, e);
    KeysAppend(db.ledger, e, |db.transfers|, db.codes);
    HistoryAppend(db.calls, db.ledger, e);
  }

  lemma OpenKept(db: Db, owner: Owner, initial: int, origin: Origin)
    requires Inv(db) && Open(db, owner, initial, origin).Success?
    ensures Inv(Open(db, owner, initial, origin).value)
  {
    var withWallet := db.(wallets := db.wallets + [Wallet(owner, 0)]);
    OpenBooks(db.wallets, db.ledger, owner);
    assert Inv(withWallet);
    if initial > 0 {
      LinesOfWallets(|db.wallets|, db.ledger);
      ExternalKept(withWallet, |db.wallets|, initial, Registration, WelcomeKey(origin, |db.wallets|),
                   WelcomeNote(origin));
    }
  }

  lemma MintKept(db: Db, credits: int)
    requires Inv(db) && Mint(db, credits).Success?
    ensures Inv(Mint(db, credits).value)
  {
    forall i | 0 <= i < |db.ledger| ensures Sourced(db.ledger[i], |db.transfers|, db.codes + [Code(credits, false)]) {
      assert Sourced(db.ledger[i], |db.transfers|, db.codes);
    }
  }

  /** Logging a new call that keeps nothing. */
  lemma DeniedKept(db: Db, call: Call)
    requires Inv(db) && call.status.Denied? && CallOk(call, |db.wallets|) && RequestFree(db.calls, call)
    ensures Inv(db.(calls := db.calls + [call]))
  {
    CallsAppend(db.calls, call, |db.wallets|);
    SettledDenied(db.calls, db.ledger, call);
  }

  /** What posting one entry does to the books and to the keys. */
  lemma PostKept(db: Db, e: Entry, after: Db)
    requires Books(db)
    requires e.wallet < |db.wallets| && Fits(db, e.wallet, e.delta)
    requires e.balanceAfter == db.wallets[e.wallet].balance + e.delta
    requires KeyFree(db.ledger, e) && Sourced(e, |db.transfers|, db.codes)
    requires after == Post(db, e.wallet, e.delta, e.kind, e.call, e.key, e.note)
    ensures after.ledger == db.ledger + [e]
    ensures Books(after)
    ensures TotalBalance(after.wallets) == TotalBalance(db.wallets) + e.delta
    ensures External(after.ledger) == External(db.ledger) + if IsExternal(e.kind) then e.delta else 0
  {
    BalancesPost(db, e.wallet, e.delta, e.kind, e.call, e.key, e.note);
    RunningAppend(|db.wallets|, db.ledger, e);
    KeysAppend(db.ledger, e, |db.transfers|, db.codes);
  }

  lemma ReservationKept(db: Db, call: Call)
    requires Inv(db) && call.status.Pending? && CallOk(call, |db.wallets|) && RequestFree(db.calls, call)
    requires call.requested <= db.wallets[call.wallet].balance
    ensures Inv(Post(db.(calls := db.calls + [call]), call.wallet, -call.requested, Reservation, Some(|db.calls|),
                     Unkeyed, ""))
  {
    var e := Entry(call.wallet, -call.requested, Reservation, Some(|db.calls|), Unkeyed, "",
                   db.wallets[call.wallet].balance - call.requested);
    var logged := db.(calls := db.calls + [call]);
    var after := Post(logged, e.wallet, e.delta, Reservation, e.call, Unkeyed, "");
    assert Books(after) && TotalBalance(after.wallets) == TotalBalance(db.wallets) + e.delta
           && External(after.ledger) == External(db.ledger) && after.ledger == db.ledger + [e] by {
      PostKept(logged, e, after);
    }
    CallsAppend(db.calls, call, |db.wallets|);
    SettledReserved(db.calls, db.ledger, call, e);
  }

  lemma ReserveKept(db: Db, r: ReserveRequest, c: Catalog)
    requires Inv(db) && ValidCatalog(c) && r.cost <= MAX_CREDITS
    ensures Inv(Reserve(db, r, c).0)
  {
    var (after, outcome) := Reserve(db, r, c);
    if after != db {
      NewCallPriced(db, r, c);
      var call := NewCall(db, r, c);
      if call.status.Denied? {
        DeniedKept(db, call);
      } else {
        ReservationKept(db, call);
      }
    }
  }

  /** The row reserve inserts when it finds no row under the key. */
  function NewCall(db: Db, r: ReserveRequest, c: Catalog): Call
    requires r.wallet < |db.wallets| && PriceOf(r, c).Success?
  {
    var cost := PriceOf(r, c).value;
    Call(r.user, r.token, r.wallet, r.tool, r.requestKey, cost, 0,
         if db.wallets[r.wallet].balance < cost then Denied else Pending, c.now, None)
  }

  /** What a reserve that changes the database did. */
  lemma NewCallPriced(db: Db, r: ReserveRequest, c: Catalog)
    requires ValidCatalog(c) && r.cost <= MAX_CREDITS && Reserve(db, r, c).0 != db
    ensures r.wallet < |db.wallets| && PriceOf(r, c).Success? && PriceOf(r, c).value >= 0
    ensures FindCall(db.calls, r.token, r.requestKey).None?
    ensures var call := NewCall(db, r, c);
            Reserve(db, r, c).0 ==
            if call.status.Denied? then db.(calls := db.calls + [call])
            else Post(db.(calls := db.calls + [call]), call.wallet, -call.requested, Reservation, Some(|db.calls|),
                      Unkeyed, "")
  {
    MultiplierFitsInt64(if r.toolID.Some? then c.tool.value.cost else r.cost, c.role.value.bp);
  }

  lemma RecordDeniedKept(db: Db, user: int, token: int, wallet: nat, tool: string, requestKey: string, now: int,
                         detail: string)
    requires Inv(db)
    ensures Inv(RecordDenied(db, user, token, wallet, tool, requestKey, now, detail))
  {
    if wallet < |db.wallets| && FindCall(db.calls, token, requestKey).None? {
      DeniedKept(db, Call(user, token, wallet, tool, requestKey, 0, 0, Denied, now, Some(detail)));
    }
  }

  /** Recording the data of a denied call, or settling a pending one as a success. */
  lemma SameHistoryKept(db: Db, id: nat, c: Call)
    requires Inv(db) && id < |db.calls| && CallOk(c, |db.wallets|)
    requires c.token == db.calls[id].token && c.requestKey == db.calls[id].requestKey
    requires Settlement(c) == Settlement(db.calls[id]) && Kept(c) == Kept(db.calls[id])
    ensures Inv(db.(calls := db.calls[id := c]))
  {
    CallsReplace(db.calls, id, c, |db.wallets|);
    SettledSame(db.calls, db.ledger, id, c);
  }

  lemma RefundKept(db: Db, id: nat, status: Status, data: Option<string>)
    requires Inv(db) && id < |db.calls| && db.calls[id].status.Pending? && CallOk(db.calls[id], |db.wallets|)
    requires status.Errored? || status.Recovered?
    requires Fits(db, db.calls[id].wallet, db.calls[id].requested)
    ensures var c := SettledCall(db.calls[id].(data := data), status);
            Inv(Post(db.(calls := db.calls[id := c]), c.wallet, c.requested, RefundKind(status), Some(id), Unkeyed,
                     StatusName(status)))
  {
    var c := SettledCall(db.calls[id].(data := data), status);
    var e :=
        Entry(c.wallet, c.requested, RefundKind(status), Some(id), Unkeyed, StatusName(status),
              db.wallets[c.wallet].balance + c.requested);
    var settled := db.(calls := db.calls[id := c]);
    var after := Post(settled, c.wallet, c.requested, RefundKind(status), Some(id), Unkeyed, StatusName(status));
    assert Books(after) && TotalBalance(after.wallets) == TotalBalance(db.wallets) + e.delta
           && External(after.ledger) == External(db.ledger) && after.ledger == db.ledger + [e] by {
      PostKept(settled, e, after);
    }
    CallsReplace(db.calls, id, c, |db.wallets|);
    SettledBack(db.calls, db.ledger, id, c, e);
  }

  lemma FinishKept(db: Db, id: nat, status: Status, data: Option<string>)
    requires Inv(db) && IsVerdict(status)
    requires id < |db.calls| ==> db.calls[id].wallet < |db.wallets|
    ensures Inv(Finish(db, id, status, data).0)
  {
    if id < |db.calls| {
      var current := db.calls[id];
      var noted := current.(data := if data.Some? then data else current.data);
      assert CallOk(current, |db.wallets|);
      if current.status.Denied? {
        SameHistoryKept(db, id, noted);
      } else if current.status.Pending? {
        if status.Succeeded? {
          SameHistoryKept(db, id, SettledCall(noted, status));
        } else if Fits(db, current.wallet, current.requested) {
          RefundKept(db, id, status, noted.data);
        }
      }
    }
  }

  lemma AdjustKept(db: Db, user: int, delta: int, note: string, key: string, actorOk: bool, actorStillOk: bool)
    requires Inv(db)
    ensures Inv(Adjust(db, user, delta, note, key, actorOk, actorStillOk).0)
  {
    var (after, _) := Adjust(db, user, delta, note, key, actorOk, actorStillOk);
    if after != db {
      var w := FindWallet(db.wallets, User(user)).value;
      var balance := db.wallets[w].balance;
      WrapRefusesOverflow(balance, delta);
      var e := Entry(w, delta, Adjustment, None, Chosen(key), note, balance + delta);
      assert KeyFree(db.ledger, e) by {
        forall i | 0 <= i < |db.ledger|
          ensures !IsAdjustment(db.ledger[i], w, key) { assert db.ledger[i] in db.ledger; }
      }
      ExternalKept(db, w, delta, Adjustment, Chosen(key), note);
    }
  }

  /** The wrapped int64 test refuses exactly the adjustments that leave the column's range. */
  lemma WrapRefusesOverflow(balance: int, delta: int)
    requires 0 <= balance <= MAX_INT64 && -MAX_CREDITS <= delta <= MAX_CREDITS
    ensures Wrap64(balance + delta) < 0 <==> !(0 <= balance + delta <= MAX_INT64)
  {
    var x, m := balance + delta + MAX_INT64 + 1, 2 * (MAX_INT64 + 1);
    if x >= m {
      assert x % m == x - m;
    }
  }

  lemma RedeemKept(db: Db, user: int, code: Option<nat>, userOk: bool, userStillOk: bool)
    requires Inv(db)
    ensures Inv(Redeem(db, user, code, userOk, userStillOk).0)
  {
    var (after, _) := Redeem(db, user, code, userOk, userStillOk);
    if after != db {
      var id, w := code.value, FindWallet(db.wallets, User(user)).value;
      CodeUsed(db, id);
      var used := db.(codes := db.codes[id := db.codes[id].(redeemed := true)]);
      ExternalKept(used, w, db.codes[id].credits, Redemption, OfRow(id), "Redeemed code");
    }
  }

  /** Marking a code used keeps the invariant and frees its key for one entry. */
  lemma CodeUsed(db: Db, id: nat)
    requires Inv(db) && id < |db.codes| && !db.codes[id].redeemed
    ensures var used := db.(codes := db.codes[id := db.codes[id].(redeemed := true)]);
            Inv(used) && forall i | 0 <= i < |db.ledger| ::
              db.ledger[i].kind.Redemption? ==> db.ledger[i].key != OfRow(id)
  {
    var used := db.codes[id := db.codes[id].(redeemed := true)];
    forall i | 0 <= i < |db.ledger|
      ensures Sourced(db.ledger[i], |db.transfers|, used)
      ensures db.ledger[i].kind.Redemption? ==> db.ledger[i].key != OfRow(id)
    {
      assert Sourced(db.ledger[i], |db.transfers|, db.codes);
    }
  }

  /** A recorded transfer frees the key that names its row. */
  lemma TransferLogged(db: Db, row: TransferRow)
    requires Inv(db) && TransferFree(db.transfers, row)
    ensures var logged := db.(transfers := db.transfers + [row]);
            && Books(logged) && UniqueTransfers(logged.transfers)
            && forall i | 0 <= i < |db.ledger| ::
                 db.ledger[i].kind.Transfer? ==> db.ledger[i].key != OfRow(|db.transfers|)
  {
    forall i | 0 <= i < |db.ledger|
      ensures Sourced(db.ledger[i], |db.transfers| + 1, db.codes)
      ensures db.ledger[i].kind.Transfer? ==> db.ledger[i].key != OfRow(|db.transfers|)
    {
      assert Sourced(db.ledger[i], |db.transfers|, db.codes);
    }
  }

  ghost predicate TransferFree(transfers: seq<TransferRow>, row: TransferRow) {
    forall i | 0 <= i < |transfers| ::
      transfers[i].team != row.team || transfers[i].user != row.user || transfers[i].key != row.key
  }

  /** The two entries of a funding cancel out. */
  lemma TransferPosted(db: Db, from: nat, to: nat, credits: int, key: EntryKey)
    requires Books(db) && SettledOnce(db.calls, db.ledger)
    requires from < |db.wallets| && to < |db.wallets| && from != to
    requires Fits(db, from, -credits) && Fits(db, to, credits)
    requires key.OfRow? && key.id < |db.transfers|
    requires forall i | 0 <= i < |db.ledger| :: db.ledger[i].kind.Transfer? ==> db.ledger[i].key != key
    ensures var taken := Post(db, from, -credits, Transfer, None, key, "Fund team");
            var after := Post(taken, to, credits, Transfer, None, key, "Team funding");
            && Books(after) && SettledOnce(db.calls, after.ledger)
            && TotalBalance(after.wallets) == TotalBalance(db.wallets) && External(after.ledger) == External(db.ledger)
  {
    var e := Entry(from, -credits, Transfer, None, key, "Fund team", db.wallets[from].balance - credits);
    var taken := Post(db, from, -credits, Transfer, None, key, "Fund team");
    var e' := Entry(to, credits, Transfer, None, key, "Team funding", db.wallets[to].balance + credits);
    var after := Post(taken, to, credits, Transfer, None, key, "Team funding");
    assert KeyFree(taken.ledger, e');
    PostKept(db, e, taken);
    PostKept(taken, e', after);
    HistoryAppend(db.calls, db.ledger, e);
    HistoryAppend(db.calls, taken.ledger, e');
  }

  lemma TransferKept(db: Db, from: nat, to: nat, credits: int, row: TransferRow)
    requires Inv(db) && TransferFree(db.transfers, row)
    requires from < |db.wallets| && to < |db.wallets| && from != to
    requires Fits(db, from, -credits) && Fits(db, to, credits)
    ensures var logged := db.(transfers := db.transfers + [row]);
            var key := OfRow(|db.transfers|);
            Inv(Post(Post(logged, from, -credits, Transfer, None, key, "Fund team"), to, credits, Transfer, None, key,
                     "Team funding"))
  {
    TransferLogged(db, row);
    TransferPosted(db.(transfers := db.transfers + [row]), from, to, credits, OfRow(|db.transfers|));
  }

  /** What a funding that changes the database did. */
  lemma FundEffect(db: Db, user: int, team: int, credits: int, key: string, ownerOk: bool, userOk: bool,
                   userStillOk: bool)
    returns (from: nat, to: nat, row: TransferRow)
    requires Fund(db, user, team, credits, key, ownerOk, userOk, userStillOk).0 != db
    ensures from < |db.wallets| && to < |db.wallets| && db.wallets[from].owner == User(user)
    ensures db.wallets[to].owner == Team(team)
    ensures Fits(db, to, credits) && 1 <= credits <= db.wallets[from].balance
    ensures row.team == team && row.user == user && row.key == key && TransferFree(db.transfers, row)
    ensures var logged := db.(transfers := db.transfers + [row]);
            Fund(db, user, team, credits, key, ownerOk, userOk, userStillOk).0 ==
            Post(Post(logged, from, -credits, Transfer, None, OfRow(|db.transfers|), "Fund team"),
                 to, credits, Transfer, None, OfRow(|db.transfers|), "Team funding")
  {
    from, to := FindWallet(db.wallets, User(user)).value, FindWallet(db.wallets, Team(team)).value;
    row := TransferRow(team, user, credits, key, db.wallets[to].balance + credits);
    forall i | 0 <= i < |db.transfers| ensures !IsTransfer(db.transfers[i], team, user, key) {
      assert db.transfers[i] in db.transfers;
    }
  }

  lemma FundKept(db: Db, user: int, team: int, credits: int, key: string, ownerOk: bool, userOk: bool,
                 userStillOk: bool)
    requires Inv(db)
    ensures Inv(Fund(db, user, team, credits, key, ownerOk, userOk, userStillOk).0)
  {
    if Fund(db, user, team, credits, key, ownerOk, userOk, userStillOk).0 != db {
      var from, to, row := FundEffect(db, user, team, credits, key, ownerOk, userOk, userStillOk);
      TransferKept(db, from, to, credits, row);
    }
  }

  /** Every transaction keeps the invariant, whatever its outcome. */
  lemma ApplyKept(db: Db, op: Op)
    requires Inv(db) && ValidOp(op) && CallsHaveWallets(db)
    ensures Inv(Apply(db, op))
  {
    match op
    case DoOpen(owner, initial, origin) =>
      if Open(db, owner, initial, origin).Success? { OpenKept(db, owner, initial, origin); }
    case DoMint(credits) => if Mint(db, credits).Success? { MintKept(db, credits); }
    case DoReserve(request, catalog) => ReserveKept(db, request, catalog);
    case DoRecordDenied(user, token, wallet, tool, requestKey, now, detail) =>
      RecordDeniedKept(db, user, token, wallet, tool, requestKey, now, detail);
    case DoFinish(id, status, data) => FinishKept(db, id, status, data);
    case DoAdjust(user, delta, note, key, actorOk, actorStillOk) =>
      AdjustKept(db, user, delta, note, key, actorOk, actorStillOk);
    case DoRedeem(user, code, userOk, userStillOk) => RedeemKept(db, user, code, userOk, userStillOk);
    case DoFund(user, team, credits, key, ownerOk, userOk, userStillOk) =>
      FundKept(db, user, team, credits, key, ownerOk, userOk, userStillOk);
  }

  /** The invariant holds after every sequence of transactions from an empty database. */
  lemma {:induction false} RunKept(ops: seq<Op>)
    requires ValidOps(ops)
    ensures Inv(Run(ops))
  {
    if ops != [] {
      RunKept(ops[..|ops| - 1]);
      ApplyKept(Run(ops[..|ops| - 1]), ops[|ops| - 1]);
    }
  }
}
