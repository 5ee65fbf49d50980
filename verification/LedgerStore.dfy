/**
  The ledger's transactions as the server runs them: row updates one after the
  other on the stored tables, with a rollback on every refused path. Each method
  is proved equal to the corresponding function of the model.
*/
module LedgerStore {
  import opened Wrappers
  import opened LedgerModel
  import opened LedgerInvariant
  import opened LedgerRecovery
  import opened LedgerRuns

  class Store {
    var wallets: seq<Wallet>
    var calls: seq<Call>
    var ledger: seq<Entry>
    var codes: seq<Code>
    var transfers: seq<TransferRow>

    constructor ()
      ensures Contents() == Empty
    {
      wallets, calls, ledger, codes, transfers := [], [], [], [], [];
    }

    ghost function Contents(): Db
      reads this
    {
      Db(wallets, calls, ledger, codes, transfers)
    }

    /** Both `reserve` methods, with the tool's price when a tool row is named. */
    method Reserve(r: ReserveRequest, c: Catalog) returns (outcome: ReserveOutcome)
      modifies this
      ensures (Contents(), outcome) == LedgerModel.Reserve(old(Contents()), r, c)
    {
      if (r.toolID.None? && r.cost < 0) || r.requestKey == "" || |r.requestKey| > 200 || r.tool == "" {
        return Refused(InvalidRequest);
      }
      if r.wallet >= |wallets| {
        return Refused(Unauthorized);
      }
      var balance, price := wallets[r.wallet].balance, r.cost;
      if r.toolID.Some? {
        if c.tool.None? {
          return Refused(NotFound);
        }
        price := c.tool.value.cost;
      }
      if !c.authorized {
        return Refused(Unauthorized);
      }
      if c.role.None? {
        return Refused(Unavailable);
      }
      if r.toolID.Some? && c.tool.value.allowedRoles != [] && c.role.value.name !in c.tool.value.allowedRoles {
        return Refused(RoleNotAllowed);
      }
      price := ApplyMultiplierBP(price, c.role.value.bp);
      var found := FindCall(calls, r.token, r.requestKey);
      if found.Some? {
        var prior := calls[found.value];
        if prior.wallet != r.wallet || prior.tool != r.tool || prior.requested != price {
          return Refused(Conflict);
        }
        return if prior.status.Denied? then Insufficient(found.value) else Reserved(found.value);
      }
      var savedCalls, savedWallets, savedLedger := calls, wallets, ledger;
      var id, status := |calls|, Pending;
      if balance < price {
        status := Denied;
      }
      calls := calls + [Call(r.user, r.token, r.wallet, r.tool, r.requestKey, price, 0, status, c.now, None)];
      if status.Pending? {
        wallets := wallets[r.wallet := wallets[r.wallet].(balance := wallets[r.wallet].balance - price)];
        ledger := ledger + [Entry(r.wallet, -price, Reservation, Some(id), Unkeyed, "", balance - price)];
      }
      if !c.stillAuthorized {
        calls, wallets, ledger := savedCalls, savedWallets, savedLedger;
        return Refused(Unauthorized);
      }
      return if status.Denied? then Insufficient(id) else Reserved(id);
    }

    /** `finish`: settles a pending call, giving the frozen credits back unless it succeeded. */
    method Finish(id: nat, status: Status, data: Option<string>) returns (result: Result<bool, Error>)
      requires IsVerdict(status) && CallsHaveWallets(Contents())
      modifies this
      ensures CallsHaveWallets(Contents())
      ensures (Contents(), result) == LedgerModel.Finish(old(Contents()), id, status, data)
    {
      if id >= |calls| {
        return Failure(NotFound);
      }
      assert calls[id] in calls;
      var savedCalls, current := calls, calls[id];
      if data.Some? && (current.status.Pending? || current.status.Denied?) {
        calls := calls[id := calls[id].(data := data)];
      }
      if current.status.Denied? && data.Some? {
        return Success(false);
      }
      if !current.status.Pending? {
        return Success(false);
      }
      if !status.Succeeded? {
        var balance := wallets[current.wallet].balance + current.requested;
        if balance < 0 || balance > MAX_INT64 {
          calls := savedCalls;
          return Failure(OutOfRange);
        }
        wallets := wallets[current.wallet := wallets[current.wallet].(balance := balance)];
        ledger :=
            ledger + [Entry(current.wallet, current.requested, RefundKind(status), Some(id), Unkeyed,
                            StatusName(status), balance)];
      }
      var cost := if status.Succeeded? then calls[id].requested else 0;
      calls := calls[id := calls[id].(status := status, cost := cost)];
      assert calls == savedCalls[id := calls[id]];
      return Success(true);
    }

    /** Transactions of other callers, as the model has them. */
    method CommitOthers(ops: seq<Op>)
      requires ValidOps(ops) && CallsHaveWallets(Contents())
      modifies this
      ensures CallsHaveWallets(Contents()) && Contents() == RunFrom(old(Contents()), ops)
    {
      for i := 0 to |ops|
        invariant CallsHaveWallets(Contents()) && Contents() == RunFrom(old(Contents()), ops[..i])
      {
        assert ops[..i + 1][..i] == ops[..i] && ops[i] in ops;
        var after := LedgerModel.Apply(Db(wallets, calls, ledger, codes, transfers), ops[i]);
        wallets, calls, ledger, codes, transfers :=
            after.wallets, after.calls, after.ledger, after.codes, after.transfers;
      }
      assert ops[..|ops|] == ops;
    }

    /**
      `RecoverPending`: batches of at most 100 old pending calls, each settled in a transaction of its own, until a
      batch is empty or a settlement is refused. `others` is what other callers commit before each of these
      transactions; None is a sweep still under way when that list ends.
     */
    method RecoverPending(before: int, others: seq<seq<Op>>) returns (total: nat, complete: Option<bool>)
      requires CallsHaveWallets(Contents()) && AllBeside(others, before)
      modifies this
      ensures CallsHaveWallets(Contents())
      ensures var s := SweepRun(old(Contents()), before, others);
              && Contents() == s.db && total == s.total
              && complete == if s.phase.Over? then Some(s.phase.complete) else None
    {
      total := 0;
      var t, phase := 0, Querying;
      ghost var run := StatesOf(Contents(), before, others);
      while t < |others| && phase.Querying?
        invariant t <= |others| && CallsHaveWallets(Contents())
        invariant At(run(t), Contents(), total, phase)
        invariant phase.Settling? ==> t == |others|
        decreases |others| - t
      {
        var ids := SelectBatch(before, others, t, run, total);
        t := t + 1;
        if |ids| == 0 {
          phase := Over(true);
        } else {
          t, total, phase := SettleBatch(ids, before, others, t, run, total);
        }
      }
      assert IsState(run, old(Contents()), before, others, t);
      LastState(old(Contents()), before, others, t, run, phase);
      complete := if phase.Over? then Some(phase.complete) else None;
    }

    method SelectBatch(before: int, others: seq<seq<Op>>, t: nat, ghost run: nat -> Sweep, ghost total: nat)
      returns (ids: seq<nat>)
      requires CallsHaveWallets(Contents()) && AllBeside(others, before) && t < |others|
      requires Successive(run, before, others)
      requires At(run(t), Contents(), total, Querying)
      modifies this
      ensures CallsHaveWallets(Contents())
      ensures At(run(t + 1), Contents(), total, if ids == [] then Over(true) else Settling(ids))
    {
      assert Succeeds(run, before, others, t);
      CommitOthers(others[t]);
      ids := Batch(calls, before);
    }

    /** One settlement of a batch; the phase it leaves the sweep in. */
    method SettleOne(ids: seq<nat>, before: int, others: seq<seq<Op>>, t: nat, ghost run: nat -> Sweep, total: nat)
      returns (now: nat, phase: Phase)
      requires CallsHaveWallets(Contents()) && AllBeside(others, before) && t < |others|
      requires Successive(run, before, others)
      requires ids != [] && At(run(t), Contents(), total, Settling(ids))
      modifies this
      ensures CallsHaveWallets(Contents()) && At(run(t + 1), Contents(), now, phase)
      ensures phase.Over? || phase == if ids[1..] == [] then Querying else Settling(ids[1..])
    {
      assert Succeeds(run, before, others, t);
      CommitOthers(others[t]);
      var result := Finish(ids[0], Recovered, None);
      if result.Failure? {
        return total, Over(false);
      }
      now := if result.value then total + 1 else total;
      phase := if ids[1..] == [] then Querying else Settling(ids[1..]);
    }

    /** The loop over one batch. */
    method SettleBatch(ids: seq<nat>, before: int, others: seq<seq<Op>>, from: nat, ghost run: nat -> Sweep, sofar: nat)
      returns (t: nat, total: nat, phase: Phase)
      requires CallsHaveWallets(Contents()) && AllBeside(others, before) && from <= |others|
      requires Successive(run, before, others)
      requires ids != [] && At(run(from), Contents(), sofar, Settling(ids))
      modifies this
      ensures CallsHaveWallets(Contents()) && from <= t <= |others| && At(run(t), Contents(), total, phase)
      ensures phase.Settling? ==> t == |others|
    {
      t, total, phase := from, sofar, Settling(ids);
      while t < |others| && phase.Settling?
        invariant from <= t <= |others| && CallsHaveWallets(Contents())
        invariant At(run(t), Contents(), total, phase)
        invariant phase.Settling? ==> phase.ids != []
        decreases |others| - t
      {
        total, phase := SettleOne(phase.ids, before, others, t, run, total);
        t := t + 1;
      }
    }

    /** `adjustBalance`: a keyed correction by an administrator. */
    method Adjust(user: int, delta: int, note: string, key: string, actorOk: bool, actorStillOk: bool)
      returns (result: Result<int, Error>)
      modifies this
      ensures (Contents(), result) == LedgerModel.Adjust(old(Contents()), user, delta, note, key, actorOk, actorStillOk)
    {
      if delta == 0 || delta < -MAX_CREDITS || delta > MAX_CREDITS || Blank(note) || |note| > 500 || |key| < 1
          || |key| > 100
      {
        return Failure(InvalidRequest);
      }
      var found := FindWallet(wallets, User(user));
      if found.None? {
        return Failure(NotFound);
      }
      var w := found.value;
      var balance := wallets[w].balance;
      if !actorOk {
        return Failure(Unauthorized);
      }
      var prior := FindAdjustment(ledger, w, key);
      if prior.Some? {
        var e := ledger[prior.value];
        if e.delta != delta || e.note != note {
          return Failure(Conflict);
        }
        return Success(e.balanceAfter);
      }
      if Wrap64(balance + delta) < 0 {
        return Failure(InsufficientBalance);
      }
      var savedWallets, savedLedger := wallets, ledger;
      wallets := wallets[w := wallets[w].(balance := wallets[w].balance + delta)];
      ledger := ledger + [Entry(w, delta, Adjustment, None, Chosen(key), note, balance + delta)];
      if !actorStillOk {
        wallets, ledger := savedWallets, savedLedger;
        return Failure(Unauthorized);
      }
      return Success(balance + delta);
    }

    /** `redeem`: a code is spent and its credits arrive, together or not at all. */
    method Redeem(user: int, code: Option<nat>, userOk: bool, userStillOk: bool) returns (result: Result<int, Error>)
      modifies this
      ensures (Contents(), result) == LedgerModel.Redeem(old(Contents()), user, code, userOk, userStillOk)
    {
      if code.None? || code.value >= |codes| {
        return Failure(NotFound);
      }
      var id := code.value;
      var credits := codes[id].credits;
      if codes[id].redeemed {
        return Failure(AlreadyRedeemed);
      }
      var found := FindWallet(wallets, User(user));
      if found.None? {
        return Failure(Unavailable);
      }
      if !userOk {
        return Failure(Unauthorized);
      }
      var w := found.value;
      var balance := wallets[w].balance + credits;
      if balance < 0 || balance > MAX_INT64 {
        return Failure(OutOfRange);
      }
      var savedWallets, savedCodes, savedLedger := wallets, codes, ledger;
      wallets := wallets[w := wallets[w].(balance := balance)];
      codes := codes[id := codes[id].(redeemed := true)];
      ledger := ledger + [Entry(w, credits, Redemption, None, OfRow(id), "Redeemed code", balance)];
      if !userStillOk {
        wallets, codes, ledger := savedWallets, savedCodes, savedLedger;
        return Failure(Unauthorized);
      }
      return Success(balance);
    }

    /** `fundTeam`: both wallets are locked in id order, then moved by one update. */
    method FundTeam(user: int, team: int, credits: int, key: string, ownerOk: bool, userOk: bool, userStillOk: bool)
      returns (result: Result<int, Error>)
      requires OneWalletEach(wallets)
      modifies this
      ensures (Contents(), result)
          == LedgerModel.Fund(old(Contents()), user, team, credits, key, ownerOk, userOk, userStillOk)
    {
      hide FindWallet, FindTransfer;
      var teamRow := FindWallet(wallets, Team(team));
      if teamRow.None? {
        return Failure(NotFound);
      }
      var to := teamRow.value;
      if !ownerOk {
        return Failure(Unauthorized);
      }
      if credits < 1 || credits > MAX_CREDITS || |key| < 1 || |key| > 100 {
        return Failure(InvalidRequest);
      }
      var prior := FindTransfer(transfers, team, user, key);
      if prior.Some? {
        var t := transfers[prior.value];
        return if t.credits != credits then Failure(Conflict) else Success(t.balanceAfter);
      }
      var personal, balance, teamBalance := LockWallets(user, team);
      if !userOk {
        return Failure(Unauthorized);
      }
      if balance < credits {
        return Failure(InsufficientBalance);
      }
      var from := personal.value;
      if teamBalance + credits > MAX_INT64 || teamBalance + credits < 0 {
        return Failure(OutOfRange);
      }
      var savedWallets, savedTransfers, savedLedger := wallets, transfers, ledger;
      MoveCredits(from, to, credits, balance, teamBalance + credits, team, user, key);
      if !userStillOk {
        wallets, transfers, ledger := savedWallets, savedTransfers, savedLedger;
        return Failure(Unauthorized);
      }
      return Success(teamBalance + credits);
    }

    /** One update of both wallets, then the transfer row and its two ledger entries. */
    method MoveCredits(from: nat, to: nat, credits: int, balance: int, after: int, team: int, user: int, key: string)
      requires from < |wallets| && to < |wallets| && from != to
      requires balance == wallets[from].balance && after == wallets[to].balance + credits
      modifies this
      ensures var row, id := TransferRow(team, user, credits, key, after), OfRow(|old(transfers)|);
              Contents()
                  == Post(Post(old(Contents()).(transfers := old(transfers) + [row]), from, -credits, Transfer, None,
                               id, "Fund team"),
                                 to, credits, Transfer, None, id, "Team funding")
    {
      wallets := wallets[from := wallets[from].(balance := wallets[from].balance - credits)]
                        [to := wallets[to].(balance := wallets[to].balance + credits)];
      var id := |transfers|;
      transfers := transfers + [TransferRow(team, user, credits, key, after)];
      ledger := ledger + [Entry(from, -credits, Transfer, None, OfRow(id), "Fund team", balance - credits)]
                       + [Entry(to, credits, Transfer, None, OfRow(id), "Team funding", after)];
    }

    /** Walks the locked rows: the user's wallet, if there is one, and the team's. */
    method LockWallets(user: int, team: int) returns (personal: Option<nat>, balance: int, teamBalance: int)
      requires OneWalletEach(wallets) && FindWallet(wallets, Team(team)).Some?
      ensures personal == FindWallet(wallets, User(user))
      ensures balance == if personal.Some? then wallets[personal.value].balance else 0
      ensures teamBalance == wallets[FindWallet(wallets, Team(team)).value].balance
    {
      personal, balance, teamBalance := None, 0, 0;
      ghost var teamRow := FindWallet(wallets, Team(team)).value;
      for id := 0 to |wallets|
        invariant personal.Some? ==> personal.value < id && wallets[personal.value].owner == User(user)
        invariant personal.None? ==> forall i | 0 <= i < id :: wallets[i].owner != User(user)
        invariant balance == if personal.Some? then wallets[personal.value].balance else 0
        invariant teamRow < id ==> teamBalance == wallets[teamRow].balance
      {
        if wallets[id].owner == User(user) {
          personal, balance := Some(id), wallets[id].balance;
        } else if wallets[id].owner == Team(team) {
          teamBalance := wallets[id].balance;
        }
      }
      if personal.Some? {
        assert wallets[personal.value] in wallets;
      }
    }
  }

  // ---- The sweep and its specification ----

  ghost predicate At(s: Sweep, db: Db, total: nat, phase: Phase) {
    s.db == db && s.total == total && s.phase == phase
  }

  /** The states of a sweep, by how many transactions of its own it has made. */
  ghost function StatesOf(db: Db, before: int, others: seq<seq<Op>>): (run: nat -> Sweep)
    requires AllBeside(others, before) && CallsHaveWallets(db)
    ensures Successive(run, before, others) && run(0) == Started(db, before)
    ensures forall t: nat | t <= |others| :: IsState(run, db, before, others, t)
  {
    var run: nat -> Sweep := (t: nat) =>
      if t <= |others| then SweepRun(db, before, others[..t]) else Started(db, before);
    assert Successive(run, before, others) by {
      forall t: nat | t < |others| ensures Succeeds(run, before, others, t) {
        assert others[..t + 1][..t] == others[..t];
      }
    }
    run
  }

  ghost predicate IsState(run: nat -> Sweep, db: Db, before: int, others: seq<seq<Op>>, t: nat)
    requires AllBeside(others, before) && CallsHaveWallets(db) && t <= |others|
  {
    run(t) == SweepRun(db, before, others[..t])
  }

  ghost predicate Succeeds(run: nat -> Sweep, before: int, others: seq<seq<Op>>, t: nat)
    requires AllBeside(others, before) && t < |others|
  {
    CallsHaveWallets(run(t).db) && run(t + 1) == Act(run(t), before, others[t])
  }

  ghost predicate Successive(run: nat -> Sweep, before: int, others: seq<seq<Op>>)
    requires AllBeside(others, before)
  {
    forall t: nat | t < |others| :: Succeeds(run, before, others, t)
  }

  lemma LastState(db: Db, before: int, others: seq<seq<Op>>, t: nat, run: nat -> Sweep, phase: Phase)
    requires AllBeside(others, before) && CallsHaveWallets(db) && t <= |others|
    requires IsState(run, db, before, others, t) && run(t).phase == phase
    requires phase.Over? || t == |others|
    ensures run(t) == SweepRun(db, before, others)
  {
    assert others[..|others|] == others;
    if phase.Over? {
      OverStays(db, before, others, t);
    }
  }

  /** A sweep that is over stays over. */
  lemma {:induction false} OverStays(db: Db, before: int, others: seq<seq<Op>>, t: nat)
    requires AllBeside(others, before) && CallsHaveWallets(db) && t <= |others|
    requires SweepRun(db, before, others[..t]).phase.Over?
    ensures SweepRun(db, before, others) == SweepRun(db, before, others[..t])
    decreases |others|
  {
    if t == |others| {
      assert others[..t] == others;
    } else {
      var init := others[..|others| - 1];
      assert init[..t] == others[..t];
      OverStays(db, before, init, t);
    }
  }
}
