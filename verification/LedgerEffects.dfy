/** What each transaction does to the database and answers, read off its request and the rows it finds. */
module LedgerEffects {
  import opened Wrappers
  import opened ByteStrings
  import opened LedgerModel
  import opened LedgerInvariant
  import opened LedgerProofs

  /** Exactly one balance moves, by `delta`, and exactly one line says so. */
  ghost predicate Moved(before: Db, after: Db, w: nat, delta: int, kind: Kind, call: Option<nat>, key: EntryKey,
                        note: string)
  {
    && w < |before.wallets| == |after.wallets|
    && (forall i | 0 <= i < |before.wallets| ::
          && after.wallets[i].owner == before.wallets[i].owner
          && after.wallets[i].balance == before.wallets[i].balance + if i == w then delta else 0)
    && after.ledger == before.ledger + [Entry(w, delta, kind, call, key, note, before.wallets[w].balance + delta)]
  }

  /** Codes and transfers are as they were. */
  predicate RestSame(before: Db, after: Db) {
    after.codes == before.codes && after.transfers == before.transfers
  }

  /** The wallet of an owner. */
  predicate WalletOf(db: Db, w: nat, owner: Owner) {
    w < |db.wallets| && db.wallets[w].owner == owner
  }

  lemma WalletFound(db: Db, w: nat, owner: Owner)
    requires OneWalletEach(db.wallets) && WalletOf(db, w, owner)
    ensures FindWallet(db.wallets, owner) == Some(w)
  {
    assert db.wallets[w] in db.wallets;
  }

  // ---- Accounts and codes ----

  /** A new owner gets one wallet with the opening credit, and a line for it unless it is zero. */
  lemma OpenEffect(db: Db, owner: Owner, initial: int, origin: Origin)
    ensures var r := Open(db, owner, initial, origin);
            if initial < 0 || initial > 1_000_000_000_000 || (owner.Team? && initial != 0) then
              r == Failure(Unavailable)
            else if exists w <- db.wallets :: w.owner == owner then r == Failure(Taken)
            else
              && r.Success? && RestSame(db, r.value) && r.value.calls == db.calls
              && r.value.wallets == db.wallets + [Wallet(owner, initial)]
              && r.value.ledger == db.ledger +
                 (if initial == 0 then []
                  else if origin.GitHub? then
                    [Entry(|db.wallets|, initial, Registration, None, OfRow(|db.wallets|), "Initial credits", initial)]
                  else [Entry(|db.wallets|, initial, Registration, None, Unkeyed, "Welcome credits", initial)])
  {}

  lemma MintEffect(db: Db, credits: int)
    ensures Mint(db, credits) == if 1 <= credits <= 1_000_000_000_000
                                 then Success(db.(codes := db.codes + [Code(credits, false)]))
                                 else Failure(InvalidRequest)
  {}

  // ---- Adjustments ----

  predicate AdjustValid(delta: int, note: string, key: string) {
    && delta != 0 && -1_000_000_000_000 <= delta <= 1_000_000_000_000
    && !White(note) && |note| <= 500 && 1 <= |key| <= 100
  }

  ghost predicate AdjustedBefore(db: Db, w: nat, key: string) {
    exists e <- db.ledger :: e.wallet == w && e.kind.Adjustment? && e.key == Chosen(key)
  }

  /** The adjustment goes through: it is valid, authorized throughout, new under its key, and in range. */
  ghost predicate AdjustAccepted(db: Db, w: nat, delta: int, note: string, key: string, actorOk: bool,
                                 actorStillOk: bool)
    requires w < |db.wallets|
  {
    && AdjustValid(delta, note, key) && actorOk && actorStillOk && !AdjustedBefore(db, w, key)
    && 0 <= db.wallets[w].balance + delta <= 0x7fff_ffff_ffff_ffff
  }

  lemma BlankIsWhite(note: string)
    ensures Blank(note) <==> White(note)
  {
    var lead, tail := Trimmed(note);
    if Blank(note) {
      assert note == lead + tail;
      WhiteConcat(lead, tail);
    }
    if White(note) { WhiteTrims(note); }
  }

  predicate SameKey(a: Entry, b: Entry) {
    a.wallet == b.wallet && a.kind == b.kind && a.key == b.key && !a.key.Unkeyed?
  }

  lemma LastKeyNew(ledger: seq<Entry>, i: nat)
    requires UniqueKeys(ledger) && i < |ledger| - 1
    ensures !SameKey(ledger[i], ledger[|ledger| - 1])
  {
    var last := |ledger| - 1;
    assert ledger[..last][i] == ledger[i];
  }

  lemma {:induction false} KeysDiffer(ledger: seq<Entry>, i: nat, j: nat)
    requires UniqueKeys(ledger) && i < j < |ledger|
    ensures !SameKey(ledger[i], ledger[j])
  {
    var last := |ledger| - 1;
    if j < last {
      KeysDiffer(ledger[..last], i, j);
    } else {
      LastKeyNew(ledger, i);
    }
  }

  lemma UniqueAdjustment(ledger: seq<Entry>, i: nat, j: nat)
    requires UniqueKeys(ledger) && i < |ledger| && j < |ledger|
    ensures SameKey(ledger[i], ledger[j]) ==> i == j
  {
    hide UniqueKeys;
    if i < j { KeysDiffer(ledger, i, j); }
    if j < i { KeysDiffer(ledger, j, i); }
  }

  /**
    An adjustment moves the named user's wallet, and no other, by exactly what was asked for, with one line that
    carries that amount, the note and the key, and answers the new balance. A repeated one answers what the first
    did. Everything else is refused and changes nothing.
   */
  lemma AdjustEffect(db: Db, w: nat, user: int, delta: int, note: string, key: string, actorOk: bool,
                     actorStillOk: bool)
    requires Inv(db) && WalletOf(db, w, User(user))
    ensures var (after, answer) := Adjust(db, user, delta, note, key, actorOk, actorStillOk);
            if AdjustAccepted(db, w, delta, note, key, actorOk, actorStillOk) then
              && Moved(db, after, w, delta, Adjustment, None, Chosen(key), note)
              && RestSame(db, after) && after.calls == db.calls
              && answer == Success(db.wallets[w].balance + delta)
            else
              && after == db
              && (!AdjustValid(delta, note, key) ==> answer == Failure(InvalidRequest))
              && (AdjustValid(delta, note, key) && !actorOk ==> answer == Failure(Unauthorized))
              && (AdjustValid(delta, note, key) && actorOk && !AdjustedBefore(db, w, key) ==>
                    answer == Failure(if 0 <= db.wallets[w].balance + delta <= 0x7fff_ffff_ffff_ffff
                                      then Unauthorized else InsufficientBalance))
              && (AdjustValid(delta, note, key) && actorOk ==>
                    forall e <- db.ledger | e.wallet == w && e.kind.Adjustment? && e.key == Chosen(key) ::
                      answer == if e.delta == delta && e.note == note then Success(e.balanceAfter)
                                else Failure(Conflict))
  {
    WalletFound(db, w, User(user));
    BlankIsWhite(note);
    BalanceInRange(db, w);
    if AdjustValid(delta, note, key) {
      WrapRefusesOverflow(db.wallets[w].balance, delta);
      if AdjustedBefore(db, w, key) {
        var first := FindAdjustment(db.ledger, w, key).value;
        forall e | e in db.ledger && IsAdjustment(e, w, key) ensures e == db.ledger[first] {
          var i :| 0 <= i < |db.ledger| && db.ledger[i] == e;
          UniqueAdjustment(db.ledger, i, first);
        }
      }
    }
  }

  lemma BalanceInRange(db: Db, w: nat)
    requires Inv(db) && w < |db.wallets|
    ensures 0 <= db.wallets[w].balance <= MAX_INT64
  {}

  /** Without such a user nothing happens. */
  lemma AdjustNobody(db: Db, user: int, delta: int, note: string, key: string, actorOk: bool, actorStillOk: bool)
    requires forall w <- db.wallets :: w.owner != User(user)
    ensures Adjust(db, user, delta, note, key, actorOk, actorStillOk)
         == (db, Failure(if AdjustValid(delta, note, key) then NotFound else InvalidRequest))
  {
    BlankIsWhite(note);
  }

  // ---- Redemption ----

  /** A code is spent once: the user's wallet gains its credits, and the code is marked. */
  lemma RedeemEffect(db: Db, w: nat, user: int, code: Option<nat>, userOk: bool, userStillOk: bool)
    requires Inv(db) && WalletOf(db, w, User(user))
    ensures var (after, answer) := Redeem(db, user, code, userOk, userStillOk);
            if code.None? || code.value >= |db.codes| then after == db && answer == Failure(NotFound)
            else
              var credits := db.codes[code.value].credits;
              if db.codes[code.value].redeemed then after == db && answer == Failure(AlreadyRedeemed)
              else if !userOk then after == db && answer == Failure(Unauthorized)
              else if db.wallets[w].balance + credits > 0x7fff_ffff_ffff_ffff then
                after == db && answer == Failure(OutOfRange)
              else if !userStillOk then after == db && answer == Failure(Unauthorized)
              else
                && Moved(db, after, w, credits, Redemption, None, OfRow(code.value), "Redeemed code")
                && after.codes == db.codes[code.value := Code(credits, true)]
                && after.calls == db.calls && after.transfers == db.transfers
                && answer == Success(db.wallets[w].balance + credits)
  {
    WalletFound(db, w, User(user));
    BalanceInRange(db, w);
  }

  lemma RedeemNobody(db: Db, user: int, code: Option<nat>, userOk: bool, userStillOk: bool)
    requires forall w <- db.wallets :: w.owner != User(user)
    ensures Redeem(db, user, code, userOk, userStillOk)
         == (db, Failure(if code.None? || code.value >= |db.codes| then NotFound
                         else if db.codes[code.value].redeemed then AlreadyRedeemed
                         else Unavailable))
  {}

  // ---- Funding a team ----

  ghost predicate FundedBefore(db: Db, user: int, team: int, key: string) {
    exists t <- db.transfers :: t.team == team && t.user == user && t.key == key
  }

  predicate FundValid(credits: int, key: string) {
    1 <= credits <= 1_000_000_000_000 && 1 <= |key| <= 100
  }

  ghost predicate FundAccepted(db: Db, from: nat, to: nat, user: int, team: int, credits: int, key: string,
                               ownerOk: bool, userOk: bool, userStillOk: bool)
    requires from < |db.wallets| && to < |db.wallets|
  {
    && ownerOk && FundValid(credits, key) && !FundedBefore(db, user, team, key) && userOk && userStillOk
    && credits <= db.wallets[from].balance && db.wallets[to].balance + credits <= 0x7fff_ffff_ffff_ffff
  }

  /** What leaves the user's wallet reaches the team's, with a line for each and a row that remembers the answer. */
  lemma FundMoves(db: Db, from: nat, to: nat, user: int, team: int, credits: int, key: string, ownerOk: bool,
                  userOk: bool, userStillOk: bool)
    requires Inv(db) && WalletOf(db, from, User(user)) && WalletOf(db, to, Team(team))
    ensures var (after, answer) := Fund(db, user, team, credits, key, ownerOk, userOk, userStillOk);
            var id, left, gained := OfRow(|db.transfers|), db.wallets[from].balance - credits,
                                    db.wallets[to].balance + credits;
            if FundAccepted(db, from, to, user, team, credits, key, ownerOk, userOk, userStillOk) then
              && |after.wallets| == |db.wallets|
              && (forall i | 0 <= i < |db.wallets| ::
                    && after.wallets[i].owner == db.wallets[i].owner
                    && after.wallets[i].balance
                       == if i == from then left else if i == to then gained else db.wallets[i].balance)
              && after.ledger == db.ledger + [Entry(from, -credits, Transfer, None, id, "Fund team", left),
                                              Entry(to, credits, Transfer, None, id, "Team funding", gained)]
              && after.transfers == db.transfers + [TransferRow(team, user, credits, key, gained)]
              && after.calls == db.calls && after.codes == db.codes && answer == Success(gained)
            else
              && after == db
              && (ownerOk && FundValid(credits, key) ==>
                    forall t <- db.transfers | t.team == team && t.user == user && t.key == key ::
                      answer == if t.credits == credits then Success(t.balanceAfter) else Failure(Conflict))
              && (!(ownerOk && FundValid(credits, key) && FundedBefore(db, user, team, key)) ==> answer.Failure?)
  {
    hide FindWallet;
    WalletFound(db, from, User(user));
    WalletFound(db, to, Team(team));
    BalanceInRange(db, to);
    if FundedBefore(db, user, team, key) {
      var first := FindTransfer(db.transfers, team, user, key).value;
      forall t | t in db.transfers && IsTransfer(t, team, user, key) ensures t == db.transfers[first] {
        var i :| 0 <= i < |db.transfers| && db.transfers[i] == t;
      }
    }
  }

  /** Why a funding is refused, the first reason deciding; None when it goes through or is a repeated one. */
  function FundObstacle(db: Db, from: nat, to: nat, credits: int, key: string, ownerOk: bool, userOk: bool,
                        userStillOk: bool): Option<Error>
    requires from < |db.wallets| && to < |db.wallets|
  {
    if !ownerOk then Some(Unauthorized)
    else if !FundValid(credits, key) then Some(InvalidRequest)
    else if !userOk then Some(Unauthorized)
    else if db.wallets[from].balance < credits then Some(InsufficientBalance)
    else if db.wallets[to].balance + credits > 0x7fff_ffff_ffff_ffff then Some(OutOfRange)
    else if !userStillOk then Some(Unauthorized)
    else None
  }

  lemma FundRefused(db: Db, from: nat, to: nat, user: int, team: int, credits: int, key: string, ownerOk: bool,
                    userOk: bool, userStillOk: bool)
    requires Inv(db) && WalletOf(db, from, User(user)) && WalletOf(db, to, Team(team))
    ensures var answer := Fund(db, user, team, credits, key, ownerOk, userOk, userStillOk).1;
            var obstacle := FundObstacle(db, from, to, credits, key, ownerOk, userOk, userStillOk);
            obstacle.Some? && !(ownerOk && FundValid(credits, key) && FundedBefore(db, user, team, key)) ==>
              answer == Failure(obstacle.value)
  {
    hide FindWallet;
    WalletFound(db, from, User(user));
    WalletFound(db, to, Team(team));
    BalanceInRange(db, to);
  }

  /** Without a wallet on either side nothing moves. */
  lemma FundNobody(db: Db, user: int, team: int, credits: int, key: string, ownerOk: bool, userOk: bool,
                   userStillOk: bool)
    ensures var r := Fund(db, user, team, credits, key, ownerOk, userOk, userStillOk);
            && ((forall w <- db.wallets :: w.owner != Team(team)) ==> r == (db, Failure(NotFound)))
            && ((forall w <- db.wallets :: w.owner != User(user)) ==> r.0 == db)
  {}

  // ---- Reservation ----

  /** The least whole amount that does not fall below `cost` times the multiplier in hundredths of a percent. */
  ghost predicate LeastPrice(price: int, cost: int, bp: int) {
    price * 10000 >= cost * bp && forall d :: d * 10000 >= cost * bp ==> price <= d
  }

  predicate Malformed(r: ReserveRequest) {
    (r.toolID.None? && r.cost < 0) || |r.requestKey| == 0 || |r.requestKey| > 200 || |r.tool| == 0
  }

  predicate ToolGone(r: ReserveRequest, c: Catalog) { r.toolID.Some? && c.tool.None? }

  predicate Excluded(r: ReserveRequest, c: Catalog)
    requires c.role.Some? && !ToolGone(r, c)
  {
    r.toolID.Some? && |c.tool.value.allowedRoles| > 0 && c.role.value.name !in c.tool.value.allowedRoles
  }

  /** What a request costs: the tool's own price if it names a tool, else the price it brings, scaled and rounded up. */
  ghost predicate Costs(r: ReserveRequest, c: Catalog, price: int)
    requires c.role.Some? && !ToolGone(r, c)
  {
    LeastPrice(price, if r.toolID.Some? then c.tool.value.cost else r.cost, c.role.value.bp)
  }

  /** The same call again: its row answers, whatever it is by now. */
  predicate SameCall(row: Call, r: ReserveRequest, price: int) {
    row.wallet == r.wallet && row.tool == r.tool && row.requested == price
  }

  ghost predicate RequestedBefore(db: Db, r: ReserveRequest) {
    exists c <- db.calls :: c.token == r.token && c.requestKey == r.requestKey
  }

  /** The checks before the key is looked at, and what they answer. */
  function Obstacle(db: Db, r: ReserveRequest, c: Catalog): Option<Error> {
    if Malformed(r) then Some(InvalidRequest)
    else if r.wallet >= |db.wallets| then Some(Unauthorized)
    else if ToolGone(r, c) then Some(NotFound)
    else if !c.authorized then Some(Unauthorized)
    else if c.role.None? then Some(Unavailable)
    else if Excluded(r, c) then Some(RoleNotAllowed)
    else None
  }

  /** The row of a new call. */
  predicate IsNewRow(row: Call, r: ReserveRequest, c: Catalog, price: int, status: Status) {
    && row.user == r.user && row.token == r.token && row.wallet == r.wallet && row.tool == r.tool
    && row.requestKey == r.requestKey && row.requested == price && row.cost == 0 && row.status == status
    && row.created == c.now && row.data == None
  }

  lemma LeastPriceIs(cost: int, bp: int, price: int)
    requires cost >= 0 && bp >= 0 && LeastPrice(price, cost, bp)
    ensures price == ApplyMultiplierBP(cost, bp)
  {
    MultiplierIsLeastCeiling(cost, bp);
  }

  lemma ReserveRefused(db: Db, r: ReserveRequest, c: Catalog)
    ensures Obstacle(db, r, c).Some? ==> Reserve(db, r, c) == (db, Refused(Obstacle(db, r, c).value))
  {}

  lemma ReserveRepeated(db: Db, r: ReserveRequest, c: Catalog, id: nat, price: int)
    requires Inv(db) && ValidCatalog(c) && Obstacle(db, r, c).None? && Costs(r, c, price)
    requires id < |db.calls| && db.calls[id].token == r.token && db.calls[id].requestKey == r.requestKey
    ensures Reserve(db, r, c)
         == (db, if !SameCall(db.calls[id], r, price) then Refused(Conflict)
                 else if db.calls[id].status.Denied? then Insufficient(id)
                 else Reserved(id))
  {
    LeastPriceIs(if r.toolID.Some? then c.tool.value.cost else r.cost, c.role.value.bp, price);
    assert db.calls[id] in db.calls;
    var found := FindCall(db.calls, r.token, r.requestKey).value;
    assert found == id;
  }

  /**
    A new call is refused if the caller lost its rights meanwhile, logged as denied if the balance is short, and
    otherwise reserved: its price leaves the wallet it names, and no other, with one line that names the call.
   */
  lemma ReserveNew(db: Db, r: ReserveRequest, c: Catalog, price: int)
    requires Inv(db) && ValidCatalog(c) && Obstacle(db, r, c).None? && Costs(r, c, price) && !RequestedBefore(db, r)
    ensures var (after, outcome) := Reserve(db, r, c);
            if !c.stillAuthorized then after == db && outcome == Refused(Unauthorized)
            else
              && RestSame(db, after)
              && |after.calls| == |db.calls| + 1 && after.calls[..|db.calls|] == db.calls
              && var row := after.calls[|db.calls|];
                 if db.wallets[r.wallet].balance < price then
                   && outcome == Insufficient(|db.calls|) && IsNewRow(row, r, c, price, Denied)
                   && after.wallets == db.wallets && after.ledger == db.ledger
                 else
                   && outcome == Reserved(|db.calls|) && IsNewRow(row, r, c, price, Pending)
                   && Moved(db, after, r.wallet, -price, Reservation, Some(|db.calls|), Unkeyed, "")
  {
    LeastPriceIs(if r.toolID.Some? then c.tool.value.cost else r.cost, c.role.value.bp, price);
  }

  /** There is always such a price. */
  lemma PriceExists(r: ReserveRequest, c: Catalog) returns (price: int)
    requires ValidCatalog(c) && c.role.Some? && !ToolGone(r, c) && !Malformed(r)
    ensures Costs(r, c, price)
  {
    var cost := if r.toolID.Some? then c.tool.value.cost else r.cost;
    price := ApplyMultiplierBP(cost, c.role.value.bp);
    MultiplierIsLeastCeiling(cost, c.role.value.bp);
  }

  /** A refused attempt leaves a row that costs nothing, unless its key is taken or its wallet unknown. */
  lemma RecordDeniedEffect(db: Db, r: ReserveRequest, now: int, data: string)
    ensures var after := RecordDenied(db, r.user, r.token, r.wallet, r.tool, r.requestKey, now, data);
            if r.wallet >= |db.wallets| || RequestedBefore(db, r) then after == db
            else
              && RestSame(db, after) && after.wallets == db.wallets && after.ledger == db.ledger
              && |after.calls| == |db.calls| + 1 && after.calls[..|db.calls|] == db.calls
              && after.calls[|db.calls|] == Call(r.user, r.token, r.wallet, r.tool, r.requestKey, 0, 0, Denied, now,
                                                 Some(data))
  {}

  // ---- Settlement ----

  /** Only the one row changes, and of it only what a settlement may set. */
  ghost predicate RowSettled(before: Db, after: Db, id: nat, status: Status, cost: int, data: Option<string>) {
    && id < |before.calls| == |after.calls|
    && (forall i | 0 <= i < |before.calls| && i != id :: after.calls[i] == before.calls[i])
    && after.calls[id] == before.calls[id].(status := status, cost := cost,
                                            data := if data.Some? then data else before.calls[id].data)
  }

  /**
    A pending call is settled once: a success keeps the frozen amount as its cost, anything else gives exactly that
    amount back to its wallet. A call that is not pending keeps its status; of a denied one only the data may change.
   */
  lemma FinishEffect(db: Db, id: nat, status: Status, data: Option<string>)
    requires Inv(db) && IsVerdict(status) && id < |db.calls|
    ensures db.calls[id].wallet < |db.wallets|
    ensures var (after, answer) := Finish(db, id, status, data);
            var row := db.calls[id];
            if row.status.Pending? then
              if status.Succeeded? then
                && RowSettled(db, after, id, Succeeded, row.requested, data) && RestSame(db, after)
                && after.wallets == db.wallets && after.ledger == db.ledger && answer == Success(true)
              else if db.wallets[row.wallet].balance + row.requested > 0x7fff_ffff_ffff_ffff then
                after == db && answer == Failure(OutOfRange)
              else
                && RowSettled(db, after, id, status, 0, data) && RestSame(db, after) && answer == Success(true)
                && Moved(db, after, row.wallet, row.requested, if status.Recovered? then Recovery else Refund,
                         Some(id), Unkeyed, if status.Recovered? then "recovered" else "error")
            else if row.status.Denied? then
              && RowSettled(db, after, id, Denied, row.cost, data) && RestSame(db, after)
              && after.wallets == db.wallets && after.ledger == db.ledger && answer == Success(false)
            else after == db && answer == Success(false)
  {
    assert CallOk(db.calls[id], |db.wallets|);
    BalanceInRange(db, db.calls[id].wallet);
  }

  lemma FinishNothing(db: Db, id: nat, status: Status, data: Option<string>)
    requires IsVerdict(status) && id >= |db.calls|
    ensures Finish(db, id, status, data) == (db, Failure(NotFound))
  {}

  // ---- Credits come from requests only ----

  /** What an operation puts into the system, read off the operation and the rows it meets. */
  ghost function Granted(db: Db, op: Op): int {
    match op
    case DoOpen(owner, initial, _) => if OpenAccepted(db, owner, initial) then initial else 0
    case DoAdjust(user, delta, note, key, actorOk, actorStillOk) =>
      if exists w: nat ::
           WalletOf(db, w, User(user)) && AdjustAccepted(db, w, delta, note, key, actorOk, actorStillOk)
      then delta else 0
    case DoRedeem(user, code, userOk, userStillOk) =>
      if code.Some? && code.value < |db.codes| && userOk && userStillOk
         && exists w: nat :: WalletOf(db, w, User(user)) && RedeemAccepted(db, w, code.value)
      then db.codes[code.value].credits else 0
    case _ => 0
  }

  ghost predicate OpenAccepted(db: Db, owner: Owner, initial: int) {
    && 0 <= initial <= 1_000_000_000_000 && (owner.Team? ==> initial == 0)
    && forall w <- db.wallets :: w.owner != owner
  }

  ghost predicate RedeemAccepted(db: Db, w: nat, code: nat)
    requires w < |db.wallets| && code < |db.codes|
  {
    !db.codes[code].redeemed && db.wallets[w].balance + db.codes[code].credits <= 0x7fff_ffff_ffff_ffff
  }
}
