/**
  The credit ledger: wallets, metered calls, append-only ledger entries,
  redemption codes and team transfers. Every function below is one committed
  (or refused) transaction; a row's id is its position.
*/
module LedgerModel {
  import opened Wrappers
  import opened ByteStrings

  const MAX_INT64 := 0x7fff_ffff_ffff_ffff
  /** Largest price, adjustment, transfer, code or opening credit the handlers accept. */
  const MAX_CREDITS := 1_000_000_000_000
  /** Largest multiplier, in basis points, that the billing-role handler accepts. */
  const MAX_BP := 1_000_000

  datatype Owner = User(id: int) | Team(id: int)

  datatype Wallet = Wallet(owner: Owner, balance: int)

  datatype Status = Pending | Succeeded | Errored | Recovered | Denied

  datatype Call = Call(
    user: int, token: int, wallet: nat, tool: string, requestKey: string,
    requested: int, cost: int, status: Status, created: int, data: Option<string>)

  datatype Kind = Registration | Adjustment | Redemption | Transfer | Reservation | Refund | Recovery

  /** Idempotency key of an entry: chosen by the client, or naming the account, code or transfer row behind it. */
  datatype EntryKey = Unkeyed | Chosen(key: string) | OfRow(id: nat)

  datatype Entry = Entry(
    wallet: nat, delta: int, kind: Kind, call: Option<nat>, key: EntryKey, note: string, balanceAfter: int)

  datatype Code = Code(credits: int, redeemed: bool)

  datatype TransferRow = TransferRow(team: int, user: int, credits: int, key: string, balanceAfter: int)

  datatype Db = Db(
    wallets: seq<Wallet>,
    calls: seq<Call>,
    ledger: seq<Entry>,
    codes: seq<Code>,
    transfers: seq<TransferRow>)

  const Empty := Db([], [], [], [], [])

  datatype Error =
    | InvalidRequest | Unauthorized | NotFound | Taken | RoleNotAllowed | Conflict
    | InsufficientBalance | AlreadyRedeemed | Unavailable | OutOfRange

  // ---- Lookups ----

  function FindWallet(wallets: seq<Wallet>, owner: Owner): (i: Option<nat>)
    ensures i.Some? ==> i.value < |wallets| && wallets[i.value].owner == owner
    ensures i.None? <==> forall w <- wallets :: w.owner != owner
  {
    if wallets == [] then None
    else if wallets[|wallets| - 1].owner == owner then Some(|wallets| - 1)
    else FindWallet(wallets[..|wallets| - 1], owner)
  }

  function FindCall(calls: seq<Call>, token: int, requestKey: string): (i: Option<nat>)
    ensures i.Some? ==> i.value < |calls| && calls[i.value].token == token && calls[i.value].requestKey == requestKey
    ensures i.None? <==> forall c <- calls :: c.token != token || c.requestKey != requestKey
  {
    if calls == [] then None
    else if calls[|calls| - 1].token == token && calls[|calls| - 1].requestKey == requestKey then Some(|calls| - 1)
    else FindCall(calls[..|calls| - 1], token, requestKey)
  }

  function FindAdjustment(ledger: seq<Entry>, wallet: nat, key: string): (i: Option<nat>)
    ensures i.Some? ==> i.value < |ledger| && IsAdjustment(ledger[i.value], wallet, key)
    ensures i.None? <==> forall e <- ledger :: !IsAdjustment(e, wallet, key)
  {
    if ledger == [] then None
    else if IsAdjustment(ledger[|ledger| - 1], wallet, key) then Some(|ledger| - 1)
    else FindAdjustment(ledger[..|ledger| - 1], wallet, key)
  }

  predicate IsAdjustment(e: Entry, wallet: nat, key: string) {
    e.wallet == wallet && e.kind.Adjustment? && e.key == Chosen(key)
  }

  function FindTransfer(transfers: seq<TransferRow>, team: int, user: int, key: string): (i: Option<nat>)
    ensures i.Some? ==> i.value < |transfers| && IsTransfer(transfers[i.value], team, user, key)
    ensures i.None? <==> forall t <- transfers :: !IsTransfer(t, team, user, key)
  {
    if transfers == [] then None
    else if IsTransfer(transfers[|transfers| - 1], team, user, key) then Some(|transfers| - 1)
    else FindTransfer(transfers[..|transfers| - 1], team, user, key)
  }

  predicate IsTransfer(t: TransferRow, team: int, user: int, key: string) {
    t.team == team && t.user == user && t.key == key
  }

  // ---- Elementary writes ----

  /** One wallet update with its ledger entry. */
  function Post(db: Db, wallet: nat, delta: int, kind: Kind, call: Option<nat>, key: EntryKey, note: string): Db
    requires wallet < |db.wallets|
  {
    var balance := db.wallets[wallet].balance + delta;
    db.(wallets := db.wallets[wallet := db.wallets[wallet].(balance := balance)],
        ledger := db.ledger + [Entry(wallet, delta, kind, call, key, note, balance)])
  }

  /** The database refuses a balance outside its column: the transaction rolls back. */
  predicate Fits(db: Db, wallet: nat, delta: int)
    requires wallet < |db.wallets|
  {
    0 <= db.wallets[wallet].balance + delta <= MAX_INT64
  }

  // ---- Pricing ----

  /** Basis-point multiplier, rounded up. */
  function ApplyMultiplierBP(cost: int, bp: int): int {
    (cost * bp + 9999) / 10000
  }

  /** The rounding is the least integer charge that does not undercharge. */
  lemma MultiplierIsLeastCeiling(cost: int, bp: int)
    requires cost >= 0 && bp >= 0
    ensures var c := ApplyMultiplierBP(cost, bp);
            && c * 10000 >= cost * bp
            && forall d :: d * 10000 >= cost * bp ==> d >= c
  {}

  /** Nothing in the computation leaves int64 for the prices and multipliers the handlers accept. */
  lemma MultiplierFitsInt64(cost: int, bp: int)
    requires 0 <= cost <= MAX_CREDITS && 0 <= bp <= MAX_BP
    ensures 0 <= cost * bp && cost * bp + 9999 <= MAX_INT64
    ensures 0 <= ApplyMultiplierBP(cost, bp) <= MAX_CREDITS * 100
  {
    assert cost * bp <= MAX_CREDITS * bp by { assert (MAX_CREDITS - cost) * bp >= 0; }
    assert cost * bp >= 0;
  }

  // ---- Accounts ----

  /** How an account came about. The line of a GitHub registration carries the account's own row as its key. */
  datatype Origin = Local | GitHub

  function WelcomeKey(origin: Origin, wallet: nat): EntryKey {
    if origin.GitHub? then OfRow(wallet) else Unkeyed
  }

  function WelcomeNote(origin: Origin): string {
    if origin.GitHub? then "Initial credits" else "Welcome credits"
  }

  /** register, createTeam, bootstrap and the GitHub callback: a new wallet, with its opening credit if there is one. */
  function Open(db: Db, owner: Owner, initial: int, origin: Origin): Result<Db, Error> {
    if initial < 0 || initial > MAX_CREDITS || (owner.Team? && initial != 0) then Failure(Unavailable)
    else if FindWallet(db.wallets, owner).Some? then Failure(Taken)
    else
      var w, withWallet := |db.wallets|, db.(wallets := db.wallets + [Wallet(owner, 0)]);
      if initial == 0 then Success(withWallet)
      else Success(Post(withWallet, w, initial, Registration, None, WelcomeKey(origin, w), WelcomeNote(origin)))
  }

  function Mint(db: Db, credits: int): Result<Db, Error> {
    if credits < 1 || credits > MAX_CREDITS then Failure(InvalidRequest)
    else Success(db.(codes := db.codes + [Code(credits, false)]))
  }

  // ---- reserve ----

  datatype ReserveRequest = ReserveRequest(
    user: int, token: int, wallet: nat, toolID: Option<nat>, tool: string, cost: int, requestKey: string)

  datatype ToolRow = ToolRow(cost: int, allowedRoles: seq<string>)

  datatype Role = Role(name: string, bp: int)

  /** What the transaction reads from the tool, token, member and role tables, and its clock. */
  datatype Catalog = Catalog(
    tool: Option<ToolRow>, authorized: bool, role: Option<Role>, stillAuthorized: bool, now: int)

  /** Prices and multipliers as the administration handlers store them. */
  predicate ValidCatalog(c: Catalog) {
    && (c.tool.Some? ==> 0 <= c.tool.value.cost <= MAX_CREDITS)
    && (c.role.Some? ==> 0 <= c.role.value.bp <= MAX_BP)
  }

  datatype ReserveOutcome = Reserved(id: nat) | Insufficient(id: nat) | Refused(error: Error)

  /** The charge this transaction computes, before it looks at the key. */
  function PriceOf(r: ReserveRequest, c: Catalog): Result<int, Error> {
    if r.toolID.Some? && c.tool.None? then Failure(NotFound)
    else if !c.authorized then Failure(Unauthorized)
    else if c.role.None? then Failure(Unavailable)
    else if r.toolID.Some? && c.tool.value.allowedRoles != [] && c.role.value.name !in c.tool.value.allowedRoles
    then Failure(RoleNotAllowed)
    else Success(ApplyMultiplierBP(if r.toolID.Some? then c.tool.value.cost else r.cost, c.role.value.bp))
  }

  function Reserve(db: Db, r: ReserveRequest, c: Catalog): (Db, ReserveOutcome) {
    if (r.toolID.None? && r.cost < 0) || r.requestKey == "" || |r.requestKey| > 200 || r.tool == ""
    then (db, Refused(InvalidRequest))
    else if r.wallet >= |db.wallets| then (db, Refused(Unauthorized))
    else
      match PriceOf(r, c)
      case Failure(e) => (db, Refused(e))
      case Success(cost) =>
        match FindCall(db.calls, r.token, r.requestKey)
        case Some(id) =>
          var prior := db.calls[id];
          if prior.wallet != r.wallet || prior.tool != r.tool || prior.requested != cost then (db, Refused(Conflict))
          else if prior.status.Denied? then (db, Insufficient(id))
          else (db, Reserved(id))
        case None =>
          var id, denied := |db.calls|, db.wallets[r.wallet].balance < cost;
          var call := Call(r.user, r.token, r.wallet, r.tool, r.requestKey, cost, 0,
                           if denied then Denied else Pending, c.now, None);
          var logged := db.(calls := db.calls + [call]);
          if !c.stillAuthorized then (db, Refused(Unauthorized))
          else if denied then (logged, Insufficient(id))
          else (Post(logged, r.wallet, -cost, Reservation, Some(id), Unkeyed, ""), Reserved(id))
  }

  /** Gateway.recordDenied: a refused attempt is logged under a fresh key without touching credits. */
  function RecordDenied(db: Db, user: int, token: int, wallet: nat, tool: string, requestKey: string, now: int,
                        data: string): Db
  {
    if wallet >= |db.wallets| || FindCall(db.calls, token, requestKey).Some? then db
    else db.(calls := db.calls + [Call(user, token, wallet, tool, requestKey, 0, 0, Denied, now, Some(data))])
  }

  // ---- finish ----

  /** A settlement as the callers request it: ok, error, or recovered. */
  predicate IsVerdict(status: Status) {
    status.Succeeded? || status.Errored? || status.Recovered?
  }

  function RefundKind(status: Status): Kind {
    if status.Recovered? then Recovery else Refund
  }

  /** The status text, also the note of the entry that gives credits back. */
  function StatusName(status: Status): string {
    match status
    case Pending => "pending"
    case Succeeded => "ok"
    case Errored => "error"
    case Recovered => "recovered"
    case Denied => "denied"
  }

  /** The settled row: only a successful call reports a cost. */
  function SettledCall(call: Call, status: Status): Call {
    call.(status := status, cost := if status.Succeeded? then call.requested else 0)
  }

  function Finish(db: Db, id: nat, status: Status, data: Option<string>): (Db, Result<bool, Error>)
    requires IsVerdict(status)
    requires id < |db.calls| ==> db.calls[id].wallet < |db.wallets|
  {
    if id >= |db.calls| then (db, Failure(NotFound))
    else
      var current := db.calls[id];
      var noted := if data.Some? then current.(data := data) else current;
      if current.status.Denied? && data.Some? then (db.(calls := db.calls[id := noted]), Success(false))
      else if !current.status.Pending? then (db, Success(false))
      else
        var settled := db.(calls := db.calls[id := SettledCall(noted, status)]);
        if status.Succeeded? then (settled, Success(true))
        else if !Fits(db, current.wallet, current.requested) then (db, Failure(OutOfRange))
        else (Post(settled, current.wallet, current.requested, RefundKind(status), Some(id), Unkeyed,
                   StatusName(status)), Success(true))
  }

  // ---- RecoverPending ----

  const RECOVER_BATCH := 100

  predicate IsStale(call: Call, before: int) {
    call.status.Pending? && call.created < before
  }

  /** The ids of the old pending calls from `n` on, in order. */
  function StaleFrom(calls: seq<Call>, before: int, n: nat): (ids: seq<nat>)
    requires n <= |calls|
    ensures forall id <- ids :: n <= id < |calls| && IsStale(calls[id], before)
    ensures forall i | n <= i < |calls| && IsStale(calls[i], before) :: i in ids
    decreases |calls| - n
  {
    if n == |calls| then []
    else if IsStale(calls[n], before) then [n] + StaleFrom(calls, before, n + 1)
    else StaleFrom(calls, before, n + 1)
  }

  function Stale(calls: seq<Call>, before: int): seq<nat> {
    StaleFrom(calls, before, 0)
  }

  // ---- adjustBalance ----

  /** Go's int64 sum, wrapped. */
  function Wrap64(x: int): int {
    (x + MAX_INT64 + 1) % (2 * (MAX_INT64 + 1)) - (MAX_INT64 + 1)
  }

  /** strings.TrimSpace leaves nothing; a note is its bytes. */
  predicate Blank(note: string) {
    TrimSpace(note) == ""
  }

  /** `actorOk` and `actorStillOk` are the two readings of the administrator's own rights. */
  function Adjust(db: Db, user: int, delta: int, note: string, key: string, actorOk: bool, actorStillOk: bool)
    : (Db, Result<int, Error>)
  {
    if delta == 0 || delta < -MAX_CREDITS || delta > MAX_CREDITS || Blank(note) || |note| > 500 || |key| < 1
        || |key| > 100
    then (db, Failure(InvalidRequest))
    else
      match FindWallet(db.wallets, User(user))
      case None => (db, Failure(NotFound))
      case Some(w) =>
        if !actorOk then (db, Failure(Unauthorized))
        else
          match FindAdjustment(db.ledger, w, key)
          case Some(i) =>
            if db.ledger[i].delta != delta || db.ledger[i].note != note then (db, Failure(Conflict))
            else (db, Success(db.ledger[i].balanceAfter))
          case None =>
            if Wrap64(db.wallets[w].balance + delta) < 0 then (db, Failure(InsufficientBalance))
            else if !actorStillOk then (db, Failure(Unauthorized))
            else (Post(db, w, delta, Adjustment, None, Chosen(key), note), Success(db.wallets[w].balance + delta))
  }

  // ---- redeem ----

  function Redeem(db: Db, user: int, code: Option<nat>, userOk: bool, userStillOk: bool): (Db, Result<int, Error>) {
    if code.None? || code.value >= |db.codes| then (db, Failure(NotFound))
    else
      var row := db.codes[code.value];
      if row.redeemed then (db, Failure(AlreadyRedeemed))
      else
        match FindWallet(db.wallets, User(user))
        case None => (db, Failure(Unavailable))
        case Some(w) =>
          if !userOk then (db, Failure(Unauthorized))
          else if !Fits(db, w, row.credits) then (db, Failure(OutOfRange))
          else if !userStillOk then (db, Failure(Unauthorized))
          else (Post(db.(codes := db.codes[code.value := row.(redeemed := true)]), w, row.credits, Redemption, None,
                     OfRow(code.value), "Redeemed code"),
                Success(db.wallets[w].balance + row.credits))
  }

  // ---- fundTeam ----

  /** `ownerOk` is teamWrite's ownership check. */
  function Fund(db: Db, user: int, team: int, credits: int, key: string, ownerOk: bool, userOk: bool, userStillOk: bool)
    : (Db, Result<int, Error>)
  {
    match FindWallet(db.wallets, Team(team))
    case None => (db, Failure(NotFound))
    case Some(to) =>
      if !ownerOk then (db, Failure(Unauthorized))
      else if credits < 1 || credits > MAX_CREDITS || |key| < 1 || |key| > 100 then (db, Failure(InvalidRequest))
      else
        match FindTransfer(db.transfers, team, user, key)
        case Some(i) =>
          if db.transfers[i].credits != credits then (db, Failure(Conflict))
          else (db, Success(db.transfers[i].balanceAfter))
        case None =>
          if !userOk then (db, Failure(Unauthorized))
          else
            match FindWallet(db.wallets, User(user))
            case None => (db, Failure(InsufficientBalance))
            case Some(from) =>
              if db.wallets[from].balance < credits then (db, Failure(InsufficientBalance))
              else if !Fits(db, to, credits) then (db, Failure(OutOfRange))
              else if !userStillOk then (db, Failure(Unauthorized))
              else
                var after := db.wallets[to].balance + credits;
                var logged := db.(transfers := db.transfers + [TransferRow(team, user, credits, key, after)]);
                (Post(Post(logged, from, -credits, Transfer, None, OfRow(|db.transfers|), "Fund team"),
                      to, credits, Transfer, None, OfRow(|db.transfers|), "Team funding"),
                 Success(after))
  }

  // ---- Runs ----

  datatype Op =
    | DoOpen(owner: Owner, initial: int, origin: Origin)
    | DoMint(credits: int)
    | DoReserve(request: ReserveRequest, catalog: Catalog)
    | DoRecordDenied(user: int, token: int, wallet: nat, tool: string, requestKey: string, now: int, detail: string)
    | DoFinish(id: nat, status: Status, data: Option<string>)
    | DoAdjust(user: int, delta: int, note: string, key: string, actorOk: bool, actorStillOk: bool)
    | DoRedeem(user: int, code: Option<nat>, userOk: bool, userStillOk: bool)
    | DoFund(user: int, team: int, credits: int, key: string, ownerOk: bool, userOk: bool, userStillOk: bool)

  predicate ValidOp(op: Op) {
    && (op.DoReserve? ==> ValidCatalog(op.catalog) && op.request.cost <= MAX_CREDITS)
    && (op.DoFinish? ==> IsVerdict(op.status))
  }

  /** Every call names an existing wallet: a foreign key of the schema. */
  predicate CallsHaveWallets(db: Db) {
    forall c <- db.calls :: c.wallet < |db.wallets|
  }

  function Apply(db: Db, op: Op): (after: Db)
    requires ValidOp(op) && CallsHaveWallets(db)
    ensures CallsHaveWallets(after)
  {
    match op
    case DoOpen(owner, initial, origin) =>
      (match Open(db, owner, initial, origin) case Success(d) => d case Failure(_) => db)
    case DoMint(credits) => (match Mint(db, credits) case Success(d) => d case Failure(_) => db)
    case DoReserve(request, catalog) => Reserve(db, request, catalog).0
    case DoRecordDenied(user, token, wallet, tool, requestKey, now, data) =>
      RecordDenied(db, user, token, wallet, tool, requestKey, now, data)
    case DoFinish(id, status, data) => Finish(db, id, status, data).0
    case DoAdjust(user, delta, note, key, actorOk, actorStillOk) =>
      Adjust(db, user, delta, note, key, actorOk, actorStillOk).0
    case DoRedeem(user, code, userOk, userStillOk) => Redeem(db, user, code, userOk, userStillOk).0
    case DoFund(user, team, credits, key, ownerOk, userOk, userStillOk) =>
      Fund(db, user, team, credits, key, ownerOk, userOk, userStillOk).0
  }

  ghost predicate ValidOps(ops: seq<Op>) {
    forall op <- ops :: ValidOp(op)
  }

  ghost function Run(ops: seq<Op>): (db: Db)
    requires ValidOps(ops)
    ensures CallsHaveWallets(db)
  {
    if ops == [] then Empty else Apply(Run(ops[..|ops| - 1]), ops[|ops| - 1])
  }
}
