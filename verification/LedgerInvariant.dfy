/** What every committed transaction keeps. */
module LedgerInvariant {
  import opened Wrappers
  import opened LedgerModel

  // ---- Sums ----

  /** Sum of a wallet's ledger deltas. */
  ghost function Deltas(ledger: seq<Entry>, wallet: nat): int {
    if ledger == [] then 0
    else
      var last := ledger[|ledger| - 1];
      Deltas(ledger[..|ledger| - 1], wallet) + if last.wallet == wallet then last.delta else 0
  }

  predicate IsExternal(kind: Kind) {
    kind.Registration? || kind.Adjustment? || kind.Redemption?
  }

  /** Credits that entered or left the system: opening credits, adjustments and redeemed codes. */
  ghost function External(ledger: seq<Entry>): int {
    if ledger == [] then 0
    else
      var last := ledger[|ledger| - 1];
      External(ledger[..|ledger| - 1]) + if IsExternal(last.kind) then last.delta else 0
  }

  ghost function TotalBalance(wallets: seq<Wallet>): int {
    if wallets == [] then 0 else TotalBalance(wallets[..|wallets| - 1]) + wallets[|wallets| - 1].balance
  }

  /** Credits a call keeps from its wallet: frozen while pending, spent once it succeeded. */
  function Kept(call: Call): int {
    match call.status
    case Pending => call.requested
    case Succeeded => call.cost
    case _ => 0
  }

  ghost function Outstanding(calls: seq<Call>): int {
    if calls == [] then 0 else Outstanding(calls[..|calls| - 1]) + Kept(calls[|calls| - 1])
  }

  lemma {:induction false} TotalBalanceUpdate(wallets: seq<Wallet>, i: nat, w: Wallet)
    requires i < |wallets|
    ensures TotalBalance(wallets[i := w]) == TotalBalance(wallets) - wallets[i].balance + w.balance
  {
    var last := |wallets| - 1;
    if i < last {
      assert wallets[i := w][..last] == wallets[..last][i := w];
      TotalBalanceUpdate(wallets[..last], i, w);
    } else {
      assert wallets[i := w][..last] == wallets[..last];
    }
  }

  lemma {:induction false} OutstandingUpdate(calls: seq<Call>, i: nat, c: Call)
    requires i < |calls|
    ensures Outstanding(calls[i := c]) == Outstanding(calls) - Kept(calls[i]) + Kept(c)
  {
    var last := |calls| - 1;
    if i < last {
      assert calls[i := c][..last] == calls[..last][i := c];
      OutstandingUpdate(calls[..last], i, c);
    } else {
      assert calls[i := c][..last] == calls[..last];
    }
  }

  lemma WalletAppend(wallets: seq<Wallet>, w: Wallet)
    ensures TotalBalance(wallets + [w]) == TotalBalance(wallets) + w.balance
  {
    assert (wallets + [w])[..|wallets|] == wallets;
  }

  lemma CallAppend(calls: seq<Call>, c: Call)
    ensures Outstanding(calls + [c]) == Outstanding(calls) + Kept(c)
  {
    assert (calls + [c])[..|calls|] == calls;
  }

  lemma EntryAppend(ledger: seq<Entry>, e: Entry)
    ensures External(ledger + [e]) == External(ledger) + if IsExternal(e.kind) then e.delta else 0
    ensures forall x: nat :: Deltas(ledger + [e], x) == Deltas(ledger, x) + if e.wallet == x then e.delta else 0
  {
    assert (ledger + [e])[..|ledger|] == ledger;
  }

  /** What one more line says about one call. */
  lemma HistoryAfter(ledger: seq<Entry>, e: Entry, id: nat)
    ensures HistoryOf(ledger + [e], id) ==
            if e.call == Some(id) then Then(HistoryOf(ledger, id), e.wallet, e.delta, e.kind) else HistoryOf(ledger, id)
  {
    assert (ledger + [e])[..|ledger|] == ledger;
  }

  lemma HistoryExtends(ledger: seq<Entry>, e: Entry)
    ensures e.call.Some?
        ==> HistoryOf(ledger + [e], e.call.value) == Then(HistoryOf(ledger, e.call.value), e.wallet, e.delta, e.kind)
    ensures forall id: nat | e.call != Some(id) :: HistoryOf(ledger + [e], id) == HistoryOf(ledger, id)
  {
    assert (ledger + [e])[..|ledger|] == ledger;
  }

  // ---- The books: balances and their history ----

  /** Each balance is in range and is the sum of the wallet's deltas. */
  ghost predicate Balances(wallets: seq<Wallet>, ledger: seq<Entry>) {
    forall w | 0 <= w < |wallets| :: wallets[w].balance == Deltas(ledger, w) && 0 <= wallets[w].balance <= MAX_INT64
  }

  /** Each entry names a wallet and records that wallet's running balance. */
  ghost predicate Running(count: nat, ledger: seq<Entry>) {
    ledger == [] || (
      var last := ledger[|ledger| - 1];
      && Running(count, ledger[..|ledger| - 1])
      && last.wallet < count && last.balanceAfter == Deltas(ledger, last.wallet))
  }

  ghost predicate OneWalletEach(wallets: seq<Wallet>) {
    forall i, j | 0 <= i < j < |wallets| :: wallets[i].owner != wallets[j].owner
  }

  // ---- Calls ----

  ghost predicate CallOk(c: Call, count: nat) {
    && c.wallet < count && c.requested >= 0
    && c.cost == (if c.status.Succeeded? then c.requested else 0)
  }

  ghost predicate CallsOk(calls: seq<Call>, count: nat) {
    forall i | 0 <= i < |calls| :: CallOk(calls[i], count)
  }

  /** The schema's UNIQUE(token_id, request_key). */
  ghost predicate UniqueRequests(calls: seq<Call>) {
    forall i, j | 0 <= i < j < |calls| :: calls[i].token != calls[j].token || calls[i].requestKey != calls[j].requestKey
  }

  /** The ledger lines about one call, in order. */
  datatype History = Nothing | Then(before: History, wallet: nat, delta: int, kind: Kind)

  /** Everything the ledger ever recorded for a call. */
  ghost function HistoryOf(ledger: seq<Entry>, id: nat): History {
    if ledger == [] then Nothing
    else
      var last, before := ledger[|ledger| - 1], HistoryOf(ledger[..|ledger| - 1], id);
      if last.call == Some(id) then Then(before, last.wallet, last.delta, last.kind) else before
  }

  /** The only histories a call can have, by its status. */
  function Settlement(c: Call): History {
    var reserved := Then(Nothing, c.wallet, -c.requested, Reservation);
    match c.status
    case Denied => Nothing
    case Pending => reserved
    case Succeeded => reserved
    case Errored => Then(reserved, c.wallet, c.requested, Refund)
    case Recovered => Then(reserved, c.wallet, c.requested, Recovery)
  }

  ghost predicate SettledOnce(calls: seq<Call>, ledger: seq<Entry>) {
    && (forall id: nat | id < |calls| :: HistoryOf(ledger, id) == Settlement(calls[id]))
    && (forall i | 0 <= i < |ledger| && ledger[i].call.Some? :: ledger[i].call.value < |calls|)
  }

  // ---- Idempotency keys ----

  /** The new entry's key is not used by an earlier entry of its wallet and kind. */
  ghost predicate KeyFree(ledger: seq<Entry>, e: Entry) {
    e.key.Unkeyed?
    || forall i | 0 <= i < |ledger| ::
         ledger[i].wallet != e.wallet || ledger[i].kind != e.kind || ledger[i].key != e.key
  }

  /** The schema's UNIQUE(wallet_id, kind, idempotency_key). */
  ghost predicate UniqueKeys(ledger: seq<Entry>) {
    ledger == []
    || (UniqueKeys(ledger[..|ledger| - 1]) && KeyFree(ledger[..|ledger| - 1], ledger[|ledger| - 1]))
  }

  /** Where an entry's key comes from: the client, the account, a recorded transfer, or a code that is used up. */
  ghost predicate Sourced(e: Entry, transfers: nat, codes: seq<Code>) {
    match e.kind
    case Adjustment => e.key.Chosen?
    case Transfer => e.key.OfRow? && e.key.id < transfers
    case Registration => e.key.Unkeyed? || e.key == OfRow(e.wallet)
    case Redemption => e.key.OfRow? && e.key.id < |codes| && codes[e.key.id].redeemed
    case _ => e.key.Unkeyed?
  }

  ghost predicate KeysSourced(ledger: seq<Entry>, transfers: nat, codes: seq<Code>) {
    forall i | 0 <= i < |ledger| :: Sourced(ledger[i], transfers, codes)
  }

  /** The schema's UNIQUE(team_id, user_id, idempotency_key). */
  ghost predicate UniqueTransfers(transfers: seq<TransferRow>) {
    forall i, j | 0 <= i < j < |transfers| ::
      transfers[i].team != transfers[j].team || transfers[i].user != transfers[j].user
          || transfers[i].key != transfers[j].key
  }

  ghost predicate CodesOk(codes: seq<Code>) {
    forall i | 0 <= i < |codes| :: 1 <= codes[i].credits <= MAX_CREDITS
  }

  /** Credits are conserved: nothing is created or lost except through external entries. */
  ghost predicate Conserved(db: Db) {
    TotalBalance(db.wallets) + Outstanding(db.calls) == External(db.ledger)
  }

  ghost predicate Books(db: Db) {
    && Balances(db.wallets, db.ledger) && Running(|db.wallets|, db.ledger) && OneWalletEach(db.wallets)
    && UniqueKeys(db.ledger) && KeysSourced(db.ledger, |db.transfers|, db.codes)
  }

  ghost predicate Inv(db: Db) {
    && Books(db)
    && CallsOk(db.calls, |db.wallets|) && UniqueRequests(db.calls) && SettledOnce(db.calls, db.ledger)
    && UniqueTransfers(db.transfers) && CodesOk(db.codes)
    && Conserved(db)
  }

  // ---- Appending one entry ----

  lemma BalancesPost(db: Db, wallet: nat, delta: int, kind: Kind, call: Option<nat>, key: EntryKey, note: string)
    requires Balances(db.wallets, db.ledger) && wallet < |db.wallets| && Fits(db, wallet, delta)
    ensures var after := Post(db, wallet, delta, kind, call, key, note);
            && Balances(after.wallets, after.ledger)
            && TotalBalance(after.wallets) == TotalBalance(db.wallets) + delta
            && External(after.ledger) == External(db.ledger) + if IsExternal(kind) then delta else 0
  {
    var after := Post(db, wallet, delta, kind, call, key, note);
    TotalBalanceUpdate(db.wallets, wallet, after.wallets[wallet]);
    EntryAppend(db.ledger, after.ledger[|db.ledger|]);
  }

  lemma RunningAppend(count: nat, ledger: seq<Entry>, e: Entry)
    requires Running(count, ledger) && e.wallet < count && e.balanceAfter == Deltas(ledger, e.wallet) + e.delta
    ensures Running(count, ledger + [e])
  {
    assert (ledger + [e])[..|ledger|] == ledger;
  }

  lemma {:induction false} RunningWiden(count: nat, ledger: seq<Entry>)
    requires Running(count, ledger)
    ensures Running(count + 1, ledger)
  {
    if ledger != [] {
      RunningWiden(count, ledger[..|ledger| - 1]);
    }
  }

  lemma KeysAppend(ledger: seq<Entry>, e: Entry, transfers: nat, codes: seq<Code>)
    requires UniqueKeys(ledger) && KeysSourced(ledger, transfers, codes)
    requires KeyFree(ledger, e) && Sourced(e, transfers, codes)
    ensures UniqueKeys(ledger + [e]) && KeysSourced(ledger + [e], transfers, codes)
  {
    assert (ledger + [e])[..|ledger|] == ledger;
  }

  lemma HistoryAppend(calls: seq<Call>, ledger: seq<Entry>, e: Entry)
    requires SettledOnce(calls, ledger) && e.call.None?
    ensures SettledOnce(calls, ledger + [e])
  {
    HistoryExtends(ledger, e);
  }

  // ---- Opening a wallet ----

  lemma {:induction false} NoDeltas(ledger: seq<Entry>, wallet: nat)
    requires Running(wallet, ledger)
    ensures Deltas(ledger, wallet) == 0
  {
    if ledger != [] {
      NoDeltas(ledger[..|ledger| - 1], wallet);
    }
  }

  lemma OpenBooks(wallets: seq<Wallet>, ledger: seq<Entry>, owner: Owner)
    requires Balances(wallets, ledger) && Running(|wallets|, ledger) && OneWalletEach(wallets)
    requires FindWallet(wallets, owner).None?
    ensures var after := wallets + [Wallet(owner, 0)];
            && Balances(after, ledger) && Running(|after|, ledger) && OneWalletEach(after)
            && TotalBalance(after) == TotalBalance(wallets)
  {
    NoDeltas(ledger, |wallets|);
    RunningWiden(|wallets|, ledger);
    WalletAppend(wallets, Wallet(owner, 0));
  }

  /** No line of the ledger is about a wallet that does not exist yet. */
  lemma {:induction false} LinesOfWallets(count: nat, ledger: seq<Entry>)
    requires Running(count, ledger)
    ensures forall i | 0 <= i < |ledger| :: ledger[i].wallet < count
  {
    if ledger != [] {
      LinesOfWallets(count, ledger[..|ledger| - 1]);
      forall i | 0 <= i < |ledger| ensures ledger[i].wallet < count {
        if i < |ledger| - 1 { assert ledger[i] == ledger[..|ledger| - 1][i]; }
      }
    }
  }

  // ---- Call rows ----

  ghost predicate RequestFree(calls: seq<Call>, c: Call) {
    forall i | 0 <= i < |calls| :: calls[i].token != c.token || calls[i].requestKey != c.requestKey
  }

  lemma CallsAppend(calls: seq<Call>, c: Call, count: nat)
    requires CallsOk(calls, count) && UniqueRequests(calls) && CallOk(c, count) && RequestFree(calls, c)
    ensures CallsOk(calls + [c], count) && UniqueRequests(calls + [c])
    ensures Outstanding(calls + [c]) == Outstanding(calls) + Kept(c)
  {
    CallAppend(calls, c);
  }

  lemma CallsReplace(calls: seq<Call>, id: nat, c: Call, count: nat)
    requires CallsOk(calls, count) && UniqueRequests(calls) && id < |calls| && CallOk(c, count)
    requires c.token == calls[id].token && c.requestKey == calls[id].requestKey
    ensures CallsOk(calls[id := c], count) && UniqueRequests(calls[id := c])
    ensures Outstanding(calls[id := c]) == Outstanding(calls) - Kept(calls[id]) + Kept(c)
  {
    OutstandingUpdate(calls, id, c);
  }

  lemma {:induction false} NoHistory(ledger: seq<Entry>, id: nat)
    requires forall i | 0 <= i < |ledger| && ledger[i].call.Some? :: ledger[i].call.value < id
    ensures HistoryOf(ledger, id) == Nothing
  {
    if ledger != [] {
      NoHistory(ledger[..|ledger| - 1], id);
    }
  }

  /** A new denied call has no lines. */
  lemma SettledDenied(calls: seq<Call>, ledger: seq<Entry>, c: Call)
    requires SettledOnce(calls, ledger) && c.status.Denied?
    ensures SettledOnce(calls + [c], ledger)
  {
    NoHistory(ledger, |calls|);
  }

  /** A new pending call has its reservation. */
  lemma SettledReserved(calls: seq<Call>, ledger: seq<Entry>, c: Call, e: Entry)
    requires SettledOnce(calls, ledger) && c.status.Pending?
    requires e.call == Some(|calls|) && e.wallet == c.wallet && e.delta == -c.requested && e.kind.Reservation?
    ensures SettledOnce(calls + [c], ledger + [e])
  {
    forall id: nat | id < |calls + [c]| ensures HistoryOf(ledger + [e], id) == Settlement((calls + [c])[id]) {
      if id < |calls| {
        EarlierHistory(calls, ledger, c, e, id);
      } else {
        NewHistory(calls, ledger, c, e);
      }
    }
    CallsNamed(calls, ledger, c, e);
  }

  lemma EarlierHistory(calls: seq<Call>, ledger: seq<Entry>, c: Call, e: Entry, id: nat)
    requires SettledOnce(calls, ledger) && id < |calls| && e.call == Some(|calls|)
    ensures HistoryOf(ledger + [e], id) == Settlement((calls + [c])[id])
  {
    HistoryAfter(ledger, e, id);
  }

  lemma NewHistory(calls: seq<Call>, ledger: seq<Entry>, c: Call, e: Entry)
    requires SettledOnce(calls, ledger) && c.status.Pending?
    requires e.call == Some(|calls|) && e.wallet == c.wallet && e.delta == -c.requested && e.kind.Reservation?
    ensures HistoryOf(ledger + [e], |calls|) == Settlement(c)
  {
    NoHistory(ledger, |calls|);
    HistoryAfter(ledger, e, |calls|);
  }

  lemma CallsNamed(calls: seq<Call>, ledger: seq<Entry>, c: Call, e: Entry)
    requires SettledOnce(calls, ledger) && e.call == Some(|calls|)
    ensures forall i | 0 <= i < |ledger + [e]| && (ledger + [e])[i].call.Some? ::
              (ledger + [e])[i].call.value < |calls + [c]|
  {}

  /** A change of a row that keeps its settlement. */
  lemma SettledSame(calls: seq<Call>, ledger: seq<Entry>, id: nat, c: Call)
    requires SettledOnce(calls, ledger) && id < |calls| && Settlement(c) == Settlement(calls[id])
    ensures SettledOnce(calls[id := c], ledger)
  {}

  /** A pending call settled with a refund. */
  lemma SettledBack(calls: seq<Call>, ledger: seq<Entry>, id: nat, c: Call, e: Entry)
    requires SettledOnce(calls, ledger) && id < |calls| && e.call == Some(id)
    requires Settlement(c) == Then(Settlement(calls[id]), e.wallet, e.delta, e.kind)
    ensures SettledOnce(calls[id := c], ledger + [e])
  {
    HistoryExtends(ledger, e);
  }
}
