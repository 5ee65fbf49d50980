/** What a discovery finds when it runs to its end: every tool of every row of the table, page by page. */
module CatalogDiscovery {
  import opened CatalogCache
  import opened CatalogProtocol

  /** The table offers this tool: a builtin row with a valid schema, or a tool that the row's provider named. */
  predicate OfferedBy(b: Binding, table: seq<Row>, found: Discovery, readAt: nat) {
    && b.row in table && b.readAt == readAt
    && match b.tool
       case None => b.row.builtin && b.row.schemaOk
       case Some(tool) => !b.row.builtin && b.row.id in found && tool in found[b.row.id]
  }

  lemma RowOffers(row: Row, found: Discovery, readAt: nat, b: Binding)
    ensures b in RowBindings(row, found, readAt) <==> b.row == row && OfferedBy(b, [row], found, readAt)
  {
    if !row.builtin && row.id in found {
      var tools, all := found[row.id], RemoteBindings(row, found[row.id], readAt);
      if b.row == row && b.readAt == readAt && b.tool.Some? && b.tool.value in tools {
        var i :| 0 <= i < |tools| && tools[i] == b.tool.value;
        assert all[i] == b;
      }
    }
  }

  /** A page offers exactly the tools of its rows. */
  lemma {:induction false} BindingsExact(page: seq<Row>, found: Discovery, readAt: nat, b: Binding)
    ensures b in PageBindings(page, found, readAt) <==> OfferedBy(b, page, found, readAt)
  {
    if page != [] {
      var init, last := page[..|page| - 1], page[|page| - 1];
      BindingsExact(init, found, readAt, b);
      RowOffers(last, found, readAt, b);
      assert page == init + [last];
    }
  }

  lemma {:induction false} BindingsConcat(a: seq<Row>, b: seq<Row>, found: Discovery, readAt: nat)
    ensures PageBindings(a + b, found, readAt) == PageBindings(a, found, readAt) + PageBindings(b, found, readAt)
  {
    hide RowBindings;
    if b == [] {
      assert a + b == a;
    } else {
      BindingsConcat(a, b[..|b| - 1], found, readAt);
      assert (a + b)[..|a + b| - 1] == a + b[..|b| - 1];
    }
  }

  // ---- Page by page ----

  /** The cursor after the first `k` rows. */
  function Cursor(table: seq<Row>, k: nat): nat
    requires k <= |table|
  {
    if k == 0 then 0 else table[k - 1].id
  }

  lemma {:induction false} BeyondCursor(table: seq<Row>, after: nat, k: nat)
    requires Ordered(table) && k <= |table|
    requires forall i | 0 <= i < k :: table[i].id <= after
    requires forall i | k <= i < |table| :: table[i].id > after
    ensures Beyond(table, after) == table[k..]
  {
    if k == 0 {
      assert table[0..] == table;
    } else {
      BeyondCursor(table[1..], after, k - 1);
      assert table[1..][k - 1..] == table[k..];
    }
  }

  lemma RowsBeyond(table: seq<Row>, k: nat)
    requires ValidTable(table) && k <= |table|
    ensures Beyond(table, Cursor(table, k)) == table[k..]
  {
    assert forall i | 0 <= i < |table| :: table[i] in table;
    BeyondCursor(table, Cursor(table, k), k);
  }

  /** The flight has read the first `k` rows. */
  ghost predicate HasRead(flight: Flight, version: nat, revision: nat, table: seq<Row>, k: nat, found: Discovery,
                          readAt: nat)
  {
    k <= |table| && flight == Reading(version, revision, Cursor(table, k), PageBindings(table[..k], found, readAt))
  }

  lemma DistinctPrefix(a: seq<Binding>, b: seq<Binding>)
    requires NamesDistinct(a + b)
    ensures NamesDistinct(a)
  {
    forall i, j | 0 <= i < j < |a| ensures PublicName(a[i]) != PublicName(a[j]) {
      assert (a + b)[i] == a[i] && (a + b)[j] == a[j];
    }
  }

  /** One page further, or done. */
  lemma ReadsOn(flight: Flight, version: nat, revision: nat, table: seq<Row>, k: nat, found: Discovery, readAt: nat)
    returns (n: nat)
    requires ValidTable(table) && HasRead(flight, version, revision, table, k, found, readAt)
    requires NamesDistinct(PageBindings(table, found, readAt))
    ensures k == |table| ==>
              Advance(flight, table, readAt, found) == Complete(version, revision, PageBindings(table, found, readAt))
    ensures k < |table| ==>
              k < n <= |table|
                  && HasRead(Advance(flight, table, readAt, found), version, revision, table, n, found, readAt)
  {
    hide NamesDistinct, ValidTable, PageBindings;
    RowsBeyond(table, k);
    if k == |table| {
      assert table[..k] == table;
      n := k;
    } else {
      n := if |table| - k > PAGE then k + PAGE else |table|;
      assert Page(table, Cursor(table, k)) == table[k..n];
      BindingsConcat(table[..k], table[k..n], found, readAt);
      assert table[..k] + table[k..n] == table[..n];
      BindingsConcat(table[..n], table[n..], found, readAt);
      assert table[..n] + table[n..] == table;
      DistinctPrefix(PageBindings(table[..n], found, readAt), PageBindings(table[n..], found, readAt));
    }
  }

  /** The state after `n` more pages, with nothing else in between. */
  ghost function AfterReads(s: State, found: Discovery, n: nat): (t: State)
    requires s.history != []
    ensures t == s.(flight := t.flight)
  {
    if n == 0 then s
    else
      var t := AfterReads(s, found, n - 1);
      if t.flight.Reading? then Next(t, ReadPage(found)) else t
  }

  lemma {:induction false} ReadsDone(s: State, found: Discovery, n: nat, m: nat)
    requires s.history != [] && n <= m && !AfterReads(s, found, n).flight.Reading?
    ensures AfterReads(s, found, m) == AfterReads(s, found, n)
  {
    if n < m { ReadsDone(s, found, n, m - 1); }
  }

  /** After `n` pages the flight is done, or has read at least `n` rows. */
  lemma {:induction false} ReadsProgress(s: State, table: seq<Row>, found: Discovery, n: nat)
    requires s.history != [] && table == s.history[|s.history| - 1] && ValidTable(table)
    requires s.flight.Reading? && s.flight.after == 0 && s.flight.result == []
    requires NamesDistinct(PageBindings(table, found, |s.history|))
    ensures var flight := AfterReads(s, found, n).flight;
            || flight == Complete(s.flight.version, s.flight.revision, PageBindings(table, found, |s.history|))
            || exists k: nat ::
                 n <= k && HasRead(flight, s.flight.version, s.flight.revision, table, k, found, |s.history|)
  {
    hide NamesDistinct, ValidTable, PageBindings;
    if n == 0 {
      FirstRead(s.flight, table, found, |s.history|);
    } else {
      ReadsProgress(s, table, found, n - 1);
      var t := AfterReads(s, found, n - 1);
      if t.flight.Reading? {
        var k: nat :| n - 1 <= k
          && HasRead(t.flight, s.flight.version, s.flight.revision, table, k, found, |s.history|);
        var more := ReadsOn(t.flight, s.flight.version, s.flight.revision, table, k, found, |s.history|);
      }
    }
  }

  lemma FirstRead(flight: Flight, table: seq<Row>, found: Discovery, readAt: nat)
    requires flight.Reading? && flight.after == 0 && flight.result == []
    ensures HasRead(flight, flight.version, flight.revision, table, 0, found, readAt)
  {
    assert table[..0] == [];
  }

  lemma DiscoveryCompletes(s: State, found: Discovery)
    requires s.history != [] && ValidTable(s.history[|s.history| - 1])
    requires s.flight.Reading? && s.flight.after == 0 && s.flight.result == []
    requires NamesDistinct(PageBindings(s.history[|s.history| - 1], found, |s.history|))
    ensures var table := s.history[|s.history| - 1];
            AfterReads(s, found, |table| + 1).flight
            == Complete(s.flight.version, s.flight.revision, PageBindings(table, found, |s.history|))
  {
    hide NamesDistinct, ValidTable, PageBindings;
    var table := s.history[|s.history| - 1];
    ReadsProgress(s, table, found, |table| + 1);
  }

  /**
    A discovery that is left alone reads every row, however many pages that takes, and completes with exactly the
    tools that the table offers, provided that their public names differ.
   */
  lemma DiscoveryReadsAll(s: State, found: Discovery, b: Binding)
    requires s.history != [] && ValidTable(s.history[|s.history| - 1])
    requires s.flight.Reading? && s.flight.after == 0 && s.flight.result == []
    requires NamesDistinct(PageBindings(s.history[|s.history| - 1], found, |s.history|))
    ensures var table := s.history[|s.history| - 1];
            var done := AfterReads(s, found, |table| + 1).flight;
            && done.Complete? && done.version == s.flight.version && done.revision == s.flight.revision
            && (b in done.result <==> OfferedBy(b, table, found, |s.history|))
  {
    hide NamesDistinct, ValidTable, PageBindings;
    DiscoveryCompletes(s, found);
    BindingsExact(s.history[|s.history| - 1], found, |s.history|, b);
  }

  // ---- From a miss to the answer ----

  lemma JoinStarts(s: State, r: nat)
    requires s.history != [] && Enabled(s, Join(r)) && s.flight.NoFlight?
    ensures var t := Next(s, Join(r));
            && t == s.(flight := Launched, requests := t.requests) && |t.requests| == |s.requests|
            && t.requests[r] == Waiting(s.requests[r].observed)
  {}

  /** A request that finds a discovery under way waits for it and starts no other. */
  lemma JoinShares(s: State, r: nat)
    requires s.history != [] && Enabled(s, Join(r)) && !s.flight.NoFlight?
    ensures var t := Next(s, Join(r));
            && t == s.(requests := t.requests) && |t.requests| == |s.requests|
            && t.requests[r] == Waiting(s.requests[r].observed)
  {}

  lemma BeginReads(s: State)
    requires s.history != [] && s.flight.Launched? && s.now >= s.cache.until
    ensures Next(s, BeginDiscovery) == s.(flight := Reading(s.cache.version, s.cache.revision, 0, []))
  {}

  lemma WokenIsServed(s: State, r: nat, observed: nat, result: seq<Binding>)
    requires s.history != [] && r < |s.requests| && s.requests[r] == Waiting(observed)
    requires s.flight.Complete? && s.flight.version == s.cache.version && s.flight.result == result
    ensures var told := Next(s, PublishResult);
            && told.flight.NoFlight? && told.requests == s.requests
            && var woken := Next(told, Wake(r));
               && |woken.requests| == |s.requests| && woken.requests[r].Looking?
               && |Next(woken, Check(r)).requests| == |s.requests|
               && Next(woken, Check(r)).requests[r] == Served(observed, result, |s.history|)
  {}

  /**
    A request that misses and is left alone with its discovery gets exactly the tools that the table offers: it
    launches the discovery, which reads the whole table and publishes, and on waking it is served.
   */
  lemma MissIsServed(s: State, r: nat, found: Discovery) returns (done: State, catalog: seq<Binding>)
    requires s.history != [] && ValidTable(s.history[|s.history| - 1]) && ValidDiscovery(found)
    requires r < |s.requests| && s.requests[r].Missed? && s.flight.NoFlight? && s.now >= s.cache.until
    requires NamesDistinct(PageBindings(s.history[|s.history| - 1], found, |s.history|))
    ensures done == AfterReads(Next(Next(s, Join(r)), BeginDiscovery), found, |s.history[|s.history| - 1]| + 1)
    ensures done.history == s.history && Enabled(done, PublishResult)
    ensures var told := Next(done, PublishResult);
            && told.history == s.history && Enabled(told, Wake(r))
            && var woken := Next(told, Wake(r));
               && woken.history == s.history && Enabled(woken, Check(r))
               && r < |Next(woken, Check(r)).requests|
               && Next(woken, Check(r)).requests[r] == Served(s.requests[r].observed, catalog, |s.history|)
    ensures forall b :: b in catalog <==> OfferedBy(b, s.history[|s.history| - 1], found, |s.history|)
  {
    hide NamesDistinct, ValidTable, PageBindings;
    JoinStarts(s, r);
    var asked := Next(s, Join(r));
    BeginReads(asked);
    var started := Next(asked, BeginDiscovery);
    done := AfterReads(started, found, |s.history[|s.history| - 1]| + 1);
    DiscoveryCompletes(started, found);
    catalog := done.flight.result;
    forall b ensures b in catalog <==> OfferedBy(b, s.history[|s.history| - 1], found, |s.history|) {
      BindingsExact(s.history[|s.history| - 1], found, |s.history|, b);
    }
    WokenIsServed(done, r, s.requests[r].observed, catalog);
  }
}
