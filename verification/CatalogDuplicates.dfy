/** When a discovery fails on a duplicate name: on a key that moved between its pages, and that does happen. */
module CatalogDuplicates {
  import opened Wrappers
  import opened ToolNames
  import opened CatalogCache
  import opened CatalogProtocol
  import opened CatalogProofs

  // ---- What a flight has bound so far ----

  /** Bindings of one row have different tools, and every row is at or before the page reached. */
  ghost predicate Traced(bindings: seq<Binding>, after: nat) {
    && (forall b <- bindings :: b.row.id <= after)
    && (forall i, j | 0 <= i < j < |bindings| && bindings[i].row.id == bindings[j].row.id ::
          bindings[i].tool.Some? && bindings[j].tool.Some? && bindings[i].tool != bindings[j].tool)
  }

  lemma {:induction false} PageTraced(page: seq<Row>, found: Discovery, readAt: nat)
    requires Ordered(page) && ValidDiscovery(found)
    ensures page == [] ==> PageBindings(page, found, readAt) == []
    ensures page != [] ==> Traced(PageBindings(page, found, readAt), page[|page| - 1].id)
  {
    if page != [] {
      var init, last := page[..|page| - 1], page[|page| - 1];
      PageTraced(init, found, readAt);
      var before, own := PageBindings(init, found, readAt), RowBindings(last, found, readAt);
      if init != [] {
        assert init[|init| - 1].id < last.id;
      }
      forall i, j | 0 <= i < j < |own| ensures own[i].tool.Some? && own[j].tool.Some? && own[i].tool != own[j].tool {
        assert Distinct(found[last.id]);
      }
      TracedAppend(before, own, if init == [] then 0 else init[|init| - 1].id, last.id);
    }
  }

  /** Bindings of later rows do not disturb those of earlier ones. */
  lemma TracedAppend(before: seq<Binding>, own: seq<Binding>, after: nat, last: nat)
    requires Traced(before, after) && Traced(own, last) && (before == [] || after < last)
    requires forall b <- own :: before == [] || b.row.id > after
    ensures Traced(before + own, last)
  {}

  /** Two equal public names come from two rows with the same key. */
  lemma NameClash(a: Binding, b: Binding)
    requires PublicName(a) == PublicName(b)
    requires a.row.builtin <==> a.tool.None?
    requires b.row.builtin <==> b.tool.None?
    requires a.row.builtin ==> FirstSeparator(a.row.key).None?
    requires b.row.builtin ==> FirstSeparator(b.row.key).None?
    ensures a.row.key == b.row.key && a.tool == b.tool
  {
    match (a.tool, b.tool)
    case (Some(s), Some(t)) => RemoteNamesUnique(a.row.key, s, b.row.key, t);
    case (None, Some(t)) => BuiltinNamesApart(a.row.key, b.row.key, t);
    case (Some(s), None) => BuiltinNamesApart(b.row.key, a.row.key, s);
    case (None, None) =>
  }

  ghost predicate FlightTraced(s: State) {
    match s.flight
    case Reading(_, _, after, result) => Traced(result, after) && NamesDistinct(result)
    case _ => true
  }

  lemma {:induction false} ExecTraced(states: seq<State>, steps: seq<Step>, n: nat)
    requires Exec(states, steps) && n < |states|
    ensures FlightTraced(states[n])
  {
    if n > 0 {
      ExecTraced(states, steps, n - 1);
      assert HistoryOk(states[n - 1]) by { ExecKept(states, steps, n - 1); }
      var s, step := states[n - 1], steps[n - 1];
      if step.ReadPage? {
        AdvanceTraced(s, step.found);
      }
    }
  }

  lemma AdvanceTraced(s: State, found: Discovery)
    requires s.history != [] && Ordered(s.history[|s.history| - 1])
    requires s.flight.Reading? && FlightTraced(s) && ValidDiscovery(found)
    ensures FlightTraced(s.(flight := Advance(s.flight, s.history[|s.history| - 1], |s.history|, found)))
  {
    var page := Page(s.history[|s.history| - 1], s.flight.after);
    if page != [] {
      PageAppendTraced(s.history[|s.history| - 1], s.flight.after, s.flight.result, found, |s.history|);
    }
  }

  /** The bindings of a further page leave those of the earlier pages undisturbed. */
  lemma PageAppendTraced(table: seq<Row>, after: nat, result: seq<Binding>, found: Discovery, readAt: nat)
    requires Ordered(table) && Traced(result, after) && ValidDiscovery(found) && Page(table, after) != []
    ensures var page := Page(table, after);
            Traced(result + PageBindings(page, found, readAt), page[|page| - 1].id)
  {
    var page := Page(table, after);
    var own := PageBindings(page, found, readAt);
    PageExact(table, after);
    PageTraced(page, found, readAt);
    PageBindingsSound(page, found, readAt);
    forall b | b in own ensures b.row.id > after { assert Sound(b, page, readAt); }
    TracedAppend(result, own, after, page[|page| - 1].id);
  }

  /** Two equal names, the second of them new. */
  lemma FirstClash(before: seq<Binding>, own: seq<Binding>) returns (i: nat, j: nat)
    requires NamesDistinct(before) && !NamesDistinct(before + own)
    ensures i < j < |before + own| && |before| <= j && PublicName((before + own)[i]) == PublicName((before + own)[j])
    ensures (before + own)[j] in own && (i < |before| ==> (before + own)[i] in before)
  {
    var all := before + own;
    i, j :| 0 <= i < j < |all| && PublicName(all[i]) == PublicName(all[j]);
    assert all[..|before|] == before;
  }

  /** In one table two rows never share a key, so a clash with a row of the current table was read earlier. */
  lemma ClashMovedKey(history: seq<seq<Row>>, a: Binding, b: Binding)
    requires history != [] && forall k | 0 <= k < |history| :: ValidTable(history[k])
    requires 0 < a.readAt <= |history| && a.row in history[a.readAt - 1] && b.row in history[|history| - 1]
    requires (a.row.builtin <==> a.tool.None?) && (b.row.builtin <==> b.tool.None?)
    requires PublicName(a) == PublicName(b) && (a.row.id == b.row.id ==> a.tool != b.tool)
    ensures a.row.key == b.row.key && a.row.id != b.row.id && a.readAt < |history|
  {
    NameClash(a, b);
    SameKeySameRow(history[|history| - 1], a.row, b.row);
  }

  lemma SameKeySameRow(table: seq<Row>, x: Row, y: Row)
    requires ValidTable(table) && y in table
    ensures x in table && x.key == y.key ==> x == y
  {
    if x in table {
      var i :| 0 <= i < |table| && table[i] == x;
      var j :| 0 <= j < |table| && table[j] == y;
      assert i < j ==> table[i].key != table[j].key;
      assert j < i ==> table[j].key != table[i].key;
    }
  }

  lemma {:induction false} PageHasTool(page: seq<Row>, found: Discovery, readAt: nat, row: Row, tool: string)
    requires row in page && !row.builtin && row.id in found && tool in found[row.id]
    ensures Binding(row, Some(tool), readAt) in PageBindings(page, found, readAt)
  {
    var init, last := page[..|page| - 1], page[|page| - 1];
    assert page == init + [last];
    if row == last {
      var k :| 0 <= k < |found[row.id]| && found[row.id][k] == tool;
      assert RowBindings(last, found, readAt)[k] == Binding(row, Some(tool), readAt);
    } else {
      PageHasTool(init, found, readAt, row, tool);
    }
  }

  lemma NamesMeet(before: seq<Binding>, own: seq<Binding>, x: Binding, y: Binding)
    requires x in before && y in own && PublicName(x) == PublicName(y)
    ensures !NamesDistinct(before + own)
  {
    var i :| 0 <= i < |before| && before[i] == x;
    var j :| 0 <= j < |own| && own[j] == y;
    assert (before + own)[i] == x && (before + own)[|before| + j] == y;
  }

  // ---- Exactly when a page fails a discovery ----

  /** What the page that the flight reads next offers, given what its providers answer. */
  function Offered(s: State, found: Discovery): seq<Binding>
    requires s.history != [] && s.flight.Reading?
  {
    PageBindings(Page(s.history[|s.history| - 1], s.flight.after), found, |s.history|)
  }

  /** The same tool under the same key. */
  predicate Meet(b: Binding, c: Binding) { b.row.key == c.row.key && b.tool == c.tool }

  /** The key stood on another row when the earlier binding was read. */
  ghost predicate Moved(b: Binding, c: Binding, history: seq<seq<Row>>) {
    b.row.id != c.row.id && 0 < b.readAt < |history| && b.row in history[b.readAt - 1]
  }

  ghost predicate FlightSound(s: State) {
    && s.history != [] && s.flight.Reading? && HistoryOk(s)
    && AllRead(s.flight.result, s.history, s.flight.revision)
    && Traced(s.flight.result, s.flight.after) && NamesDistinct(s.flight.result)
  }

  lemma FlightIsSound(states: seq<State>, steps: seq<Step>, n: nat)
    requires Exec(states, steps) && n < |states| && states[n].flight.Reading?
    ensures FlightSound(states[n])
  {
    ExecKept(states, steps, n);
    ExecTraced(states, steps, n);
  }

  /** Every binding that this page offers. */
  lemma OfferedSound(s: State, found: Discovery, c: Binding)
    requires FlightSound(s) && c in Offered(s, found)
    ensures c.row in s.history[|s.history| - 1] && c.row.id > s.flight.after && c.readAt == |s.history|
    ensures (c.row.builtin <==> c.tool.None?)
  {
    var page := Page(s.history[|s.history| - 1], s.flight.after);
    PageExact(s.history[|s.history| - 1], s.flight.after);
    PageBindingsSound(page, found, |s.history|);
    assert Sound(c, page, |s.history|);
  }

  /** A tool met again was read from another row, in an earlier table. */
  lemma MeetingMoved(s: State, found: Discovery, b: Binding, c: Binding)
    requires FlightSound(s) && b in s.flight.result && c in Offered(s, found) && Meet(b, c)
    ensures Moved(b, c, s.history)
  {
    OfferedSound(s, found, c);
    assert ReadSince(b, s.history, s.flight.revision);
    ClashMovedKey(s.history, b, c);
  }

  /** A binding of the flight or of this page, and where it was read. */
  lemma BindingRead(s: State, found: Discovery, b: Binding)
    requires FlightSound(s) && (b in s.flight.result || b in Offered(s, found))
    ensures 0 < b.readAt <= |s.history| && b.row in s.history[b.readAt - 1] && (b.row.builtin <==> b.tool.None?)
  {
    if b in s.flight.result {
      assert ReadSince(b, s.history, s.flight.revision);
    } else {
      OfferedSound(s, found, b);
    }
  }

  lemma AllTraced(s: State, found: Discovery)
    requires FlightSound(s) && ValidDiscovery(found) && Page(s.history[|s.history| - 1], s.flight.after) != []
    ensures var all := s.flight.result + Offered(s, found);
            forall i, j | 0 <= i < j < |all| && all[i].row.id == all[j].row.id :: all[i].tool != all[j].tool
  {
    PageAppendTraced(s.history[|s.history| - 1], s.flight.after, s.flight.result, found, |s.history|);
  }

  /** Of two bindings with one public name the first was read earlier, and they are the same tool of one key. */
  lemma FirstIsOld(s: State, found: Discovery, b: Binding, c: Binding)
    requires FlightSound(s) && (b in s.flight.result || b in Offered(s, found)) && c in Offered(s, found)
    requires PublicName(b) == PublicName(c) && (b.row.id == c.row.id ==> b.tool != c.tool)
    ensures b in s.flight.result && Meet(b, c)
  {
    BindingRead(s, found, b);
    OfferedSound(s, found, c);
    ClashMovedKey(s.history, b, c);
    SettledKeys(s, b, c);
    OfferedNow(s, found, b);
  }

  lemma OfferedNow(s: State, found: Discovery, b: Binding)
    requires FlightSound(s)
    ensures b in Offered(s, found) ==> b.readAt == |s.history|
  {
    if b in Offered(s, found) { OfferedSound(s, found, b); }
  }

  lemma SettledKeys(s: State, b: Binding, c: Binding)
    requires FlightSound(s) && PublicName(b) == PublicName(c)
    requires 0 < b.readAt <= |s.history| && b.row in s.history[b.readAt - 1] && c.row in s.history[|s.history| - 1]
    requires (b.row.builtin <==> b.tool.None?) && (c.row.builtin <==> c.tool.None?)
    ensures Meet(b, c)
  {
    assert ValidTable(s.history[b.readAt - 1]) && ValidTable(s.history[|s.history| - 1]);
    NameClash(b, c);
  }

  lemma FailureMeets(s: State, found: Discovery)
    requires FlightSound(s) && ValidDiscovery(found)
    requires Advance(s.flight, s.history[|s.history| - 1], |s.history|, found).NoFlight?
    ensures exists b, c :: b in s.flight.result && c in Offered(s, found) && Meet(b, c)
  {
    var own := Offered(s, found);
    var i, j := FirstClash(s.flight.result, own);
    var all := s.flight.result + own;
    AllTraced(s, found);
    assert all[i] in s.flight.result || all[i] in own;
    FirstIsOld(s, found, all[i], all[j]);
  }

  /**
    On every run, reading a page fails the discovery on a duplicate name exactly when the page offers a tool that
    was already bound under the same key; and then that key stood on another row when the tool was bound, in a
    table that a later commit replaced.
   */
  lemma DuplicateIff(states: seq<State>, steps: seq<Step>, n: nat, found: Discovery)
    requires Exec(states, steps) && n < |states| && states[n].flight.Reading? && ValidDiscovery(found)
    ensures states[n].history != []
    ensures var s := states[n];
            Next(s, ReadPage(found)).flight.NoFlight?
            <==> exists b, c :: b in s.flight.result && c in Offered(s, found) && Meet(b, c)
    ensures var s := states[n];
            forall b, c | b in s.flight.result && c in Offered(s, found) && Meet(b, c) :: Moved(b, c, s.history)
  {
    FlightIsSound(states, steps, n);
    var s := states[n];
    if Next(s, ReadPage(found)).flight.NoFlight? {
      FailureMeets(s, found);
    }
    forall b, c | b in s.flight.result && c in Offered(s, found) && Meet(b, c)
      ensures Moved(b, c, s.history) && Next(s, ReadPage(found)).flight.NoFlight?
    {
      MeetingMoved(s, found, b, c);
      MeetingFails(s, found, b, c);
    }
  }

  lemma MeetingFails(s: State, found: Discovery, b: Binding, c: Binding)
    requires s.history != [] && s.flight.Reading? && b in s.flight.result && c in Offered(s, found) && Meet(b, c)
    ensures Advance(s.flight, s.history[|s.history| - 1], |s.history|, found).NoFlight?
  {
    NamesMeet(s.flight.result, Offered(s, found), b, c);
  }

  // ---- Runs that fail ----

  /** A run goes on by any step that is possible in its last state. */
  lemma Extended(states: seq<State>, steps: seq<Step>, step: Step)
    returns (more: seq<State>, taken: seq<Step>, last: State)
    requires Exec(states, steps)
    requires var s := states[|states| - 1]; s.history != [] && Enabled(s, step)
    ensures more == states + [last] && taken == steps + [step] && Exec(more, taken)
    ensures last == Next(states[|states| - 1], step)
  {
    last := Next(states[|states| - 1], step);
    more, taken := states + [last], steps + [step];
    forall i | 0 <= i < |taken|
      ensures more[i].history != [] && Enabled(more[i], taken[i]) && more[i + 1] == Next(more[i], taken[i])
    {
      if i < |steps| {
        assert more[i] == states[i] && more[i + 1] == states[i + 1] && taken[i] == steps[i];
      }
    }
  }

  /** One request arrives, finds nothing cached and starts a discovery. */
  lemma DiscoveryStarts(table: seq<Row>) returns (states: seq<State>, steps: seq<Step>, s: State)
    requires ValidTable(table)
    ensures Exec(states, steps) && s == states[|states| - 1]
    ensures s.history == [table] && s.flight == Reading(1, 1, 0, [])
    ensures steps == [Arrive, QueryRevision(0), Observe(0), Check(0), Join(0), BeginDiscovery]
  {
    states, steps, s := RequestLooks(table);
    states, steps, s := Extended(states, steps, Check(0));
    states, steps, s := Extended(states, steps, Join(0));
    states, steps, s := Extended(states, steps, BeginDiscovery);
  }

  lemma RequestLooks(table: seq<Row>) returns (states: seq<State>, steps: seq<Step>, s: State)
    requires ValidTable(table)
    ensures Exec(states, steps) && s == states[|states| - 1]
    ensures s == State([table], Cache(1, 1, 0, []), 0, NoFlight, [Looking(1)])
    ensures steps == [Arrive, QueryRevision(0), Observe(0)]
  {
    s := State([table], Cache(0, 0, 0, []), 0, NoFlight, []);
    states, steps := [s], [];
    states, steps, s := Extended(states, steps, Arrive);
    states, steps, s := Extended(states, steps, QueryRevision(0));
    states, steps, s := Extended(states, steps, Observe(0));
  }

  /** What a run reaches by two commits between its first two pages. */
  ghost predicate Between(s: State, a: seq<Row>, mid: seq<Row>, b: seq<Row>, found: Discovery)
    requires Page(a, 0) != []
  {
    s.history == [a, mid, b]
    && s.flight == Reading(1, 1, Page(a, 0)[|Page(a, 0)| - 1].id, PageBindings(Page(a, 0), found, 1))
  }

  lemma FirstPageRead(states: seq<State>, steps: seq<Step>, a: seq<Row>, found: Discovery)
    returns (more: seq<State>, taken: seq<Step>, s: State)
    requires Exec(states, steps) && ValidTable(a) && ValidDiscovery(found) && Page(a, 0) != []
    requires states[|states| - 1].history == [a] && states[|states| - 1].flight == Reading(1, 1, 0, [])
    ensures Exec(more, taken) && s == more[|more| - 1] && taken == steps + [ReadPage(found)]
    ensures s.history == [a]
    ensures s.flight == Reading(1, 1, Page(a, 0)[|Page(a, 0)| - 1].id, PageBindings(Page(a, 0), found, 1))
  {
    var now := states[|states| - 1];
    DuplicateIff(states, steps, |states| - 1, found);
    more, taken, s := Extended(states, steps, ReadPage(found));
    assert [] + PageBindings(Page(a, 0), found, 1) == PageBindings(Page(a, 0), found, 1);
  }

  lemma TwoCommits(states: seq<State>, steps: seq<Step>, mid: seq<Row>, b: seq<Row>)
    returns (more: seq<State>, taken: seq<Step>, s: State)
    requires Exec(states, steps) && ValidTable(mid) && ValidTable(b) && states[|states| - 1].history != []
    ensures Exec(more, taken) && s == more[|more| - 1] && taken == steps + [Commit(mid), Commit(b)]
    ensures s.history == states[|states| - 1].history + [mid, b] && s.flight == states[|states| - 1].flight
  {
    more, taken, s := Extended(states, steps, Commit(mid));
    more, taken, s := Extended(more, taken, Commit(b));
    assert steps + [Commit(mid)] + [Commit(b)] == steps + [Commit(mid), Commit(b)];
    assert states[|states| - 1].history + [mid] + [b] == states[|states| - 1].history + [mid, b];
  }

  /** A remote row of the first page and one of the second page that has its key by then. */
  ghost predicate KeyMoves(a: seq<Row>, b: seq<Row>, p: Row, q: Row) {
    && p in Page(a, 0) && q in Page(b, Page(a, 0)[|Page(a, 0)| - 1].id)
    && !p.builtin && !q.builtin && p.key == q.key
  }

  /**
    Whenever commits between the first two pages of a discovery move a key to a row of the second, and the two
    providers behind it share a tool name, there is a run in which that discovery fails.
   */
  lemma MovedKeyFails(a: seq<Row>, mid: seq<Row>, b: seq<Row>, p: Row, q: Row, tool: string, found: Discovery)
    returns (states: seq<State>, steps: seq<Step>)
    requires ValidTable(a) && ValidTable(mid) && ValidTable(b) && ValidDiscovery(found) && KeyMoves(a, b, p, q)
    requires p.id in found && tool in found[p.id] && q.id in found && tool in found[q.id]
    ensures Exec(states, steps)
    ensures steps == [Arrive, QueryRevision(0), Observe(0), Check(0), Join(0), BeginDiscovery, ReadPage(found),
                      Commit(mid), Commit(b), ReadPage(found)]
    ensures states[9].flight.Reading? && states[9].history == [a, mid, b] && states[10].flight.NoFlight?
  {
    var s;
    states, steps, s := BothPagesReady(a, mid, b, found);
    SecondPageFails(s, a, mid, b, p, q, tool, found);
    var last;
    states, steps, last := Extended(states, steps, ReadPage(found));
  }

  lemma BothPagesReady(a: seq<Row>, mid: seq<Row>, b: seq<Row>, found: Discovery)
    returns (states: seq<State>, steps: seq<Step>, s: State)
    requires ValidTable(a) && ValidTable(mid) && ValidTable(b) && ValidDiscovery(found) && Page(a, 0) != []
    ensures Exec(states, steps) && |states| == 10 && s == states[9] && Between(s, a, mid, b, found)
    ensures steps == [Arrive, QueryRevision(0), Observe(0), Check(0), Join(0), BeginDiscovery, ReadPage(found),
                      Commit(mid), Commit(b)]
  {
    states, steps, s := DiscoveryStarts(a);
    states, steps, s := FirstPageRead(states, steps, a, found);
    states, steps, s := TwoCommits(states, steps, mid, b);
    assert [a] + [mid, b] == [a, mid, b];
  }

  lemma SecondPageFails(s: State, a: seq<Row>, mid: seq<Row>, b: seq<Row>, p: Row, q: Row, tool: string,
                        found: Discovery)
    requires KeyMoves(a, b, p, q) && Between(s, a, mid, b, found)
    requires p.id in found && tool in found[p.id] && q.id in found && tool in found[q.id]
    ensures Advance(s.flight, s.history[|s.history| - 1], |s.history|, found).NoFlight?
  {
    PageHasTool(Page(a, 0), found, 1, p, tool);
    PageHasTool(Page(b, s.flight.after), found, 3, q, tool);
    MeetingFails(s, found, Binding(p, Some(tool), 1), Binding(q, Some(tool), 3));
  }

  // ---- Such tables exist ----

  /** Keys as the administration handler accepts them. */
  predicate ValidKey(key: string) {
    3 <= |key| <= 32 && forall i | 0 <= i < |key| ::
      'a' <= key[i] <= 'z' || 'A' <= key[i] <= 'Z' || '0' <= key[i] <= '9' || key[i] == '_' || key[i] == '-'
  }

  function Numeral(n: nat): char
    requires n < 16
  {
    "0123456789abcdef"[n]
  }

  function Key(i: nat): string
    requires i < 256
  {
    ['k', Numeral(i / 16), Numeral(i % 16)]
  }

  lemma KeysDiffer(i: nat, j: nat)
    requires i < 256 && j < 256 && Key(i) == Key(j)
    ensures i == j
  {
    assert Key(i)[1] == Key(j)[1] && Key(i)[2] == Key(j)[2];
    NumeralsDiffer(i / 16, j / 16);
    NumeralsDiffer(i % 16, j % 16);
  }

  lemma NumeralsDiffer(m: nat, n: nat)
    requires m < 16 && n < 16 && Numeral(m) == Numeral(n)
    ensures m == n
  {
    NumeralRank(m);
    NumeralRank(n);
  }

  lemma NumeralRank(n: nat)
    requires n < 16
    ensures Numeral(n) as int == if n < 10 then '0' as int + n else 'a' as int + n - 10
  {
    if n < 8 { assert n in {0, 1, 2, 3, 4, 5, 6, 7}; } else { assert n in {8, 9, 10, 11, 12, 13, 14, 15}; }
  }

  /** 129 remote rows, one more than a page, the i-th under the key numbered keys(i). */
  function Table(keys: nat -> nat): seq<Row>
    requires forall i | 0 <= i <= PAGE :: keys(i) < 256
  {
    seq(PAGE + 1, i requires 0 <= i < PAGE + 1 => Row(i + 1, Key(keys(i)), false, true, 0))
  }

  lemma TableKeys(keys: nat -> nat, i: nat, j: nat)
    requires forall i | 0 <= i <= PAGE :: keys(i) < 256
    requires i < j <= PAGE && keys(i) != keys(j)
    ensures Table(keys)[i].key != Table(keys)[j].key
  {
    if Key(keys(i)) == Key(keys(j)) { KeysDiffer(keys(i), keys(j)); }
  }

  lemma KeyValid(i: nat)
    requires i < 256
    ensures ValidKey(Key(i))
  {
    NumeralRank(i / 16);
    NumeralRank(i % 16);
  }

  ghost predicate KeysValid(table: seq<Row>) {
    forall i | 0 <= i < |table| :: ValidKey(table[i].key)
  }

  lemma TableValid(keys: nat -> nat)
    requires forall i | 0 <= i <= PAGE :: keys(i) < 256
    requires forall i, j | 0 <= i < j <= PAGE :: keys(i) != keys(j)
    ensures ValidTable(Table(keys)) && KeysValid(Table(keys))
  {
    var table := Table(keys);
    forall i, j | 0 <= i < j < |table| ensures table[i].key != table[j].key {
      TableKeys(keys, i, j);
    }
    forall i | 0 <= i < |table| ensures ValidKey(table[i].key) {
      KeyValid(keys(i));
    }
  }

  /** One row's key is set, as one transaction of the handler does. */
  ghost predicate OneKeySet(a: seq<Row>, b: seq<Row>) {
    exists k: nat :: k < |a| && |b| == |a| && b == a[k := a[k].(key := b[k].key)]
  }

  function FirstKeys(i: nat): nat { i }

  /** The first row renamed. */
  function MidKeys(i: nat): nat { if i == 0 then 200 else i }

  /** Then its old key given to the row after the first page. */
  function LastKeys(i: nat): nat { if i == 0 then 200 else if i == PAGE then 0 else i }

  lemma OneRowEach()
    ensures OneKeySet(Table(FirstKeys), Table(MidKeys)) && OneKeySet(Table(MidKeys), Table(LastKeys))
  {
    var a, mid, b := Table(FirstKeys), Table(MidKeys), Table(LastKeys);
    assert mid == a[0 := a[0].(key := mid[0].key)];
    assert b == mid[PAGE := mid[PAGE].(key := b[PAGE].key)];
  }

  lemma KeyDoesMove()
    ensures var a, b := Table(FirstKeys), Table(LastKeys); KeyMoves(a, b, a[0], b[PAGE])
  {
    var a, b := Table(FirstKeys), Table(LastKeys);
    assert Beyond(a, 0) == a;
    assert Page(a, 0) == a[..PAGE] && Page(a, 0)[0] == a[0] && Page(a, 0)[PAGE - 1].id == PAGE;
    TableValid(LastKeys);
    BeyondExact(b, PAGE);
    assert b[PAGE] in b && b[PAGE].id > PAGE;
    BeyondShort(b, PAGE);
  }

  lemma {:induction false} BeyondShort(table: seq<Row>, after: nat)
    requires forall i | 0 <= i < |table| :: table[i].id == table[0].id + i
    requires table != [] && table[0].id <= after + 1 && after < table[|table| - 1].id <= after + 1
    ensures |Beyond(table, after)| == 1
    decreases |table|
  {
    if table[0].id <= after {
      BeyondShort(table[1..], after);
    }
  }

  lemma WitnessTables() returns (a: seq<Row>, mid: seq<Row>, b: seq<Row>, p: Row, q: Row)
    ensures ValidTable(a) && ValidTable(mid) && ValidTable(b) && KeysValid(a) && KeysValid(mid) && KeysValid(b)
    ensures OneKeySet(a, mid) && OneKeySet(mid, b) && KeyMoves(a, b, p, q) && p.id == 1 && q.id == PAGE + 1
  {
    a, mid, b := Table(FirstKeys), Table(MidKeys), Table(LastKeys);
    p, q := a[0], b[PAGE];
    TableValid(FirstKeys);
    TableValid(MidKeys);
    TableValid(LastKeys);
    OneRowEach();
    KeyDoesMove();
  }

  /**
    So the failure is reachable: three tables of valid keys, two commits of one row each between the pages, and a
    run that ends in it.
   */
  lemma DuplicateHappens() returns (states: seq<State>, steps: seq<Step>, found: Discovery)
    ensures Exec(states, steps) && |steps| == 10 && steps[9] == ReadPage(found)
    ensures states[9].flight.Reading? && states[10].flight.NoFlight?
    ensures steps[7].Commit? && OneKeySet(states[7].history[|states[7].history| - 1], steps[7].table)
    ensures steps[8].Commit? && OneKeySet(states[8].history[|states[8].history| - 1], steps[8].table)
    ensures forall table <- states[9].history :: KeysValid(table)
  {
    hide Exec, ValidTable, KeysValid, KeyMoves, OneKeySet, ValidDiscovery;
    var a, mid, b, p, q := WitnessTables();
    found := SharedTool(p.id, q.id, "t");
    states, steps := FailingRun(a, mid, b, p, q, "t", found);
  }

  lemma SharedTool(p: nat, q: nat, tool: string) returns (found: Discovery)
    ensures ValidDiscovery(found) && p in found && tool in found[p] && q in found && tool in found[q]
  {
    found := map[p := [tool], q := [tool]];
  }

  lemma FailingRun(a: seq<Row>, mid: seq<Row>, b: seq<Row>, p: Row, q: Row, tool: string, found: Discovery)
    returns (states: seq<State>, steps: seq<Step>)
    requires ValidTable(a) && ValidTable(mid) && ValidTable(b) && ValidDiscovery(found) && KeyMoves(a, b, p, q)
    requires p.id in found && tool in found[p.id] && q.id in found && tool in found[q.id]
    ensures Exec(states, steps) && |steps| == 10 && steps[9] == ReadPage(found)
    ensures states[9].flight.Reading? && states[10].flight.NoFlight? && states[9].history == [a, mid, b]
    ensures steps[7] == Commit(mid) && states[7].history == [a]
    ensures steps[8] == Commit(b) && states[8].history == [a, mid]
  {
    states, steps := MovedKeyFails(a, mid, b, p, q, tool, found);
    HistoryAt(states, steps, a, mid, b);
  }

  lemma HistoryAt(states: seq<State>, steps: seq<Step>, a: seq<Row>, mid: seq<Row>, b: seq<Row>)
    requires Exec(states, steps) && |steps| == 10 && states[9].history == [a, mid, b]
    requires steps[7] == Commit(mid) && steps[8] == Commit(b)
    ensures states[8].history == [a, mid] && states[7].history == [a]
  {
    assert states[9] == Next(states[8], steps[8]) && states[8] == Next(states[7], steps[7]);
    assert states[9].history[..|states[9].history| - 1] == states[8].history;
    assert states[8].history[..|states[8].history| - 1] == states[7].history;
  }
}
