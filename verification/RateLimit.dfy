/**
  The shared fixed-window request budget: one stored row (window, used) per
  (scope, subject), changed in place by a conditional upsert, and a
  reclamation statement that drops expired rows of public scopes.
*/
module RateLimit {
  import opened Arithmetic
  import opened Wrappers

  /** The row stored for one (scope, subject). */
  datatype Row = Row(window: int, used: int)

  type Key = (string, int)

  datatype Verdict = Allowed | Denied | InvalidBudget

  /** Reclamation always compares with minute windows, whatever the row's own window is. */
  const RECLAIM_SECONDS := 60

  const RECLAIM_BATCH := 100

  const PUBLIC_PREFIX := "public:"

  predicate IsPublic(scope: string) {
    PUBLIC_PREFIX <= scope
  }

  /** The upsert: the row left behind and whether the statement returned it. */
  function Upsert(row: Option<Row>, window: int, limit: int): (Option<Row>, bool) {
    match row
    case None => (Some(Row(window, 1)), true)
    case Some(r) =>
      if window > r.window then (Some(Row(window, 1)), true)
      else if r.used < limit then (Some(Row(r.window, r.used + 1)), true)
      else (row, false)
  }

  function Lookup(rows: map<Key, Row>, key: Key): Option<Row> {
    if key in rows then Some(rows[key]) else None
  }

  /** A set of rows the reclamation statement may delete at `clock`. */
  predicate Reclaimable(rows: map<Key, Row>, clock: int, victims: set<Key>) {
    && victims <= rows.Keys
    && |victims| <= RECLAIM_BATCH
    && forall k <- victims :: IsPublic(k.0) && rows[k].window < clock / RECLAIM_SECONDS
  }

  /** The table behind the limiter. */
  class RateLimits {
    var rows: map<Key, Row>

    constructor ()
      ensures rows == map[]
    {
      rows := map[];
    }

    /**
      One call. `swept` are the rows the reclamation statement found and could
      lock at `sweepClock`; `clock` is the clock of the upsert statement.
    */
    method AllowRequest(scope: string, subject: int, seconds: int, limit: int,
                        sweepClock: int, swept: set<Key>, clock: int)
      returns (verdict: Verdict)
      requires Reclaimable(rows, sweepClock, swept)
      modifies this
      ensures verdict == InvalidBudget <==> scope == "" || seconds <= 0 || limit <= 0
      ensures verdict == InvalidBudget ==> rows == old(rows)
      ensures verdict != InvalidBudget ==>
                var kept := if IsPublic(scope) then old(rows) - swept else old(rows);
                var (row, admitted) := Upsert(Lookup(kept, (scope, subject)), clock / seconds, limit);
                && (verdict == Allowed <==> admitted)
                && row.Some?
                && rows == kept[(scope, subject) := row.value]
    {
      if scope == "" || seconds <= 0 || limit <= 0 {
        return InvalidBudget;
      }
      if IsPublic(scope) {
        rows := rows - swept;
      }
      var key := (scope, subject);
      var window := clock / seconds;
      if key !in rows {
        rows := rows[key := Row(window, 1)];
        return Allowed;
      }
      var row := rows[key];
      if window > row.window {
        rows := rows[key := Row(window, 1)];
        return Allowed;
      }
      if row.used < limit {
        rows := rows[key := Row(row.window, row.used + 1)];
        return Allowed;
      }
      assert rows == rows[key := row];
      return Denied;
    }
  }

  // ---- One subject, a fixed limit, any request sequence ----

  /** What a request left behind: the stored window it was counted in, or None when denied. */
  type Log = seq<Option<int>>

  /**
    Requests in the order the database serialised them, each given by the
    window of its own clock. A queued request may carry an older window than
    the ones before it.
  */
  function Serve(windows: seq<int>, limit: int): (r: (Option<Row>, Log))
    ensures |r.1| == |windows|
    ensures r.0.Some? <==> windows != []
  {
    if windows == [] then (None, [])
    else
      var last := |windows| - 1;
      var (row, log) := Serve(windows[..last], limit);
      var (row', admitted) := Upsert(row, windows[last], limit);
      (row', log + [if admitted then Some(row'.value.window) else None])
  }

  /** How many requests were admitted into stored window `w`. */
  function AdmittedInto(windows: seq<int>, limit: int, w: int): nat {
    if windows == [] then 0
    else
      var last := |windows| - 1;
      AdmittedInto(windows[..last], limit, w) + (if Serve(windows, limit).1[last] == Some(w) then 1 else 0)
  }

  /** The stored counter is the number of admissions into the stored window, and no window exceeds the limit. */
  lemma {:induction false} WindowBudget(windows: seq<int>, limit: int, w: int)
    requires limit > 0
    ensures AdmittedInto(windows, limit, w) <= limit
    ensures windows != [] && w == Serve(windows, limit).0.value.window ==>
              AdmittedInto(windows, limit, w) == Serve(windows, limit).0.value.used
    ensures windows != [] && w > Serve(windows, limit).0.value.window ==> AdmittedInto(windows, limit, w) == 0
  {
    if windows != [] {
      var last := |windows| - 1;
      WindowBudget(windows[..last], limit, w);
      var (row, log) := Serve(windows[..last], limit);
      var (row', admitted) := Upsert(row, windows[last], limit);
      assert Serve(windows, limit).1[last] == if admitted then Some(row'.value.window) else None;
    }
  }

  /** An older queued request never moves the stored window back: it is the largest window seen. */
  lemma {:induction false} WindowIsLatest(windows: seq<int>, limit: int) returns (i: nat)
    requires windows != []
    ensures i < |windows| && Serve(windows, limit).0.value.window == windows[i]
    ensures forall j | 0 <= j < |windows| :: windows[j] <= windows[i]
  {
    var last := |windows| - 1;
    i := last;
    if last > 0 {
      var k := WindowIsLatest(windows[..last], limit);
      if windows[k] > windows[last] {
        i := k;
      }
    }
  }

  /**
    A request is counted in the largest window seen, its own included, and is admitted exactly when the admissions
    already counted there are below the limit.
   */
  lemma AdmittedIff(windows: seq<int>, limit: int, w: int)
    requires limit > 0 && w in windows && forall v <- windows :: v <= w
    ensures var last := |windows| - 1;
            Serve(windows, limit).1[last]
            == if AdmittedInto(windows[..last], limit, w) < limit then Some(w) else None
  {
    var last := |windows| - 1;
    var before := windows[..last];
    WindowBudget(before, limit, w);
    var k := WindowIsLatest(windows, limit);
    assert windows[k] in windows && windows[k] == w;
    if before != [] {
      var i := WindowIsLatest(before, limit);
      assert before[i] == windows[i] && windows[i] in windows;
      assert windows[last] in windows;
    }
  }

  // ---- Clock-ordered requests: any interval of one window length ----

  function WindowsOf(clocks: seq<int>, seconds: int): (w: seq<int>)
    requires seconds > 0
    ensures |w| == |clocks|
    ensures forall i :: 0 <= i < |w| ==> w[i] == clocks[i] / seconds
  {
    seq(|clocks|, i requires 0 <= i < |clocks| => clocks[i] / seconds)
  }

  ghost predicate ClockOrdered(clocks: seq<int>) {
    forall i, j :: 0 <= i <= j < |clocks| ==> clocks[i] <= clocks[j]
  }

  /** The admitted requests whose clock lies in [from, from + seconds). */
  function AdmittedDuring(clocks: seq<int>, seconds: int, limit: int, from: int): nat
    requires seconds > 0
  {
    if clocks == [] then 0
    else
      var last := |clocks| - 1;
      var log := Serve(WindowsOf(clocks, seconds), limit).1;
      AdmittedDuring(clocks[..last], seconds, limit, from)
      + (if from <= clocks[last] < from + seconds && log[last].Some? then 1 else 0)
  }

  /** With ordered clocks a request is only ever counted in its own window. */
  lemma CountedInOwnWindow(clocks: seq<int>, seconds: int, limit: int)
    requires seconds > 0 && clocks != [] && ClockOrdered(clocks)
    ensures var log := Serve(WindowsOf(clocks, seconds), limit).1;
            log[|clocks| - 1].Some? ==> log[|clocks| - 1].value == clocks[|clocks| - 1] / seconds
  {
    var windows := WindowsOf(clocks, seconds);
    var last := |clocks| - 1;
    if last > 0 {
      var i := WindowIsLatest(windows[..last], limit);
      DivMonotone(clocks[i], clocks[last], seconds);
    }
  }

  /** Any interval one window long overlaps at most two window numbers. */
  lemma IntervalSpansTwoWindows(clock: int, from: int, seconds: int)
    requires seconds > 0 && from <= clock < from + seconds
    ensures clock / seconds == from / seconds || clock / seconds == from / seconds + 1
  {
    DivMonotone(from, clock, seconds);
    DivMod(from, seconds);
    assert (from / seconds + 1) * seconds == from / seconds * seconds + seconds;
    DivUnique(from + seconds, seconds, from / seconds + 1, from % seconds);
    DivMonotone(clock, from + seconds, seconds);
  }

  lemma {:induction false} IntervalCount(clocks: seq<int>, seconds: int, limit: int, from: int)
    requires seconds > 0 && ClockOrdered(clocks)
    ensures var windows := WindowsOf(clocks, seconds);
            AdmittedDuring(clocks, seconds, limit, from)
            <= AdmittedInto(windows, limit, from / seconds) + AdmittedInto(windows, limit, from / seconds + 1)
  {
    if clocks == [] {
    } else {
      var last := |clocks| - 1;
      var windows := WindowsOf(clocks, seconds);
      IntervalCount(clocks[..last], seconds, limit, from);
      assert WindowsOf(clocks[..last], seconds) == windows[..last];
      CountedInOwnWindow(clocks, seconds, limit);
      if from <= clocks[last] < from + seconds {
        IntervalSpansTwoWindows(clocks[last], from, seconds);
      }
    }
  }

  /** The sliding bound: no interval of one window length admits more than twice the limit. */
  lemma SlidingBound(clocks: seq<int>, seconds: int, limit: int, from: int)
    requires seconds > 0 && limit > 0 && ClockOrdered(clocks)
    ensures AdmittedDuring(clocks, seconds, limit, from) <= 2 * limit
  {
    IntervalCount(clocks, seconds, limit, from);
    WindowBudget(WindowsOf(clocks, seconds), limit, from / seconds);
    WindowBudget(WindowsOf(clocks, seconds), limit, from / seconds + 1);
  }

  // ---- Reclamation ----

  datatype Budget = Budget(seconds: int, limit: int)

  /** Fixed positive budgets per row. */
  type Budgets = Key -> Budget

  ghost predicate ValidBudgets(budgets: Budgets) {
    forall k: Key :: budgets(k).seconds > 0 && budgets(k).limit > 0
  }

  /** Every public row uses windows no longer than the minute that reclamation assumes. */
  ghost predicate MinuteBudgets(budgets: Budgets) {
    forall k: Key :: IsPublic(k.0) ==> budgets(k).seconds <= RECLAIM_SECONDS
  }

  datatype Event =
    | Request(key: Key, clock: int)
    | Reclaim(clock: int, victims: set<Key>)

  /** The table after one event and the answer, if the event asked for one. */
  function Step(rows: map<Key, Row>, e: Event, budgets: Budgets): (map<Key, Row>, Option<bool>)
    requires e.Request? ==> budgets(e.key).seconds > 0
  {
    match e
    case Request(key, clock) =>
      var (row, admitted) := Upsert(Lookup(rows, key), clock / budgets(key).seconds, budgets(key).limit);
      (if row.Some? then rows[key := row.value] else rows, Some(admitted))
    case Reclaim(_, victims) => (rows - victims, None)
  }

  /** Table and answers after a run; `reclaiming` false ignores every reclamation. */
  ghost function Run(events: seq<Event>, budgets: Budgets, reclaiming: bool): (map<Key, Row>, seq<bool>)
    requires ValidBudgets(budgets)
  {
    if events == [] then (map[], [])
    else
      var e := events[|events| - 1];
      var (rows, answers) := Run(events[..|events| - 1], budgets, reclaiming);
      if e.Reclaim? && !reclaiming then (rows, answers)
      else
        var (rows', answer) := Step(rows, e, budgets);
        (rows', if answer.Some? then answers + [answer.value] else answers)
  }

  /** The windows of the requests one row saw. */
  ghost function WindowsFor(events: seq<Event>, key: Key, budgets: Budgets): seq<int>
    requires ValidBudgets(budgets)
  {
    if events == [] then []
    else
      var e := events[|events| - 1];
      var before := WindowsFor(events[..|events| - 1], key, budgets);
      if e.Request? && e.key == key then before + [e.clock / budgets(key).seconds] else before
  }

  /** Without reclamation each row answers its own requests as if there were no others. */
  lemma {:induction false} RowsAreApart(events: seq<Event>, key: Key, budgets: Budgets)
    requires ValidBudgets(budgets)
    ensures var (rows, answers) := Run(events, budgets, false);
            var (row, log) := Serve(WindowsFor(events, key, budgets), budgets(key).limit);
            && Lookup(rows, key) == row
            && (events != [] && events[|events| - 1] == Request(key, events[|events| - 1].clock) ==>
                  && |answers| > 0 && |log| > 0
                  && (answers[|answers| - 1] <==> log[|log| - 1].Some?))
  {
    if events != [] {
      var before, e := events[..|events| - 1], events[|events| - 1];
      RowsAreApart(before, key, budgets);
      if e.Request? && e.key == key {
        ServeNext(WindowsFor(before, key, budgets), e.clock / budgets(key).seconds, budgets(key).limit);
      }
    }
  }

  lemma ServeNext(windows: seq<int>, window: int, limit: int)
    ensures var (row, log) := Serve(windows, limit);
            var (row', admitted) := Upsert(row, window, limit);
            Serve(windows + [window], limit) == (row', log + [if admitted then Some(row'.value.window) else None])
  {
    assert (windows + [window])[..|windows|] == windows;
  }

  /** Event clocks never go back, and every reclamation deletes only what the statement selects. */
  ghost predicate LegalRun(events: seq<Event>, budgets: Budgets)
    requires ValidBudgets(budgets)
  {
    events == [] ||
    var last := |events| - 1;
    && LegalRun(events[..last], budgets)
    && (last > 0 ==> events[last - 1].clock <= events[last].clock)
    && (events[last].Reclaim? ==>
          Reclaimable(Run(events[..last], budgets, true).0, events[last].clock, events[last].victims))
  }

  /** The reclaimed table misses only rows whose window has passed for every later request. */
  ghost predicate Covers(kept: map<Key, Row>, full: map<Key, Row>, clock: int, budgets: Budgets)
    requires ValidBudgets(budgets)
  {
    forall k: Key ::
      Lookup(kept, k) == Lookup(full, k)
      || (k !in kept && k in full && full[k].window < clock / budgets(k).seconds)
  }

  /** A window number computed with shorter windows is never behind the minute number. */
  lemma ShorterWindowsAreAhead(clock: int, seconds: int)
    requires clock >= 0 && 0 < seconds <= RECLAIM_SECONDS
    ensures clock / RECLAIM_SECONDS <= clock / seconds
  {
    var q := clock / RECLAIM_SECONDS;
    DivMod(clock, RECLAIM_SECONDS);
    MulMonotone(seconds, RECLAIM_SECONDS, q);
    DivMonotone(q * seconds, clock, seconds);
    DivUnique(q * seconds, seconds, q, 0);
  }

  lemma {:induction false} ReclaimedRunCovers(events: seq<Event>, budgets: Budgets)
    requires ValidBudgets(budgets) && MinuteBudgets(budgets) && LegalRun(events, budgets)
    requires forall e <- events :: e.clock >= 0
    ensures Run(events, budgets, true).1 == Run(events, budgets, false).1
    ensures events == [] ==> Run(events, budgets, true).0 == Run(events, budgets, false).0 == map[]
    ensures events != [] ==> Covers(Run(events, budgets, true).0, Run(events, budgets, false).0,
                                    events[|events| - 1].clock, budgets)
  {
    if events == [] {
    } else {
      var last := |events| - 1;
      var e := events[last];
      ReclaimedRunCovers(events[..last], budgets);
      var kept, full := Run(events[..last], budgets, true).0, Run(events[..last], budgets, false).0;
      forall k: Key ensures Lookup(kept, k) == Lookup(full, k)
                            || (k !in kept && k in full && full[k].window < e.clock / budgets(k).seconds)
      {
        if last > 0 {
          DivMonotone(events[last - 1].clock, e.clock, budgets(k).seconds);
        }
      }
      assert Covers(kept, full, e.clock, budgets);
      CoversStep(kept, full, e, budgets);
    }
  }

  lemma CoversStep(kept: map<Key, Row>, full: map<Key, Row>, e: Event, budgets: Budgets)
    requires ValidBudgets(budgets) && MinuteBudgets(budgets) && e.clock >= 0
    requires Covers(kept, full, e.clock, budgets)
    requires e.Reclaim? ==> Reclaimable(kept, e.clock, e.victims)
    ensures e.Request? ==> Step(kept, e, budgets).1 == Step(full, e, budgets).1
    ensures Covers(Step(kept, e, budgets).0, if e.Request? then Step(full, e, budgets).0 else full, e.clock, budgets)
  {
    match e
    case Request(key, clock) =>
      assert Lookup(kept, key) == Lookup(full, key)
             || (key !in kept && key in full && full[key].window < clock / budgets(key).seconds);
    case Reclaim(clock, victims) =>
      forall k <- victims ensures k in full && full[k].window < clock / budgets(k).seconds {
        assert Lookup(kept, k) == Lookup(full, k);
        ShorterWindowsAreAhead(clock, budgets(k).seconds);
      }
  }

  /**
    When public windows are at most a minute long, reclamation is invisible:
    every answer of every clock-ordered run is the one a table that never
    reclaims would give.
  */
  lemma ReclaimInvisible(events: seq<Event>, budgets: Budgets)
    requires ValidBudgets(budgets) && MinuteBudgets(budgets) && LegalRun(events, budgets)
    requires forall e <- events :: e.clock >= 0
    ensures Run(events, budgets, true).1 == Run(events, budgets, false).1
  {
    ReclaimedRunCovers(events, budgets);
  }

  ghost function Fill(key: Key, clock: int, n: nat): (events: seq<Event>)
    ensures |events| == n && forall i :: 0 <= i < n ==> events[i] == Request(key, clock)
  {
    if n == 0 then [] else Fill(key, clock, n - 1) + [Request(key, clock)]
  }

  lemma {:induction false} FillRun(key: Key, clock: int, n: nat, budgets: Budgets, reclaiming: bool)
    requires ValidBudgets(budgets) && n <= budgets(key).limit
    ensures LegalRun(Fill(key, clock, n), budgets)
    ensures Run(Fill(key, clock, n), budgets, reclaiming).0
         == if n == 0 then map[] else map[key := Row(clock / budgets(key).seconds, n)]
  {
    if n > 0 {
      var fill := Fill(key, clock, n);
      FillRun(key, clock, n - 1, budgets, reclaiming);
      assert fill[..|fill| - 1] == Fill(key, clock, n - 1);
    }
  }

  lemma {:induction false} SameAnswerCount(events: seq<Event>, budgets: Budgets)
    requires ValidBudgets(budgets)
    ensures |Run(events, budgets, true).1| == |Run(events, budgets, false).1|
  {
    if events != [] {
      SameAnswerCount(events[..|events| - 1], budgets);
    }
  }

  /** A run that fills a window, reclaims its row while the window is still open, and asks once more. */
  ghost function Overrun(key: Key, budget: Budget): seq<Event>
    requires budget.limit > 0
  {
    var clock := RECLAIM_SECONDS * budget.seconds;
    Fill(key, clock, budget.limit) + [Reclaim(clock, {key})] + [Request(key, clock)]
  }

  lemma RunSnoc(events: seq<Event>, e: Event, budgets: Budgets, reclaiming: bool)
    requires ValidBudgets(budgets) && (e.Reclaim? ==> reclaiming)
    ensures var (rows, answers) := Run(events, budgets, reclaiming);
            var (rows', answer) := Step(rows, e, budgets);
            Run(events + [e], budgets, reclaiming)
            == (rows', if answer.Some? then answers + [answer.value] else answers)
  {
    assert (events + [e])[..|events|] == events;
  }

  lemma RunIgnoring(events: seq<Event>, e: Event, budgets: Budgets)
    requires ValidBudgets(budgets) && e.Reclaim?
    ensures Run(events + [e], budgets, false) == Run(events, budgets, false)
  {
    assert (events + [e])[..|events|] == events;
  }

  lemma LegalSnoc(events: seq<Event>, e: Event, budgets: Budgets)
    requires ValidBudgets(budgets)
    ensures LegalRun(events + [e], budgets) <==>
            && LegalRun(events, budgets)
            && (events != [] ==> events[|events| - 1].clock <= e.clock)
            && (e.Reclaim? ==> Reclaimable(Run(events, budgets, true).0, e.clock, e.victims))
  {
    assert (events + [e])[..|events|] == events;
  }

  /** A full window, its row reclaimed while the window is still open. */
  ghost predicate OverrunSetting(key: Key, fill: seq<Event>, reclaim: Event, again: Event, budgets: Budgets)
    requires ValidBudgets(budgets)
  {
    && LegalRun(fill, budgets) && fill != [] && IsPublic(key.0)
    && reclaim.Reclaim? && reclaim.victims == {key} && again.Request? && again.key == key
    && fill[|fill| - 1].clock <= reclaim.clock == again.clock
    && var window := again.clock / budgets(key).seconds;
       && Run(fill, budgets, true).0 == Run(fill, budgets, false).0 == map[key := Row(window, budgets(key).limit)]
       && window < reclaim.clock / RECLAIM_SECONDS
  }

  lemma OverrunLegal(key: Key, fill: seq<Event>, reclaim: Event, again: Event, budgets: Budgets)
    requires ValidBudgets(budgets) && OverrunSetting(key, fill, reclaim, again, budgets)
    ensures LegalRun(fill + [reclaim] + [again], budgets)
  {
    LegalSnoc(fill, reclaim, budgets);
    LegalSnoc(fill + [reclaim], again, budgets);
  }

  lemma OverrunReclaimed(key: Key, fill: seq<Event>, reclaim: Event, again: Event, budgets: Budgets)
    requires ValidBudgets(budgets) && OverrunSetting(key, fill, reclaim, again, budgets)
    ensures Run(fill + [reclaim] + [again], budgets, true).1 == Run(fill, budgets, true).1 + [true]
  {
    RunSnoc(fill, reclaim, budgets, true);
    RunSnoc(fill + [reclaim], again, budgets, true);
    assert Run(fill + [reclaim], budgets, true).0 == map[];
  }

  lemma OverrunKept(key: Key, fill: seq<Event>, reclaim: Event, again: Event, budgets: Budgets)
    requires ValidBudgets(budgets) && OverrunSetting(key, fill, reclaim, again, budgets)
    ensures Run(fill + [reclaim] + [again], budgets, false).1 == Run(fill, budgets, false).1 + [false]
  {
    RunIgnoring(fill, reclaim, budgets);
    RunSnoc(fill + [reclaim], again, budgets, false);
  }

  lemma OverrunAnswers(key: Key, fill: seq<Event>, reclaim: Event, again: Event, budgets: Budgets)
    requires ValidBudgets(budgets) && OverrunSetting(key, fill, reclaim, again, budgets)
    ensures Run(fill + [reclaim] + [again], budgets, true).1 != Run(fill + [reclaim] + [again], budgets, false).1
  {
    OverrunReclaimed(key, fill, reclaim, again, budgets);
    OverrunKept(key, fill, reclaim, again, budgets);
    SameAnswerCount(fill, budgets);
    var n := |Run(fill, budgets, true).1|;
    assert Run(fill + [reclaim] + [again], budgets, true).1[n] != Run(fill + [reclaim] + [again], budgets, false).1[n];
  }

  /** The clock of that run is in window 60 of the row and in minute `seconds`. */
  lemma OverrunClock(seconds: int)
    requires seconds > 0
    ensures RECLAIM_SECONDS * seconds / seconds == RECLAIM_SECONDS
    ensures RECLAIM_SECONDS * seconds / RECLAIM_SECONDS == seconds
  {
    DivUnique(RECLAIM_SECONDS * seconds, seconds, RECLAIM_SECONDS, 0);
    DivUnique(RECLAIM_SECONDS * seconds, RECLAIM_SECONDS, seconds, 0);
  }

  lemma OverrunReady(key: Key, budgets: Budgets, clock: int)
    requires ValidBudgets(budgets) && IsPublic(key.0)
    requires clock / budgets(key).seconds < clock / RECLAIM_SECONDS
    ensures OverrunSetting(key, Fill(key, clock, budgets(key).limit), Reclaim(clock, {key}), Request(key, clock),
                           budgets)
  {
    FillRun(key, clock, budgets(key).limit, budgets, true);
    FillRun(key, clock, budgets(key).limit, budgets, false);
  }

  /** With a public window longer than a minute there is a clock-ordered run whose answers reclamation changes. */
  lemma ReclaimVisible(key: Key, budgets: Budgets)
    requires ValidBudgets(budgets)
    requires IsPublic(key.0) && budgets(key).seconds > RECLAIM_SECONDS
    ensures var events := Overrun(key, budgets(key));
            && LegalRun(events, budgets)
            && (forall e <- events :: e.clock >= 0)
            && Run(events, budgets, true).1 != Run(events, budgets, false).1
  {
    var clock := RECLAIM_SECONDS * budgets(key).seconds;
    var fill, reclaim, again := Fill(key, clock, budgets(key).limit), Reclaim(clock, {key}), Request(key, clock);
    OverrunClock(budgets(key).seconds);
    OverrunReady(key, budgets, clock);
    OverrunLegal(key, fill, reclaim, again, budgets);
    OverrunAnswers(key, fill, reclaim, again, budgets);
  }

  /** Exactly when reclamation is invisible on every clock-ordered run. */
  lemma ReclaimInvisibleIff(budgets: Budgets)
    requires ValidBudgets(budgets)
    ensures MinuteBudgets(budgets) <==>
            forall events: seq<Event> | LegalRun(events, budgets) && forall e <- events :: e.clock >= 0 ::
              Run(events, budgets, true).1 == Run(events, budgets, false).1
  {
    if MinuteBudgets(budgets) {
      forall events: seq<Event> | LegalRun(events, budgets) && forall e <- events :: e.clock >= 0
        ensures Run(events, budgets, true).1 == Run(events, budgets, false).1
      {
        ReclaimInvisible(events, budgets);
      }
    } else {
      var key: Key :| IsPublic(key.0) && budgets(key).seconds > RECLAIM_SECONDS;
      ReclaimVisible(key, budgets);
    }
  }
}
