/** What a request is served, for every interleaving. */
module CatalogProofs {
  import opened Wrappers
  import opened CatalogCache
  import opened CatalogProtocol

  // ---- Facts that survive commits and weaker demands ----

  lemma ReadKept(bindings: seq<Binding>, a: seq<seq<Row>>, b: seq<seq<Row>>, since: nat, weaker: nat)
    requires AllRead(bindings, a, since) && a <= b && weaker <= since
    ensures AllRead(bindings, b, weaker)
  {
    forall x | x in bindings ensures ReadSince(x, b, weaker) {
      assert ReadSince(x, a, since);
    }
  }

  lemma CoversKept(bindings: seq<Binding>, a: seq<seq<Row>>, b: seq<seq<Row>>, since: nat, weaker: nat)
    requires Covers(bindings, a, since) && a <= b && weaker <= since
    ensures Covers(bindings, b, weaker)
  {
    forall row: Row | row.builtin && row.schemaOk && Steady(row, b, weaker) ensures Includes(bindings, row) {
      assert Steady(row, a, since) by {
        forall k | 0 <= k < |a| && k + 1 >= since ensures row in a[k] { assert b[k] == a[k]; }
      }
    }
  }

  lemma CoversToKept(bindings: seq<Binding>, a: seq<seq<Row>>, b: seq<seq<Row>>, since: nat, after: nat)
    requires CoversTo(bindings, a, since, after) && a <= b
    ensures CoversTo(bindings, b, since, after)
  {
    forall row: Row | row.builtin && row.schemaOk && row.id <= after && Steady(row, b, since)
      ensures Includes(bindings, row)
    {
      assert Steady(row, a, since) by {
        forall k | 0 <= k < |a| && k + 1 >= since ensures row in a[k] { assert b[k] == a[k]; }
      }
    }
  }

  // ---- Steps ----

  lemma CommitKept(s: State, table: seq<Row>)
    requires Inv(s) && ValidTable(table)
    ensures Inv(s.(history := s.history + [table]))
  {
    var h, h' := s.history, s.history + [table];
    var t := s.(history := h');
    if s.cache.until > 0 {
      ReadKept(s.cache.catalog, h, h', s.cache.revision, s.cache.revision);
      CoversKept(s.cache.catalog, h, h', s.cache.revision, s.cache.revision);
    }
    match s.flight {
      case Reading(version, revision, after, result) =>
        ReadKept(result, h, h', revision, revision);
        CoversToKept(result, h, h', revision, after);
      case Complete(version, revision, result) =>
        ReadKept(result, h, h', revision, revision);
        CoversKept(result, h, h', revision, revision);
      case _ =>
    }
    forall r | 0 <= r < |s.requests| ensures RequestOk(t.requests[r], t) {
      assert RequestOk(s.requests[r], s);
      if s.requests[r].Served? {
        assert h'[..s.requests[r].at] == h[..s.requests[r].at];
      }
    }
  }

  /** The lock sections that move the version: what was fresh is dropped, and older flights no longer match. */
  lemma BumpKept(s: State, cache: Cache)
    requires Inv(s) && cache.until == 0 && cache.version == s.cache.version + 1
    requires s.cache.revision <= cache.revision <= |s.history|
    ensures Inv(s.(cache := cache))
  {
    var t := s.(cache := cache);
    forall r | 0 <= r < |s.requests| ensures RequestOk(t.requests[r], t) {
      assert RequestOk(s.requests[r], s);
    }
  }

  lemma RequestKept(s: State, r: nat, q: Request)
    requires Inv(s) && r < |s.requests| && RequestOk(q, s)
    ensures Inv(s.(requests := s.requests[r := q]))
  {
    var t := s.(requests := s.requests[r := q]);
    forall i | 0 <= i < |t.requests| ensures RequestOk(t.requests[i], t) {
      assert RequestOk(s.requests[i], s);
    }
  }

  lemma FlightKept(s: State, flight: Flight)
    requires Inv(s) && FlightOk(s.(flight := flight))
    ensures Inv(s.(flight := flight))
  {
    var t := s.(flight := flight);
    forall i | 0 <= i < |t.requests| ensures RequestOk(t.requests[i], t) {
      assert RequestOk(s.requests[i], s);
    }
  }

  /** One more page keeps both promises of the flight. */
  lemma AdvanceKept(flight: Flight, history: seq<seq<Row>>, found: Discovery)
    requires flight.Reading? && history != [] && Ordered(history[|history| - 1]) && flight.revision <= |history|
    requires AllRead(flight.result, history, flight.revision)
    requires CoversTo(flight.result, history, flight.revision, flight.after)
    ensures var f := Advance(flight, history[|history| - 1], |history|, found);
            && (f.Reading?
                ==> AllRead(f.result, history, f.revision) && CoversTo(f.result, history, f.revision, f.after))
            && (f.Complete? ==> AllRead(f.result, history, f.revision) && Covers(f.result, history, f.revision))
  {
    var table := history[|history| - 1];
    var page := Page(table, flight.after);
    PageExact(table, flight.after);
    PageBindingsSound(page, found, |history|);
    var f := Advance(flight, table, |history|, found);
    if f.Reading? {
      forall b | b in f.result ensures ReadSince(b, history, f.revision) {
        if b in flight.result {
          assert ReadSince(b, history, flight.revision);
        } else {
          assert Sound(b, page, |history|);
        }
      }
    }
    forall row: Row | row.builtin && row.schemaOk && Steady(row, history, flight.revision)
      ensures f.Reading? && row.id <= f.after ==> Includes(f.result, row)
      ensures f.Complete? ==> Includes(f.result, row)
    {
      assert row in table;
      if row.id <= flight.after {
        assert Includes(flight.result, row);
        var b :| b in flight.result && b.row == row;
        assert f.Reading? ==> b in f.result;
      } else if f.Reading? && row.id <= f.after {
        assert Binding(row, None, |history|) in f.result;
      }
    }
  }

  lemma ReadPageKept(s: State, found: Discovery)
    requires Inv(s) && s.flight.Reading?
    ensures Inv(s.(flight := Advance(s.flight, s.history[|s.history| - 1], |s.history|, found)))
  {
    AdvanceKept(s.flight, s.history, found);
    FlightKept(s, Advance(s.flight, s.history[|s.history| - 1], |s.history|, found));
  }

  /** Publication is allowed only to a flight that started after the last version change. */
  lemma PublishKept(s: State)
    requires Inv(s) && s.flight.Complete?
    ensures Inv(s.(cache := Published(s.cache, s.flight.version, s.flight.result, s.now), flight := NoFlight))
  {
    var t := s.(cache := Published(s.cache, s.flight.version, s.flight.result, s.now), flight := NoFlight);
    forall r | 0 <= r < |t.requests| ensures RequestOk(t.requests[r], t) {
      assert RequestOk(s.requests[r], s);
    }
  }

  /** A lookup that hits hands out a catalog the request may have. */
  lemma CheckKept(s: State, r: nat)
    requires Inv(s) && r < |s.requests| && s.requests[r].Looking?
    ensures Inv(Next(s, Check(r)))
  {
    var observed := s.requests[r].observed;
    assert RequestOk(s.requests[r], s);
    match Lookup(s.cache, s.now) {
      case Some(catalog) =>
        assert s.history[..|s.history|] == s.history;
        ReadKept(catalog, s.history, s.history, s.cache.revision, observed);
        CoversKept(catalog, s.history, s.history, s.cache.revision, observed);
        RequestKept(s, r, Served(observed, catalog, |s.history|));
      case None => RequestKept(s, r, Missed(observed));
    }
  }

  lemma ObserveKept(s: State, r: nat)
    requires Inv(s) && r < |s.requests| && s.requests[r].Queried?
    ensures Inv(Next(s, Observe(r)))
  {
    var revision := s.requests[r].revision;
    assert RequestOk(s.requests[r], s);
    if revision > s.cache.revision {
      BumpKept(s, Observed(s.cache, revision));
    }
    RequestKept(s.(cache := Observed(s.cache, revision)), r, Looking(revision));
  }

  lemma JoinKept(s: State, r: nat)
    requires Inv(s) && r < |s.requests| && s.requests[r].Missed?
    ensures Inv(Next(s, Join(r)))
  {
    assert RequestOk(s.requests[r], s);
    var flight := if s.flight.NoFlight? then Launched else s.flight;
    FlightKept(s, flight);
    RequestKept(s.(flight := flight), r, Waiting(s.requests[r].observed));
  }

  /** Ids start at 1, so a flight that has read nothing has missed nothing. */
  lemma BeginKept(s: State)
    requires Inv(s) && s.flight.Launched?
    ensures Inv(Next(s, BeginDiscovery))
  {
    assert forall row: Row | Steady(row, s.history, s.cache.revision) :: row in s.history[|s.history| - 1];
    FlightKept(s, Next(s, BeginDiscovery).flight);
  }

  lemma TickKept(s: State, now: nat)
    requires Inv(s)
    ensures Inv(s.(now := now))
  {
    forall r | 0 <= r < |s.requests|
      ensures RequestOk(s.requests[r], s.(now := now)) { assert RequestOk(s.requests[r], s); }
  }

  lemma ArriveKept(s: State)
    requires Inv(s)
    ensures Inv(s.(requests := s.requests + [Entering]))
  {
    var t := s.(requests := s.requests + [Entering]);
    forall r | 0 <= r < |s.requests| ensures RequestOk(t.requests[r], t) { assert RequestOk(s.requests[r], s); }
  }

  lemma WakeKept(s: State, r: nat)
    requires Inv(s) && r < |s.requests| && s.requests[r].Waiting?
    ensures Inv(Next(s, Wake(r)))
  {
    assert RequestOk(s.requests[r], s);
    RequestKept(s, r, Looking(s.requests[r].observed));
  }

  lemma StepKept(s: State, step: Step)
    requires Inv(s) && Enabled(s, step)
    ensures Inv(Next(s, step))
  {
    hide HistoryOk, FlightOk, RequestsOk;
    match step
    case Commit(table) => CommitKept(s, table);
    case Invalidate => BumpKept(s, Invalidated(s.cache));
    case Tick(now) => TickKept(s, now);
    case Arrive => ArriveKept(s);
    case QueryRevision(r) => RequestKept(s, r, Queried(|s.history|));
    case Observe(r) => ObserveKept(s, r);
    case Check(r) => CheckKept(s, r);
    case Join(r) => JoinKept(s, r);
    case Wake(r) => WakeKept(s, r);
    case Abort(r) => RequestKept(s, r, Failed);
    case BeginDiscovery => BeginKept(s);
    case ReadPage(found) => ReadPageKept(s, found);
    case PublishResult => PublishKept(s);
    case FlightFails => FlightKept(s, NoFlight);
  }

  lemma {:induction false} ExecKept(states: seq<State>, steps: seq<Step>, n: nat)
    requires Exec(states, steps) && n < |states|
    ensures Inv(states[n])
  {
    if n == 0 {
      assert CoversTo([], states[0].history, 0, 0);
    } else {
      ExecKept(states, steps, n - 1);
      StepKept(states[n - 1], steps[n - 1]);
    }
  }
}
