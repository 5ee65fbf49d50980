/** What requests can rely on. */
module CatalogTheorems {
  import opened Wrappers
  import opened CatalogCache
  import opened CatalogProtocol
  import opened CatalogProofs

  // ---- The revision a request observed on entry stays with it ----

  function ObservedBy(q: Request): Option<nat> {
    match q
    case Queried(revision) => Some(revision)
    case Looking(observed) => Some(observed)
    case Missed(observed) => Some(observed)
    case Waiting(observed) => Some(observed)
    case Served(observed, _, _) => Some(observed)
    case _ => None
  }

  lemma StepKeepsObserved(s: State, step: Step, r: nat)
    requires s.history != [] && Enabled(s, step) && r < |s.requests| && !s.requests[r].Entering?
    ensures var t := Next(s, step);
            r < |t.requests| && !t.requests[r].Entering?
            && (t.requests[r].Failed? || ObservedBy(t.requests[r]) == ObservedBy(s.requests[r]))
    ensures s.requests[r].Failed? ==> Next(s, step).requests[r].Failed?
    ensures s.history <= Next(s, step).history
  {}

  lemma {:induction false} ObservedOnEntry(states: seq<State>, steps: seq<Step>, i: nat, n: nat, r: nat)
    requires Exec(states, steps) && i < n < |states| && steps[i] == QueryRevision(r)
    ensures r < |states[n].requests| && !states[n].requests[r].Entering?
    ensures states[n].requests[r].Failed? || ObservedBy(states[n].requests[r]) == Some(|states[i].history|)
    ensures states[i].history <= states[n].history
  {
    if n == i + 1 {
    } else {
      ObservedOnEntry(states, steps, i, n - 1, r);
      StepKeepsObserved(states[n - 1], steps[n - 1], r);
    }
  }

  /**
    Whatever commits, invalidations, expiries, other requests and discoveries
    run in between: every row a request is served was read no earlier than the
    revision the request saw on entry, from the table of that revision; and every
    valid builtin row that no commit touched since then is served.
   */
  lemma ServedSinceEntry(states: seq<State>, steps: seq<Step>, i: nat, n: nat, r: nat)
    requires Exec(states, steps) && i < n < |states| && steps[i] == QueryRevision(r)
    requires r < |states[n].requests| && states[n].requests[r].Served?
    ensures var entry, q := |states[i].history|, states[n].requests[r];
            && entry == q.observed && q.at <= |states[n].history|
            && (forall b <- q.catalog ::
                  entry <= b.readAt <= q.at && b.readAt > 0 && b.row in states[n].history[b.readAt - 1])
            && Covers(q.catalog, states[n].history[..q.at], entry)
  {
    ObservedOnEntry(states, steps, i, n, r);
    ExecKept(states, steps, n);
    var q := states[n].requests[r];
    assert RequestOk(q, states[n]);
    forall b | b in q.catalog
      ensures q.observed <= b.readAt <= q.at && b.readAt > 0 && b.row in states[n].history[b.readAt - 1]
    {
      assert ReadSince(b, states[n].history[..q.at], q.observed);
    }
  }

  /** With no commit between entry and answer, the builtin rows served are exactly the valid ones of the table. */
  lemma ServedExactly(states: seq<State>, steps: seq<Step>, i: nat, n: nat, r: nat, row: Row)
    requires Exec(states, steps) && i < n < |states| && steps[i] == QueryRevision(r)
    requires r < |states[n].requests| && states[n].requests[r].Served?
    requires states[n].requests[r].at == |states[i].history|
    requires row.builtin
    ensures states[i].history != []
    ensures Includes(states[n].requests[r].catalog, row)
        <==> row.schemaOk && row in states[i].history[|states[i].history| - 1]
  {
    ServedSinceEntry(states, steps, i, n, r);
    ObservedOnEntry(states, steps, i, n, r);
    ExecKept(states, steps, n);
    ExecKept(states, steps, i);
    var q, entry := states[n].requests[r], |states[i].history|;
    assert RequestOk(q, states[n]);
    var history := states[n].history[..q.at];
    assert history == states[i].history;
    if Includes(q.catalog, row) {
      var b :| b in q.catalog && b.row == row;
      assert ReadSince(b, history, entry);
    }
    if row.schemaOk && row in history[entry - 1] {
      assert Steady(row, history, entry);
    }
  }
}
