/**
  Concurrent requests, one discovery flight at a time, configuration commits,
  invalidations and expiry around the catalog cache. Each section under the
  gateway's lock, each query and each commit is one step.
*/
module CatalogProtocol {
  import opened Wrappers
  import opened ToolNames
  import opened CatalogCache

  /** The shared discovery of singleflight: at most one exists. */
  datatype Flight =
    | NoFlight
    | Launched
    | Reading(version: nat, revision: nat, after: nat, result: seq<Binding>)
    | Complete(version: nat, revision: nat, result: seq<Binding>)

  datatype Request =
    | Entering
    | Queried(revision: nat)
    | Looking(observed: nat)
    | Missed(observed: nat)
    | Waiting(observed: nat)
    | Served(observed: nat, catalog: seq<Binding>, at: nat)
    | Failed

  /** `history[k]` is the table after revision k + 1, so the current revision is its length. */
  datatype State = State(history: seq<seq<Row>>, cache: Cache, now: nat, flight: Flight, requests: seq<Request>)

  datatype Step =
    | Commit(table: seq<Row>)
    | Invalidate
    | Tick(now: nat)
    | Arrive
    | QueryRevision(r: nat)
    | Observe(r: nat)
    | Check(r: nat)
    | Join(r: nat)
    | Wake(r: nat)
    | Abort(r: nat)
    | BeginDiscovery
    | ReadPage(found: Discovery)
    | PublishResult
    | FlightFails

  /** What the schema and the administration handlers guarantee of a table. */
  ghost predicate ValidTable(table: seq<Row>) {
    && Ordered(table) && (forall row <- table :: row.id > 0)
    && (forall i, j | 0 <= i < j < |table| :: table[i].key != table[j].key)
    && (forall row <- table | row.builtin :: FirstSeparator(row.key).None?)
  }

  /** A provider's answer is checked to name each tool once. */
  ghost predicate ValidDiscovery(found: Discovery) {
    forall id <- found :: Distinct(found[id])
  }

  ghost predicate Enabled(s: State, step: Step) {
    match step
    case Commit(table) => ValidTable(table)
    case Tick(now) => now >= s.now
    case QueryRevision(r) => r < |s.requests| && s.requests[r].Entering?
    case Observe(r) => r < |s.requests| && s.requests[r].Queried?
    case Check(r) => r < |s.requests| && s.requests[r].Looking?
    case Join(r) => r < |s.requests| && s.requests[r].Missed?
    case Wake(r) => r < |s.requests| && s.requests[r].Waiting?
    case Abort(r) => r < |s.requests| && !s.requests[r].Served?
    case BeginDiscovery => s.flight.Launched?
    case ReadPage(found) => s.flight.Reading? && ValidDiscovery(found)
    case PublishResult => s.flight.Complete?
    case FlightFails => !s.flight.NoFlight?
    case _ => true
  }

  /** One page into the flight; an empty page ends it and a name already taken fails it. */
  function Advance(flight: Flight, table: seq<Row>, revision: nat, found: Discovery): Flight
    requires flight.Reading?
  {
    var page := Page(table, flight.after);
    if page == [] then Complete(flight.version, flight.revision, flight.result)
    else
      var result := flight.result + PageBindings(page, found, revision);
      if NamesDistinct(result) then flight.(after := page[|page| - 1].id, result := result) else NoFlight
  }

  predicate NamesDistinct(bindings: seq<Binding>) {
    forall i, j | 0 <= i < j < |bindings| :: PublicName(bindings[i]) != PublicName(bindings[j])
  }

  /** The test the flight's name map makes. */
  lemma NamesDistinctExact(bindings: seq<Binding>)
    ensures NamesDistinct(bindings) <==> Distinct(Names(bindings))
  {
    var names := Names(bindings);
    forall i, j | 0 <= i < j < |bindings|
      ensures names[i] == PublicName(bindings[i]) && names[j] == PublicName(bindings[j])
    {}
  }

  function Next(s: State, step: Step): State
    requires s.history != []
    requires (step.QueryRevision? || step.Observe? || step.Check? || step.Join? || step.Wake? || step.Abort?)
        ==> step.r < |s.requests|
    requires step.Observe? ==> s.requests[step.r].Queried?
    requires step.Check? ==> s.requests[step.r].Looking?
    requires step.Join? ==> s.requests[step.r].Missed?
    requires step.Wake? ==> s.requests[step.r].Waiting?
    requires step.ReadPage? ==> s.flight.Reading?
    requires step.PublishResult? ==> s.flight.Complete?
  {
    match step
    case Commit(table) => s.(history := s.history + [table])
    case Invalidate => s.(cache := Invalidated(s.cache))
    case Tick(now) => s.(now := now)
    case Arrive => s.(requests := s.requests + [Entering])
    case QueryRevision(r) => s.(requests := s.requests[r := Queried(|s.history|)])
    case Observe(r) =>
      var revision := s.requests[r].revision;
      s.(cache := Observed(s.cache, revision), requests := s.requests[r := Looking(revision)])
    case Check(r) =>
      var observed := s.requests[r].observed;
      (match Lookup(s.cache, s.now)
       case Some(catalog) => s.(requests := s.requests[r := Served(observed, catalog, |s.history|)])
       case None => s.(requests := s.requests[r := Missed(observed)]))
    case Join(r) =>
      s.(flight := if s.flight.NoFlight? then Launched else s.flight,
         requests := s.requests[r := Waiting(s.requests[r].observed)])
    case Wake(r) => s.(requests := s.requests[r := Looking(s.requests[r].observed)])
    case Abort(r) => s.(requests := s.requests[r := Failed])
    case BeginDiscovery =>
      s.(flight := if Lookup(s.cache, s.now).Some? then NoFlight else Reading(s.cache.version, s.cache.revision, 0, []))
    case ReadPage(found) => s.(flight := Advance(s.flight, s.history[|s.history| - 1], |s.history|, found))
    case PublishResult =>
      s.(cache := Published(s.cache, s.flight.version, s.flight.result, s.now), flight := NoFlight)
    case FlightFails => s.(flight := NoFlight)
  }

  ghost predicate Initial(s: State) {
    && |s.history| == 1 && ValidTable(s.history[0])
    && s.cache == Cache(0, 0, 0, []) && s.flight.NoFlight? && s.requests == []
  }

  // ---- Runs ----

  ghost predicate Exec(states: seq<State>, steps: seq<Step>) {
    && |states| == |steps| + 1 && Initial(states[0])
    && forall i | 0 <= i < |steps| ::
         states[i].history != [] && Enabled(states[i], steps[i]) && states[i + 1] == Next(states[i], steps[i])
  }

  // ---- The invariant ----

  /** Read at a revision no older than `since`, from the table of that revision. */
  ghost predicate ReadSince(b: Binding, history: seq<seq<Row>>, since: nat) {
    since <= b.readAt <= |history| && b.readAt > 0 && b.row in history[b.readAt - 1]
    && (b.row.builtin <==> b.tool.None?) && (b.row.builtin ==> b.row.schemaOk)
  }

  ghost predicate AllRead(bindings: seq<Binding>, history: seq<seq<Row>>, since: nat) {
    forall b <- bindings :: ReadSince(b, history, since)
  }

  /** The row is in every table from revision `since` on. */
  ghost predicate Steady(row: Row, history: seq<seq<Row>>, since: nat) {
    forall k | 0 <= k < |history| && k + 1 >= since :: row in history[k]
  }

  ghost predicate Includes(bindings: seq<Binding>, row: Row) {
    exists b <- bindings :: b.row == row
  }

  /** Every valid builtin row with an id up to `after` that no commit since touched is there. */
  ghost predicate CoversTo(bindings: seq<Binding>, history: seq<seq<Row>>, since: nat, after: nat) {
    forall row: Row | row.builtin && row.schemaOk && row.id <= after && Steady(row, history, since) ::
      Includes(bindings, row)
  }

  ghost predicate Covers(bindings: seq<Binding>, history: seq<seq<Row>>, since: nat) {
    forall row: Row | row.builtin && row.schemaOk && Steady(row, history, since) :: Includes(bindings, row)
  }

  ghost predicate HistoryOk(s: State) {
    s.history != [] && forall k | 0 <= k < |s.history| :: ValidTable(s.history[k])
  }

  /** A catalog that may be served agrees with the database as of the cache's own revision. */
  ghost predicate CacheOk(s: State) {
    && s.cache.revision <= |s.history|
    && (s.cache.until > 0
        ==> AllRead(s.cache.catalog, s.history, s.cache.revision)
            && Covers(s.cache.catalog, s.history, s.cache.revision))
  }

  ghost predicate Current(s: State, version: nat, revision: nat) {
    version <= s.cache.version && revision <= s.cache.revision
        && (version == s.cache.version ==> revision == s.cache.revision)
  }

  ghost predicate FlightOk(s: State) {
    match s.flight
    case Reading(version, revision, after, result) =>
      Current(s, version, revision) && AllRead(result, s.history, revision)
          && CoversTo(result, s.history, revision, after)
    case Complete(version, revision, result) =>
      Current(s, version, revision) && AllRead(result, s.history, revision) && Covers(result, s.history, revision)
    case _ => true
  }

  ghost predicate RequestOk(q: Request, s: State) {
    match q
    case Queried(revision) => revision <= |s.history|
    case Looking(observed) => observed <= s.cache.revision
    case Missed(observed) => observed <= s.cache.revision
    case Waiting(observed) => observed <= s.cache.revision
    case Served(observed, catalog, at) =>
      at <= |s.history| && AllRead(catalog, s.history[..at], observed) && Covers(catalog, s.history[..at], observed)
    case _ => true
  }

  ghost predicate RequestsOk(s: State) {
    forall r | 0 <= r < |s.requests| :: RequestOk(s.requests[r], s)
  }

  ghost predicate Inv(s: State) {
    HistoryOk(s) && CacheOk(s) && FlightOk(s) && RequestsOk(s)
  }
}
