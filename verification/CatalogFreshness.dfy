/** When a request is served from the cache, by the clock and by what happened since the catalog was published. */
module CatalogFreshness {
  import opened CatalogCache
  import opened CatalogProtocol

  /** The step publishes what a discovery found: nothing moved the version since it began. */
  predicate Publishes(s: State, step: Step) {
    step.PublishResult? && s.flight.Complete? && s.flight.version == s.cache.version
  }

  /** The step makes the published catalog worthless: an invalidation, or a newer revision seen. */
  predicate Spoils(s: State, step: Step) {
    || step.Invalidate?
    || (step.Observe? && step.r < |s.requests| && s.requests[step.r].Queried?
        && s.requests[step.r].revision > s.cache.revision)
  }

  /** Between the two steps nothing was published and nothing spoiled what was. */
  ghost predicate Untouched(states: seq<State>, steps: seq<Step>, k: int, j: int) {
    forall i | k < i < j && 0 <= i < |steps| && i < |states| ::
      !Publishes(states[i], steps[i]) && !Spoils(states[i], steps[i])
  }

  /** At step `j` the catalog that step `k` published is not yet five seconds old, and still stands. */
  ghost predicate FreshFrom(states: seq<State>, steps: seq<Step>, k: nat, j: nat, catalog: seq<Binding>) {
    && k < j < |states| && k < |steps|
    && Publishes(states[k], steps[k]) && states[k].flight.result == catalog
    && states[j].now < states[k].now + 5000
    && Untouched(states, steps, k, j)
  }

  // ---- The cache remembers its publication ----

  /** What the cache holds comes from step `k`. */
  ghost predicate FromStep(states: seq<State>, steps: seq<Step>, n: nat, k: nat) {
    && k < n < |states| && k < |steps| && Publishes(states[k], steps[k]) && Untouched(states, steps, k, n)
    && states[n].cache.catalog == states[k].flight.result && states[n].cache.until == states[k].now + 5000
  }

  ghost predicate Remembers(states: seq<State>, steps: seq<Step>, n: nat)
    requires n < |states|
  {
    states[n].cache.until > 0 ==> exists k: nat :: FromStep(states, steps, n, k)
  }

  lemma PublishedNow(s: State, step: Step)
    requires s.history != [] && Enabled(s, step) && Publishes(s, step)
    ensures Next(s, step).cache.catalog == s.flight.result && Next(s, step).cache.until == s.now + 5000
  {}

  /** Any other step keeps what the cache holds, unless it spoils it. */
  lemma CacheStays(s: State, step: Step)
    requires s.history != [] && Enabled(s, step) && !Publishes(s, step)
    ensures var c := Next(s, step).cache;
            if Spoils(s, step) then c.until == 0 else c.until == s.cache.until && c.catalog == s.cache.catalog
  {}

  lemma LongerUntouched(states: seq<State>, steps: seq<Step>, k: nat, n: nat)
    requires n < |steps| && n < |states| && Untouched(states, steps, k, n)
    requires !Publishes(states[n], steps[n]) && !Spoils(states[n], steps[n])
    ensures Untouched(states, steps, k, n + 1)
  {}

  lemma StepAt(states: seq<State>, steps: seq<Step>, n: nat)
    requires Exec(states, steps) && n < |steps|
    ensures n + 1 < |states| && states[n].history != [] && Enabled(states[n], steps[n])
    ensures states[n + 1] == Next(states[n], steps[n])
  {}

  lemma StartsEmpty(states: seq<State>, steps: seq<Step>)
    requires Exec(states, steps)
    ensures states[0].cache.until == 0
  {}

  lemma {:induction false} CacheRemembers(states: seq<State>, steps: seq<Step>, n: nat)
    requires Exec(states, steps) && n < |states|
    ensures Remembers(states, steps, n)
  {
    hide Exec, Enabled, Next, Publishes, Spoils, Untouched;
    if n == 0 {
      StartsEmpty(states, steps);
    } else {
      LengthsOf(states, steps);
      CacheRemembers(states, steps, n - 1);
      StepRemembers(states, steps, n - 1);
    }
  }

  lemma LengthsOf(states: seq<State>, steps: seq<Step>)
    requires Exec(states, steps)
    ensures |states| == |steps| + 1
  {}

  lemma StepRemembers(states: seq<State>, steps: seq<Step>, n: nat)
    requires Exec(states, steps) && n + 1 < |states| && Remembers(states, steps, n)
    ensures Remembers(states, steps, n + 1)
  {
    hide Exec, Enabled, Next, Publishes, Spoils;
    LengthsOf(states, steps);
    StepAt(states, steps, n);
    if Publishes(states[n], steps[n]) {
      PublishedNow(states[n], steps[n]);
      assert FromStep(states, steps, n + 1, n);
    } else {
      CacheStays(states[n], steps[n]);
      if !Spoils(states[n], steps[n]) && states[n].cache.until > 0 {
        var k: nat :| FromStep(states, steps, n, k);
        LongerUntouched(states, steps, k, n);
        assert FromStep(states, steps, n + 1, k);
      }
    }
  }

  /** And the other way round: what was published stands as long as nothing touches it. */
  lemma {:induction false} StandsUntouched(states: seq<State>, steps: seq<Step>, k: nat, n: nat)
    requires Exec(states, steps) && k < n < |states| && k < |steps|
    requires Publishes(states[k], steps[k]) && Untouched(states, steps, k, n)
    ensures FromStep(states, steps, n, k)
  {
    hide Exec, Enabled, Next, Publishes, Spoils;
    LengthsOf(states, steps);
    StepAt(states, steps, n - 1);
    if n == k + 1 {
      PublishedNow(states[k], steps[k]);
    } else {
      assert Untouched(states, steps, k, n - 1);
      StandsUntouched(states, steps, k, n - 1);
      CacheStays(states[n - 1], steps[n - 1]);
    }
  }

  // ---- Serving ----

  lemma CheckServes(s: State, r: nat)
    requires s.history != [] && Enabled(s, Check(r))
    ensures var q := Next(s, Check(r)).requests[r];
            if s.now < s.cache.until then q == Served(s.requests[r].observed, s.cache.catalog, |s.history|)
            else q == Missed(s.requests[r].observed)
  {}

  /**
    On every run a request that looks is served a catalog exactly if a discovery published that catalog less than
    five seconds before, by the clock, with no newer publication, no invalidation and no newer revision seen since.
    Otherwise it misses, and goes on to a discovery.
   */
  lemma ServedWhileFresh(states: seq<State>, steps: seq<Step>, j: nat, r: nat, catalog: seq<Binding>)
    requires Exec(states, steps) && j < |steps| && steps[j] == Check(r)
    ensures r < |states[j].requests| && r < |states[j + 1].requests| && states[j].requests[r].Looking?
    ensures var asked, told := states[j].requests[r], states[j + 1].requests[r];
            && (told == Served(asked.observed, catalog, |states[j].history|)
                <==> exists k: nat :: FreshFrom(states, steps, k, j, catalog))
            && (told.Served? || told == Missed(asked.observed))
  {
    hide Exec, Enabled, Next, Publishes, Spoils, Untouched;
    LookingAt(states, steps, j, r);
    StepAt(states, steps, j);
    CheckServes(states[j], r);
    FreshIff(states, steps, j, catalog);
  }

  lemma LookingAt(states: seq<State>, steps: seq<Step>, j: nat, r: nat)
    requires Exec(states, steps) && j < |steps| && steps[j] == Check(r)
    ensures j + 1 < |states| && r < |states[j].requests| == |states[j + 1].requests| && states[j].requests[r].Looking?
  {}

  lemma FreshIff(states: seq<State>, steps: seq<Step>, j: nat, catalog: seq<Binding>)
    requires Exec(states, steps) && j < |steps|
    ensures j < |states|
    ensures states[j].now < states[j].cache.until && states[j].cache.catalog == catalog
            <==> exists k: nat :: FreshFrom(states, steps, k, j, catalog)
  {
    hide Exec, Enabled, Next, Publishes, Spoils, Untouched;
    LengthsOf(states, steps);
    CacheRemembers(states, steps, j);
    if states[j].now < states[j].cache.until && states[j].cache.catalog == catalog {
      var k: nat :| FromStep(states, steps, j, k);
      assert FreshFrom(states, steps, k, j, catalog);
    }
    if k: nat :| FreshFrom(states, steps, k, j, catalog) {
      StandsUntouched(states, steps, k, j);
    }
  }

  /** Nothing is served in any other way. */
  lemma OnlyChecksServe(states: seq<State>, steps: seq<Step>, j: nat, r: nat)
    requires Exec(states, steps) && j < |steps|
    requires r < |states[j + 1].requests| && states[j + 1].requests[r].Served?
    ensures (r < |states[j].requests| && states[j + 1].requests[r] == states[j].requests[r]) || steps[j] == Check(r)
  {}

  /** A discovery that begins goes to the table exactly if no fresh catalog stands; otherwise it ends at once. */
  lemma DiscoveryStartsIff(states: seq<State>, steps: seq<Step>, j: nat)
    requires Exec(states, steps) && j < |steps| && steps[j].BeginDiscovery?
    ensures var flight := states[j + 1].flight;
            if exists k: nat, catalog :: FreshFrom(states, steps, k, j, catalog) then flight == NoFlight
            else flight == Reading(states[j].cache.version, states[j].cache.revision, 0, [])
  {
    hide Exec, Enabled, Next, Publishes, Spoils, Untouched;
    StepAt(states, steps, j);
    Begins(states[j]);
    FreshIff(states, steps, j, states[j].cache.catalog);
    if k: nat, catalog :| FreshFrom(states, steps, k, j, catalog) { FreshIff(states, steps, j, catalog); }
  }

  lemma Begins(s: State)
    requires s.history != [] && Enabled(s, BeginDiscovery)
    ensures Next(s, BeginDiscovery).flight
         == if s.now < s.cache.until then NoFlight else Reading(s.cache.version, s.cache.revision, 0, [])
  {}
}
