/** What a crash can leave behind, and what the next uninterrupted run makes of it. */
module JournalTheorems {
  import opened Wrappers
  import opened ConfigJournal
  import opened JournalProofs

  /** The client file holds this value for the slot. */
  predicate HoldsAt(disk: Disk, n: Name, v: Value) {
    n.client in disk.files && disk.files[n.client].File? && n.slot in disk.files[n.client].entries
    && disk.files[n.client].entries[n.slot] == Holds(v)
  }

  predicate OwnedOn(disk: Disk, n: Name, v: Value) {
    disk.manifest.Some? && Owns(disk.manifest.value, n, v)
  }

  ghost predicate Targets(job: Job, n: Name) {
    IsTarget(job, job.clients, n)
  }

  /** What the job wants the name to hold. */
  predicate Wants(job: Job, n: Name, v: Value) {
    !job.remove && v == Entry(job.wanted(n.client))
  }

  // ---- The journal ----

  /** The journal owns the old version and the new one. */
  lemma JournalOwnsBoth(previous: Manifest, next: Manifest, n: Name, v: Value)
    requires v.Entry?
    ensures Owns(previous, n, v) ==> Owns(Journal(previous, next), n, v)
    ensures n in next && next[n] == v ==> Owns(Journal(previous, next), n, v)
  {
    if n in next {
      var versions := Versions(previous, n);
      if v == next[n] && v !in versions {
        assert v in versions + [v];
      }
      if Owns(previous, n, v) {
        assert v in versions;
        assert v in versions + [next[n]];
      }
    }
  }

  /**
    Exactly which owned values the journal still owns: all but an array that is the record itself, when the record
    changes to an entry which that array does not list.
   */
  lemma JournalOwnsIff(previous: Manifest, next: Manifest, n: Name, v: Value)
    requires Owns(previous, n, v) && (n in next ==> next[n].Entry?)
    ensures Owns(Journal(previous, next), n, v)
            <==> v in Versions(previous, n) || n !in next || next[n] in Versions(previous, n)
  {
    if n in next {
      var versions := Versions(previous, n);
      assert next[n] !in versions ==> |versions + [next[n]]| == |versions| + 1;
      assert v in versions + [next[n]] <==> v in versions || v == next[n];
    }
  }

  /** It records nothing else. */
  lemma JournalRecordsOnlyBoth(previous: Manifest, next: Manifest, n: Name, v: Value)
    requires v in Versions(Journal(previous, next), n)
    ensures v in Versions(previous, n) || (n in next && v in Versions(next, n)) || (n in next && v == next[n])
  {}

  // ---- One interrupted run ----

  /** The state of an interrupted run that got past its planning. */
  lemma RunReached(disk: Disk, job: Job, k: nat) returns (plan: Plan, j: nat)
    requires Prepare(disk, job).Success?
    ensures disk.manifest.Some? && plan == Prepare(disk, job).value
    ensures PlanOk(disk.manifest.value, disk, Dedupe(job.clients), job, plan)
    ensures Reached(disk, disk.manifest.value, plan, Interrupted(disk, job, k), j)
    ensures k >= |Writes(disk.manifest.value, plan)| ==>
              j == |plan.updates| && Interrupted(disk, job, k) == Completed(disk, job)
              && Completed(disk, job).manifest == Some(plan.manifest)
  {
    plan := Prepare(disk, job).value;
    DedupeExact(job.clients);
    PlanShape(disk.manifest.value, disk, Dedupe(job.clients), job);
    var writes := Writes(disk.manifest.value, plan);
    var m := if k < |writes| then k else |writes|;
    assert writes[..|writes|] == writes;
    j := PrefixReached(disk, disk.manifest.value, plan, m);
  }

  /** A complete rewrite: the slot holds exactly what is wanted, everything else is as it was. */
  ghost predicate Rewrites(prior: Option<File>, next: File, job: Job, c: ClientKind)
    requires next.File?
  {
    && (prior.Some? ==> prior.value.File?)
    && next.foreign == (if prior.Some? then prior.value.foreign else NO_FOREIGN)
    && (var entries := if prior.Some? then prior.value.entries else map[];
        && (forall s | s != job.slot :: if s in entries then s in next.entries && next.entries[s] == entries[s]
            else s !in next.entries)
        && (if job.remove then job.slot !in next.entries
            else job.slot in next.entries && next.entries[job.slot] == Holds(Entry(job.wanted(c)))))
  }

  lemma RewrittenExact(manifest: Manifest, c: ClientKind, prior: Option<File>, job: Job)
    requires Rewritten(manifest, c, prior, job).Success?
    ensures var next := Rewritten(manifest, c, prior, job).value;
            next.File? && Rewrites(prior, next, job, c)
    ensures forall v | prior.Some? && job.slot in prior.value.entries && prior.value.entries[job.slot] == Holds(v) ::
              Owns(manifest, Name(c, job.slot), v)
  {}

  /** Old or new, one client at a time; at the end of the plan it is the new one. */
  lemma RunFile(disk: Disk, job: Job, k: nat, c: ClientKind)
    requires Prepare(disk, job).Success?
    ensures disk.manifest.Some?
    ensures var after, r := Interrupted(disk, job, k), Rewritten(disk.manifest.value, c, FileOf(disk, c), job);
            FileOf(after, c) == FileOf(disk, c) || (c in job.clients && r.Success? && FileOf(after, c) == Some(r.value))
  {
    var plan, j := RunReached(disk, job, k);
    DedupeExact(job.clients);
    FileOldOrNew(disk.manifest.value, disk, Dedupe(job.clients), job, plan, Interrupted(disk, job, k), j, c);
  }

  /**
    Wherever a run is cut off, each client file is wholly the old one or wholly
    the planned one; the planned one keeps foreign content and all other slots.
   */
  lemma FilesWhole(disk: Disk, job: Job, k: nat, c: ClientKind)
    ensures var after := Interrupted(disk, job, k);
            FileOf(after, c) == FileOf(disk, c)
            || (c in job.clients && FileOf(after, c).Some? && FileOf(after, c).value.File?
                && Rewrites(FileOf(disk, c), FileOf(after, c).value, job, c))
  {
    if Prepare(disk, job).Success? {
      RunFile(disk, job, k, c);
      if Rewritten(disk.manifest.value, c, FileOf(disk, c), job).Success? {
        RewrittenExact(disk.manifest.value, c, FileOf(disk, c), job);
      }
    }
  }

  /** An entry found afterwards is owned, or it was there and unowned before and was left alone. */
  predicate SafeAt(disk: Disk, after: Disk, n: Name, v: Value) {
    && (HoldsAt(after, n, v) ==> OwnedOn(after, n, v) || (HoldsAt(disk, n, v) && !OwnedOn(disk, n, v)))
    && (HoldsAt(disk, n, v) && !OwnedOn(disk, n, v) ==> HoldsAt(after, n, v))
  }

  /** The job replaces a record that is this very array by an entry which the array does not list. */
  predicate Loses(manifest: Manifest, job: Job, n: Name, v: Value) {
    && !job.remove && n.slot == job.slot && n.client in job.clients
    && v.List? && n in manifest && manifest[n] == v && Entry(job.wanted(n.client)) !in v.items
  }

  /** The promise for one name, on any disk a run can reach. */
  lemma ReachedSafe(disk: Disk, clients: seq<ClientKind>, job: Job, plan: Plan, after: Disk, j: nat, n: Name, v: Value)
    requires disk.manifest.Some? && PlanOk(disk.manifest.value, disk, clients, job, plan)
    requires Reached(disk, disk.manifest.value, plan, after, j)
    requires (forall c :: c in clients <==> c in job.clients) && !Loses(disk.manifest.value, job, n, v)
    ensures SafeAt(disk, after, n, v)
  {
    var previous, r := disk.manifest.value, Rewritten(disk.manifest.value, n.client, FileOf(disk, n.client), job);
    FileOldOrNew(previous, disk, clients, job, plan, after, j, n.client);
    if r.Success? {
      RewrittenExact(previous, n.client, FileOf(disk, n.client), job);
    }
    assert RecordDone(previous, plan.manifest, clients, job, n);
    if Owns(previous, n, v) {
      KeptInJournal(previous, plan.manifest, clients, job, n, v);
    }
    if v.Entry? {
      JournalOwnsBoth(previous, plan.manifest, n, v);
    }
  }

  lemma KeptInJournal(previous: Manifest, next: Manifest, clients: seq<ClientKind>, job: Job, n: Name, v: Value)
    requires Owns(previous, n, v) && RecordDone(previous, next, clients, job, n)
    requires (forall c :: c in clients <==> c in job.clients) && !Loses(previous, job, n, v)
    ensures Owns(Journal(previous, next), n, v)
  {
    if IsTarget(job, clients, n) {
      JournalOwnsIff(previous, next, n, v);
    }
  }

  lemma RunSafe(disk: Disk, job: Job, k: nat, n: Name, v: Value)
    requires disk.manifest.Some? ==> !Loses(disk.manifest.value, job, n, v)
    ensures SafeAt(disk, Interrupted(disk, job, k), n, v)
  {
    if Prepare(disk, job).Success? {
      var plan, j := RunReached(disk, job, k);
      DedupeExact(job.clients);
      ReachedSafe(disk, Dedupe(job.clients), job, plan, Interrupted(disk, job, k), j, n, v);
    }
  }

  /** An array that the record is about to lose is unowned as soon as the journal is written. */
  lemma LostAtJournal(disk: Disk, job: Job, n: Name, v: Value)
    requires Prepare(disk, job).Success? && disk.manifest.Some? && HoldsAt(disk, n, v)
    requires Loses(disk.manifest.value, job, n, v)
    ensures var after := Interrupted(disk, job, 1);
            after.files == disk.files && after.manifest.Some? && !OwnedOn(after, n, v)
  {
    var previous, plan := disk.manifest.value, Prepare(disk, job).value;
    DedupeExact(job.clients);
    PlanShape(previous, disk, Dedupe(job.clients), job);
    assert RecordDone(previous, plan.manifest, Dedupe(job.clients), job, n);
    var r := Rewritten(previous, n.client, FileOf(disk, n.client), job);
    RewrittenExact(previous, n.client, FileOf(disk, n.client), job);
    assert !Skips(FileOf(disk, n.client), r.value, job.remove);
    var journal := WriteManifest(Journal(previous, plan.manifest));
    assert plan.updates != [] && |Writes(previous, plan)| > 1;
    assert Writes(previous, plan)[..1] == [journal];
    ExecuteOne(disk, journal);
    JournalOwnsIff(previous, plan.manifest, n, v);
    assert !(v in v.items) by { ListNotInItself(v); }
  }

  lemma ListNotInItself(v: Value)
    ensures v.List? ==> v !in v.items
  {
    if v.List? {
      forall i | 0 <= i < |v.items| ensures v.items[i] != v {}
    }
  }

  /**
    The journal's promise, exactly: at every crash point an entry found in a client file is owned by the record then
    on disk, unless it was already there and unowned before the run, in which case the run left it alone. It holds
    for every value a file can hold except an array that is the record itself, when the job is about to replace
    that record by an entry which the array does not list.
   */
  lemma CrashSafeIff(disk: Disk, job: Job, n: Name, v: Value)
    ensures (forall k: nat :: SafeAt(disk, Interrupted(disk, job, k), n, v))
            <==> !(Prepare(disk, job).Success? && disk.manifest.Some? && HoldsAt(disk, n, v)
                   && Loses(disk.manifest.value, job, n, v))
  {
    if Prepare(disk, job).Success? && disk.manifest.Some? && HoldsAt(disk, n, v)
        && Loses(disk.manifest.value, job, n, v)
    {
      LostAtJournal(disk, job, n, v);
      assert !SafeAt(disk, Interrupted(disk, job, 1), n, v);
    } else {
      forall k: nat ensures SafeAt(disk, Interrupted(disk, job, k), n, v) {
        if disk.manifest.Some? && Loses(disk.manifest.value, job, n, v) {
          UnheldSafe(disk, job, k, n, v);
        } else {
          RunSafe(disk, job, k, n, v);
        }
      }
    }
  }

  /** A run writes no array: one that is not there before is not there afterwards. */
  lemma UnheldSafe(disk: Disk, job: Job, k: nat, n: Name, v: Value)
    requires v.List? && !(Prepare(disk, job).Success? && HoldsAt(disk, n, v))
    requires OwnedOn(disk, n, v)
    ensures SafeAt(disk, Interrupted(disk, job, k), n, v)
  {
    FilesWhole(disk, job, k, n.client);
  }

  /** So every entry that is not an array is safe at every crash point. */
  lemma CrashSafe(disk: Disk, job: Job, k: nat, n: Name, v: Value)
    requires v.Entry?
    ensures SafeAt(disk, Interrupted(disk, job, k), n, v)
  {
    RunSafe(disk, job, k, n, v);
  }

  /** A value the management record accepts for a name, once on disk. */
  predicate Accepts(disk: Disk, n: Name, v: Value) {
    disk.manifest.Some? && v in Versions(disk.manifest.value, n)
  }

  /** The one value the record owns without accepting it as a version: the record itself, when it is an array. */
  predicate IsRecordArray(disk: Disk, n: Name, v: Value) {
    v.List? && disk.manifest.Some? && n in disk.manifest.value && disk.manifest.value[n] == v
  }

  lemma OwnedIff(disk: Disk, n: Name, v: Value)
    ensures OwnedOn(disk, n, v) <==> Accepts(disk, n, v) || IsRecordArray(disk, n, v)
  {}

  lemma ReachedRecords(disk: Disk, clients: seq<ClientKind>, job: Job, plan: Plan, after: Disk, j: nat, n: Name)
    requires disk.manifest.Some? && PlanOk(disk.manifest.value, disk, clients, job, plan)
    requires Reached(disk, disk.manifest.value, plan, after, j)
    ensures forall v :: Accepts(after, n, v) ==> Accepts(disk, n, v) || (IsTarget(job, clients, n) && Wants(job, n, v))
    ensures !IsTarget(job, clients, n)
        ==> after.manifest.Some? && SameRecord(disk.manifest.value, after.manifest.value, n)
  {
    var previous := disk.manifest.value;
    assert RecordDone(previous, plan.manifest, clients, job, n);
    forall v | Accepts(after, n, v) ensures Accepts(disk, n, v) || (IsTarget(job, clients, n) && Wants(job, n, v)) {
      if after.manifest == Some(Journal(previous, plan.manifest)) {
        JournalRecordsOnlyBoth(previous, plan.manifest, n, v);
      }
    }
  }

  /** Accepted before this run, or generated by it. */
  ghost predicate Accounted(disk: Disk, job: Job, n: Name, v: Value) {
    Accepts(disk, n, v) || (Targets(job, n) && Wants(job, n, v))
  }

  lemma AcceptedAccounted(disk: Disk, job: Job, k: nat, n: Name)
    ensures var after := Interrupted(disk, job, k);
            && (forall v :: Accepts(after, n, v) ==> Accounted(disk, job, n, v))
            && (!Targets(job, n) && disk.manifest.Some? ==>
                  after.manifest.Some? && SameRecord(disk.manifest.value, after.manifest.value, n))
  {
    if Prepare(disk, job).Success? {
      DedupeExact(job.clients);
      var plan, j := RunReached(disk, job, k);
      ReachedRecords(disk, Dedupe(job.clients), job, plan, Interrupted(disk, job, k), j, n);
    }
  }

  /** The items of the record's array are the versions it accepts. */
  lemma ArrayItems(disk: Disk, n: Name, v: Value)
    requires IsRecordArray(disk, n, v)
    ensures forall item :: item in v.items <==> Accepts(disk, n, item)
  {}

  /**
    Whatever the record owns at a crash point was accepted before or generated by this run, or is the record's own
    array, and then all its items are such values; other clients' and slots' records are not touched.
   */
  lemma RecordsGenerated(disk: Disk, job: Job, k: nat, n: Name)
    ensures var after := Interrupted(disk, job, k);
            && (forall v | OwnedOn(after, n, v) ::
                  || Accounted(disk, job, n, v)
                  || (IsRecordArray(after, n, v) && forall item <- v.items :: Accounted(disk, job, n, item)))
            && (!Targets(job, n) && disk.manifest.Some? ==>
                  after.manifest.Some? && SameRecord(disk.manifest.value, after.manifest.value, n))
  {
    hide Interrupted, Accounted, SameRecord, OwnedOn, Accepts;
    var after := Interrupted(disk, job, k);
    AcceptedAccounted(disk, job, k, n);
    forall v | OwnedOn(after, n, v)
      ensures Accounted(disk, job, n, v)
              || (IsRecordArray(after, n, v) && forall item <- v.items :: Accounted(disk, job, n, item))
    {
      OwnedIff(after, n, v);
      if IsRecordArray(after, n, v) { ArrayItems(after, n, v); }
    }
  }

  // ---- Any number of interrupted runs, then one that finishes ----

  datatype Cut = Cut(job: Job, writes: nat)

  function InterruptedAll(disk: Disk, cuts: seq<Cut>): Disk {
    if cuts == [] then disk
    else Interrupted(InterruptedAll(disk, cuts[..|cuts| - 1]), cuts[|cuts| - 1].job, cuts[|cuts| - 1].writes)
  }

  /** Parseable files in which every managed entry is one the record owns. */
  ghost predicate InOrder(disk: Disk) {
    && disk.manifest.Some?
    && (forall c | c in disk.files :: disk.files[c].File?)
    && (forall c, s | c in disk.files && disk.files[c].File? && s in disk.files[c].entries ::
          SlotInOrder(disk, Name(c, s), disk.files[c].entries[s]))
  }

  predicate SlotInOrder(disk: Disk, n: Name, m: Managed) {
    m.Holds? && OwnedOn(disk, n, m.value)
  }

  /** No client file holds an array that the job is about to lose. */
  ghost predicate LosesNothing(disk: Disk, job: Job) {
    disk.manifest.Some? ==> forall n, v | HoldsAt(disk, n, v) :: !Loses(disk.manifest.value, job, n, v)
  }

  lemma ManifestStays(disk: Disk, job: Job, k: nat)
    requires disk.manifest.Some?
    ensures Interrupted(disk, job, k).manifest.Some?
  {
    if Prepare(disk, job).Success? {
      var plan, j := RunReached(disk, job, k);
    }
  }

  lemma FilesParse(disk: Disk, job: Job, k: nat)
    requires InOrder(disk)
    ensures var after := Interrupted(disk, job, k); forall c | c in after.files :: after.files[c].File?
  {
    var after := Interrupted(disk, job, k);
    forall c | c in after.files ensures after.files[c].File? {
      FilesWhole(disk, job, k, c);
      assert c in disk.files ==> disk.files[c].File?;
    }
  }

  /** After any cut, a slot is in order unless the run was about to lose the array it held. */
  lemma SlotKept(disk: Disk, job: Job, k: nat, n: Name)
    requires InOrder(disk)
    requires forall v | HoldsAt(disk, n, v) :: !Loses(disk.manifest.value, job, n, v)
    ensures var after := Interrupted(disk, job, k);
            n.client in after.files && after.files[n.client].File? && n.slot in after.files[n.client].entries ==>
              SlotInOrder(after, n, after.files[n.client].entries[n.slot])
  {
    var after := Interrupted(disk, job, k);
    FilesWhole(disk, job, k, n.client);
    if n.client in after.files && after.files[n.client].File? && n.slot in after.files[n.client].entries {
      if n.client in disk.files && n.slot in disk.files[n.client].entries {
        assert SlotInOrder(disk, n, disk.files[n.client].entries[n.slot]);
      }
      var m := after.files[n.client].entries[n.slot];
      assert m.Holds? && HoldsAt(after, n, m.value);
      if HoldsAt(disk, n, m.value) {
        RunSafe(disk, job, k, n, m.value);
      } else {
        CrashSafe(disk, job, k, n, m.value);
      }
    }
  }

  lemma InOrderKept(disk: Disk, job: Job, k: nat)
    requires InOrder(disk) && LosesNothing(disk, job)
    ensures InOrder(Interrupted(disk, job, k))
  {
    var after := Interrupted(disk, job, k);
    ManifestStays(disk, job, k);
    FilesParse(disk, job, k);
    forall c, s | c in after.files && after.files[c].File? && s in after.files[c].entries
      ensures SlotInOrder(after, Name(c, s), after.files[c].entries[s])
    {
      SlotKept(disk, job, k, Name(c, s));
    }
  }

  /** No run of a series is about to lose an array that a file holds when it starts. */
  ghost predicate AllLoseNothing(disk: Disk, cuts: seq<Cut>) {
    forall i | 0 <= i < |cuts| :: LosesNothing(InterruptedAll(disk, cuts[..i]), cuts[i].job)
  }

  lemma {:induction false} AllInOrder(disk: Disk, cuts: seq<Cut>)
    requires InOrder(disk) && AllLoseNothing(disk, cuts)
    ensures InOrder(InterruptedAll(disk, cuts))
  {
    if cuts != [] {
      var init, last := cuts[..|cuts| - 1], cuts[|cuts| - 1];
      forall i | 0 <= i < |init| ensures LosesNothing(InterruptedAll(disk, init[..i]), init[i].job) {
        assert init[..i] == cuts[..i];
        assert LosesNothing(InterruptedAll(disk, cuts[..i]), cuts[i].job);
      }
      AllInOrder(disk, init);
      assert LosesNothing(InterruptedAll(disk, cuts[..|cuts| - 1]), last.job);
      InOrderKept(InterruptedAll(disk, init), last.job, last.writes);
    }
  }

  /** The slots that a job is about to look at are in order, in files that parse. */
  ghost predicate TargetsInOrder(disk: Disk, clients: seq<ClientKind>, slot: Slot) {
    && disk.manifest.Some?
    && forall c | c in clients && c in disk.files ::
         disk.files[c].File?
         && (slot in disk.files[c].entries ==> SlotInOrder(disk, Name(c, slot), disk.files[c].entries[slot]))
  }

  /** Every ownership check passes on files that are in order. */
  lemma {:induction false} PlanSucceeds(disk: Disk, clients: seq<ClientKind>, job: Job)
    requires TargetsInOrder(disk, clients, job.slot) && NoRepeats(clients)
    ensures PlanClients(disk.manifest.value, disk, clients, job).Success?
  {
    if clients != [] {
      var init, c, previous := clients[..|clients| - 1], clients[|clients| - 1], disk.manifest.value;
      assert forall d | d in init :: d in clients;
      PlanSucceeds(disk, init, job);
      PlanShape(previous, disk, init, job);
      var before := PlanClients(previous, disk, init, job).value;
      assert RecordDone(previous, before.manifest, init, job, Name(c, job.slot));
      RewrittenLocal(previous, before.manifest, c, FileOf(disk, c), job);
      assert c in clients;
    }
  }

  /** The outcome the caller asked for, exactly: the wanted entry or none, and that single record or none. */
  ghost predicate Settled(after: Disk, job: Job, c: ClientKind) {
    var n := Name(c, job.slot);
    && after.manifest.Some?
    && (if job.remove then n !in after.manifest.value && forall v :: !HoldsAt(after, n, v)
        else
          && n in after.manifest.value && after.manifest.value[n] == Entry(job.wanted(c))
          && HoldsAt(after, n, Entry(job.wanted(c))))
  }

  lemma CompletedSettles(disk: Disk, job: Job, c: ClientKind)
    requires Prepare(disk, job).Success? && c in job.clients
    ensures Settled(Completed(disk, job), job, c)
  {
    var k := |Writes(disk.manifest.value, Prepare(disk, job).value)|;
    var plan, j := RunReached(disk, job, k);
    DedupeExact(job.clients);
    var after, previous := Completed(disk, job), disk.manifest.value;
    FileOldOrNew(previous, disk, Dedupe(job.clients), job, plan, after, j, c);
    RewrittenExact(previous, c, FileOf(disk, c), job);
    assert RecordDone(previous, plan.manifest, Dedupe(job.clients), job, Name(c, job.slot));
  }

  lemma InOrderPasses(disk: Disk, job: Job)
    requires InOrder(disk) && job.clients != []
    ensures Prepare(disk, job).Success?
  {
    DedupeExact(job.clients);
    forall c | c in Dedupe(job.clients) && c in disk.files
      ensures disk.files[c].File?
      ensures job.slot in disk.files[c].entries
          ==> SlotInOrder(disk, Name(c, job.slot), disk.files[c].entries[job.slot])
    {}
    PlanSucceeds(disk, Dedupe(job.clients), job);
  }

  /**
    After any interrupted runs, with any slots, clients and entries, an
    uninterrupted run passes every ownership check and reaches exactly what it was
    asked for. Files may hold arrays, as long as no interrupted run was about to lose one.
   */
  lemma Converges(disk: Disk, cuts: seq<Cut>, job: Job)
    requires InOrder(disk) && AllLoseNothing(disk, cuts) && job.clients != []
    ensures Prepare(InterruptedAll(disk, cuts), job).Success?
    ensures forall c <- job.clients :: Settled(Completed(InterruptedAll(disk, cuts), job), job, c)
  {
    var current := InterruptedAll(disk, cuts);
    assert Prepare(current, job).Success? by {
      AllInOrder(disk, cuts);
      InOrderPasses(current, job);
    }
    forall c | c in job.clients ensures Settled(Completed(current, job), job, c) {
      CompletedSettles(current, job, c);
    }
  }

  /** A run that was about to lose an array which the next job will meet. */
  ghost predicate Strands(disk: Disk, job: Job, next: Job) {
    disk.manifest.Some?
    && exists n, v :: HoldsAt(disk, n, v) && Loses(disk.manifest.value, job, n, v) && Targets(next, n)
  }

  /** Exactly when every cut of a run leaves a disk on which the next job passes its ownership checks. */
  lemma StuckIff(disk: Disk, job: Job, next: Job)
    requires InOrder(disk) && job.clients != [] && next.clients != []
    ensures (forall k: nat :: Prepare(Interrupted(disk, job, k), next).Success?) <==> !Strands(disk, job, next)
  {
    InOrderPasses(disk, job);
    if Strands(disk, job, next) {
      var n, v :| HoldsAt(disk, n, v) && Loses(disk.manifest.value, job, n, v) && Targets(next, n);
      LostAtJournal(disk, job, n, v);
      UnownedRefused(Interrupted(disk, job, 1), next, n, v);
    } else {
      forall k: nat ensures Prepare(Interrupted(disk, job, k), next).Success? {
        NextPasses(disk, job, next, k);
      }
    }
  }

  lemma UnownedRefused(disk: Disk, job: Job, n: Name, v: Value)
    requires disk.manifest.Some? && HoldsAt(disk, n, v) && !OwnedOn(disk, n, v) && Targets(job, n)
    ensures Prepare(disk, job).Failure?
  {
    if Prepare(disk, job).Success? {
      DedupeExact(job.clients);
      PlanShape(disk.manifest.value, disk, Dedupe(job.clients), job);
    }
  }

  lemma NextPasses(disk: Disk, job: Job, next: Job, k: nat)
    requires InOrder(disk) && job.clients != [] && next.clients != [] && !Strands(disk, job, next)
    ensures Prepare(Interrupted(disk, job, k), next).Success?
  {
    var after := Interrupted(disk, job, k);
    ManifestStays(disk, job, k);
    FilesParse(disk, job, k);
    DedupeExact(next.clients);
    forall c | c in Dedupe(next.clients) && c in after.files
      ensures after.files[c].File?
      ensures next.slot in after.files[c].entries ==>
                SlotInOrder(after, Name(c, next.slot), after.files[c].entries[next.slot])
    {
      assert Targets(next, Name(c, next.slot));
      SlotKept(disk, job, k, Name(c, next.slot));
    }
    PlanSucceeds(after, Dedupe(next.clients), next);
  }

  /** What no job of a series names keeps its record and its entry, and foreign content is kept throughout. */
  ghost predicate Spares(cuts: seq<Cut>, n: Name) {
    forall cut <- cuts :: !Targets(cut.job, n)
  }

  ghost predicate Kept(a: Disk, b: Disk, n: Name) {
    && (a.manifest.Some? ==> b.manifest.Some? && SameRecord(a.manifest.value, b.manifest.value, n))
    && forall v :: HoldsAt(a, n, v) <==> HoldsAt(b, n, v)
  }

  ghost predicate ForeignKept(a: Disk, b: Disk, c: ClientKind) {
    c in a.files && a.files[c].File? ==> c in b.files && b.files[c].File? && b.files[c].foreign == a.files[c].foreign
  }

  lemma RunKeepsOthers(disk: Disk, job: Job, k: nat, n: Name)
    ensures !Targets(job, n) ==> Kept(disk, Interrupted(disk, job, k), n)
    ensures ForeignKept(disk, Interrupted(disk, job, k), n.client)
  {
    AcceptedAccounted(disk, job, k, n);
    FilesWhole(disk, job, k, n.client);
  }

  lemma {:induction false} OthersKept(disk: Disk, cuts: seq<Cut>, n: Name)
    ensures Spares(cuts, n) ==> Kept(disk, InterruptedAll(disk, cuts), n)
    ensures ForeignKept(disk, InterruptedAll(disk, cuts), n.client)
  {
    if cuts != [] {
      var init, last := cuts[..|cuts| - 1], cuts[|cuts| - 1];
      OthersKept(disk, init, n);
      RunKeepsOthers(InterruptedAll(disk, init), last.job, last.writes, n);
      assert Spares(cuts, n) ==> Spares(init, n) && !Targets(last.job, n);
    }
  }

  /** Some run of the series generated this value for the name. */
  ghost predicate GeneratedBy(cuts: seq<Cut>, n: Name, v: Value) {
    exists cut <- cuts :: Targets(cut.job, n) && Wants(cut.job, n, v)
  }

  /** Accepted at first, or generated by one of the runs. */
  ghost predicate AccountedBy(disk: Disk, cuts: seq<Cut>, n: Name, v: Value) {
    Accepts(disk, n, v) || GeneratedBy(cuts, n, v)
  }

  lemma {:induction false} AllAccounted(disk: Disk, cuts: seq<Cut>, n: Name, v: Value)
    requires Accepts(InterruptedAll(disk, cuts), n, v)
    ensures AccountedBy(disk, cuts, n, v)
  {
    if cuts != [] {
      var init, last := cuts[..|cuts| - 1], cuts[|cuts| - 1];
      AcceptedAccounted(InterruptedAll(disk, init), last.job, last.writes, n);
      assert last in cuts;
      if Accepts(InterruptedAll(disk, init), n, v) {
        AllAccounted(disk, init, n, v);
        if GeneratedBy(init, n, v) {
          var cut :| cut in init && Targets(cut.job, n) && Wants(cut.job, n, v);
          assert cut in cuts;
        }
      }
    }
  }

  /**
    Whatever crashed, every value the record owns was accepted at first or generated by one of the runs, or it is the
    record's own array, all of whose items were.
   */
  lemma OnlyGenerated(disk: Disk, cuts: seq<Cut>, n: Name, v: Value)
    requires OwnedOn(InterruptedAll(disk, cuts), n, v)
    ensures || AccountedBy(disk, cuts, n, v)
            || (IsRecordArray(InterruptedAll(disk, cuts), n, v)
                && forall item <- v.items :: AccountedBy(disk, cuts, n, item))
  {
    hide InterruptedAll, AccountedBy, OwnedOn, Accepts;
    var last := InterruptedAll(disk, cuts);
    OwnedIff(last, n, v);
    if Accepts(last, n, v) {
      AllAccounted(disk, cuts, n, v);
    } else {
      ArrayItems(last, n, v);
      forall item <- v.items ensures AccountedBy(disk, cuts, n, item) { AllAccounted(disk, cuts, n, item); }
    }
  }

  // ---- An array that is lost ----

  /** One entry, its replacement cut off after the journal, and the user pasting the recorded array into the file. */
  lemma ArrayEntryStuck(c: ClientKind, arrange: Arrange) returns (first: Disk, cut: Job, disk: Disk, job: Job)
    requires c != Codex
    ensures InOrder(first) && Prepare(first, cut).Success?
    ensures disk == Interrupted(first, cut, 1).(files := disk.files) && InOrder(disk) && Strands(disk, job, job)
    ensures job.clients == [c] && !(forall k: nat :: Prepare(Interrupted(disk, job, k), job).Success?)
  {
    first, cut := CutAtJournal(c, arrange);
    disk, job := PastedArray(c, arrange);
    StuckIff(disk, job, job);
  }

  lemma CutAtJournal(c: ClientKind, arrange: Arrange) returns (first: Disk, cut: Job)
    ensures InOrder(first) && Prepare(first, cut).Success? && first.backups == map[]
    ensures var after := Interrupted(first, cut, 1);
            after.manifest == Some(map[Name(c, Main) := List([Entry(1), Entry(2)])]) && after.backups == map[]
  {
    first := Disk(Some(map[Name(c, Main) := Entry(1)]), map[c := File(0, map[Main := Holds(Entry(1))], 0)], map[]);
    cut := Job(Main, [c], false, _ => 2, arrange);
    OneClientJournaled(first, cut, c);
    RecordedBoth(first, cut, c);
  }

  lemma PastedArray(c: ClientKind, arrange: Arrange) returns (disk: Disk, job: Job)
    ensures disk.manifest == Some(map[Name(c, Main) := List([Entry(1), Entry(2)])]) && disk.backups == map[]
    ensures InOrder(disk) && job.clients == [c] && Strands(disk, job, job)
  {
    var n, both := Name(c, Main), List([Entry(1), Entry(2)]);
    disk := Disk(Some(map[n := both]), map[c := File(0, map[Main := Holds(both)], 0)], map[]);
    job := Job(Main, [c], false, _ => 3, arrange);
    assert HoldsAt(disk, n, both) && Loses(disk.manifest.value, job, n, both) && Targets(job, n);
  }

  lemma RecordedBoth(first: Disk, cut: Job, c: ClientKind)
    requires first.manifest == Some(map[Name(c, Main) := Entry(1)])
    requires cut.slot == Main && !cut.remove && cut.wanted(c) == 2
    ensures Journal(first.manifest.value, Recorded(first.manifest.value, c, cut))
         == map[Name(c, Main) := List([Entry(1), Entry(2)])]
  {
    var previous, n := first.manifest.value, Name(c, Main);
    assert Versions(previous, n) == [Entry(1)] && [Entry(1)] + [Entry(2)] == [Entry(1), Entry(2)];
    assert Journaled(previous, Recorded(previous, c, cut), n) == List([Entry(1), Entry(2)]);
    assert Recorded(previous, c, cut).Keys == {n};
  }

  /** A run for one client, cut off right after its journal. */
  lemma OneClientJournaled(disk: Disk, job: Job, c: ClientKind)
    requires job.clients == [c] && disk.manifest.Some?
    requires var r := Rewritten(disk.manifest.value, c, FileOf(disk, c), job);
             r.Success? && !Skips(FileOf(disk, c), r.value, job.remove)
    ensures Prepare(disk, job).Success?
    ensures Interrupted(disk, job, 1) ==
            disk.(manifest := Some(Journal(disk.manifest.value, Recorded(disk.manifest.value, c, job))))
  {
    var previous := disk.manifest.value;
    assert [c][..0] == [];
    assert Dedupe(job.clients) == [c];
    assert PlanClients(previous, disk, [], job) == Success(Plan(previous, []));
    var plan := PlanClients(previous, disk, [c], job).value;
    var journal := WriteManifest(Journal(previous, plan.manifest));
    assert plan.updates != [] && Writes(previous, plan)[..1] == [journal];
    ExecuteOne(disk, journal);
  }
}
