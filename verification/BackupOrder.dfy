/** No client file is replaced before its old contents are in the backup, wherever a run is cut off. */
module BackupOrder {
  import opened ConfigJournal
  import opened JournalProofs

  predicate BacksUp(w: Write, c: ClientKind) {
    w.WriteBackup? && w.client == c
  }

  predicate Replaces(w: Write, c: ClientKind) {
    w.WriteFile? && w.client == c
  }

  ghost predicate BackedUpBy(writes: seq<Write>, c: ClientKind) {
    exists h :: 0 <= h < |writes| && BacksUp(writes[h], c)
  }

  /** Backups hold what the disk held, and every file that was there is backed up before it is replaced. */
  ghost predicate InSafeOrder(disk: Disk, writes: seq<Write>) {
    && (forall i | 0 <= i < |writes| && writes[i].WriteBackup? ::
          writes[i].client in disk.files && writes[i].file == disk.files[writes[i].client])
    && (forall i, c | 0 <= i < |writes| && c in disk.files && Replaces(writes[i], c) :: BackedUpBy(writes[..i], c))
  }

  lemma SafePrefix(disk: Disk, writes: seq<Write>, k: nat)
    requires InSafeOrder(disk, writes) && k <= |writes|
    ensures InSafeOrder(disk, writes[..k])
  {
    forall i, c | 0 <= i < k && c in disk.files && Replaces(writes[..k][i], c) ensures BackedUpBy(writes[..k][..i], c) {
      assert writes[..k][..i] == writes[..i];
    }
  }

  lemma SafeNext(disk: Disk, writes: seq<Write>, w: Write)
    requires InSafeOrder(disk, writes)
    requires w.WriteBackup? ==> w.client in disk.files && w.file == disk.files[w.client]
    requires w.WriteFile? && w.client in disk.files ==> BackedUpBy(writes, w.client)
    ensures InSafeOrder(disk, writes + [w])
  {
    var all := writes + [w];
    forall i, c | 0 <= i < |all| && c in disk.files && Replaces(all[i], c) ensures BackedUpBy(all[..i], c) {
      assert all[..i] == writes[..i];
    }
  }

  lemma BackedUpNext(writes: seq<Write>, w: Write, c: ClientKind)
    ensures BackedUpBy(writes + [w], c) <==> BackedUpBy(writes, c) || BacksUp(w, c)
  {
    var all := writes + [w];
    if h :| 0 <= h < |writes| && BacksUp(writes[h], c) { assert all[h] == writes[h]; }
    if BacksUp(w, c) { assert all[|writes|] == w; }
  }

  /** A backup is the old file or, until it is written, the backup that was there. */
  ghost predicate Saved(disk: Disk, writes: seq<Write>, after: Disk, c: ClientKind) {
    && (if BackedUpBy(writes, c) then c in disk.files && c in after.backups && after.backups[c] == disk.files[c]
        else if c in disk.backups then c in after.backups && after.backups[c] == disk.backups[c]
        else c !in after.backups)
    && (c in disk.files && !BackedUpBy(writes, c) ==> c in after.files && after.files[c] == disk.files[c])
  }

  lemma {:induction false} ExecutedSaved(disk: Disk, writes: seq<Write>, c: ClientKind)
    requires InSafeOrder(disk, writes)
    ensures Saved(disk, writes, Execute(disk, writes), c)
  {
    if writes != [] {
      var init, w := writes[..|writes| - 1], writes[|writes| - 1];
      assert writes == init + [w];
      SafePrefix(disk, writes, |init|);
      ExecutedSaved(disk, init, c);
      BackedUpNext(init, w, c);
      assert Replaces(w, c) && c in disk.files ==> BackedUpBy(writes[..|init|], c);
    }
  }

  lemma {:induction false} UpdatesSafe(disk: Disk, first: Write, updates: seq<Update>)
    requires first.WriteManifest? && forall u <- updates :: u.prior == FileOf(disk, u.client)
    ensures InSafeOrder(disk, [first] + UpdateWrites(updates))
  {
    if updates == [] {
      assert [first] + UpdateWrites(updates) == [first];
    } else {
      var init, u := updates[..|updates| - 1], updates[|updates| - 1];
      var before := [first] + UpdateWrites(init);
      UpdatesSafe(disk, first, init);
      assert u in updates;
      var write := WriteFile(u.client, u.next);
      if u.prior.Some? {
        var backup := WriteBackup(u.client, u.prior.value);
        SafeNext(disk, before, backup);
        BackedUpNext(before, backup, u.client);
        SafeNext(disk, before + [backup], write);
        assert [first] + UpdateWrites(updates) == before + [backup] + [write];
      } else {
        SafeNext(disk, before, write);
        assert [first] + UpdateWrites(updates) == before + [write];
      }
    }
  }

  lemma WritesSafe(disk: Disk, previous: Manifest, plan: Plan)
    requires forall u <- plan.updates :: u.prior == FileOf(disk, u.client)
    ensures InSafeOrder(disk, Writes(previous, plan))
  {
    var last := WriteManifest(plan.manifest);
    if plan.updates != [] {
      var first := WriteManifest(Journal(previous, plan.manifest));
      UpdatesSafe(disk, first, plan.updates);
      SafeNext(disk, [first] + UpdateWrites(plan.updates), last);
    }
  }

  /**
    Wherever a run is cut off: a client file that is no longer what it was has its old contents in the backup; no
    other backup is touched; and a backup is only ever replaced by the file it stands for.
   */
  lemma BackedUpBeforeReplaced(disk: Disk, job: Job, k: nat, c: ClientKind)
    ensures var after := Interrupted(disk, job, k);
            && (c in disk.files && FileOf(after, c) != FileOf(disk, c) ==>
                  c in after.backups && after.backups[c] == disk.files[c])
            && (c in disk.backups ==> c in after.backups)
            && (c in after.backups ==>
                  || (c in disk.backups && after.backups[c] == disk.backups[c])
                  || (c in disk.files && after.backups[c] == disk.files[c]))
  {
    if Prepare(disk, job).Success? {
      var plan, previous := Prepare(disk, job).value, disk.manifest.value;
      DedupeExact(job.clients);
      PlanShape(previous, disk, Dedupe(job.clients), job);
      WritesSafe(disk, previous, plan);
      var writes := Writes(previous, plan);
      var cut := if k < |writes| then writes[..k] else writes;
      if k < |writes| { SafePrefix(disk, writes, k); }
      ExecutedSaved(disk, cut, c);
    }
  }

  // ---- What is left alone ----

  /** A client is only ever updated to something else than what it has. */
  lemma {:induction false} UpdatesDiffer(previous: Manifest, disk: Disk, clients: seq<ClientKind>, job: Job)
    requires PlanClients(previous, disk, clients, job).Success?
    ensures forall u <- PlanClients(previous, disk, clients, job).value.updates :: !Skips(u.prior, u.next, job.remove)
  {
    if clients != [] {
      UpdatesDiffer(previous, disk, clients[..|clients| - 1], job);
    }
  }

  lemma {:induction false} NoBackup(updates: seq<Update>, c: ClientKind)
    requires forall u <- updates :: u.client != c
    ensures forall w <- UpdateWrites(updates) :: !BacksUp(w, c)
  {
    if updates != [] {
      NoBackup(updates[..|updates| - 1], c);
    }
  }

  lemma NoBackupAt(previous: Manifest, plan: Plan, c: ClientKind, k: nat)
    requires (forall u <- plan.updates :: u.client != c) && k <= |Writes(previous, plan)|
    ensures !BackedUpBy(Writes(previous, plan)[..k], c)
  {
    NoBackup(plan.updates, c);
    forall h | 0 <= h < k ensures !BacksUp(Writes(previous, plan)[..k][h], c) {
      assert Writes(previous, plan)[..k][h] in Writes(previous, plan);
    }
  }

  /** The updates of a client that ends up as it was: there are none. */
  lemma NoUpdate(disk: Disk, job: Job, c: ClientKind)
    requires Prepare(disk, job).Success? && FileOf(Completed(disk, job), c) == FileOf(disk, c)
    ensures forall u <- Prepare(disk, job).value.updates :: u.client != c
  {
    var plan, previous := Prepare(disk, job).value, disk.manifest.value;
    DedupeExact(job.clients);
    PlanShape(previous, disk, Dedupe(job.clients), job);
    UpdatesDiffer(previous, disk, Dedupe(job.clients), job);
    var j := PrefixReached(disk, previous, plan, |Writes(previous, plan)|);
    assert Writes(previous, plan)[..|Writes(previous, plan)|] == Writes(previous, plan);
    FileOldOrNew(previous, disk, Dedupe(job.clients), job, plan, Completed(disk, job), j, c);
  }

  /** A client whose file the job does not change keeps its backup too, and removing creates no file. */
  lemma UntouchedStays(disk: Disk, job: Job, k: nat, c: ClientKind)
    ensures var after := Interrupted(disk, job, k);
            && (FileOf(Completed(disk, job), c) == FileOf(disk, c) ==>
                  (if c in disk.backups then c in after.backups && after.backups[c] == disk.backups[c]
                   else c !in after.backups))
            && (job.remove && c !in disk.files ==> c !in Completed(disk, job).files)
  {
    hide Completed;
    if Prepare(disk, job).Success? {
      if job.remove && c !in disk.files { RemovalCreatesNothing(disk, job, c); }
      if FileOf(Completed(disk, job), c) == FileOf(disk, c) { BackupStays(disk, job, k, c); }
    } else {
      NothingCompleted(disk, job);
    }
  }

  lemma NothingCompleted(disk: Disk, job: Job)
    requires Prepare(disk, job).Failure?
    ensures Completed(disk, job) == disk
  {}

  lemma BackupStays(disk: Disk, job: Job, k: nat, c: ClientKind)
    requires Prepare(disk, job).Success? && FileOf(Completed(disk, job), c) == FileOf(disk, c)
    ensures var after := Interrupted(disk, job, k);
            if c in disk.backups then c in after.backups && after.backups[c] == disk.backups[c]
            else c !in after.backups
  {
    hide Prepare, Writes, UpdateWrites, Completed;
    PlanIsSafe(disk, job);
    var plan, previous := Prepare(disk, job).value, disk.manifest.value;
    var writes := Writes(previous, plan);
    NoUpdate(disk, job, c);
    var m := if k < |writes| then k else |writes|;
    assert writes[..|writes|] == writes;
    NoBackupAt(previous, plan, c, m);
    SafePrefix(disk, writes, m);
    ExecutedSaved(disk, writes[..m], c);
  }

  lemma PlanIsSafe(disk: Disk, job: Job)
    requires Prepare(disk, job).Success?
    ensures disk.manifest.Some? && InSafeOrder(disk, Writes(disk.manifest.value, Prepare(disk, job).value))
  {
    DedupeExact(job.clients);
    PlanShape(disk.manifest.value, disk, Dedupe(job.clients), job);
    WritesSafe(disk, disk.manifest.value, Prepare(disk, job).value);
  }

  lemma RemovalCreatesNothing(disk: Disk, job: Job, c: ClientKind)
    requires Prepare(disk, job).Success? && job.remove && c !in disk.files
    ensures c !in Completed(disk, job).files
  {
    var plan, previous := Prepare(disk, job).value, disk.manifest.value;
    DedupeExact(job.clients);
    PlanShape(previous, disk, Dedupe(job.clients), job);
    UpdatesDiffer(previous, disk, Dedupe(job.clients), job);
    var j := PrefixReached(disk, previous, plan, |Writes(previous, plan)|);
    assert Writes(previous, plan)[..|Writes(previous, plan)|] == Writes(previous, plan);
    FilesAfterAt(disk.files, plan.updates[..j], c);
  }
}
