/** Crash safety and convergence of the ownership journal. */
module JournalProofs {
  import opened Wrappers
  import opened ConfigJournal

  // ---- Executing prefixes ----

  lemma {:induction false} ExecuteConcat(disk: Disk, a: seq<Write>, b: seq<Write>)
    ensures Execute(disk, a + b) == Execute(Execute(disk, a), b)
  {
    if b == [] {
      assert a + b == a;
    } else {
      ExecuteConcat(disk, a, b[..|b| - 1]);
      assert (a + b)[..|a + b| - 1] == a + b[..|b| - 1];
    }
  }

  lemma ExecuteOne(disk: Disk, w: Write)
    ensures Execute(disk, [w]) == Apply(disk, w)
  {
    assert [w][..0] == [];
  }

  /** The client files once these updates are through. */
  function FilesAfter(files: map<ClientKind, File>, updates: seq<Update>): map<ClientKind, File> {
    if updates == [] then files
    else FilesAfter(files, updates[..|updates| - 1])[updates[|updates| - 1].client := updates[|updates| - 1].next]
  }

  /** The writes of the last update, as far as they get. */
  lemma LastUpdate(disk: Disk, before: seq<Write>, u: Update, m: nat)
    requires m == 1 || (m == 2 && u.prior.Some?)
    ensures var backup := if u.prior.Some? then [WriteBackup(u.client, u.prior.value)] else [];
            var write := WriteFile(u.client, u.next);
            var done := Execute(disk, before + (backup + [write])[..m]);
            && done.manifest == Execute(disk, before).manifest
            && (m <= |backup| ==> done.files == Execute(disk, before).files)
            && (m > |backup| ==> done.files == Execute(disk, before).files[u.client := u.next])
  {
    var write := WriteFile(u.client, u.next);
    if u.prior.Some? {
      var backup := WriteBackup(u.client, u.prior.value);
      ExecuteConcat(disk, before, [backup]);
      ExecuteOne(Execute(disk, before), backup);
      if m == 1 {
        assert ([backup] + [write])[..1] == [backup];
      } else {
        ExecuteConcat(disk, before + [backup], [write]);
        ExecuteOne(Execute(disk, before + [backup]), write);
        assert ([backup] + [write])[..2] == [backup] + [write];
        assert before + ([backup] + [write]) == before + [backup] + [write];
      }
    } else {
      ExecuteConcat(disk, before, [write]);
      ExecuteOne(Execute(disk, before), write);
      assert ([] + [write])[..1] == [write];
    }
  }

  /** Any prefix of the file writes leaves a prefix of the updates done, and the record alone. */
  lemma {:induction false} UpdatesPrefix(disk: Disk, updates: seq<Update>, m: nat) returns (j: nat)
    requires m <= |UpdateWrites(updates)|
    ensures j <= |updates| && (m == |UpdateWrites(updates)| ==> j == |updates|)
    ensures Execute(disk, UpdateWrites(updates)[..m]).files == FilesAfter(disk.files, updates[..j])
    ensures Execute(disk, UpdateWrites(updates)[..m]).manifest == disk.manifest
  {
    if updates == [] {
      j := 0;
    } else {
      var init, u := updates[..|updates| - 1], updates[|updates| - 1];
      var before := UpdateWrites(init);
      if m <= |before| {
        j := UpdatesPrefix(disk, init, m);
        assert UpdateWrites(updates)[..m] == before[..m] && init[..j] == updates[..j];
      } else {
        j := UpdatesPrefix(disk, init, |before|);
        assert before[..|before|] == before && init[..j] == init;
        LastUpdate(disk, before, u, m - |before|);
        var backup := if u.prior.Some? then [WriteBackup(u.client, u.prior.value)] else [];
        var write := WriteFile(u.client, u.next);
        assert UpdateWrites(updates)[..m] == before + (backup + [write])[..m - |before|];
        if m > |before| + |backup| {
          j := |updates|;
        }
        assert updates[..|updates|] == updates && updates[..|init|] == init;
      }
    }
  }

  /** The disks a run can leave: nothing done; the journal and some updates; everything. */
  ghost predicate Reached(disk: Disk, previous: Manifest, plan: Plan, after: Disk, j: nat) {
    && j <= |plan.updates| && after.files == FilesAfter(disk.files, plan.updates[..j])
    && (|| after.manifest == Some(Journal(previous, plan.manifest))
        || (j == 0 && after.manifest == Some(previous))
        || (j == |plan.updates| && after.manifest == Some(plan.manifest)))
  }

  lemma PrefixReached(disk: Disk, previous: Manifest, plan: Plan, k: nat) returns (j: nat)
    requires disk.manifest == Some(previous) && k <= |Writes(previous, plan)|
    ensures Reached(disk, previous, plan, Execute(disk, Writes(previous, plan)[..k]), j)
    ensures k == |Writes(previous, plan)| ==>
              j == |plan.updates| && Execute(disk, Writes(previous, plan)[..k]).manifest == Some(plan.manifest)
  {
    var writes, last := Writes(previous, plan), WriteManifest(plan.manifest);
    if k == 0 {
      j := 0;
      assert writes[..0] == [];
    } else if plan.updates == [] {
      j := 0;
      assert writes[..k] == [last];
      ExecuteOne(disk, last);
    } else {
      var journal, middle := WriteManifest(Journal(previous, plan.manifest)), UpdateWrites(plan.updates);
      var started := Apply(disk, journal);
      ExecuteOne(disk, journal);
      if k <= |middle| + 1 {
        j := UpdatesPrefix(started, plan.updates, k - 1);
        ExecuteConcat(disk, [journal], middle[..k - 1]);
        assert writes[..k] == [journal] + middle[..k - 1];
      } else {
        j := UpdatesPrefix(started, plan.updates, |middle|);
        assert middle[..|middle|] == middle;
        ExecuteConcat(disk, [journal], middle);
        ExecuteConcat(disk, [journal] + middle, [last]);
        ExecuteOne(Execute(disk, [journal] + middle), last);
        assert writes[..k] == [journal] + middle + [last];
      }
    }
  }

  // ---- What a plan contains ----

  ghost predicate IsTarget(job: Job, clients: seq<ClientKind>, n: Name) {
    n.slot == job.slot && n.client in clients
  }

  predicate SameRecord(a: Manifest, b: Manifest, n: Name) {
    if n in a then n in b && b[n] == a[n] else n !in b
  }

  /** The record a finished run leaves for a name. */
  ghost predicate RecordDone(previous: Manifest, next: Manifest, clients: seq<ClientKind>, job: Job, n: Name) {
    if !IsTarget(job, clients, n) then SameRecord(previous, next, n)
    else if job.remove then n !in next
    else n in next && next[n] == Entry(job.wanted(n.client))
  }

  ghost predicate PlanOk(previous: Manifest, disk: Disk, clients: seq<ClientKind>, job: Job, plan: Plan) {
    && (forall n :: RecordDone(previous, plan.manifest, clients, job, n))
    && (forall u <- plan.updates ::
          u.client in clients && u.prior == FileOf(disk, u.client)
              && Rewritten(previous, u.client, u.prior, job) == Success(u.next))
    && (forall c <- clients ::
          var r := Rewritten(previous, c, FileOf(disk, c), job);
          r.Success? && (Skips(FileOf(disk, c), r.value, job.remove) || exists u <- plan.updates :: u.client == c))
  }

  predicate NoRepeats(clients: seq<ClientKind>) {
    forall i, j | 0 <= i < j < |clients| :: clients[i] != clients[j]
  }

  lemma {:induction false} DedupeExact(clients: seq<ClientKind>)
    ensures NoRepeats(Dedupe(clients)) && forall c :: c in Dedupe(clients) <==> c in clients
  {
    if clients != [] {
      DedupeExact(clients[..|clients| - 1]);
      assert clients == clients[..|clients| - 1] + [clients[|clients| - 1]];
    }
  }

  /** The ownership check only looks at this client's own record. */
  lemma RewrittenLocal(a: Manifest, b: Manifest, c: ClientKind, prior: Option<File>, job: Job)
    requires SameRecord(a, b, Name(c, job.slot))
    ensures Rewritten(a, c, prior, job) == Rewritten(b, c, prior, job)
  {}

  lemma {:induction false} PlanShape(previous: Manifest, disk: Disk, clients: seq<ClientKind>, job: Job)
    requires NoRepeats(clients) && PlanClients(previous, disk, clients, job).Success?
    ensures PlanOk(previous, disk, clients, job, PlanClients(previous, disk, clients, job).value)
  {
    if clients != [] {
      var init, c := clients[..|clients| - 1], clients[|clients| - 1];
      PlanShape(previous, disk, init, job);
      assert clients == init + [c];
      PlanGrows(previous, disk, init, job, PlanClients(previous, disk, init, job).value, c);
    }
  }

  lemma PlanGrows(previous: Manifest, disk: Disk, init: seq<ClientKind>, job: Job, plan: Plan, c: ClientKind)
    requires PlanOk(previous, disk, init, job, plan) && c !in init
    requires PlanNext(plan, FileOf(disk, c), c, job).Success?
    ensures PlanOk(previous, disk, init + [c], job, PlanNext(plan, FileOf(disk, c), c, job).value)
  {
    var next, clients := PlanNext(plan, FileOf(disk, c), c, job).value, init + [c];
    assert RecordDone(previous, plan.manifest, init, job, Name(c, job.slot));
    RewrittenLocal(previous, plan.manifest, c, FileOf(disk, c), job);
    forall n ensures RecordDone(previous, next.manifest, clients, job, n) {
      assert RecordDone(previous, plan.manifest, init, job, n);
    }
    UpdatesGrow(previous, disk, init, job, plan, c, next);
    ClientsGrow(previous, disk, init, job, plan, c, next);
  }

  lemma UpdatesGrow(previous: Manifest, disk: Disk, init: seq<ClientKind>, job: Job, plan: Plan, c: ClientKind,
                    next: Plan)
    requires PlanOk(previous, disk, init, job, plan) && PlanNext(plan, FileOf(disk, c), c, job) == Success(next)
    requires Rewritten(plan.manifest, c, FileOf(disk, c), job) == Rewritten(previous, c, FileOf(disk, c), job)
    ensures forall u <- next.updates ::
              u.client in init + [c] && u.prior == FileOf(disk, u.client)
              && Rewritten(previous, u.client, u.prior, job) == Success(u.next)
  {}

  lemma ClientsGrow(previous: Manifest, disk: Disk, init: seq<ClientKind>, job: Job, plan: Plan, c: ClientKind,
                    next: Plan)
    requires PlanOk(previous, disk, init, job, plan) && PlanNext(plan, FileOf(disk, c), c, job) == Success(next)
    requires Rewritten(plan.manifest, c, FileOf(disk, c), job) == Rewritten(previous, c, FileOf(disk, c), job)
    ensures forall d <- init + [c] ::
              var r := Rewritten(previous, d, FileOf(disk, d), job);
              r.Success? && (Skips(FileOf(disk, d), r.value, job.remove) || exists u <- next.updates :: u.client == d)
  {
    assert forall u | u in plan.updates :: u in next.updates;
    var r := Rewritten(previous, c, FileOf(disk, c), job);
    if !Skips(FileOf(disk, c), r.value, job.remove) {
      assert Update(c, FileOf(disk, c), r.value) in next.updates;
    }
  }

  // ---- The files after some updates ----

  lemma {:induction false} FilesAfterAt(files: map<ClientKind, File>, updates: seq<Update>, c: ClientKind)
    ensures var after := FilesAfter(files, updates);
            if exists u <- updates :: u.client == c
            then c in after && exists u <- updates :: u.client == c && after[c] == u.next
            else (c in after <==> c in files) && (c in files ==> after[c] == files[c])
  {
    if updates != [] {
      var init, u := updates[..|updates| - 1], updates[|updates| - 1];
      FilesAfterAt(files, init, c);
      assert updates == init + [u];
    }
  }

  /** Each client's file is the old one or the complete new one; at the end it is the new one, or needed no change. */
  lemma FileOldOrNew(previous: Manifest, disk: Disk, clients: seq<ClientKind>, job: Job, plan: Plan, after: Disk,
                     j: nat, c: ClientKind)
    requires PlanOk(previous, disk, clients, job, plan) && j <= |plan.updates|
    requires after.files == FilesAfter(disk.files, plan.updates[..j])
    ensures FileOf(after, c) == FileOf(disk, c)
            || (c in clients && Rewritten(previous, c, FileOf(disk, c), job).Success?
                && FileOf(after, c) == Some(Rewritten(previous, c, FileOf(disk, c), job).value))
    ensures j == |plan.updates| && c in clients ==>
              var r := Rewritten(previous, c, FileOf(disk, c), job);
              r.Success?
                  && (FileOf(after, c) == Some(r.value)
                      || (job.remove && FileOf(disk, c).None? && FileOf(after, c).None?))
  {
    var done := plan.updates[..j];
    FilesAfterAt(disk.files, done, c);
    forall u | u in done ensures u in plan.updates {}
    if j == |plan.updates| {
      assert done == plan.updates;
    }
  }
}
