/** Which jobs are refused before anything is written, and with which error. */
module JobRefusals {
  import opened Wrappers
  import opened ConfigJournal
  import opened JournalProofs
  import opened JournalTheorems

  /** What keeps a job from touching a client: a file or slot it cannot read, or an entry it does not own. */
  function Trouble(disk: Disk, job: Job, c: ClientKind): Option<Error>
    requires disk.manifest.Some?
  {
    if c !in disk.files then None
    else if disk.files[c].Malformed? then Some(BadFile)
    else if job.slot !in disk.files[c].entries then None
    else
      match disk.files[c].entries[job.slot]
      case Broken => Some(BadFile)
      case Holds(v) => if OwnedOn(disk, Name(c, job.slot), v) then None else Some(Unmanaged)
  }

  /** The first client in trouble decides. */
  ghost predicate FirstTrouble(disk: Disk, job: Job, clients: seq<ClientKind>, i: nat, e: Error)
    requires disk.manifest.Some?
  {
    && i < |clients| && Trouble(disk, job, clients[i]) == Some(e)
    && forall h | 0 <= h < i :: Trouble(disk, job, clients[h]).None?
  }

  lemma RewrittenTrouble(disk: Disk, job: Job, c: ClientKind)
    requires disk.manifest.Some?
    ensures var r := Rewritten(disk.manifest.value, c, FileOf(disk, c), job);
            match Trouble(disk, job, c) case None => r.Success? case Some(e) => r == Failure(e)
  {}

  /** One more client, once the others are through. */
  lemma NextTrouble(disk: Disk, job: Job, init: seq<ClientKind>, c: ClientKind)
    requires disk.manifest.Some? && NoRepeats(init + [c])
    requires PlanClients(disk.manifest.value, disk, init, job).Success?
    ensures var plan := PlanClients(disk.manifest.value, disk, init, job).value;
            var r := PlanNext(plan, FileOf(disk, c), c, job);
            match Trouble(disk, job, c) case None => r.Success? case Some(e) => r == Failure(e)
  {
    hide Rewritten, Trouble;
    var previous := disk.manifest.value;
    var plan := PlanClients(previous, disk, init, job).value;
    assert NoRepeats(init) && c !in init by {
      assert forall i | 0 <= i < |init| :: (init + [c])[i] == init[i];
      assert (init + [c])[|init|] == c;
    }
    PlanShape(previous, disk, init, job);
    assert RecordDone(previous, plan.manifest, init, job, Name(c, job.slot));
    RewrittenLocal(previous, plan.manifest, c, FileOf(disk, c), job);
    RewrittenTrouble(disk, job, c);
  }

  lemma {:induction false} PlanTrouble(disk: Disk, job: Job, clients: seq<ClientKind>)
    requires disk.manifest.Some? && NoRepeats(clients)
    ensures var r := PlanClients(disk.manifest.value, disk, clients, job);
            && (r.Success? <==> forall i | 0 <= i < |clients| :: Trouble(disk, job, clients[i]).None?)
            && (r.Failure? ==> exists i :: FirstTrouble(disk, job, clients, i, r.error))
  {
    if clients != [] {
      var init, c, previous := clients[..|clients| - 1], clients[|clients| - 1], disk.manifest.value;
      hide PlanNext, Trouble;
      assert clients == init + [c];
      PlanTrouble(disk, job, init);
      var r := PlanClients(previous, disk, init, job);
      if r.Failure? {
        var i: nat :| FirstTrouble(disk, job, init, i, r.error);
        assert FirstTrouble(disk, job, clients, i, r.error);
      } else {
        NextTrouble(disk, job, init, c);
        if Trouble(disk, job, c).Some? {
          assert FirstTrouble(disk, job, clients, |init|, Trouble(disk, job, c).value);
        }
      }
    }
  }

  /** Selecting a client again does not change which one comes first. */
  lemma {:induction false} DedupeTrouble(disk: Disk, job: Job, clients: seq<ClientKind>, i: nat, e: Error)
    requires disk.manifest.Some? && FirstTrouble(disk, job, Dedupe(clients), i, e)
    ensures exists j :: FirstTrouble(disk, job, clients, j, e)
  {
    hide Trouble;
    var init, last := clients[..|clients| - 1], clients[|clients| - 1];
    var before := Dedupe(init);
    assert forall h | 0 <= h < |before| :: Dedupe(clients)[h] == before[h];
    if i < |before| {
      DedupeTrouble(disk, job, init, i, e);
      var j: nat :| FirstTrouble(disk, job, init, j, e);
      assert FirstTrouble(disk, job, clients, j, e);
    } else {
      DedupeExact(init);
      forall h | 0 <= h < |init| ensures Trouble(disk, job, clients[h]).None? {
        assert init[h] in before;
        var g :| 0 <= g < |before| && before[g] == init[h];
      }
      assert FirstTrouble(disk, job, clients, |init|, e);
    }
  }

  /** A job goes through exactly if a client is selected, the record can be read, and no client is in trouble. */
  lemma PreparedIff(disk: Disk, job: Job)
    ensures Prepare(disk, job).Success? <==>
            |job.clients| > 0 && disk.manifest.Some? && forall c <- job.clients :: Trouble(disk, job, c).None?
    ensures |job.clients| == 0 ==> Prepare(disk, job) == Failure(NothingSelected)
    ensures |job.clients| > 0 && disk.manifest.None? ==> Prepare(disk, job) == Failure(BadManifest)
    ensures |job.clients| > 0 && disk.manifest.Some? && Prepare(disk, job).Failure? ==>
              exists i :: FirstTrouble(disk, job, job.clients, i, Prepare(disk, job).error)
  {
    if |job.clients| > 0 && disk.manifest.Some? {
      var clients := Dedupe(job.clients);
      DedupeExact(job.clients);
      PlanTrouble(disk, job, clients);
      if Prepare(disk, job).Failure? {
        var i: nat :| FirstTrouble(disk, job, clients, i, Prepare(disk, job).error);
        DedupeTrouble(disk, job, job.clients, i, Prepare(disk, job).error);
      }
      forall c | c in job.clients ensures exists i :: 0 <= i < |clients| && clients[i] == c {
        assert c in clients;
      }
      forall i | 0 <= i < |clients| ensures clients[i] in job.clients {
        assert clients[i] in clients;
      }
    }
  }
}
