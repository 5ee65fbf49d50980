/**
  `write_clients` and `write_plugin` as they run: the selection is walked once, the
  journal is built record by record, and the writes follow one another until the
  machine stops. Proved equal to the interrupted plan of the model.
*/
module LocalClients {
  import opened Wrappers
  import opened ConfigJournal
  import opened JournalProofs

  datatype Outcome = Done | Refused(error: Error) | Stopped

  // ---- Prefix facts for the loops ----

  lemma {:induction false} DedupePrefix(clients: seq<ClientKind>, i: nat)
    requires i <= |clients|
    ensures Dedupe(clients[..i]) <= Dedupe(clients)
  {
    if i == |clients| {
      assert clients[..i] == clients;
    } else {
      DedupePrefix(clients[..|clients| - 1], i);
      assert clients[..|clients| - 1][..i] == clients[..i];
    }
  }

  lemma DedupeNext(clients: seq<ClientKind>, i: nat)
    requires i < |clients|
    ensures var before, c := Dedupe(clients[..i]), clients[i];
            Dedupe(clients[..i + 1]) == if c in before then before else before + [c]
  {
    assert clients[..i + 1][..i] == clients[..i];
  }

  /** The plan for the first i clients of the selection. */
  ghost predicate Planned(previous: Manifest, disk: Disk, job: Job, i: nat, r: Result<Plan, Error>)
    requires i <= |job.clients|
  {
    PlanClients(previous, disk, Dedupe(job.clients[..i]), job) == r
  }

  lemma PlannedNext(previous: Manifest, disk: Disk, job: Job, i: nat, plan: Plan)
    requires i < |job.clients| && Planned(previous, disk, job, i, Success(plan))
    ensures var c, seen := job.clients[i], Dedupe(job.clients[..i]);
            && (forall d :: d in Dedupe(job.clients[..i + 1]) <==> d in seen || d == c)
            && Planned(previous, disk, job, i + 1,
                       if c in seen then Success(plan) else PlanNext(plan, FileOf(disk, c), c, job))
  {
    DedupeNext(job.clients, i);
    var before, c := Dedupe(job.clients[..i]), job.clients[i];
    assert (before + [c])[..|before|] == before;
  }

  lemma PlannedFailure(previous: Manifest, disk: Disk, job: Job, i: nat, r: Result<Plan, Error>)
    requires i <= |job.clients| && Planned(previous, disk, job, i, r) && r.Failure?
    ensures PlanClients(previous, disk, Dedupe(job.clients), job) == r
  {
    DedupePrefix(job.clients, i);
    PlanFails(previous, disk, Dedupe(job.clients[..i]), Dedupe(job.clients), job);
  }

  lemma {:induction false} PlanFails(previous: Manifest, disk: Disk, a: seq<ClientKind>, b: seq<ClientKind>, job: Job)
    requires a <= b && PlanClients(previous, disk, a, job).Failure?
    ensures PlanClients(previous, disk, b, job) == PlanClients(previous, disk, a, job)
  {
    if a == b {
    } else {
      PlanFails(previous, disk, a, b[..|b| - 1], job);
    }
  }

  lemma {:induction false} UpdateWritesPrefix(updates: seq<Update>, i: nat)
    requires i <= |updates|
    ensures UpdateWrites(updates[..i]) <= UpdateWrites(updates)
  {
    if i == |updates| {
      assert updates[..i] == updates;
    } else {
      UpdateWritesPrefix(updates[..|updates| - 1], i);
      assert updates[..|updates| - 1][..i] == updates[..i];
    }
  }

  lemma ExecuteNext(disk: Disk, writes: seq<Write>, k: nat)
    requires k < |writes|
    ensures Execute(disk, writes[..k + 1]) == Apply(Execute(disk, writes[..k]), writes[k])
  {
    assert writes[..k + 1][..k] == writes[..k];
  }

  /** Where the writes of update `i` are among all of them. */
  lemma UpdateAt(updates: seq<Update>, i: nat)
    requires i < |updates|
    ensures var all, at, u := UpdateWrites(updates), |UpdateWrites(updates[..i])|, updates[i];
            && |UpdateWrites(updates[..i + 1])| == at + (if u.prior.Some? then 2 else 1) <= |all|
            && (u.prior.Some?
                ==> all[at] == WriteBackup(u.client, u.prior.value) && all[at + 1] == WriteFile(u.client, u.next))
            && (u.prior.None? ==> all[at] == WriteFile(u.client, u.next))
  {
    assert updates[..i + 1][..i] == updates[..i];
    UpdateWritesPrefix(updates, i + 1);
    var mine := UpdateWrites(updates[..i + 1]);
    assert forall k | 0 <= k < |mine| :: UpdateWrites(updates)[k] == mine[k];
  }

  function Cutoff(writes: seq<Write>, k: nat): seq<Write> {
    if k < |writes| then writes[..k] else writes
  }

  /** A cut-off plan is its journal, then the cut-off file writes, then the final record. */
  lemma CutoffPlan(disk: Disk, first: Write, middle: seq<Write>, last: Write, k: nat)
    ensures Execute(disk, Cutoff([first] + middle + [last], k)) ==
            if k == 0 then disk
            else if k - 1 < |middle| then Execute(Apply(disk, first), Cutoff(middle, k - 1))
            else if k - 1 == |middle| then Execute(Apply(disk, first), middle)
            else Apply(Execute(Apply(disk, first), middle), last)
  {
    var writes := [first] + middle + [last];
    ExecuteOne(disk, first);
    if k == 0 {
      assert writes[..0] == [];
    } else if k - 1 <= |middle| {
      assert writes[..k] == [first] + middle[..k - 1];
      ExecuteConcat(disk, [first], middle[..k - 1]);
      assert k - 1 == |middle| ==> middle[..k - 1] == middle;
    } else {
      ExecuteConcat(disk, [first], middle);
      ExecuteConcat(disk, [first] + middle, [last]);
      ExecuteOne(Execute(disk, [first] + middle), last);
    }
  }

  class LocalClient {
    var manifest: Option<Manifest>
    var files: map<ClientKind, File>
    var backups: map<ClientKind, File>

    ghost function Contents(): Disk
      reads this
    {
      Disk(manifest, files, backups)
    }

    /** One atomic write, unless the machine has stopped: `left` writes still happen. */
    method AtomicWrite(w: Write, left: nat) returns (ok: bool)
      modifies this
      ensures ok <==> left > 0
      ensures Contents() == if left > 0 then Apply(old(Contents()), w) else old(Contents())
    {
      if left == 0 {
        return false;
      }
      match w {
        case WriteManifest(m) => manifest := Some(m);
        case WriteBackup(client, file) => backups := backups[client := file];
        case WriteFile(client, file) => files := files[client := file];
      }
      return true;
    }

    /** Walks the selection once, checking ownership and collecting the updates. */
    method PlanUpdates(previous: Manifest, job: Job) returns (r: Result<Plan, Error>)
      ensures r == PlanClients(previous, Contents(), Dedupe(job.clients), job)
    {
      var plan, seen: set<ClientKind> := Plan(previous, []), {};
      for i := 0 to |job.clients|
        invariant Planned(previous, Contents(), job, i, Success(plan))
        invariant forall c :: c in seen <==> c in Dedupe(job.clients[..i])
      {
        PlannedNext(previous, Contents(), job, i, plan);
        var c := job.clients[i];
        if c !in seen {
          seen := seen + {c};
          var step := PlanOne(plan, c, job);
          if step.Failure? {
            PlannedFailure(previous, Contents(), job, i + 1, step);
            return step;
          }
          plan := step.value;
        }
      }
      assert job.clients[..|job.clients|] == job.clients;
      return Success(plan);
    }

    /** The loop's body for a client that comes up for the first time. */
    method PlanOne(plan: Plan, c: ClientKind, job: Job) returns (step: Result<Plan, Error>)
      ensures step == PlanNext(plan, FileOf(Contents(), c), c, job)
    {
      var next, updates := plan.manifest, plan.updates;
      var prior := if c in files then Some(files[c]) else None;
      var file := Rewritten(next, c, prior, job);
      if file.Failure? {
        return Failure(file.error);
      }
      if job.remove {
        next := next - {Name(c, job.slot)};
      } else {
        next := next[Name(c, job.slot) := Entry(job.wanted(c))];
      }
      if !Skips(prior, file.value, job.remove) {
        updates := updates + [Update(c, prior, file.value)];
      }
      return Success(Plan(next, updates));
    }

    /** The journal: every record of the new manifest that differs keeps its old versions beside the new one. */
    method BuildJournal(previous: Manifest, next: Manifest) returns (journal: Manifest)
      ensures journal == Journal(previous, next)
    {
      journal := previous;
      var names := next.Keys;
      while names != {}
        invariant names <= next.Keys
        invariant forall n :: n in journal <==> n in previous || (n in next && n !in names)
        invariant forall n | n in journal ::
                    journal[n] == if n in next && n !in names then Journaled(previous, next, n) else previous[n]
        decreases names
      {
        var n :| n in names;
        names := names - {n};
        if !(n in journal && journal[n] == next[n]) {
          var versions := Versions(journal, n);
          if next[n] !in versions {
            versions := versions + [next[n]];
          }
          journal := journal[n := List(versions)];
        }
      }
    }

    /** Backs up and replaces one client file after the other. */
    method WriteUpdates(updates: seq<Update>, left: nat) returns (ok: bool, rest: nat)
      modifies this
      ensures Contents() == Execute(old(Contents()), Cutoff(UpdateWrites(updates), left))
      ensures ok <==> left >= |UpdateWrites(updates)|
      ensures ok ==> rest == left - |UpdateWrites(updates)|
    {
      ghost var start, all := Contents(), UpdateWrites(updates);
      ghost var count := 0;
      rest := left;
      for i := 0 to |updates|
        invariant count == |UpdateWrites(updates[..i])| && count + rest == left && count <= |all|
        invariant Contents() == Execute(start, all[..count])
      {
        UpdateAt(updates, i);
        var u := updates[i];
        if u.prior.Some? {
          ok := AtomicWrite(WriteBackup(u.client, u.prior.value), rest);
          if !ok {
            return;
          }
          ExecuteNext(start, all, count);
          rest, count := rest - 1, count + 1;
        }
        ok := AtomicWrite(WriteFile(u.client, u.next), rest);
        if !ok {
          return;
        }
        ExecuteNext(start, all, count);
        rest, count := rest - 1, count + 1;
      }
      assert updates[..|updates|] == updates && all[..|all|] == all;
      ok := true;
    }

    /** A whole run, stopped after `budget` atomic writes. */
    method Write(job: Job, budget: nat) returns (outcome: Outcome)
      modifies this
      ensures Contents() == Interrupted(old(Contents()), job, budget)
      ensures match Prepare(old(Contents()), job)
              case Failure(e) => outcome == Refused(e)
              case Success(plan) => outcome == if budget < |Writes(old(manifest).value, plan)| then Stopped else Done
    {
      ghost var disk := Contents();
      if |job.clients| == 0 {
        return Refused(NothingSelected);
      }
      if manifest.None? {
        return Refused(BadManifest);
      }
      var previous := manifest.value;
      var planned := PlanUpdates(previous, job);
      if planned.Failure? {
        return Refused(planned.error);
      }
      var plan, left, ok := planned.value, budget, true;
      ghost var first, last := WriteManifest(Journal(previous, plan.manifest)), WriteManifest(plan.manifest);
      ghost var middle := UpdateWrites(plan.updates);
      CutoffPlan(disk, first, middle, last, budget);
      ExecuteOne(disk, last);
      assert Writes(previous, plan)[..0] == [];
      if |plan.updates| > 0 {
        var journal := BuildJournal(previous, plan.manifest);
        ok := AtomicWrite(WriteManifest(journal), left);
        if !ok {
          return Stopped;
        }
        ok, left := WriteUpdates(plan.updates, left - 1);
        if !ok {
          return Stopped;
        }
      }
      ok := AtomicWrite(WriteManifest(plan.manifest), left);
      return if ok then Done else Stopped;
    }
  }
}
