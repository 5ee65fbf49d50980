/**
  The CLI's write-ahead ownership journal over the client configuration files,
  shared by `write_clients` and `write_plugin`. A run plans all its atomic writes
  before the first of them; a crash keeps any prefix of the plan.
*/
module ConfigJournal {
  import opened Wrappers

  datatype ClientKind = Codex | Claude | Cursor

  /** The gateway's own entry, or one of a plugin. */
  datatype Slot = Main | Plugin(slug: string)

  /** A name in the management record: `codex`, or `codex:slug`. */
  datatype Name = Name(client: ClientKind, slot: Slot)

  /** JSON values as far as ownership looks at them: an entry, or an array of values. */
  datatype Value = Entry(id: nat) | List(items: seq<Value>)

  /** What a client file holds for a slot: an extractable entry, or markers that do not enclose one. */
  datatype Managed = Holds(value: Value) | Broken

  /** `layout` stands for everything about the bytes that is neither foreign content nor a managed entry. */
  datatype File = Malformed | File(foreign: nat, entries: map<Slot, Managed>, layout: nat)

  type Manifest = map<Name, Value>

  /** A missing file is a missing key; `manifest` is None when it cannot be parsed. */
  datatype Disk = Disk(manifest: Option<Manifest>, files: map<ClientKind, File>, backups: map<ClientKind, File>)

  const NO_FOREIGN := 0

  datatype Error = BadManifest | BadFile | Unmanaged | NothingSelected

  /** How the bytes of a rewritten file come out: any function of what was there and what is wanted. */
  type Arrange = (ClientKind, Option<File>, Slot, Option<nat>) -> nat

  /** One apply (`wanted` gives each client's entry) or remove (`remove`). */
  datatype Job = Job(slot: Slot, clients: seq<ClientKind>, remove: bool, wanted: ClientKind -> nat, arrange: Arrange)

  // ---- Ownership ----

  predicate Owns(manifest: Manifest, name: Name, value: Value) {
    name in manifest &&
    (manifest[name] == value || (manifest[name].List? && value in manifest[name].items))
  }

  function FileOf(disk: Disk, c: ClientKind): Option<File> {
    if c in disk.files then Some(disk.files[c]) else None
  }

  function Wanted(job: Job, c: ClientKind): Option<nat> {
    if job.remove then None else Some(job.wanted(c))
  }

  // ---- Planning ----

  /** The rewritten file of one client, after the ownership check. */
  function Rewritten(manifest: Manifest, c: ClientKind, prior: Option<File>, job: Job): Result<File, Error> {
    if prior.Some? && prior.value.Malformed? then Failure(BadFile)
    else
      var file := if prior.Some? then prior.value else File(NO_FOREIGN, map[], 0);
      if job.slot in file.entries && file.entries[job.slot].Broken? then Failure(BadFile)
      else if job.slot in file.entries && !Owns(manifest, Name(c, job.slot), file.entries[job.slot].value)
      then Failure(Unmanaged)
      else
        var entries :=
          if job.remove then file.entries - {job.slot}
          else file.entries[job.slot := Holds(Entry(job.wanted(c)))];
        Success(File(file.foreign, entries, job.arrange(c, prior, job.slot, Wanted(job, c))))
  }

  function Recorded(manifest: Manifest, c: ClientKind, job: Job): Manifest {
    if job.remove then manifest - {Name(c, job.slot)} else manifest[Name(c, job.slot) := Entry(job.wanted(c))]
  }

  datatype Update = Update(client: ClientKind, prior: Option<File>, next: File)

  /** Nothing to write: the bytes stay the same, or there is no file to remove from. */
  predicate Skips(prior: Option<File>, file: File, remove: bool) {
    prior == Some(file) || (remove && prior.None?)
  }

  datatype Plan = Plan(manifest: Manifest, updates: seq<Update>)

  /** One more client: its ownership check, its record and, unless nothing changes, its update. */
  function PlanNext(plan: Plan, prior: Option<File>, c: ClientKind, job: Job): Result<Plan, Error> {
    match Rewritten(plan.manifest, c, prior, job)
    case Failure(e) => Failure(e)
    case Success(file) =>
      var updates := if Skips(prior, file, job.remove) then plan.updates else plan.updates + [Update(c, prior, file)];
      Success(Plan(Recorded(plan.manifest, c, job), updates))
  }

  function PlanClients(previous: Manifest, disk: Disk, clients: seq<ClientKind>, job: Job): Result<Plan, Error> {
    if clients == [] then Success(Plan(previous, []))
    else
      var c := clients[|clients| - 1];
      match PlanClients(previous, disk, clients[..|clients| - 1], job)
      case Failure(e) => Failure(e)
      case Success(plan) => PlanNext(plan, FileOf(disk, c), c, job)
  }

  /** First occurrences, in order. */
  function Dedupe(clients: seq<ClientKind>): seq<ClientKind> {
    if clients == [] then []
    else
      var before, last := Dedupe(clients[..|clients| - 1]), clients[|clients| - 1];
      if last in before then before else before + [last]
  }

  // ---- The journal ----

  function Versions(manifest: Manifest, name: Name): seq<Value> {
    if name !in manifest then []
    else if manifest[name].List? then manifest[name].items
    else [manifest[name]]
  }

  function Journaled(previous: Manifest, next: Manifest, name: Name): Value
    requires name in next
  {
    var versions := Versions(previous, name);
    if name in previous && previous[name] == next[name] then next[name]
    else if next[name] in versions then List(versions)
    else List(versions + [next[name]])
  }

  /** Both versions of every record that changes; records about to go are kept as they are. */
  function Journal(previous: Manifest, next: Manifest): Manifest {
    previous + (map name | name in next :: Journaled(previous, next, name))
  }

  // ---- Atomic writes ----

  datatype Write =
    | WriteManifest(manifest: Manifest)
    | WriteBackup(client: ClientKind, file: File)
    | WriteFile(client: ClientKind, file: File)

  function Apply(disk: Disk, w: Write): Disk {
    match w
    case WriteManifest(manifest) => disk.(manifest := Some(manifest))
    case WriteBackup(client, file) => disk.(backups := disk.backups[client := file])
    case WriteFile(client, file) => disk.(files := disk.files[client := file])
  }

  function Execute(disk: Disk, writes: seq<Write>): Disk {
    if writes == [] then disk else Apply(Execute(disk, writes[..|writes| - 1]), writes[|writes| - 1])
  }

  function UpdateWrites(updates: seq<Update>): seq<Write> {
    if updates == [] then []
    else
      var before, u := UpdateWrites(updates[..|updates| - 1]), updates[|updates| - 1];
      if u.prior.Some? then before + [WriteBackup(u.client, u.prior.value), WriteFile(u.client, u.next)]
      else before + [WriteFile(u.client, u.next)]
  }

  function Writes(previous: Manifest, plan: Plan): seq<Write> {
    if plan.updates == [] then [WriteManifest(plan.manifest)]
    else [WriteManifest(Journal(previous, plan.manifest))] + UpdateWrites(plan.updates) + [WriteManifest(plan.manifest)]
  }

  /** Everything a run decides before its first write. */
  function Prepare(disk: Disk, job: Job): Result<Plan, Error> {
    if job.clients == [] then Failure(NothingSelected)
    else if disk.manifest.None? then Failure(BadManifest)
    else PlanClients(disk.manifest.value, disk, Dedupe(job.clients), job)
  }

  /** The disk after a run that was cut off after `k` writes; a run that cannot be planned writes nothing. */
  function Interrupted(disk: Disk, job: Job, k: nat): Disk {
    match Prepare(disk, job)
    case Failure(_) => disk
    case Success(plan) =>
      var writes := Writes(disk.manifest.value, plan);
      Execute(disk, if k < |writes| then writes[..k] else writes)
  }

  function Completed(disk: Disk, job: Job): Disk {
    match Prepare(disk, job)
    case Failure(_) => disk
    case Success(plan) => Execute(disk, Writes(disk.manifest.value, plan))
  }
}
