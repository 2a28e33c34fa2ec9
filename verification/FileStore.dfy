// The file store's write protocol: many clients and tasks, workers that cannot be
// stopped, cancellation, crashes, and readers that take no lock.
//
// A client is one open store handle with its own task lock; the file lock belongs to a
// handle and is re-entrant for it. A process that crashes loses all its clients.
module FileStore {
  import opened Wrappers
  import opened Staging
  import opened FileDocument

  // ---- Operations ---------------------------------------------------------------------

  // What an operation answers, and the document to write back if it changed anything.
  datatype Update = Update(result: string, document: Option<Document>)

  // What a client asks of the document. A migrator turns one session's part into another,
  // or refuses.
  datatype Request =
    | Opening(format: nat)
    | Committing(mutations: seq<(Key, Mutation)>)
    | Claiming(session: string, domain: string, version: string)
    | Migrating(session: string, migrator: SessionPart -> Option<SessionPart>)

  // The operation on the document; None if it raises.
  function Operate(request: Request, document: Document): Option<Update> {
    match request
    case Opening(format) =>
      // A new document is stamped; the format of one that is there is checked.
      if document.format.None? then Some(Update("", Some(Document(Some(format), map[]))))
      else if document.format.value != format then None
      else Some(Update("", None))
    case Committing(mutations) => Some(Update("", Some(WithMutations(document, mutations))))
    case Claiming(session, domain, version) =>
      var claimed := WithClaim(document, session, domain, version);
      Some(Update(claimed.0, claimed.1))
    case Migrating(session, migrator) =>
      match migrator(SessionOf(document, session))
      case None => None
      case Some(part) => Some(Update("", Some(document.(sessions := document.sessions[session := part]))))
  }

  // ---- Jobs ---------------------------------------------------------------------------

  datatype Outcome = Returned(result: string) | Failed | Cancelled | Crashed

  // Where one call of update_document stands. From Exclusive to Settled a worker thread
  // runs; the task waits for it even when cancelled.
  datatype Phase =
    | Waiting
    | Locked
    | Exclusive
    | Loaded(document: Document)
    | Changing(update: Update)
    | Creating(update: Update, temp: nat)
    | Written(update: Update, temp: nat)
    | Settled(outcome: Outcome)
    | Releasing(outcome: Outcome)
    | Done(outcome: Outcome)

  datatype Job = Job(client: nat, request: Request, phase: Phase, cancelled: bool)

  // A temporary's content, once it is written whole.
  datatype Disk = Disk(main: Option<Document>, temps: map<nat, Option<Document>>)

  // One operation that took effect.
  datatype Entry = Entry(job: nat, request: Request)

  // `ready` are the clients whose store was opened; `log` lists what took effect, in order.
  datatype World = World(
    disk: Disk,
    jobs: seq<Job>,
    ready: set<nat>,
    tasks: map<nat, nat>,      // the job holding each client's task lock
    file: Option<nat>,         // the client holding the file lock
    holds: nat,                // how many times it holds it
    log: seq<Entry>)

  const START := World(Disk(None, map[]), [], {}, map[], None, 0, [])

  // The document as read.
  function Content(disk: Disk): Document {
    if disk.main.None? then NO_DOCUMENT else disk.main.value
  }

  predicate Works(phase: Phase) {
    phase.Exclusive? || phase.Loaded? || phase.Changing? || phase.Creating? || phase.Written? || phase.Settled?
  }

  // ---- Steps --------------------------------------------------------------------------

  datatype Event =
    | Spawn(client: nat, request: Request)
    | Open(client: nat, format: nat)
    | TakeTaskLock(job: nat)
    | TakeFileLock(job: nat)
    | Sweep(job: nat, leftover: nat)
    | Load(job: nat)
    | Apply(job: nat)
    | CreateTemp(job: nat, name: nat)
    | WriteTemp(job: nat)
    | Replace(job: nat)
    | Fail(job: nat)
    | ReleaseFile(job: nat)
    | ReleaseTask(job: nat)
    | Cancel(job: nat)
    | Crash(client: nat)

  function Moved(w: World, j: nat, phase: Phase): seq<Job>
    requires j < |w.jobs|
  {
    w.jobs[j := w.jobs[j].(phase := phase)]
  }

  function WithJob(w: World, client: nat, request: Request): World {
    w.(jobs := w.jobs + [Job(client, request, Waiting, false)])
  }

  // A batch of nothing is committed without touching the document.
  predicate AsksNothing(request: Request) {
    request.Committing? && request.mutations == []
  }

  // A client is opened once, and works only after that returned.
  function Step(w: World, event: Event): World {
    match event
    case Spawn(client, request) =>
      if client in w.ready && !request.Opening? && !AsksNothing(request) then WithJob(w, client, request) else w
    case Open(client, format) =>
      if exists j :: 0 <= j < |w.jobs| && w.jobs[j].client == client then w else WithJob(w, client, Opening(format))
    case Crash(client) => Crashing(w, client)
    case _ => if event.job < |w.jobs| then JobStep(w, event, event.job, w.jobs[event.job]) else w
  }

  function JobStep(w: World, event: Event, j: nat, job: Job): World
    requires j < |w.jobs| && job == w.jobs[j]
    requires !event.Spawn? && !event.Open? && !event.Crash?
  {
    if event.Cancel? && job.request.Opening? then w // opening does not suspend
    else
      match (event, job.phase)
      case (TakeTaskLock(_), Waiting) =>
        if job.client in w.tasks then w else w.(jobs := Moved(w, j, Locked), tasks := w.tasks[job.client := j])
      case (TakeFileLock(_), Locked) =>
        if w.file.Some? && w.file.value != job.client then w
        else w.(jobs := Moved(w, j, Exclusive), file := Some(job.client), holds := w.holds + 1)
      case (Sweep(_, leftover), Exclusive) =>
        if job.request.Opening? then w.(disk := w.disk.(temps := w.disk.temps - {leftover})) else w
      case (Load(_), Exclusive) =>
        if job.request.Opening? && w.disk.temps != map[] then w else w.(jobs := Moved(w, j, Loaded(Content(w.disk))))
      case (Apply(_), Loaded(document)) => Operated(w, j, Operate(job.request, document))
      case (CreateTemp(_, name), Changing(update)) =>
        if name in w.disk.temps then w
        else w.(jobs := Moved(w, j, Creating(update, name)), disk := w.disk.(temps := w.disk.temps[name := None]))
      case (WriteTemp(_), Creating(update, temp)) =>
        if temp !in w.disk.temps then w
        else
          w.(jobs := Moved(w, j, Written(update, temp)), disk := w.disk.(temps := w.disk.temps[temp := update.document]))
      case (Replace(_), Written(update, temp)) =>
        if temp !in w.disk.temps then w
        else
          w.(jobs := Moved(w, j, Settled(Returned(update.result))),
             disk := Disk(w.disk.temps[temp], w.disk.temps - {temp}),
             log := w.log + [Entry(j, w.jobs[j].request)])
      case (Fail(_), Exclusive) => w.(jobs := Moved(w, j, Settled(Failed)))
      case (Fail(_), Changing(_)) => w.(jobs := Moved(w, j, Settled(Failed)))
      case (Fail(_), Creating(_, temp)) => FailedWrite(w, j, temp)
      case (Fail(_), Written(_, temp)) => FailedWrite(w, j, temp)
      case (ReleaseFile(_), Settled(outcome)) =>
        w.(jobs := Moved(w, j, Releasing(outcome)),
           holds := if w.holds > 0 then w.holds - 1 else 0,
           file := if w.holds > 1 then w.file else None)
      case (ReleaseTask(_), Releasing(outcome)) =>
        w.(jobs := Moved(w, j, Done(if job.cancelled then Cancelled else outcome)),
           ready := w.ready + (if job.request.Opening? && outcome.Returned? then {job.client} else {}),
           tasks := w.tasks - {job.client})
      case (Cancel(_), Waiting) => w.(jobs := Moved(w, j, Done(Cancelled)))
      case (Cancel(_), Locked) => w.(jobs := Moved(w, j, Done(Cancelled)), tasks := w.tasks - {job.client})
      case (Cancel(_), Done(_)) => w
      case (Cancel(_), _) => w.(jobs := w.jobs[j := job.(cancelled := true)])
      case _ => w
  }

  // The operation ran on what was read; if it changed nothing, it is over.
  function Operated(w: World, j: nat, update: Option<Update>): World
    requires j < |w.jobs|
  {
    if update.None? then w.(jobs := Moved(w, j, Settled(Failed)))
    else if update.value.document.None? then
      w.(jobs := Moved(w, j, Settled(Returned(update.value.result))), log := w.log + [Entry(j, w.jobs[j].request)])
    else w.(jobs := Moved(w, j, Changing(update.value)))
  }

  function FailedWrite(w: World, j: nat, temp: nat): World
    requires j < |w.jobs|
  {
    w.(jobs := Moved(w, j, Settled(Failed)), disk := w.disk.(temps := w.disk.temps - {temp}))
  }

  // Threads and locks go with the process; what is on disk stays.
  function Crashing(w: World, client: nat): World {
    w.(jobs := seq(|w.jobs|, i requires 0 <= i < |w.jobs| =>
          if w.jobs[i].client == client && !w.jobs[i].phase.Done? then w.jobs[i].(phase := Done(Crashed)) else w.jobs[i]),
       ready := w.ready - {client},
       tasks := w.tasks - {client},
       file := if w.file == Some(client) then None else w.file,
       holds := if w.file == Some(client) then 0 else w.holds)
  }

  function Play(events: seq<Event>): World {
    if events == [] then START else Step(Play(events[..|events| - 1]), events[|events| - 1])
  }

  // ---- Locks --------------------------------------------------------------------------

  predicate HoldsTask(phase: Phase) {
    phase.Locked? || Works(phase) || phase.Releasing?
  }

  ghost predicate TaskLocks(jobs: seq<Job>, tasks: map<nat, nat>) {
    && (forall c :: c in tasks ==>
          tasks[c] < |jobs| && jobs[tasks[c]].client == c && HoldsTask(jobs[tasks[c]].phase))
    && (forall j: nat :: j < |jobs| && HoldsTask(jobs[j].phase) ==>
          jobs[j].client in tasks && tasks[jobs[j].client] == j)
  }

  ghost predicate FileLock(jobs: seq<Job>, tasks: map<nat, nat>, file: Option<nat>, holds: nat) {
    && (file.None? ==> holds == 0)
    && (file.Some? ==>
          holds == 1 && file.value in tasks && tasks[file.value] < |jobs| && Works(jobs[tasks[file.value]].phase))
    && (forall j: nat :: j < |jobs| && Works(jobs[j].phase) ==> file == Some(jobs[j].client))
  }

  ghost predicate Locks(w: World) {
    TaskLocks(w.jobs, w.tasks) && FileLock(w.jobs, w.tasks, w.file, w.holds)
  }

  // Moving a job on without it taking or giving up a lock.
  lemma {:induction false} SameLocks(w: World, j: nat, job: Job)
    requires Locks(w) && j < |w.jobs| && job.client == w.jobs[j].client
    requires HoldsTask(job.phase) == HoldsTask(w.jobs[j].phase) && Works(job.phase) == Works(w.jobs[j].phase)
    ensures TaskLocks(w.jobs[j := job], w.tasks) && FileLock(w.jobs[j := job], w.tasks, w.file, w.holds)
  {
  }

  lemma {:induction false} TaskLockTaken(w: World, j: nat)
    requires Locks(w) && j < |w.jobs| && w.jobs[j].phase.Waiting? && w.jobs[j].client !in w.tasks
    ensures Locks(w.(jobs := Moved(w, j, Locked), tasks := w.tasks[w.jobs[j].client := j]))
  {
  }

  lemma {:induction false} TaskLockReleased(w: World, j: nat, outcome: Outcome)
    requires Locks(w) && j < |w.jobs| && (w.jobs[j].phase.Locked? || w.jobs[j].phase.Releasing?)
    ensures forall ready :: Locks(
      w.(jobs := Moved(w, j, Done(outcome)), ready := ready, tasks := w.tasks - {w.jobs[j].client}))
  {
  }

  lemma {:induction false} FileLockTaken(w: World, j: nat)
    requires Locks(w) && j < |w.jobs| && w.jobs[j].phase.Locked?
    requires w.file.None? || w.file.value == w.jobs[j].client
    ensures Locks(w.(jobs := Moved(w, j, Exclusive), file := Some(w.jobs[j].client), holds := w.holds + 1))
  {
  }

  lemma {:induction false} FileLockReleased(w: World, j: nat, outcome: Outcome)
    requires Locks(w) && j < |w.jobs| && Works(w.jobs[j].phase)
    ensures Locks(w.(jobs := Moved(w, j, Releasing(outcome)), holds := 0, file := None)) && w.holds == 1
  {
  }

  lemma {:induction false} CrashKeepsLocks(w: World, client: nat)
    requires Locks(w)
    ensures Locks(Crashing(w, client))
  {
  }

  lemma {:induction false} NewJobKeepsLocks(w: World, job: Job)
    requires Locks(w) && job.phase.Waiting?
    ensures Locks(w.(jobs := w.jobs + [job]))
  {
  }

  // Steps of a job that take or release a lock.
  predicate ChangesLocks(event: Event, phase: Phase) {
    || (event.TakeTaskLock? && phase.Waiting?)
    || (event.TakeFileLock? && phase.Locked?)
    || (event.ReleaseFile? && phase.Settled?)
    || (event.ReleaseTask? && phase.Releasing?)
    || (event.Cancel? && phase.Locked?)
  }

  lemma {:induction false} OtherSteps(w: World, event: Event, j: nat)
    requires j < |w.jobs| && !event.Spawn? && !event.Open? && !event.Crash? && event.job == j
    requires !ChangesLocks(event, w.jobs[j].phase)
    ensures var after := Step(w, event);
      && after.tasks == w.tasks && after.file == w.file && after.holds == w.holds
      && |after.jobs| == |w.jobs| && after.jobs == w.jobs[j := after.jobs[j]]
      && after.jobs[j].client == w.jobs[j].client
      && HoldsTask(after.jobs[j].phase) == HoldsTask(w.jobs[j].phase)
      && Works(after.jobs[j].phase) == Works(w.jobs[j].phase)
  {
  }

  lemma {:induction false} LocksMove(w: World, event: Event, j: nat)
    requires Locks(w) && j < |w.jobs| && !event.Spawn? && !event.Open? && !event.Crash? && event.job == j
    requires ChangesLocks(event, w.jobs[j].phase)
    ensures Locks(Step(w, event))
  {
    hide TaskLocks, FileLock;
    var job := w.jobs[j];
    if event.TakeTaskLock? {
      if job.client !in w.tasks { TaskLockTaken(w, j); }
    } else if event.TakeFileLock? {
      if w.file.None? || w.file.value == job.client { FileLockTaken(w, j); }
    } else if event.ReleaseFile? {
      FileLockReleased(w, j, job.phase.outcome);
    } else if event.ReleaseTask? {
      TaskLockReleased(w, j, if job.cancelled then Cancelled else job.phase.outcome);
    } else if !job.request.Opening? {
      TaskLockReleased(w, j, Cancelled);
    }
  }

  lemma {:induction false} LocksKept(w: World, event: Event)
    requires Locks(w)
    ensures Locks(Step(w, event))
  {
    hide TaskLocks, FileLock, Crashing, JobStep, ChangesLocks;
    match event
    case Spawn(client, request) => NewJobKeepsLocks(w, Job(client, request, Waiting, false));
    case Open(client, format) => NewJobKeepsLocks(w, Job(client, Opening(format), Waiting, false));
    case Crash(client) => CrashKeepsLocks(w, client);
    case _ =>
      if event.job < |w.jobs| {
        if ChangesLocks(event, w.jobs[event.job].phase) {
          LocksMove(w, event, event.job);
        } else {
          OtherSteps(w, event, event.job);
          SameLocks(w, event.job, Step(w, event).jobs[event.job]);
        }
      }
  }

  // A working job holds its client's task lock and the file lock, so there is only one.
  lemma {:induction false} OneWorker(w: World, i: nat, j: nat)
    requires Locks(w) && i < |w.jobs| && j < |w.jobs| && Works(w.jobs[i].phase) && Works(w.jobs[j].phase)
    ensures i == j
  {
  }

  // ---- Work in progress ---------------------------------------------------------------

  // What a job has in hand is still current, and its temporary is there.
  ghost predicate Current(job: Job, disk: Disk) {
    match job.phase
    case Loaded(document) => document == Content(disk)
    case Changing(update) => Decided(job, disk, update)
    case Creating(update, temp) => Decided(job, disk, update) && temp in disk.temps
    case Written(update, temp) => Decided(job, disk, update) && temp in disk.temps && disk.temps[temp] == update.document
    case _ => true
  }

  ghost predicate Decided(job: Job, disk: Disk, update: Update) {
    update.document.Some? && Operate(job.request, Content(disk)) == Some(update)
  }

  ghost predicate AllCurrent(jobs: seq<Job>, disk: Disk) {
    forall j: nat :: j < |jobs| ==> Current(jobs[j], disk)
  }

  // A worker may change the disk: nobody else has anything in hand.
  lemma {:induction false} WorkerMoves(w: World, j: nat, job: Job, disk: Disk)
    requires Locks(w) && j < |w.jobs| && Works(w.jobs[j].phase) && Current(job, disk)
    ensures AllCurrent(w.jobs[j := job], disk)
  {
    hide TaskLocks, FileLock, Decided;
    forall i: nat | i < |w.jobs| && i != j ensures Current(w.jobs[i], disk) {
      if Works(w.jobs[i].phase) { OneWorker(w, i, j); }
    }
  }

  lemma {:induction false} OthersMove(w: World, j: nat, job: Job)
    requires AllCurrent(w.jobs, w.disk) && j < |w.jobs| && Current(job, w.disk)
    ensures AllCurrent(w.jobs[j := job], w.disk)
  {
  }

  lemma {:induction false} WorkMovesOn(w: World, event: Event, j: nat)
    requires Locks(w) && AllCurrent(w.jobs, w.disk) && j < |w.jobs|
    requires !event.Spawn? && !event.Open? && !event.Crash? && event.job == j
    ensures var after := Step(w, event);
      && |after.jobs| == |w.jobs| && after.jobs == w.jobs[j := after.jobs[j]]
      && Current(after.jobs[j], after.disk)
      && (after.disk != w.disk ==> Works(w.jobs[j].phase))
  {
    assert Current(w.jobs[j], w.disk);
  }

  lemma {:induction false} CurrentKept(w: World, event: Event)
    requires Locks(w) && AllCurrent(w.jobs, w.disk)
    ensures AllCurrent(Step(w, event).jobs, Step(w, event).disk)
  {
    hide Locks, Current, JobStep;
    match event
    case Spawn(client, request) => NewJobIsCurrent(w, Job(client, request, Waiting, false));
    case Open(client, format) => NewJobIsCurrent(w, Job(client, Opening(format), Waiting, false));
    case Crash(client) => CrashedIsCurrent(w, client);
    case _ =>
      if event.job < |w.jobs| {
        WorkMovesOn(w, event, event.job);
        var after := Step(w, event);
        if after.disk != w.disk {
          WorkerMoves(w, event.job, after.jobs[event.job], after.disk);
        } else {
          OthersMove(w, event.job, after.jobs[event.job]);
        }
      }
  }

  lemma {:induction false} NewJobIsCurrent(w: World, job: Job)
    requires AllCurrent(w.jobs, w.disk) && job.phase.Waiting?
    ensures AllCurrent(w.jobs + [job], w.disk)
  {
  }

  lemma {:induction false} CrashedIsCurrent(w: World, client: nat)
    requires AllCurrent(w.jobs, w.disk)
    ensures AllCurrent(Crashing(w, client).jobs, w.disk)
  {
    forall i: nat | i < |w.jobs| ensures Current(Crashing(w, client).jobs[i], w.disk) {
      assert Current(w.jobs[i], w.disk);
    }
  }
}
