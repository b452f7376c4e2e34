// The submit/poll protocol of the prove service: requests, spawned tasks, one prover permit, a job
// table behind a lock, and a disk and prover processes that outlive the service. Every atomic block
// between two lock, disk or await points is one step, and runs interleave steps freely.
module Proving {
  import opened Wrappers

  type JobId = string

  datatype Proof = Proof(seal: string, journal: string, blockNumber: int, blockHash: string)

  datatype JobState = Running | Failed(message: string)

  datatype Status = IsRunning | Done(proof: Proof) | IsError(message: string) | NotStarted

  // A request in progress: before its disk read, before taking the lock, or about to spawn.
  datatype Place = AtDisk | AtLock | AtSpawn

  // History: `afterDone` records whether the job had already been reported done when the request
  // began, and `readAt` when the request read the disk.
  datatype Request = Request(submits: bool, job: JobId, at: Place, afterDone: bool, readAt: nat)

  // A prover process, and whether it has left its proof yet.
  datatype Process = Process(job: JobId, wrote: bool)

  // A spawned task: waiting for the permit, holding it before the disk check, waiting for a prover
  // process, or with a result and still holding the permit.
  datatype Phase = Queued | Entered | Proving(process: nat) | Ended(result: Result<(), string>)

  datatype Task = Task(job: JobId, phase: Phase)

  datatype Reply = Reply(job: JobId, status: Status, afterDone: bool, readAt: nat)

  // Who carries a job that the table shows running: the request about to spawn it, or its task.
  datatype Carrier = ByRequest(request: nat) | ByTask(task: nat)

  // The disk and the prover processes belong to the machine and the next five fields to the service.
  // The last five are history: who carries each job and holds the permit, the jobs of which a prover
  // was ever left behind at work, the answers given, and the number of events so far.
  datatype System = System(
    disk: map<JobId, Proof>,
    processes: map<nat, Process>,
    jobs: map<JobId, JobState>,
    permits: nat,
    tasks: map<nat, Task>,
    requests: map<nat, Request>,
    carrier: map<JobId, Carrier>,
    holder: Option<nat>,
    orphaned: set<JobId>,
    replies: seq<Reply>,
    time: nat)

  datatype Event =
    | Begin(request: nat, submits: bool, job: JobId)
    | ReadDisk(request: nat)
    | TakeLock(request: nat)
    | Spawn(request: nat, task: nat)
    | Acquire(task: nat)
    | Recheck(task: nat, startFails: Option<string>, process: nat)
    | WriteProof(process: nat, proof: Proof)
    | ProverExits(task: nat, success: bool)
    | OrphanExits(process: nat)
    | Panic(task: nat)
    | Finish(task: nat)
    | Restart

  function Init(disk: map<JobId, Proof>): System {
    System(disk, map[], map[], 1, map[], map[], map[], None, {}, [], 0)
  }

  predicate ReportedDone(replies: seq<Reply>, job: JobId) {
    exists i :: 0 <= i < |replies| && replies[i].job == job && replies[i].status.Done?
  }

  function Answer(s: System, id: nat, status: Status): (r: System)
    requires id in s.requests
    ensures r.disk == s.disk && r.processes == s.processes
  {
    var r := s.requests[id];
    s.(requests := s.requests - {id}, replies := s.replies + [Reply(r.job, status, r.afterDone, r.readAt)])
  }

  function MoveRequest(s: System, id: nat, at: Place): (r: System)
    requires id in s.requests
    ensures r.disk == s.disk && r.processes == s.processes
  {
    s.(requests := s.requests[id := s.requests[id].(at := at)])
  }

  function MoveTask(s: System, id: nat, phase: Phase): (r: System)
    requires id in s.tasks
    ensures r.disk == s.disk && r.processes == s.processes
  {
    s.(tasks := s.tasks[id := s.tasks[id].(phase := phase)])
  }

  // ----- The steps of a request ----------------------------------------------------------------

  function DoReadDisk(s: System, id: nat): (r: System)
    requires id in s.requests
    ensures r.disk == s.disk && r.processes == s.processes
  {
    var r := s.requests[id];
    if r.job in s.disk then Answer(Asked(s, id), id, Done(s.disk[r.job])) else MoveRequest(Asked(s, id), id, AtLock)
  }

  function Asked(s: System, id: nat): (r: System)
    requires id in s.requests
    ensures r.disk == s.disk && r.processes == s.processes && id in r.requests
  {
    s.(requests := s.requests[id := s.requests[id].(readAt := s.time)])
  }

  // Under the lock: a poll looks its job up; a submit finds it running or claims it.
  function DoTakeLock(s: System, id: nat): (r: System)
    requires id in s.requests
    ensures r.disk == s.disk && r.processes == s.processes
  {
    var r := s.requests[id];
    if r.job in s.jobs && s.jobs[r.job].Running? then Answer(s, id, IsRunning)
    else if r.submits then MoveRequest(s.(jobs := s.jobs[r.job := Running],
      carrier := s.carrier[r.job := ByRequest(id)]), id, AtSpawn)
    else if r.job in s.jobs then Answer(s, id, IsError(s.jobs[r.job].message))
    else Answer(s, id, NotStarted)
  }

  function DoSpawn(s: System, id: nat, task: nat): (r: System)
    requires id in s.requests
    ensures r.disk == s.disk && r.processes == s.processes
  {
    var job := s.requests[id].job;
    Answer(s.(tasks := s.tasks[task := Task(job, Queued)], carrier := s.carrier[job := ByTask(task)]), id, IsRunning)
  }

  // ----- The steps of a task and of a prover process ---------------------------------------------

  function DoRecheck(s: System, id: nat, startFails: Option<string>, process: nat): (r: System)
    requires id in s.tasks
    ensures r.disk == s.disk && (s.tasks[id].job in s.disk ==> r.processes == s.processes)
  {
    var job := s.tasks[id].job;
    if job in s.disk then MoveTask(s, id, Ended(Ok(())))
    else if startFails.Some? then MoveTask(s, id, Ended(Err(startFails.value)))
    else MoveTask(s, id, Proving(process)).(processes := s.processes[process := Process(job, false)])
  }

  function DoWriteProof(s: System, process: nat, proof: Proof): System
    requires process in s.processes
  {
    var p := s.processes[process];
    s.(disk := s.disk[p.job := proof], processes := s.processes[process := p.(wrote := true)])
  }

  function DoProverExits(s: System, id: nat, success: bool): (r: System)
    requires id in s.tasks && s.tasks[id].phase.Proving?
    ensures r.disk == s.disk
  {
    var gone := s.(processes := s.processes - {s.tasks[id].phase.process});
    if !success then MoveTask(gone, id, Ended(Err(EXIT_FAILED)))
    else if s.tasks[id].job in s.disk then MoveTask(gone, id, Ended(Ok(())))
    else MoveTask(gone, id, Ended(Err(NO_PROOF)))
  }

  const EXIT_FAILED := "prover exited with failure"
  const NO_PROOF := "prover produced no readable seal/journal"
  const PANICKED := "prove task failed"

  // The jobs of which a prover is still at work.
  function AtWork(s: System): set<JobId> {
    set p | p in s.processes && !s.processes[p].wrote :: s.processes[p].job
  }

  // A panicking task leaves its prover process, if it has one, behind.
  function DoPanic(s: System, id: nat): (r: System)
    requires id in s.tasks
    ensures r.disk == s.disk && r.processes == s.processes
  {
    var t := s.tasks[id];
    var ended := MoveTask(s, id, Ended(Err(PANICKED)));
    if t.phase.Proving? then ended.(orphaned := s.orphaned + {t.job}) else ended
  }

  function DoFinish(s: System, id: nat): (r: System)
    requires id in s.tasks && s.tasks[id].phase.Ended?
    ensures r.disk == s.disk && r.processes == s.processes
  {
    var t := s.tasks[id];
    var jobs := if t.phase.result.Ok? then s.jobs - {t.job} else s.jobs[t.job := Failed(t.phase.result.error)];
    s.(jobs := jobs, permits := s.permits + 1, tasks := s.tasks - {id}, carrier := s.carrier - {t.job}, holder := None)
  }

  // The service forgets everything; the disk stays, and so do the prover processes.
  function DoRestart(s: System): System {
    s.(jobs := map[], permits := 1, tasks := map[], requests := map[], carrier := map[], holder := None,
      orphaned := s.orphaned + AtWork(s))
  }

  predicate At(s: System, id: nat, at: Place) {
    id in s.requests && s.requests[id].at == at
  }

  predicate In(s: System, id: nat, phase: Phase) {
    id in s.tasks && s.tasks[id].phase == phase
  }

  // The task waits for a prover process.
  predicate Waits(s: System, id: nat) {
    id in s.tasks && s.tasks[id].phase.Proving?
  }

  // A live prover process that no task waits for.
  predicate Orphan(s: System, process: nat) {
    process in s.processes && forall id :: id in s.tasks ==> s.tasks[id].phase != Proving(process)
  }

  predicate Enabled(s: System, e: Event) {
    match e
    case Begin(id, _, _) => id !in s.requests
    case ReadDisk(id) => At(s, id, AtDisk)
    case TakeLock(id) => At(s, id, AtLock)
    case Spawn(id, task) => At(s, id, AtSpawn) && task !in s.tasks
    case Acquire(task) => In(s, task, Queued) && 0 < s.permits
    case Recheck(task, _, process) => In(s, task, Entered) && process !in s.processes
    case WriteProof(process, _) => process in s.processes && !s.processes[process].wrote
    case ProverExits(task, _) => Waits(s, task)
    case OrphanExits(process) => Orphan(s, process)
    case Panic(task) => In(s, task, Entered) || Waits(s, task)
    case Finish(task) => task in s.tasks && s.tasks[task].phase.Ended?
    case Restart => true
  }

  function Step(s: System, e: Event): (r: System)
    requires Enabled(s, e)
    ensures e.WriteProof? || r.disk == s.disk
  {
    match e
    case Begin(id, submits, job) =>
      s.(requests := s.requests[id := Request(submits, job, AtDisk, ReportedDone(s.replies, job), 0)])
    case ReadDisk(id) => DoReadDisk(s, id)
    case TakeLock(id) => DoTakeLock(s, id)
    case Spawn(id, task) => DoSpawn(s, id, task)
    case Acquire(task) => MoveTask(s, task, Entered).(permits := s.permits - 1, holder := Some(task))
    case Recheck(task, startFails, process) => DoRecheck(s, task, startFails, process)
    case WriteProof(process, proof) => DoWriteProof(s, process, proof)
    case ProverExits(task, success) => DoProverExits(s, task, success)
    case OrphanExits(process) => s.(processes := s.processes - {process})
    case Panic(task) => DoPanic(s, task)
    case Finish(task) => DoFinish(s, task)
    case Restart => DoRestart(s)
  }

  // An event that is not enabled does not happen.
  function Next(s: System, e: Event): System {
    Tick(if Enabled(s, e) then Step(s, e) else s)
  }

  function Tick(s: System): System {
    s.(time := s.time + 1)
  }

  function Run(s: System, events: seq<Event>): System {
    if events == [] then s else Next(Run(s, events[..|events| - 1]), events[|events| - 1])
  }

  // ----- Invariant -----------------------------------------------------------------------------

  predicate Holding(p: Phase) {
    !p.Queued?
  }

  predicate Claimed(s: System, job: JobId) {
    job in s.jobs && s.jobs[job].Running?
  }

  predicate Spawning(r: Request) {
    r.at == AtSpawn
  }

  // The table shows a job running exactly when somebody carries it, and every task and every
  // pending spawn is the carrier of its job.
  ghost predicate ClaimsOk(s: System) {
    && (forall job :: Claimed(s, job) <==> job in s.carrier)
    && (forall job :: job in s.carrier ==> Carries(s, job, s.carrier[job]))
    && (forall i :: i in s.tasks ==> s.tasks[i].job in s.carrier && s.carrier[s.tasks[i].job] == ByTask(i))
    && (forall i :: i in s.requests && Spawning(s.requests[i]) ==>
          s.requests[i].job in s.carrier && s.carrier[s.requests[i].job] == ByRequest(i))
  }

  predicate Carries(s: System, job: JobId, c: Carrier) {
    match c
    case ByTask(i) => i in s.tasks && s.tasks[i].job == job
    case ByRequest(i) => i in s.requests && Spawning(s.requests[i]) && s.requests[i].job == job
  }

  // The one permit is free, or exactly one task holds it.
  ghost predicate PermitOk(s: System) {
    && s.permits == (if s.holder.None? then 1 else 0)
    && (forall i :: i in s.tasks ==> (Holding(s.tasks[i].phase) <==> s.holder == Some(i)))
    && (s.holder.Some? ==> s.holder.value in s.tasks)
  }

  // A process at work on a job of which none was ever left behind.
  predicate Tended(s: System, p: nat) {
    p in s.processes && !s.processes[p].wrote && s.processes[p].job !in s.orphaned
  }

  // Whoever waits for a process waits for one of its own job; and unless a prover of the job was ever
  // left behind, a process at work is waited for by the task that holds the permit, on a job without
  // a proof.
  ghost predicate ProcessesOk(s: System) {
    && (forall id :: Waits(s, id) ==>
          s.tasks[id].phase.process in s.processes
          && s.processes[s.tasks[id].phase.process].job == s.tasks[id].job)
    && (forall p :: Tended(s, p) ==>
          s.holder.Some? && In(s, s.holder.value, Proving(p)) && s.processes[p].job !in s.disk)
  }

  // Done reports: the job has a proof, the reported one unless a prover of the job was ever left
  // behind; and nobody who began after one missed it.
  ghost predicate RepliesOk(s: System) {
    && (forall i :: 0 <= i < |s.replies| && s.replies[i].status.Done? ==>
          && s.replies[i].job in s.disk
          && (s.replies[i].job !in s.orphaned ==> s.disk[s.replies[i].job] == s.replies[i].status.proof))
    && (forall i :: 0 <= i < |s.replies| && s.replies[i].afterDone ==> s.replies[i].status.Done?)
    && (forall id :: id in s.requests && s.requests[id].afterDone ==>
          s.requests[id].job in s.disk && s.requests[id].at == AtDisk)
  }

  ghost predicate Inv(s: System) {
    ClaimsOk(s) && PermitOk(s) && ProcessesOk(s) && RepliesOk(s)
  }

  // ----- Every step keeps the invariant --------------------------------------------------------

  lemma {:induction false} BeginKeeps(s: System, e: Event)
    requires Inv(s) && Enabled(s, e) && e.Begin?
    ensures Inv(Step(s, e))
  {
  }

  // A request that has claimed nothing may be answered, truthfully about the disk.
  lemma {:induction false} AnswerKeeps(s: System, id: nat, status: Status)
    requires Inv(s) && id in s.requests && !Spawning(s.requests[id])
    requires status.Done? ==> s.requests[id].job in s.disk && s.disk[s.requests[id].job] == status.proof
    requires s.requests[id].afterDone ==> status.Done?
    ensures Inv(Answer(s, id, status))
  {
  }

  lemma {:induction false} AskKeeps(s: System, id: nat)
    requires Inv(s) && At(s, id, AtDisk)
    ensures Inv(Asked(s, id)) && At(Asked(s, id), id, AtDisk)
  {
  }

  lemma {:induction false} PassKeeps(s: System, id: nat)
    requires Inv(s) && At(s, id, AtDisk) && s.requests[id].job !in s.disk
    ensures Inv(MoveRequest(s, id, AtLock))
  {
  }

  lemma {:induction false} ReadDiskKeeps(s: System, e: Event)
    requires Inv(s) && Enabled(s, e) && e.ReadDisk?
    ensures Inv(Step(s, e))
  {
    var id, asked := e.request, Asked(s, e.request);
    AskKeeps(s, id);
    if asked.requests[id].job in s.disk {
      AnswerKeeps(asked, id, Done(s.disk[asked.requests[id].job]));
    } else {
      PassKeeps(asked, id);
    }
  }

  lemma {:induction false} ClaimKeeps(s: System, id: nat)
    requires Inv(s) && At(s, id, AtLock) && !Claimed(s, s.requests[id].job)
    ensures
      var job := s.requests[id].job;
      Inv(MoveRequest(s.(jobs := s.jobs[job := Running], carrier := s.carrier[job := ByRequest(id)]), id, AtSpawn))
  {
    var job := s.requests[id].job;
    var s' := MoveRequest(s.(jobs := s.jobs[job := Running], carrier := s.carrier[job := ByRequest(id)]), id, AtSpawn);
    ClaimKeepsClaims(s, id);
    assert !s.requests[id].afterDone;
    assert ProcessesOk(s') by {
      assert forall p :: Tended(s', p) ==> Tended(s, p);
    }
  }

  lemma {:induction false} ClaimKeepsClaims(s: System, id: nat)
    requires ClaimsOk(s) && At(s, id, AtLock) && !Claimed(s, s.requests[id].job)
    ensures
      var job := s.requests[id].job;
      ClaimsOk(MoveRequest(s.(jobs := s.jobs[job := Running], carrier := s.carrier[job := ByRequest(id)]), id, AtSpawn))
  {
    assert s.requests[id].job !in s.carrier;
  }

  lemma {:induction false} TakeLockKeeps(s: System, e: Event)
    requires Inv(s) && Enabled(s, e) && e.TakeLock?
    ensures Inv(Step(s, e))
  {
    var id := e.request;
    var r := s.requests[id];
    if Claimed(s, r.job) {
      AnswerKeeps(s, id, IsRunning);
    } else if r.submits {
      ClaimKeeps(s, id);
    } else {
      AnswerKeeps(s, id, if r.job in s.jobs then IsError(s.jobs[r.job].message) else NotStarted);
    }
  }

  lemma {:induction false} SpawnKeepsClaims(s: System, id: nat, task: nat)
    requires ClaimsOk(s) && At(s, id, AtSpawn) && task !in s.tasks
    ensures ClaimsOk(DoSpawn(s, id, task))
  {
  }

  lemma {:induction false} SpawnKeeps(s: System, e: Event)
    requires Inv(s) && Enabled(s, e) && e.Spawn?
    ensures Inv(Step(s, e))
  {
    var id, task := e.request, e.task;
    assert s.carrier[s.requests[id].job] == ByRequest(id);
    SpawnKeepsClaims(s, id, task);
  }

  lemma {:induction false} AcquireKeeps(s: System, e: Event)
    requires Inv(s) && Enabled(s, e) && e.Acquire?
    ensures Inv(Step(s, e))
  {
  }

  // A task that holds the permit and waits for nothing may change phase freely.
  lemma {:induction false} MoveTaskKeeps(s: System, id: nat, phase: Phase)
    requires Inv(s) && id in s.tasks && Holding(s.tasks[id].phase) && Holding(phase)
    requires !Waits(s, id) && !phase.Proving?
    ensures Inv(MoveTask(s, id, phase))
  {
  }

  // A task that no longer has a tended process may stop waiting.
  lemma {:induction false} StopWaitingKeeps(s: System, id: nat, s': System, result: Result<(), string>)
    requires Inv(s) && Waits(s, id)
    requires s' == MoveTask(s, id, Ended(result)).(processes := s'.processes, orphaned := s'.orphaned)
    requires s.orphaned <= s'.orphaned
    requires forall p :: p in s'.processes ==> p in s.processes && s'.processes[p] == s.processes[p]
    requires !Tended(s', s.tasks[id].phase.process)
    ensures Inv(s')
  {
    forall p
      ensures !Tended(s', p)
    {
      assert Tended(s', p) ==> Tended(s, p);
    }
  }

  lemma {:induction false} StartKeeps(s: System, id: nat, process: nat)
    requires Inv(s) && In(s, id, Entered) && process !in s.processes && s.tasks[id].job !in s.disk
    ensures
      Inv(MoveTask(s, id, Proving(process)).(processes := s.processes[process := Process(s.tasks[id].job, false)]))
  {
    var s' := MoveTask(s, id, Proving(process)).(processes := s.processes[process := Process(s.tasks[id].job, false)]);
    forall p | Tended(s', p)
      ensures p == process
    {
      assert p != process ==> Tended(s, p);
    }
  }

  lemma {:induction false} RecheckKeeps(s: System, e: Event)
    requires Inv(s) && Enabled(s, e) && e.Recheck?
    ensures Inv(Step(s, e))
  {
    var id, startFails := e.task, e.startFails;
    if s.tasks[id].job in s.disk {
      MoveTaskKeeps(s, id, Ended(Ok(())));
    } else if startFails.Some? {
      MoveTaskKeeps(s, id, Ended(Err(startFails.value)));
    } else {
      StartKeeps(s, id, e.process);
    }
  }

  // Where no prover was ever left behind, a process that writes is the only one at work on its job and
  // the job had no proof.
  lemma {:induction false} WriteProofKeeps(s: System, e: Event)
    requires Inv(s) && Enabled(s, e) && e.WriteProof?
    ensures Inv(Step(s, e))
  {
    var s', w := Step(s, e), e.process;
    var job := s.processes[w].job;
    assert job !in s.orphaned ==> Tended(s, w);
    forall p | Tended(s', p)
      ensures Tended(s, p) && s.processes[p].job != job
    {
      assert Tended(s, p);
    }
  }

  lemma {:induction false} ExitKeeps(s: System, e: Event)
    requires Inv(s) && Enabled(s, e) && e.ProverExits?
    ensures Inv(Step(s, e))
  {
    var s' := Step(s, e);
    StopWaitingKeeps(s, e.task, s', s'.tasks[e.task].phase.result);
  }

  lemma {:induction false} OrphanExitKeeps(s: System, e: Event)
    requires Inv(s) && Enabled(s, e) && e.OrphanExits?
    ensures Inv(Step(s, e))
  {
    var s' := Step(s, e);
    forall p | Tended(s', p)
      ensures Tended(s, p)
    {
    }
  }

  lemma {:induction false} PanicKeeps(s: System, e: Event)
    requires Inv(s) && Enabled(s, e) && e.Panic?
    ensures Inv(Step(s, e))
  {
    if Waits(s, e.task) {
      StopWaitingKeeps(s, e.task, Step(s, e), Err(PANICKED));
    } else {
      MoveTaskKeeps(s, e.task, Ended(Err(PANICKED)));
    }
  }

  lemma {:induction false} FinishKeeps(s: System, e: Event)
    requires Inv(s) && Enabled(s, e) && e.Finish?
    ensures Inv(Step(s, e))
  {
    var s' := Step(s, e);
    forall p | Tended(s', p)
      ensures false
    {
      assert Tended(s, p);
    }
  }

  lemma {:induction false} RestartKeeps(s: System, e: Event)
    requires Inv(s) && Enabled(s, e) && e.Restart?
    ensures Inv(Step(s, e))
  {
    var s' := Step(s, e);
    forall p
      ensures !Tended(s', p)
    {
      assert p in s.processes && !s.processes[p].wrote ==> s.processes[p].job in AtWork(s);
    }
  }

  lemma {:induction false} StepKeeps(s: System, e: Event)
    requires Inv(s) && Enabled(s, e)
    ensures Inv(Step(s, e))
  {
    match e
    case Begin(_, _, _) => BeginKeeps(s, e);
    case ReadDisk(_) => ReadDiskKeeps(s, e);
    case TakeLock(_) => TakeLockKeeps(s, e);
    case Spawn(_, _) => SpawnKeeps(s, e);
    case Acquire(_) => AcquireKeeps(s, e);
    case Recheck(_, _, _) => RecheckKeeps(s, e);
    case WriteProof(_, _) => WriteProofKeeps(s, e);
    case ProverExits(_, _) => ExitKeeps(s, e);
    case OrphanExits(_) => OrphanExitKeeps(s, e);
    case Panic(_) => PanicKeeps(s, e);
    case Finish(_) => FinishKeeps(s, e);
    case Restart => RestartKeeps(s, e);
  }

  lemma {:induction false} TickKeeps(s: System)
    requires Inv(s)
    ensures Inv(Tick(s))
  {
  }

  lemma {:induction false} NextKeeps(s: System, e: Event)
    requires Inv(s)
    ensures Inv(Next(s, e))
  {
    if Enabled(s, e) {
      StepKeeps(s, e);
      TickKeeps(Step(s, e));
    } else {
      TickKeeps(s);
    }
  }

  lemma {:induction false} RunKeeps(s: System, events: seq<Event>)
    requires Inv(s)
    ensures Inv(Run(s, events))
  {
    if events != [] {
      RunKeeps(s, events[..|events| - 1]);
      NextKeeps(Run(s, events[..|events| - 1]), events[|events| - 1]);
    }
  }

  lemma {:induction false} InitOk(disk: map<JobId, Proof>)
    ensures Inv(Init(disk))
  {
  }

  // ----- Main results --------------------------------------------------------------------------

  function After(disk: map<JobId, Proof>, events: seq<Event>): System {
    Run(Init(disk), events)
  }

  lemma {:induction false} AfterOk(disk: map<JobId, Proof>, events: seq<Event>)
    ensures Inv(After(disk, events))
  {
    InitOk(disk);
    RunKeeps(Init(disk), events);
  }

  // Whatever interleaving of requests, task steps, panics and restarts: a job has at most one task
  // in flight, spawned or about to be, and the table shows it running exactly while it has one.
  lemma {:induction false} OneTaskPerJob(disk: map<JobId, Proof>, events: seq<Event>, i: nat, j: nat, job: JobId)
    ensures
      var s := After(disk, events);
      && (Carries(s, job, ByTask(i)) && Carries(s, job, ByTask(j)) ==> i == j)
      && (Carries(s, job, ByRequest(i)) && Carries(s, job, ByRequest(j)) ==> i == j)
      && !(Carries(s, job, ByTask(i)) && Carries(s, job, ByRequest(j)))
      && (Claimed(s, job) <==> exists c :: Carries(s, job, c))
  {
    AfterOk(disk, events);
    var s := After(disk, events);
    if Claimed(s, job) {
      assert Carries(s, job, s.carrier[job]);
    }
  }

  // Of two live prover processes, one at least was left behind by a panic or a restart.
  lemma {:induction false} OneProverAtATime(disk: map<JobId, Proof>, events: seq<Event>, p: nat, q: nat)
    requires p in After(disk, events).processes && q in After(disk, events).processes && p != q
    ensures Orphan(After(disk, events), p) || Orphan(After(disk, events), q)
  {
    AfterOk(disk, events);
  }

  lemma {:induction false} RunSplits(s: System, events: seq<Event>, more: seq<Event>)
    ensures Run(s, events + more) == Run(Run(s, events), more)
  {
    if more == [] {
      assert events + more == events;
    } else {
      assert (events + more)[..|events + more| - 1] == events + more[..|more| - 1];
      RunSplits(s, events, more[..|more| - 1]);
    }
  }

  // A prover of the job is still at work.
  ghost predicate StillProving(s: System, job: JobId) {
    exists p :: p in s.processes && s.processes[p].job == job && !s.processes[p].wrote
  }

  // A job with a proof keeps one, and no prover is started for it; while none is at work, the proof
  // stays as it is.
  lemma {:induction false} StepKeepsProof(s: System, e: Event, job: JobId)
    requires job in s.disk && Enabled(s, e)
    ensures job in Step(s, e).disk
    ensures !StillProving(s, job) ==> Step(s, e).disk[job] == s.disk[job]
  {
  }

  lemma {:induction false} StepStartsNothing(s: System, e: Event, job: JobId, p: nat)
    requires job in s.disk && Enabled(s, e)
    requires p in Step(s, e).processes && Step(s, e).processes[p].job == job && !Step(s, e).processes[p].wrote
    ensures p in s.processes && s.processes[p] == Step(s, e).processes[p]
  {
  }

  lemma {:induction false} NextKeepsProof(s: System, e: Event, job: JobId)
    requires job in s.disk
    ensures job in Next(s, e).disk
    ensures StillProving(Next(s, e), job) ==> StillProving(s, job)
    ensures !StillProving(s, job) ==> Next(s, e).disk[job] == s.disk[job]
  {
    if Enabled(s, e) {
      StepKeepsProof(s, e, job);
      var s' := Step(s, e);
      if p :| p in s'.processes && s'.processes[p].job == job && !s'.processes[p].wrote {
        StepStartsNothing(s, e, job, p);
      }
    }
  }

  lemma {:induction false} RunKeepsProof(s: System, more: seq<Event>, job: JobId)
    requires job in s.disk
    ensures job in Run(s, more).disk
    ensures StillProving(Run(s, more), job) ==> StillProving(s, job)
    ensures !StillProving(s, job) ==> Run(s, more).disk[job] == s.disk[job]
  {
    if more != [] {
      RunKeepsProof(s, more[..|more| - 1], job);
      NextKeepsProof(Run(s, more[..|more| - 1]), more[|more| - 1], job);
    }
  }

  // A proof on disk is never lost, across restarts and panics, and no prover is started for its job
  // again. It is final, the same after everything that may follow, exactly when no prover of the job
  // is still at work.
  lemma {:induction false} FinalUnlessStillProving(disk: map<JobId, Proof>, events: seq<Event>, job: JobId)
    requires job in After(disk, events).disk
    ensures
      var s := After(disk, events);
      && (forall more :: job in Run(s, more).disk)
      && (forall more :: StillProving(Run(s, more), job) ==> StillProving(s, job))
      && ((forall more :: job in Run(s, more).disk && Run(s, more).disk[job] == s.disk[job]) <==> !StillProving(s, job))
  {
    var s := After(disk, events);
    forall more
      ensures job in Run(s, more).disk && (StillProving(Run(s, more), job) ==> StillProving(s, job))
      ensures !StillProving(s, job) ==> Run(s, more).disk[job] == s.disk[job]
    {
      RunKeepsProof(s, more, job);
    }
    if p :| p in s.processes && s.processes[p].job == job && !s.processes[p].wrote {
      var other := s.disk[job].(blockNumber := s.disk[job].blockNumber + 1);
      assert Run(s, [WriteProof(p, other)]) == Next(s, WriteProof(p, other));
      assert Run(s, [WriteProof(p, other)]).disk[job] == other;
    }
  }

  // So a proof is final from the moment it is on disk as long as no panic or restart has left a prover
  // of its job behind at work.
  lemma {:induction false} FinalUnlessLeftBehind(disk: map<JobId, Proof>, events: seq<Event>, more: seq<Event>,
      job: JobId)
    requires job in After(disk, events).disk && job !in After(disk, events).orphaned
    ensures
      var s, s' := After(disk, events), After(disk, events + more);
      job in s'.disk && s'.disk[job] == s.disk[job]
  {
    var s := After(disk, events);
    AfterOk(disk, events);
    assert !StillProving(s, job) by {
      if p :| p in s.processes && s.processes[p].job == job && !s.processes[p].wrote {
        assert Tended(s, p);
      }
    }
    RunSplits(Init(disk), events, more);
    RunKeepsProof(s, more, job);
  }

  // Once a job has been reported done, every request that begins afterwards is answered done, and with
  // the same proof unless a prover of the job was left behind at work.
  lemma {:induction false} DoneStaysDone(disk: map<JobId, Proof>, events: seq<Event>, i: nat, j: nat)
    requires i < |After(disk, events).replies| && j < |After(disk, events).replies|
    requires
      var replies := After(disk, events).replies;
      replies[i].job == replies[j].job && replies[i].status.Done? && replies[j].afterDone
    ensures
      var s := After(disk, events);
      && s.replies[j].status.Done?
      && (s.replies[i].job !in s.orphaned ==> s.replies[j].status == s.replies[i].status)
  {
    AfterOk(disk, events);
  }

  // ----- What an answer says about the disk ------------------------------------------------------

  // What a request's disk read was and found.
  ghost predicate ReadFound(disk: map<JobId, Proof>, events: seq<Event>, at: nat, job: JobId, found: Option<Proof>) {
    && at < |events| && events[at].ReadDisk?
    && var d := After(disk, events[..at]).disk;
       found == if job in d then Some(d[job]) else None
  }

  function FoundBy(status: Status): Option<Proof> {
    if status.Done? then Some(status.proof) else None
  }

  ghost predicate ReadsOk(disk: map<JobId, Proof>, events: seq<Event>, s: System) {
    && s.time == |events|
    && (forall i :: 0 <= i < |s.replies| ==>
          ReadFound(disk, events, s.replies[i].readAt, s.replies[i].job, FoundBy(s.replies[i].status)))
    && (forall id :: id in s.requests && s.requests[id].at != AtDisk ==>
          ReadFound(disk, events, s.requests[id].readAt, s.requests[id].job, None))
  }

  lemma {:induction false} FoundStays(disk: map<JobId, Proof>, events: seq<Event>, e: Event, at: nat, job: JobId,
      found: Option<Proof>)
    requires ReadFound(disk, events, at, job, found)
    ensures ReadFound(disk, events + [e], at, job, found)
  {
    assert (events + [e])[..at] == events[..at];
  }

  lemma {:induction false} ReadsStay(disk: map<JobId, Proof>, events: seq<Event>, e: Event, s: System)
    requires ReadsOk(disk, events, s)
    ensures ReadsOk(disk, events + [e], Tick(s))
  {
    forall i | 0 <= i < |s.replies|
      ensures ReadFound(disk, events + [e], s.replies[i].readAt, s.replies[i].job, FoundBy(s.replies[i].status))
    {
      FoundStays(disk, events, e, s.replies[i].readAt, s.replies[i].job, FoundBy(s.replies[i].status));
    }
    forall id | id in s.requests && s.requests[id].at != AtDisk
      ensures ReadFound(disk, events + [e], s.requests[id].readAt, s.requests[id].job, None)
    {
      FoundStays(disk, events, e, s.requests[id].readAt, s.requests[id].job, None);
    }
  }

  lemma {:induction false} AnswerReads(disk: map<JobId, Proof>, events: seq<Event>, s: System, id: nat, status: Status)
    requires ReadsOk(disk, events, s) && id in s.requests
    requires ReadFound(disk, events, s.requests[id].readAt, s.requests[id].job, FoundBy(status))
    ensures ReadsOk(disk, events, Answer(s, id, status))
  {
  }

  // A request past its disk read, which found nothing, may be answered anything but done.
  lemma {:induction false} TakeLockReads(disk: map<JobId, Proof>, events: seq<Event>, s: System, id: nat)
    requires ReadsOk(disk, events, s) && At(s, id, AtLock)
    ensures ReadsOk(disk, events, DoTakeLock(s, id))
  {
    var r := s.requests[id];
    assert ReadFound(disk, events, r.readAt, r.job, None);
    if Claimed(s, r.job) {
      AnswerReads(disk, events, s, id, IsRunning);
    } else if !r.submits {
      AnswerReads(disk, events, s, id, if r.job in s.jobs then IsError(s.jobs[r.job].message) else NotStarted);
    }
  }

  lemma {:induction false} SpawnReads(disk: map<JobId, Proof>, events: seq<Event>, s: System, id: nat, task: nat)
    requires ReadsOk(disk, events, s) && At(s, id, AtSpawn)
    ensures ReadsOk(disk, events, DoSpawn(s, id, task))
  {
    var job := s.requests[id].job;
    assert ReadFound(disk, events, s.requests[id].readAt, job, None);
    AnswerReads(disk, events, s.(tasks := s.tasks[task := Task(job, Queued)], carrier := s.carrier[job :=
      ByTask(task)]), id, IsRunning);
  }

  lemma {:induction false} AskReads(disk: map<JobId, Proof>, events: seq<Event>, s: System, id: nat)
    requires ReadsOk(disk, events, s) && At(s, id, AtDisk)
    ensures ReadsOk(disk, events, Asked(s, id))
  {
  }

  lemma {:induction false} DiskReads(disk: map<JobId, Proof>, events: seq<Event>, s: System, id: nat)
    requires s == After(disk, events) && ReadsOk(disk, events, s) && At(s, id, AtDisk)
    ensures ReadsOk(disk, events + [ReadDisk(id)], Tick(DoReadDisk(s, id)))
  {
    var r, more, asked := s.requests[id], events + [ReadDisk(id)], Tick(Asked(s, id));
    AskReads(disk, events, s, id);
    ReadsStay(disk, events, ReadDisk(id), Asked(s, id));
    assert more[..s.time] == events;
    assert ReadFound(disk, more, s.time, r.job, if r.job in s.disk then Some(s.disk[r.job]) else None);
    if r.job in s.disk {
      AnswerReads(disk, more, asked, id, Done(s.disk[r.job]));
      assert Tick(DoReadDisk(s, id)) == Answer(asked, id, Done(s.disk[r.job]));
    } else {
      assert Tick(DoReadDisk(s, id)) == MoveRequest(asked, id, AtLock);
    }
  }

  lemma {:induction false} ReadsFrame(disk: map<JobId, Proof>, events: seq<Event>, s: System, s': System)
    requires ReadsOk(disk, events, s) && s'.time == s.time && s'.replies == s.replies
    requires forall id :: id in s'.requests && s'.requests[id].at != AtDisk ==>
      id in s.requests && s'.requests[id] == s.requests[id]
    ensures ReadsOk(disk, events, s')
  {
  }

  // The other steps answer nobody and let nobody pass.
  lemma {:induction false} OtherReads(disk: map<JobId, Proof>, events: seq<Event>, s: System, e: Event)
    requires ReadsOk(disk, events, s) && Enabled(s, e) && !e.ReadDisk? && !e.TakeLock? && !e.Spawn?
    ensures ReadsOk(disk, events, Step(s, e))
  {
    OthersAnswerNobody(s, e);
    ReadsFrame(disk, events, s, Step(s, e));
  }

  lemma {:induction false} OthersAnswerNobody(s: System, e: Event)
    requires Enabled(s, e) && !e.ReadDisk? && !e.TakeLock? && !e.Spawn?
    ensures
      var s' := Step(s, e);
      && s'.time == s.time && s'.replies == s.replies
      && forall id :: id in s'.requests && s'.requests[id].at != AtDisk ==>
           id in s.requests && s'.requests[id] == s.requests[id]
  {
    if e.Begin? {
      assert Step(s, e).requests[e.request].at == AtDisk;
    } else if !e.Restart? {
      assert Step(s, e).requests == s.requests;
    }
  }

  lemma {:induction false} NextReads(disk: map<JobId, Proof>, events: seq<Event>, s: System, e: Event)
    requires s == After(disk, events) && ReadsOk(disk, events, s)
    ensures ReadsOk(disk, events + [e], Next(s, e))
  {
    if !Enabled(s, e) {
      ReadsStay(disk, events, e, s);
    } else if e.ReadDisk? {
      DiskReads(disk, events, s, e.request);
    } else {
      match e {
        case TakeLock(id) => TakeLockReads(disk, events, s, id);
        case Spawn(id, task) => SpawnReads(disk, events, s, id, task);
        case _ => OtherReads(disk, events, s, e);
      }
      ReadsStay(disk, events, e, Step(s, e));
    }
  }

  lemma {:induction false} RunReads(disk: map<JobId, Proof>, events: seq<Event>)
    ensures ReadsOk(disk, events, After(disk, events))
  {
    if events != [] {
      var front, e := events[..|events| - 1], events[|events| - 1];
      RunReads(disk, front);
      NextReads(disk, front, After(disk, front), e);
      assert front + [e] == events;
    }
  }

  // In every run, an answer is done exactly when the proof was on disk at the moment its request read
  // the disk, and then with that proof.
  lemma {:induction false} DoneIffReadFound(disk: map<JobId, Proof>, events: seq<Event>, i: nat)
    requires i < |After(disk, events).replies|
    ensures
      var r := After(disk, events).replies[i];
      && r.readAt < |events| && events[r.readAt].ReadDisk?
      && var d := After(disk, events[..r.readAt]).disk;
         && (r.status.Done? <==> r.job in d)
         && (r.status.Done? ==> r.status.proof == d[r.job])
  {
    RunReads(disk, events);
    var r := After(disk, events).replies[i];
    assert ReadFound(disk, events, r.readAt, r.job, FoundBy(r.status));
  }
}
