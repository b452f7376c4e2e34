// The prove service as a program: the manager's job table and permit, the tasks it has spawned and the
// requests in progress, over a disk and prover processes that are not its own.
module ProveService {
  import opened Wrappers
  import opened Proving
  import opened ProveBlocks

  // What happened, of which the service itself keeps nothing.
  datatype Record = Record(
    carrier: map<JobId, Carrier>,
    holder: Option<nat>,
    orphaned: set<JobId>,
    replies: seq<Reply>,
    time: nat)
  {
    function Ticked(): Record {
      this.(time := time + 1)
    }
  }

  class ProveManager {
    var disk: map<JobId, Proof>
    var processes: map<nat, Process>
    var jobs: map<JobId, JobState>
    var permits: nat
    var tasks: map<nat, Task>
    var requests: map<nat, Request>
    var record: Record

    function Model(): System
      reads this
    {
      System(disk, processes, jobs, permits, tasks, requests, record.carrier, record.holder, record.orphaned,
        record.replies, record.time)
    }

    constructor (disk: map<JobId, Proof>)
      ensures Model() == Init(disk)
    {
      this.disk, processes, jobs, permits, tasks, requests := disk, map[], map[], 1, map[], map[];
      record := Record(map[], None, {}, [], 0);
    }

    // ----- The blocks of a request -----------------------------------------------------------------

    method SendReply(id: nat, status: Status)
      requires id in requests
      modifies `requests, `record
      ensures Model() == Answer(old(Model()), id, status)
    {
      var r := requests[id];
      requests := requests - {id};
      record := record.(replies := record.replies + [Reply(r.job, status, r.afterDone, r.readAt)]);
    }

    method BeginRequest(id: nat, submits: bool, job: JobId)
      requires Enabled(Model(), Begin(id, submits, job))
      modifies `requests, `record
      ensures Model() == Next(old(Model()), Begin(id, submits, job))
    {
      requests := requests[id := Request(submits, job, AtDisk, ReportedDone(record.replies, job), 0)];
      record := record.Ticked();
    }

    // `submit` and `status` both answer from the disk before they look at anything else.
    method ReadProofFromDisk(id: nat) returns (answer: Option<Status>)
      requires Enabled(Model(), ReadDisk(id))
      modifies `requests, `record
      ensures Model() == Next(old(Model()), ReadDisk(id))
      ensures
        var job := old(requests)[id].job;
        answer == if job in disk then Some(Done(disk[job])) else None
    {
      var r := requests[id];
      requests := requests[id := r.(readAt := record.time)];
      if r.job in disk {
        answer := Some(Done(disk[r.job]));
        SendReply(id, answer.value);
      } else {
        answer := None;
        requests := requests[id := requests[id].(at := AtLock)];
      }
      record := record.Ticked();
    }

    // The block under the lock: a poll reports the table; a submit finds the job running or claims it.
    method LockJobs(id: nat) returns (answer: Option<Status>)
      requires Enabled(Model(), TakeLock(id))
      modifies `jobs, `requests, `record
      ensures Model() == Next(old(Model()), TakeLock(id))
      ensures
        var r := old(requests)[id];
        answer == if r.job in old(jobs) && old(jobs)[r.job].Running? then Some(IsRunning)
          else if r.submits then None
          else if r.job in old(jobs) then Some(IsError(old(jobs)[r.job].message)) else Some(NotStarted)
    {
      var r := requests[id];
      if r.job in jobs && jobs[r.job].Running? {
        answer := Some(IsRunning);
      } else if r.submits {
        answer := None;
        jobs := jobs[r.job := Running];
        record := record.(carrier := record.carrier[r.job := ByRequest(id)]);
        requests := requests[id := r.(at := AtSpawn)];
      } else if r.job in jobs {
        answer := Some(IsError(jobs[r.job].message));
      } else {
        answer := Some(NotStarted);
      }
      if answer.Some? {
        SendReply(id, answer.value);
      }
      record := record.Ticked();
    }

    method SpawnTask(id: nat, task: nat)
      requires Enabled(Model(), Spawn(id, task))
      modifies `tasks, `requests, `record
      ensures Model() == Next(old(Model()), Spawn(id, task))
    {
      var job := requests[id].job;
      tasks := tasks[task := Task(job, Queued)];
      record := record.(carrier := record.carrier[job := ByTask(task)]);
      SendReply(id, IsRunning);
      record := record.Ticked();
    }

    // ----- The blocks of a task --------------------------------------------------------------------

    method AcquirePermit(task: nat)
      requires Enabled(Model(), Acquire(task))
      modifies `tasks, `permits, `record
      ensures Model() == Next(old(Model()), Acquire(task))
    {
      permits := permits - 1;
      tasks := tasks[task := tasks[task].(phase := Entered)];
      record := record.(holder := Some(task)).Ticked();
    }

    // The prover run starts by looking for a finished proof; `startFails` is a failure before the
    // prover process exists (no endpoint configured, no output directory, no chain head).
    method StartProver(task: nat, startFails: Option<string>, process: nat) returns (started: bool)
      requires Enabled(Model(), Recheck(task, startFails, process))
      modifies `tasks, `processes, `record
      ensures Model() == Next(old(Model()), Recheck(task, startFails, process))
      ensures started <==> tasks[task].phase.Proving?
    {
      var job := tasks[task].job;
      var phase;
      if job in disk {
        phase := Ended(Ok(()));
      } else if startFails.Some? {
        phase := Ended(Err(startFails.value));
      } else {
        phase := Proving(process);
        processes := processes[process := Process(job, false)];
      }
      tasks := tasks[task := tasks[task].(phase := phase)];
      started := phase.Proving?;
      record := record.Ticked();
    }

    method LeaveProof(process: nat, proof: Proof)
      requires Enabled(Model(), WriteProof(process, proof))
      modifies `processes, `disk, `record
      ensures Model() == Next(old(Model()), WriteProof(process, proof))
    {
      var p := processes[process];
      disk := disk[p.job := proof];
      processes := processes[process := p.(wrote := true)];
      record := record.Ticked();
    }

    // After the process has exited, success still depends on a readable proof.
    method EndProver(task: nat, success: bool)
      requires Enabled(Model(), ProverExits(task, success))
      modifies `tasks, `processes, `record
      ensures Model() == Next(old(Model()), ProverExits(task, success))
    {
      processes := processes - {tasks[task].phase.process};
      var result;
      if !success {
        result := Err(EXIT_FAILED);
      } else if tasks[task].job in disk {
        result := Ok(());
      } else {
        result := Err(NO_PROOF);
      }
      tasks := tasks[task := tasks[task].(phase := Ended(result))];
      record := record.Ticked();
    }

    method CatchPanic(task: nat)
      requires Enabled(Model(), Panic(task))
      modifies `tasks, `record
      ensures Model() == Next(old(Model()), Panic(task))
    {
      if tasks[task].phase.Proving? {
        record := record.(orphaned := record.orphaned + {tasks[task].job});
      }
      tasks := tasks[task := tasks[task].(phase := Ended(Err(PANICKED)))];
      record := record.Ticked();
    }

    // Under the lock: success drops the table entry, failure records it; then the permit is released.
    method RecordResult(task: nat)
      requires Enabled(Model(), Finish(task))
      modifies `jobs, `tasks, `permits, `record
      ensures Model() == Next(old(Model()), Finish(task))
    {
      var t := tasks[task];
      match t.phase.result {
        case Ok(_) => jobs := jobs - {t.job};
        case Err(e) => jobs := jobs[t.job := Failed(e)];
      }
      permits := permits + 1;
      tasks := tasks - {task};
      record := record.(carrier := record.carrier - {t.job}, holder := None).Ticked();
    }

    // ----- Requests --------------------------------------------------------------------------------

    // Both entrypoints look at the disk first.
    method Ask(id: nat, submits: bool, job: JobId) returns (answer: Option<Status>)
      requires id !in requests
      modifies `requests, `record
      ensures answer == if job in disk then Some(Done(disk[job])) else None
      ensures Model() == AfterAsk(old(Model()), id, submits, job)
    {
      AskReaches(Model(), id, submits, job);
      BeginRequest(id, submits, job);
      answer := ReadProofFromDisk(id);
    }

    // Past the disk: the table shows the job running, or it is claimed and its task spawned.
    method Claim(id: nat, task: nat)
      requires At(Model(), id, AtLock) && requests[id].submits && task !in tasks
      modifies `jobs, `tasks, `requests, `record
      ensures Model() == AfterClaim(old(Model()), id, task)
    {
      ghost var s := Model();
      var answer := LockJobs(id);
      if answer.None? {
        LockClaims(s, id);
        SpawnClaimed(s, id, task);
        SpawnTask(id, task);
      }
    }

    // A submit that nothing interrupts is answered done from the disk alone, and otherwise running. Then
    // the table shows the job running, and its task is spawned unless it showed that already.
    method Submit(id: nat, job: JobId, task: nat) returns (status: Status)
      requires id !in requests && task !in tasks
      modifies `jobs, `tasks, `requests, `record
      ensures status == if job in disk then Done(disk[job]) else IsRunning
      ensures
        var claims := job !in disk && !Claimed(old(Model()), job);
        && jobs == (if claims then old(jobs)[job := Running] else old(jobs))
        && tasks == (if claims then old(tasks)[task := Task(job, Queued)] else old(tasks))
      ensures requests == old(requests) && record.replies == old(record.replies)
        + [Reply(job, status, ReportedDone(old(record.replies), job), old(record.time) + 1)]
      ensures Leads(old(Model()), SubmitBlocks(old(Model()), id, job, task), Model())
    {
      ghost var s := Model();
      SubmitLeads(s, id, job, task);
      var answer := Ask(id, true, job);
      if answer.Some? {
        return answer.value;
      }
      ClaimSubmits(s, id, job, task);
      Claim(id, task);
      status := IsRunning;
    }

    // A poll that nothing interrupts changes nothing, and reports the disk first and the table second.
    method Status(id: nat, job: JobId) returns (status: Status)
      requires id !in requests
      modifies `jobs, `requests, `record
      ensures status == if job in disk then Done(disk[job]) else TableStatus(jobs, job)
      ensures jobs == old(jobs) && requests == old(requests) && record.replies == old(record.replies)
        + [Reply(job, status, ReportedDone(old(record.replies), job), old(record.time) + 1)]
      ensures Leads(old(Model()), PollBlocks(old(Model()), id, job), Model())
    {
      ghost var s := Model();
      PollLeads(s, id, job);
      var answer := Ask(id, false, job);
      if answer.None? {
        PollAnswered(s, id, job);
        answer := LockJobs(id);
      }
      status := answer.value;
    }

    // ----- A task ----------------------------------------------------------------------------------

    // Take the permit and look for a finished proof; a prover starts only without one.
    method Enter(task: nat, w: World) returns (started: bool)
      requires In(Model(), task, Queued) && 0 < permits && w.process !in processes
      modifies `tasks, `permits, `processes, `record
      ensures started == ProverStarts(old(Model()), old(tasks)[task].job, w)
      ensures Model() == AfterEnter(old(Model()), task, w)
    {
      ghost var s := Model();
      AcquireAdmits(s, task);
      RecheckEnters(s, task, w);
      AcquirePermit(task);
      started := StartProver(task, w.startFails, w.process);
    }

    // The prover process leaves its proof or does not, and exits.
    method RunProver(task: nat, w: World)
      requires In(Model(), task, Proving(w.process)) && w.process in processes
      requires processes[w.process] == Process(tasks[task].job, false) && tasks[task].job !in disk
      modifies `disk, `tasks, `processes, `record
      ensures Model() == AfterProver(old(Model()), task, w)
    {
      ghost var s := Model();
      ExitEnds(s, task, w);
      if w.proof.Some? {
        LeaveProof(w.process, w.proof.value);
      }
      assert Model() == Written(s, s.tasks[task].job, w);
      EndProver(task, w.success);
    }

    // A queued task that finds the permit free and that nothing interrupts. A job with a proof leaves the
    // table and no prover runs. Otherwise the job leaves the table exactly when the prover started, left a
    // proof and exited well; in every other case the table records why not. The permit is back, and no
    // process stays.
    method RunTask(task: nat, w: World)
      requires In(Model(), task, Queued) && 0 < permits && w.process !in processes
      modifies this
      ensures
        var job := old(tasks)[task].job;
        var starts := job !in old(disk) && w.startFails.None?;
        && disk == (if starts && w.proof.Some? then old(disk)[job := w.proof.value] else old(disk))
        && jobs == (if job in old(disk) || (starts && w.success && w.proof.Some?) then old(jobs) - {job}
             else old(jobs)[job := Failed(if !starts then w.startFails.value
               else if !w.success then EXIT_FAILED else NO_PROOF)])
      ensures permits == old(permits) && tasks == old(tasks) - {task} && processes == old(processes)
      ensures requests == old(requests) && record.replies == old(record.replies)
      ensures Leads(old(Model()), TaskBlocks(old(Model()), task, old(tasks)[task].job, w), Model())
    {
      ghost var s := Model();
      TaskLeads(s, task, w);
      TaskEffect(s, task, w);
      TaskEnds(s, task, w);
      var started := Enter(task, w);
      if started {
        RunProver(task, w);
      }
      assert Model() == BeforeFinish(s, task, w);
      RetireTask(task, s.tasks[task].job, TaskResult(s, s.tasks[task].job, w));
    }

    method RetireTask(task: nat, ghost job: JobId, ghost result: Result<(), string>)
      requires In(Model(), task, Ended(result)) && tasks[task].job == job
      modifies `jobs, `tasks, `permits, `record
      ensures Model() == AfterFinish(old(Model()), task, job, result)
    {
      FinishRecords(Model(), task, job, result);
      RecordResult(task);
    }
    // ----- The service ---------------------------------------------------------------------------------

    // A restart forgets everything but the disk and the prover processes.
    method RestartService()
      modifies `jobs, `tasks, `requests, `permits, `record
      ensures Model() == Next(old(Model()), Restart)
    {
      var left := record.orphaned + AtWork(Model());
      jobs, tasks, requests, permits := map[], map[], map[], 1;
      record := record.(carrier := map[], holder := None, orphaned := left).Ticked();
    }

    method EndOrphan(process: nat)
      requires Enabled(Model(), OrphanExits(process))
      modifies `processes, `record
      ensures Model() == Next(old(Model()), OrphanExits(process))
    {
      processes := processes - {process};
      record := record.Ticked();
    }

    method Happen(e: Event)
      requires Enabled(Model(), e)
      modifies this
      ensures Model() == Next(old(Model()), e)
    {
      match e {
        case Begin(id, submits, job) => BeginRequest(id, submits, job);
        case ReadDisk(id) => var _ := ReadProofFromDisk(id);
        case TakeLock(id) => var _ := LockJobs(id);
        case Spawn(id, task) => SpawnTask(id, task);
        case Acquire(task) => AcquirePermit(task);
        case Recheck(task, startFails, process) => var _ := StartProver(task, startFails, process);
        case WriteProof(process, proof) => LeaveProof(process, proof);
        case ProverExits(task, success) => EndProver(task, success);
        case OrphanExits(process) => EndOrphan(process);
        case Panic(task) => CatchPanic(task);
        case Finish(task) => RecordResult(task);
        case Restart => RestartService();
      }
    }

    // Any interleaving of the blocks.
    method Serve(events: seq<Event>)
      modifies this
      ensures Model() == Run(old(Model()), events)
    {
      ghost var s0 := Model();
      var i := 0;
      while i < |events|
        invariant 0 <= i <= |events|
        invariant Model() == Run(s0, events[..i])
      {
        assert events[..i + 1][..i] == events[..i];
        if Enabled(Model(), events[i]) {
          Happen(events[i]);
        } else {
          record := record.Ticked();
        }
        i := i + 1;
      }
      assert events[..i] == events;
    }
  }

  // Starting the service on a disk and letting its blocks interleave in any way reaches exactly the
  // states of the model, so everything proved of runs holds of this object's fields.
  method StartAndServe(disk: map<JobId, Proof>, events: seq<Event>) returns (m: ProveManager)
    ensures fresh(m) && m.Model() == After(disk, events)
  {
    m := new ProveManager(disk);
    m.Serve(events);
  }
}
