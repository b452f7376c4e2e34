// What the blocks of one request or one task do when nothing comes between them.
module ProveBlocks {
  import opened Wrappers
  import opened Proving

  // The events lead from one state to the other.
  ghost predicate Leads(s: System, events: seq<Event>, s': System) {
    Run(s, events) == s'
  }

  lemma {:induction false} NoneLeads(s: System)
    ensures Leads(s, [], s)
  {
  }

  lemma {:induction false} OneLeads(s: System, e: Event, s': System)
    requires s' == Next(s, e)
    ensures Leads(s, [e], s')
  {
    assert [e][..0] == [];
  }

  lemma {:induction false} LeadsOn(s: System, e1: seq<Event>, s1: System, e2: seq<Event>, s2: System)
    requires Leads(s, e1, s1) && Leads(s1, e2, s2)
    ensures Leads(s, e1 + e2, s2)
  {
    RunSplits(s, e1, e2);
  }

  lemma {:induction false} TwoLead(s: System, a: Event, s1: System, b: Event, s2: System)
    requires s1 == Next(s, a) && s2 == Next(s1, b)
    ensures Leads(s, [a] + [b], s2)
  {
    OneLeads(s, a, s1);
    OneLeads(s1, b, s2);
    LeadsOn(s, [a], s1, [b], s2);
  }

  // ----- Requests ----------------------------------------------------------------------------------

  // The blocks both entrypoints start with.
  function AskBlocks(id: nat, submits: bool, job: JobId): seq<Event> {
    [Begin(id, submits, job)] + [ReadDisk(id)]
  }

  // A job with a proof is answered at once; otherwise the request is about to take the lock.
  function AfterAsk(s: System, id: nat, submits: bool, job: JobId): System {
    var again := ReportedDone(s.replies, job);
    if job in s.disk then
      s.(replies := s.replies + [Reply(job, Done(s.disk[job]), again, s.time + 1)], time := s.time + 2)
    else
      s.(requests := s.requests[id := Request(submits, job, AtLock, again, s.time + 1)], time := s.time + 2)
  }

  lemma {:induction false} ReadFinds(s: System, id: nat, requests: map<nat, Request>)
    requires At(s, id, AtDisk) && id !in requests && s.requests == requests[id := s.requests[id]]
    requires s.requests[id].job in s.disk
    ensures
      var r := s.requests[id];
      Next(s, ReadDisk(id)) == s.(requests := requests, time := s.time + 1,
        replies := s.replies + [Reply(r.job, Done(s.disk[r.job]), r.afterDone, s.time)])
  {
    assert Asked(s, id).requests - {id} == requests;
  }

  lemma {:induction false} ReadMisses(s: System, id: nat)
    requires At(s, id, AtDisk) && s.requests[id].job !in s.disk
    ensures Next(s, ReadDisk(id))
         == s.(requests := s.requests[id := s.requests[id].(at := AtLock, readAt := s.time)], time := s.time + 1)
  {
    var asked := Asked(s, id).requests;
    assert asked[id := asked[id].(at := AtLock)] == s.requests[id := s.requests[id].(at := AtLock, readAt := s.time)];
  }

  lemma {:induction false} AskReaches(s: System, id: nat, submits: bool, job: JobId)
    requires id !in s.requests
    ensures
      var s1 := Next(s, Begin(id, submits, job));
      Enabled(s1, ReadDisk(id)) && Next(s1, ReadDisk(id)) == AfterAsk(s, id, submits, job)
  {
    var s1 := Next(s, Begin(id, submits, job));
    if job in s.disk {
      ReadFinds(s1, id, s.requests);
    } else {
      ReadMisses(s1, id);
      assert s1.requests[id := Request(submits, job, AtLock, ReportedDone(s.replies, job), s1.time)]
          == AfterAsk(s, id, submits, job).requests;
    }
  }

  lemma {:induction false} AskLeads(s: System, id: nat, submits: bool, job: JobId)
    requires id !in s.requests
    ensures Leads(s, AskBlocks(id, submits, job), AfterAsk(s, id, submits, job))
  {
    AskReaches(s, id, submits, job);
    TwoLead(s, Begin(id, submits, job), Next(s, Begin(id, submits, job)), ReadDisk(id),
      AfterAsk(s, id, submits, job));
  }

  function ClaimBlocks(s: System, id: nat, job: JobId, task: nat): seq<Event> {
    [TakeLock(id)] + if Claimed(s, job) then [] else [Spawn(id, task)]
  }

  // Past the disk a submit is answered running; a job the table does not show running is claimed and its
  // task spawned.
  function AfterClaim(s: System, id: nat, task: nat): System
    requires id in s.requests
  {
    var r := s.requests[id];
    var answered := s.(requests := s.requests - {id}, time := s.time + 1,
      replies := s.replies + [Reply(r.job, IsRunning, r.afterDone, r.readAt)]);
    if Claimed(s, r.job) then answered
    else
      answered.(jobs := s.jobs[r.job := Running], tasks := s.tasks[task := Task(r.job, Queued)],
        carrier := s.carrier[r.job := ByTask(task)], time := s.time + 2)
  }

  // The state between the two blocks of a claim.
  function Locked(s: System, id: nat): System
    requires id in s.requests
  {
    var r := s.requests[id];
    s.(jobs := s.jobs[r.job := Running], carrier := s.carrier[r.job := ByRequest(id)],
      requests := s.requests[id := r.(at := AtSpawn)], time := s.time + 1)
  }

  lemma {:induction false} LockClaims(s: System, id: nat)
    requires At(s, id, AtLock) && s.requests[id].submits && !Claimed(s, s.requests[id].job)
    ensures Next(s, TakeLock(id)) == Locked(s, id)
  {
  }

  lemma {:induction false} SpawnClaimed(s: System, id: nat, task: nat)
    requires At(s, id, AtLock) && !Claimed(s, s.requests[id].job) && task !in s.tasks
    ensures Next(Locked(s, id), Spawn(id, task)) == AfterClaim(s, id, task)
  {
    var job := s.requests[id].job;
    assert Locked(s, id).requests - {id} == s.requests - {id};
    assert s.carrier[job := ByRequest(id)][job := ByTask(task)] == s.carrier[job := ByTask(task)];
  }

  lemma {:induction false} ClaimLeads(s: System, id: nat, task: nat)
    requires At(s, id, AtLock) && s.requests[id].submits && task !in s.tasks
    ensures Leads(s, ClaimBlocks(s, id, s.requests[id].job, task), AfterClaim(s, id, task))
  {
    if Claimed(s, s.requests[id].job) {
      OneLeads(s, TakeLock(id), AfterClaim(s, id, task));
      assert [TakeLock(id)] + [] == [TakeLock(id)];
    } else {
      LockClaims(s, id);
      SpawnClaimed(s, id, task);
      TwoLead(s, TakeLock(id), Locked(s, id), Spawn(id, task), AfterClaim(s, id, task));
    }
  }

  // The blocks of a submit from a given state, up to its answer.
  function SubmitBlocks(s: System, id: nat, job: JobId, task: nat): seq<Event> {
    AskBlocks(id, true, job) + if job in s.disk then [] else ClaimBlocks(s, id, job, task)
  }

  // What a submit changes in all: its answer, and a job it claims.
  function AfterSubmit(s: System, id: nat, job: JobId, task: nat): System {
    var again := ReportedDone(s.replies, job);
    if job in s.disk then
      s.(replies := s.replies + [Reply(job, Done(s.disk[job]), again, s.time + 1)], time := s.time + 2)
    else
      var answered := s.(replies := s.replies + [Reply(job, IsRunning, again, s.time + 1)], time := s.time + 3);
      if Claimed(s, job) then answered
      else
        answered.(jobs := s.jobs[job := Running], tasks := s.tasks[task := Task(job, Queued)],
          carrier := s.carrier[job := ByTask(task)], time := s.time + 4)
  }

  lemma {:induction false} ClaimSubmits(s: System, id: nat, job: JobId, task: nat)
    requires id !in s.requests && job !in s.disk
    ensures
      var asked := AfterAsk(s, id, true, job);
      id in asked.requests && AfterClaim(asked, id, task) == AfterSubmit(s, id, job, task)
  {
    assert AfterAsk(s, id, true, job).requests - {id} == s.requests;
  }

  lemma {:induction false} SubmitLeads(s: System, id: nat, job: JobId, task: nat)
    requires id !in s.requests && task !in s.tasks
    ensures Leads(s, SubmitBlocks(s, id, job, task), AfterSubmit(s, id, job, task))
  {
    var asked := AfterAsk(s, id, true, job);
    AskLeads(s, id, true, job);
    if job in s.disk {
      assert AskBlocks(id, true, job) + [] == AskBlocks(id, true, job);
    } else {
      ClaimLeads(asked, id, task);
      ClaimSubmits(s, id, job, task);
      LeadsOn(s, AskBlocks(id, true, job), asked, ClaimBlocks(s, id, job, task), AfterSubmit(s, id, job, task));
    }
  }

  function PollBlocks(s: System, id: nat, job: JobId): seq<Event> {
    AskBlocks(id, false, job) + if job in s.disk then [] else [TakeLock(id)]
  }

  // What a poll that found no proof is told from the table.
  function TableStatus(jobs: map<JobId, JobState>, job: JobId): Status {
    if job !in jobs then NotStarted else if jobs[job].Running? then IsRunning else IsError(jobs[job].message)
  }

  function AfterPoll(s: System, id: nat, job: JobId): System {
    var status := if job in s.disk then Done(s.disk[job]) else TableStatus(s.jobs, job);
    s.(replies := s.replies + [Reply(job, status, ReportedDone(s.replies, job), s.time + 1)],
      time := s.time + if job in s.disk then 2 else 3)
  }

  lemma {:induction false} LockAnswers(s: System, id: nat, requests: map<nat, Request>)
    requires At(s, id, AtLock) && !s.requests[id].submits && id !in requests
    requires s.requests == requests[id := s.requests[id]]
    ensures
      var r := s.requests[id];
      Next(s, TakeLock(id)) == s.(requests := requests, time := s.time + 1,
        replies := s.replies + [Reply(r.job, TableStatus(s.jobs, r.job), r.afterDone, r.readAt)])
  {
    assert s.requests - {id} == requests;
  }

  lemma {:induction false} PollAnswered(s: System, id: nat, job: JobId)
    requires id !in s.requests && job !in s.disk
    ensures Next(AfterAsk(s, id, false, job), TakeLock(id)) == AfterPoll(s, id, job)
  {
    LockAnswers(AfterAsk(s, id, false, job), id, s.requests);
  }

  lemma {:induction false} PollLeads(s: System, id: nat, job: JobId)
    requires id !in s.requests
    ensures Leads(s, PollBlocks(s, id, job), AfterPoll(s, id, job))
  {
    var asked := AfterAsk(s, id, false, job);
    AskLeads(s, id, false, job);
    if job in s.disk {
      assert AskBlocks(id, false, job) + [] == AskBlocks(id, false, job);
    } else {
      PollAnswered(s, id, job);
      OneLeads(asked, TakeLock(id), AfterPoll(s, id, job));
      LeadsOn(s, AskBlocks(id, false, job), asked, [TakeLock(id)], AfterPoll(s, id, job));
    }
  }

  // ----- Tasks -------------------------------------------------------------------------------------

  // What the world does to a task: how starting its prover fails, which process runs, the proof that it
  // leaves, and how it exits.
  datatype World = World(startFails: Option<string>, process: nat, proof: Option<Proof>, success: bool)

  function EnterBlocks(task: nat, w: World): seq<Event> {
    [Acquire(task)] + [Recheck(task, w.startFails, w.process)]
  }

  predicate ProverStarts(s: System, job: JobId, w: World) {
    job !in s.disk && w.startFails.None?
  }

  // The permit is taken, and a prover runs only for a job without a proof.
  function AfterEnter(s: System, task: nat, w: World): System
    requires task in s.tasks && 0 < s.permits
  {
    var job := s.tasks[task].job;
    s.(permits := s.permits - 1, holder := Some(task), time := s.time + 2,
      tasks := s.tasks[task := Task(job, NextPhase(s, job, w))], processes := NextProcesses(s, job, w))
  }

  function NextPhase(s: System, job: JobId, w: World): Phase {
    if job in s.disk then Ended(Ok(()))
    else if w.startFails.Some? then Ended(Err(w.startFails.value)) else Proving(w.process)
  }

  function NextProcesses(s: System, job: JobId, w: World): map<nat, Process> {
    if ProverStarts(s, job, w) then s.processes[w.process := Process(job, false)] else s.processes
  }

  // The task while it holds the permit and has not looked at the disk yet.
  function Admitted(s: System, task: nat): System
    requires task in s.tasks && 0 < s.permits
  {
    s.(permits := s.permits - 1, holder := Some(task), time := s.time + 1,
      tasks := s.tasks[task := Task(s.tasks[task].job, Entered)])
  }

  lemma {:induction false} AcquireAdmits(s: System, task: nat)
    requires In(s, task, Queued) && 0 < s.permits
    ensures Next(s, Acquire(task)) == Admitted(s, task)
  {
  }

  lemma {:induction false} RecheckMoves(s: System, task: nat, job: JobId, w: World)
    requires In(s, task, Entered) && s.tasks[task].job == job && w.process !in s.processes
    ensures Next(s, Recheck(task, w.startFails, w.process)) == s.(time := s.time + 1,
      tasks := s.tasks[task := Task(job, NextPhase(s, job, w))], processes := NextProcesses(s, job, w))
  {
  }

  lemma {:induction false} RecheckEnters(s: System, task: nat, w: World)
    requires task in s.tasks && 0 < s.permits && w.process !in s.processes
    ensures Next(Admitted(s, task), Recheck(task, w.startFails, w.process)) == AfterEnter(s, task, w)
  {
    var job := s.tasks[task].job;
    var again := Task(job, NextPhase(s, job, w));
    RecheckMoves(Admitted(s, task), task, job, w);
    assert s.tasks[task := Task(job, Entered)][task := again] == s.tasks[task := again];
  }

  lemma {:induction false} EnterLeads(s: System, task: nat, w: World)
    requires In(s, task, Queued) && 0 < s.permits && w.process !in s.processes
    ensures Leads(s, EnterBlocks(task, w), AfterEnter(s, task, w))
  {
    AcquireAdmits(s, task);
    RecheckEnters(s, task, w);
    TwoLead(s, Acquire(task), Admitted(s, task), Recheck(task, w.startFails, w.process), AfterEnter(s, task, w));
  }

  function ProverBlocks(task: nat, w: World): seq<Event> {
    (if w.proof.Some? then [WriteProof(w.process, w.proof.value)] else []) + [ProverExits(task, w.success)]
  }

  function LeftOnDisk(s: System, job: JobId, w: World): map<JobId, Proof> {
    if w.proof.Some? then s.disk[job := w.proof.value] else s.disk
  }

  function ProverResult(w: World): Result<(), string> {
    if !w.success then Err(EXIT_FAILED) else if w.proof.Some? then Ok(()) else Err(NO_PROOF)
  }

  // The prover has left its proof or has not, and is gone.
  function AfterProver(s: System, task: nat, w: World): System
    requires task in s.tasks
  {
    var job := s.tasks[task].job;
    s.(disk := LeftOnDisk(s, job, w), processes := s.processes - {w.process},
      tasks := s.tasks[task := Task(job, Ended(ProverResult(w)))],
      time := s.time + if w.proof.Some? then 2 else 1)
  }

  function Written(s: System, job: JobId, w: World): System {
    if w.proof.None? then s
    else
      s.(disk := LeftOnDisk(s, job, w), processes := s.processes[w.process := Process(job, true)], time := s.time + 1)
  }

  lemma {:induction false} WriteLeads(s: System, job: JobId, w: World)
    requires w.process in s.processes && s.processes[w.process] == Process(job, false)
    ensures Leads(s, if w.proof.Some? then [WriteProof(w.process, w.proof.value)] else [], Written(s, job, w))
  {
    NoneLeads(s);
    if w.proof.Some? {
      OneLeads(s, WriteProof(w.process, w.proof.value), Written(s, job, w));
    }
  }

  lemma {:induction false} ExitEnds(s: System, task: nat, w: World)
    requires In(s, task, Proving(w.process)) && s.tasks[task].job !in s.disk
    ensures Next(Written(s, s.tasks[task].job, w), ProverExits(task, w.success)) == AfterProver(s, task, w)
  {
    assert Written(s, s.tasks[task].job, w).processes - {w.process} == s.processes - {w.process};
  }

  lemma {:induction false} ProverLeads(s: System, task: nat, w: World)
    requires In(s, task, Proving(w.process)) && s.tasks[task].job !in s.disk
    requires w.process in s.processes && s.processes[w.process] == Process(s.tasks[task].job, false)
    ensures Leads(s, ProverBlocks(task, w), AfterProver(s, task, w))
  {
    var job := s.tasks[task].job;
    WriteLeads(s, job, w);
    ExitEnds(s, task, w);
    OneLeads(Written(s, job, w), ProverExits(task, w.success), AfterProver(s, task, w));
    LeadsOn(s, if w.proof.Some? then [WriteProof(w.process, w.proof.value)] else [], Written(s, job, w),
      [ProverExits(task, w.success)], AfterProver(s, task, w));
  }

  // The table records the result, and the permit is back.
  function AfterFinish(s: System, task: nat, job: JobId, result: Result<(), string>): System {
    s.(jobs := if result.Ok? then s.jobs - {job} else s.jobs[job := Failed(result.error)],
      permits := s.permits + 1, tasks := s.tasks - {task}, carrier := s.carrier - {job}, holder := None,
      time := s.time + 1)
  }

  lemma {:induction false} FinishRecords(s: System, task: nat, job: JobId, result: Result<(), string>)
    requires In(s, task, Ended(result)) && s.tasks[task].job == job
    ensures Next(s, Finish(task)) == AfterFinish(s, task, job, result)
  {
  }

  // The blocks of a task, and the state after them.
  function TaskBlocks(s: System, task: nat, job: JobId, w: World): seq<Event> {
    EnterBlocks(task, w) + (if ProverStarts(s, job, w) then ProverBlocks(task, w) else []) + [Finish(task)]
  }

  function TaskResult(s: System, job: JobId, w: World): Result<(), string> {
    if job in s.disk then Ok(()) else if w.startFails.Some? then Err(w.startFails.value) else ProverResult(w)
  }

  function BeforeFinish(s: System, task: nat, w: World): System
    requires task in s.tasks && 0 < s.permits
  {
    var entered := AfterEnter(s, task, w);
    if ProverStarts(s, s.tasks[task].job, w) then AfterProver(entered, task, w) else entered
  }

  function AfterTask(s: System, task: nat, w: World): System
    requires task in s.tasks && 0 < s.permits
  {
    var job := s.tasks[task].job;
    AfterFinish(BeforeFinish(s, task, w), task, job, TaskResult(s, job, w))
  }

  // What a task changes in all: the proof it leaves and the table's word on its job.
  lemma {:induction false} TaskEffect(s: System, task: nat, w: World)
    requires task in s.tasks && 0 < s.permits && w.process !in s.processes
    ensures
      var job, s' := s.tasks[task].job, AfterTask(s, task, w);
      && s'.disk == (if ProverStarts(s, job, w) then LeftOnDisk(s, job, w) else s.disk)
      && s'.processes == s.processes && s'.permits == s.permits && s'.tasks == s.tasks - {task}
      && s'.requests == s.requests && s'.replies == s.replies
      && s'.jobs == (if TaskResult(s, job, w).Ok? then s.jobs - {job}
           else s.jobs[job := Failed(TaskResult(s, job, w).error)])
  {
    TasksAfter(s, task, w);
  }

  lemma {:induction false} TasksAfter(s: System, task: nat, w: World)
    requires task in s.tasks && 0 < s.permits && w.process !in s.processes
    ensures BeforeFinish(s, task, w).tasks - {task} == s.tasks - {task}
    ensures BeforeFinish(s, task, w).processes == s.processes
  {
    var ended := BeforeFinish(s, task, w);
    assert ended.tasks - {task} == s.tasks - {task};
    assert ended.processes == s.processes;
  }

  lemma {:induction false} TaskEnds(s: System, task: nat, w: World)
    requires In(s, task, Queued) && 0 < s.permits
    ensures
      var ended, job := BeforeFinish(s, task, w), s.tasks[task].job;
      In(ended, task, Ended(TaskResult(s, job, w))) && ended.tasks[task].job == job
  {
  }

  lemma {:induction false} TaskLeads(s: System, task: nat, w: World)
    requires In(s, task, Queued) && 0 < s.permits && w.process !in s.processes
    ensures Leads(s, TaskBlocks(s, task, s.tasks[task].job, w), AfterTask(s, task, w))
  {
    var job, entered, ended := s.tasks[task].job, AfterEnter(s, task, w), BeforeFinish(s, task, w);
    var middle := if ProverStarts(s, job, w) then ProverBlocks(task, w) else [];
    EnterLeads(s, task, w);
    if ProverStarts(s, job, w) {
      ProverLeads(entered, task, w);
    } else {
      NoneLeads(entered);
    }
    LeadsOn(s, EnterBlocks(task, w), entered, middle, ended);
    TaskEnds(s, task, w);
    FinishRecords(ended, task, job, TaskResult(s, job, w));
    OneLeads(ended, Finish(task), AfterTask(s, task, w));
    LeadsOn(s, EnterBlocks(task, w) + middle, ended, [Finish(task)], AfterTask(s, task, w));
  }

  // ----- Panics and restarts -----------------------------------------------------------------------

  // A task that panics and then records it: the table shows the job failed, the permit is back, and a
  // prover that the task waited for runs on, left behind.
  lemma {:induction false} PanicIsRecorded(s: System, task: nat, s': System)
    requires Enabled(s, Panic(task)) && Leads(s, [Panic(task)] + [Finish(task)], s')
    ensures
      var job := s.tasks[task].job;
      && s'.jobs == s.jobs[job := Failed(PANICKED)] && s'.tasks == s.tasks - {task} && s'.permits == s.permits + 1
      && s'.disk == s.disk && s'.processes == s.processes && s'.requests == s.requests && s'.replies == s.replies
      && s'.orphaned == (if Waits(s, task) then s.orphaned + {job} else s.orphaned)
  {
    var s1, job := Panicked(s, task), s.tasks[task].job;
    PanicEnds(s, task);
    FinishRecords(s1, task, job, Err(PANICKED));
    TwoLead(s, Panic(task), s1, Finish(task), AfterFinish(s1, task, job, Err(PANICKED)));
    assert s1.tasks - {task} == s.tasks - {task};
  }

  function Panicked(s: System, task: nat): System
    requires task in s.tasks
  {
    var job := s.tasks[task].job;
    s.(tasks := s.tasks[task := Task(job, Ended(Err(PANICKED)))], time := s.time + 1,
      orphaned := if Waits(s, task) then s.orphaned + {job} else s.orphaned)
  }

  lemma {:induction false} PanicEnds(s: System, task: nat)
    requires Enabled(s, Panic(task))
    ensures Next(s, Panic(task)) == Panicked(s, task)
  {
  }

  // After a restart the permit is free and an uninterrupted poll knows only the disk: a job without a
  // proof there has not been started, so that submitting it spawns a task again.
  lemma {:induction false} RestartForgets(s: System, id: nat, job: JobId, task: nat)
    ensures
      var s1 := Next(s, Restart);
      && s1.permits == 1 && s1.disk == s.disk && s1.processes == s.processes
      && (var polled := Run(s1, PollBlocks(s1, id, job));
          polled.replies == s.replies + [Reply(job, if job in s.disk then Done(s.disk[job]) else NotStarted,
            ReportedDone(s.replies, job), s1.time + 1)])
      && (job !in s.disk ==> Run(s1, SubmitBlocks(s1, id, job, task)).tasks == map[task := Task(job, Queued)])
  {
    var s1 := Next(s, Restart);
    PollLeads(s1, id, job);
    SubmitLeads(s1, id, job, task);
  }
}
