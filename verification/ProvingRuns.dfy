// Two runs of the prove service worked out block by block: a poll that misses a proof another poll has
// already reported, and a prover left behind by a restart that replaces a reported proof.
module ProvingRuns {
  import opened Wrappers
  import opened Proving
  import opened ProveBlocks

  const JOB: JobId := "job"

  function Start(): System {
    Init(map[])
  }

  // A submit of a job that has no proof and is not running.
  function SubmitFresh(id: nat, task: nat): seq<Event> {
    AskBlocks(id, true, JOB) + ([TakeLock(id)] + [Spawn(id, task)])
  }

  function Works(process: nat, proof: Proof): World {
    World(None, process, Some(proof), true)
  }

  lemma {:induction false} FreshLeads(s: System, id: nat, task: nat)
    requires id !in s.requests && task !in s.tasks && JOB !in s.disk && !Claimed(s, JOB)
    ensures Leads(s, SubmitFresh(id, task), AfterSubmit(s, id, JOB, task))
  {
    SubmitLeads(s, id, JOB, task);
  }

  // ----- A poll that misses ------------------------------------------------------------------------

  // A poll finds no proof; before it takes the lock, the job is submitted and proved, and another poll
  // reports it done.
  function OverlappingPolls(proof: Proof): seq<Event> {
    AskBlocks(0, false, JOB) + SubmitFresh(1, 7)
    + (EnterBlocks(7, Works(9, proof)) + ProverBlocks(7, Works(9, proof)) + [Finish(7)])
    + AskBlocks(2, false, JOB) + [TakeLock(0)]
  }

  // The first poll then answers that the job was never started.
  lemma {:induction false} OverlappingPollMisses(proof: Proof)
    ensures After(map[], OverlappingPolls(proof)).replies
         == [Reply(JOB, IsRunning, false, 3), Reply(JOB, Done(proof), false, 12), Reply(JOB, NotStarted, false, 1)]
  {
    var w := Works(9, proof);
    var s1 := AfterAsk(Start(), 0, false, JOB);
    var s2 := AfterSubmit(s1, 1, JOB, 7);
    AskLeads(Start(), 0, false, JOB);
    FreshLeads(s1, 1, 7);
    LeadsOn(Start(), AskBlocks(0, false, JOB), s1, SubmitFresh(1, 7), s2);
    TaskLeads(s2, 7, w);
    TaskEffect(s2, 7, w);
    var s3 := AfterTask(s2, 7, w);
    LeadsOn(Start(), AskBlocks(0, false, JOB) + SubmitFresh(1, 7), s2, TaskBlocks(s2, 7, JOB, w), s3);
    PollsDisagree(AskBlocks(0, false, JOB) + SubmitFresh(1, 7) + TaskBlocks(s2, 7, JOB, w), s3, proof);
  }

  lemma {:induction false} PollsDisagree(events: seq<Event>, s: System, proof: Proof)
    requires Leads(Start(), events, s) && s.disk == map[JOB := proof] && s.jobs == map[] && s.time == 11
    requires s.requests == map[0 := Request(false, JOB, AtLock, false, 1)]
    requires s.replies == [Reply(JOB, IsRunning, false, 3)]
    ensures Run(Start(), events + AskBlocks(2, false, JOB) + [TakeLock(0)]).replies
         == [Reply(JOB, IsRunning, false, 3), Reply(JOB, Done(proof), false, 12), Reply(JOB, NotStarted, false, 1)]
  {
    var s1 := AfterAsk(s, 2, false, JOB);
    AskLeads(s, 2, false, JOB);
    LeadsOn(Start(), events, s, AskBlocks(2, false, JOB), s1);
    LockAnswers(s1, 0, map[]);
    OneLeads(s1, TakeLock(0), Next(s1, TakeLock(0)));
    LeadsOn(Start(), events + AskBlocks(2, false, JOB), s1, [TakeLock(0)], Next(s1, TakeLock(0)));
  }

  // ----- A prover left behind ----------------------------------------------------------------------

  // The service restarts while a prover is at work; the job is submitted again, and a second prover
  // starts beside the first.
  function TwoProvers(a: Proof): seq<Event> {
    SubmitFresh(0, 7) + EnterBlocks(7, Works(1, a)) + [Restart] + SubmitFresh(1, 8) + EnterBlocks(8, Works(2, a))
  }

  // The second one's proof is reported; then the first one leaves its own.
  function LateProof(a: Proof, b: Proof): seq<Event> {
    TwoProvers(a) + ProverBlocks(8, Works(2, a)) + [Finish(8)] + AskBlocks(2, false, JOB)
    + [WriteProof(1, b)] + AskBlocks(3, false, JOB)
  }

  // A submit and its task up to the running prover.
  lemma {:induction false} StartsProver(s: System, id: nat, task: nat, w: World)
    requires s.requests == map[] && s.tasks == map[] && s.jobs == map[] && JOB !in s.disk && s.permits == 1
    requires w.startFails.None? && w.process !in s.processes
    ensures
      var s' := AfterEnter(AfterSubmit(s, id, JOB, task), task, w);
      && Leads(s, SubmitFresh(id, task) + EnterBlocks(task, w), s')
      && s'.tasks == map[task := Task(JOB, Proving(w.process))] && s'.requests == map[]
      && s'.processes == s.processes[w.process := Process(JOB, false)] && s'.disk == s.disk
      && s'.jobs == map[JOB := Running] && s'.permits == 0 && s'.time == s.time + 6
      && s'.replies == s.replies + [Reply(JOB, IsRunning, ReportedDone(s.replies, JOB), s.time + 1)]
  {
    var s1 := AfterSubmit(s, id, JOB, task);
    FreshLeads(s, id, task);
    EnterLeads(s1, task, w);
    LeadsOn(s, SubmitFresh(id, task), s1, EnterBlocks(task, w), AfterEnter(s1, task, w));
  }

  // The state in which two provers of one job are at work at once.
  lemma {:induction false} ProversOverlap(a: Proof) returns (s: System)
    ensures Leads(Start(), TwoProvers(a), s)
    ensures s.processes == map[1 := Process(JOB, false)][2 := Process(JOB, false)] && Orphan(s, 1)
    ensures s.tasks == map[8 := Task(JOB, Proving(2))] && s.requests == map[] && s.disk == map[] && s.time == 13
    ensures s.jobs == map[JOB := Running]
    ensures s.replies == [Reply(JOB, IsRunning, false, 1), Reply(JOB, IsRunning, false, 8)]
  {
    var s1 := AfterEnter(AfterSubmit(Start(), 0, JOB, 7), 7, Works(1, a));
    StartsProver(Start(), 0, 7, Works(1, a));
    var s2 := Next(s1, Restart);
    OneLeads(s1, Restart, s2);
    LeadsOn(Start(), SubmitFresh(0, 7) + EnterBlocks(7, Works(1, a)), s1, [Restart], s2);
    s := AfterEnter(AfterSubmit(s2, 1, JOB, 8), 8, Works(2, a));
    StartsProver(s2, 1, 8, Works(2, a));
    LeadsOn(Start(), SubmitFresh(0, 7) + EnterBlocks(7, Works(1, a)) + [Restart], s2,
      SubmitFresh(1, 8) + EnterBlocks(8, Works(2, a)), s);
    assert SubmitFresh(0, 7) + EnterBlocks(7, Works(1, a)) + [Restart]
         + (SubmitFresh(1, 8) + EnterBlocks(8, Works(2, a))) == TwoProvers(a);
  }

  // The job is reported done twice, with different proofs: what was reported was not final, because a
  // prover left behind was still at work.
  lemma {:induction false} LateProverReplacesProof(a: Proof, b: Proof)
    ensures After(map[], LateProof(a, b)).replies
         == [Reply(JOB, IsRunning, false, 1), Reply(JOB, IsRunning, false, 8)]
              + [Reply(JOB, Done(a), false, 17)] + [Reply(JOB, Done(b), true, 20)]
  {
    var w := Works(2, a);
    var s1 := ProversOverlap(a);
    var s2 := AfterProver(s1, 8, w);
    var s3 := AfterFinish(s2, 8, JOB, Ok(()));
    ProverLeads(s1, 8, w);
    LeadsOn(Start(), TwoProvers(a), s1, ProverBlocks(8, w), s2);
    FinishRecords(s2, 8, JOB, Ok(()));
    OneLeads(s2, Finish(8), s3);
    LeadsOn(Start(), TwoProvers(a) + ProverBlocks(8, w), s2, [Finish(8)], s3);
    assert s1.processes - {2} == map[1 := Process(JOB, false)];
    ReportsBoth(TwoProvers(a) + ProverBlocks(8, w) + [Finish(8)], s3, a, b);
  }

  lemma {:induction false} ReportsBoth(events: seq<Event>, s: System, a: Proof, b: Proof)
    requires Leads(Start(), events, s) && s.processes == map[1 := Process(JOB, false)] && s.disk == map[JOB := a]
    requires s.requests == map[] && s.time == 16
    requires s.replies == [Reply(JOB, IsRunning, false, 1), Reply(JOB, IsRunning, false, 8)]
    ensures Run(Start(), events + AskBlocks(2, false, JOB) + [WriteProof(1, b)] + AskBlocks(3, false, JOB)).replies
         == s.replies + [Reply(JOB, Done(a), false, 17)] + [Reply(JOB, Done(b), true, 20)]
  {
    var s1 := AfterAsk(s, 2, false, JOB);
    var s2 := s1.(disk := map[JOB := b], processes := s.processes[1 := Process(JOB, true)], time := 19);
    AskLeads(s, 2, false, JOB);
    LeadsOn(Start(), events, s, AskBlocks(2, false, JOB), s1);
    LateWrite(s1, s2, b);
    LeadsOn(Start(), events + AskBlocks(2, false, JOB), s1, [WriteProof(1, b)], s2);
    ReportsAgain(events + AskBlocks(2, false, JOB) + [WriteProof(1, b)], s2, a, b);
  }

  lemma {:induction false} LateWrite(s: System, s': System, b: Proof)
    requires s.processes == map[1 := Process(JOB, false)] && s.disk.Keys == {JOB} && s.time == 18
    requires s' == s.(disk := map[JOB := b], processes := s.processes[1 := Process(JOB, true)], time := 19)
    ensures Leads(s, [WriteProof(1, b)], s')
  {
    assert s.disk[JOB := b] == map[JOB := b];
    OneLeads(s, WriteProof(1, b), s');
  }

  lemma {:induction false} ReportsAgain(events: seq<Event>, s: System, a: Proof, b: Proof)
    requires Leads(Start(), events, s) && s.disk == map[JOB := b] && s.requests == map[] && s.time == 19
    requires |s.replies| == 3 && s.replies[2] == Reply(JOB, Done(a), false, 17)
    ensures Run(Start(), events + AskBlocks(3, false, JOB)).replies == s.replies + [Reply(JOB, Done(b), true, 20)]
  {
    assert ReportedDone(s.replies, JOB);
    AskLeads(s, 3, false, JOB);
    LeadsOn(Start(), events, s, AskBlocks(3, false, JOB), AfterAsk(s, 3, false, JOB));
  }
}
