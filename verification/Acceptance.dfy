// Which calls record an order as accepted, and what a submission that succeeded is sure of ever after.
module Acceptance {
  import opened Wrappers
  import opened Lots
  import opened Types
  import opened Codec
  import opened Ledger
  import opened BookInvariant
  import opened Orders
  import opened Safety
  import opened Reachable
  import opened Inputs
  import opened Submissions
  import opened Frames

  // A submission that succeeds puts the order it was presented on record, with its own terms.
  lemma {:induction false} SubmitIsRecorded(host: Host, st: State, now: nat, x: Signed)
    returns (o: Order, p: nat, side: Side)
    requires SubmitOrder(host, st, now, x).Ok?
    ensures MaySubmit(host, st, now, x, o, p, side)
    ensures SubmitOrder(host, st, now, x).value.accepted == st.accepted[o.nullifier :=
      Accepted(Limit(o.amountIn, o.minOut), p, side.Code(), o.partialAllowed)]
  {
    SubmitsExactly(host, st, now, x);
    o, p, side :| MaySubmit(host, st, now, x, o, p, side);
    SubmissionDoes(host, st, now, x, o, p, side);
  }

  // The registry is what the deployment made it.
  lemma {:induction false} RunKeepsRegistry(host: Host, st: State, calls: seq<Call>)
    ensures Run(host, st, calls).assets == st.assets && Run(host, st, calls).pairs == st.pairs
  {
    if calls != [] {
      RunKeepsRegistry(host, st, calls[..|calls| - 1]);
      ExecuteIsConfined(host, Run(host, st, calls[..|calls| - 1]), calls[|calls| - 1]);
    }
  }

  lemma {:induction false} ExecuteKeepsAccepted(host: Host, st: State, call: Call, id: Word)
    requires BooksOk(st) && id in st.accepted
    ensures
      var st' := Execute(host, st, call);
      id in st'.accepted && st'.accepted[id] == st.accepted[id]
  {
    if call.CallSubmitOrder? {
      ExecuteSubmits(host, st, call);
      if SubmitOrder(host, st, call.now, call.x).Ok? {
        var _, _, _ := SubmitIsRecorded(host, st, call.now, call.x);
      }
    } else {
      ExecuteIsConfined(host, st, call);
    }
  }

  lemma {:induction false} ExecuteSubmits(host: Host, st: State, call: Call)
    requires call.CallSubmitOrder?
    ensures
      var r := SubmitOrder(host, st, call.now, call.x);
      Execute(host, st, call) == if r.Ok? && WithinCounters(r.value) then r.value else st
  {
    SubmissionRouted(host, st, call);
    ExecuteIs(host, st, call, SubmitOrder(host, st, call.now, call.x));
  }

  lemma {:induction false} SubmissionRouted(host: Host, st: State, call: Call)
    requires call.CallSubmitOrder?
    ensures Attempt(host, st, call) == SubmitOrder(host, st, call.now, call.x)
  {
  }

  lemma {:induction false} RunKeepsAccepted(host: Host, st: State, calls: seq<Call>, n: nat, id: Word)
    requires Good(host, st, Idle) && JoinSound(host) && n <= |calls| && id in Run(host, st, calls[..n]).accepted
    ensures
      var st' := Run(host, st, calls);
      id in st'.accepted && st'.accepted[id] == Run(host, st, calls[..n]).accepted[id]
  {
    if n == |calls| {
      assert calls[..n] == calls;
    } else {
      var front := calls[..|calls| - 1];
      assert front[..n] == calls[..n];
      RunKeepsAccepted(host, st, front, n, id);
      RunKeeps(host, st, front);
      ExecuteKeepsAccepted(host, Run(host, st, front), calls[|calls| - 1], id);
    }
  }

  // A submission of this order that commits.
  ghost predicate Commits(host: Host, st: State, now: nat, x: Signed, o: Order) {
    Presents(host, st, x, o) && Checked(SubmitOrder(host, st, now, x)).Ok?
  }

  // The order is on record with its own terms.
  ghost predicate OnRecord(st: State, o: Order) {
    && 0 < o.amountIn && 0 < o.minOut && o.nullifier in st.accepted
    && st.accepted[o.nullifier].limit == Limit(o.amountIn, o.minOut)
    && st.accepted[o.nullifier].partialAllowed == o.partialAllowed
  }

  lemma {:induction false} CommitIsRecorded(host: Host, st: State, now: nat, x: Signed, o: Order)
    requires Commits(host, st, now, x, o)
    ensures OnRecord(Execute(host, st, CallSubmitOrder(now, x)), o)
  {
    var o', p, side := SubmitIsRecorded(host, st, now, x);
    OneOrderPresented(host, st, x, o, o');
    ExecuteSubmits(host, st, CallSubmitOrder(now, x));
  }

  // What a submission recorded is still recorded at the end.
  lemma {:induction false} StaysRecorded(host: Host, st0: State, calls: seq<Call>, n: nat, now: nat, x: Signed,
      o: Order)
    requires Good(host, st0, Idle) && JoinSound(host) && n < |calls| && calls[n] == CallSubmitOrder(now, x)
    requires Commits(host, Run(host, st0, calls[..n]), now, x, o)
    ensures OnRecord(Run(host, st0, calls), o)
  {
    CommitIsRecorded(host, Run(host, st0, calls[..n]), now, x, o);
    assert calls[..n + 1][..n] == calls[..n];
    RunKeepsAccepted(host, st0, calls, n + 1, o.nullifier);
  }

  // All or nothing: a submission that was not allowed to rest and succeeded has given everything it
  // offered, got at least what it asked for, was refunded nothing and locks nothing, whatever is
  // called afterwards.
  lemma {:induction false} WholeSubmissionsFill(host: Host, h: History, n: nat, now: nat, x: Signed, o: Order)
    requires JoinSound(host) && Deploy(host, h).Ok? && n < |h.calls| && h.calls[n] == CallSubmitOrder(now, x)
    requires Commits(host, Run(host, Deploy(host, h).value, h.calls[..n]), now, x, o) && !o.partialAllowed
    ensures
      var end := StateAfter(host, h);
      && Gave(end.deals, o.nullifier) == o.amountIn && Got(end.deals, o.nullifier) >= o.minOut
      && Refunded(end.deals, o.nullifier) == 0 && Held(end, o.nullifier) == 0
  {
    DeployIsGood(host, h);
    StaysRecorded(host, Deploy(host, h).value, h.calls, n, now, x, o);
    WholeOrdersAreFilled(host, h, o.nullifier);
  }
}
