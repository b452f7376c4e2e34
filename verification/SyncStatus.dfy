// What a sync reports: exactly when it is synced, when it has failed, and that a run that keeps pace with
// the contract's log is told so.
module SyncStatus {
  import opened Wrappers
  import opened Types
  import opened Ledger
  import opened BookIndexer
  import opened Replay
  import opened Reachable
  import opened IndexAgreement
  import opened IndexReplay
  import opened IndexRecovery
  import opened IndexSync

  // ----- One sync --------------------------------------------------------------------------------

  // The page is accepted and the target read, by an index that has not failed before.
  ghost predicate TakesPage(idx: Index, n: Reading) {
    && !idx.meta.fatal && n.response.Served? && ApplyPage(idx, n.response.page).Ok? && n.target.Some?
  }

  // A sync that takes a page is synced exactly when the release is verified and the page leaves the
  // index initialized and at the target, and it has failed exactly when the page leaves the index
  // uninitialized or the release turns out not to be the desk's own. The page stays applied, with its
  // cursor and ledger, whatever is reported.
  lemma {:induction false} PageStatus(idx: Index, n: Reading)
    requires TakesPage(idx, n)
    ensures
      var (idx', status), next := SyncOnce(idx, n), ApplyPage(idx, n.response.page).value;
      && (status == Synced <==>
            next.meta.initialized && n.release.Ok? && next.meta.lastSequence == n.target.value)
      && (status == Failed <==> !next.meta.initialized || n.release == Err(Integrity))
      && idx' == next.(meta :=
           if status == Failed then next.meta.(fatal := true)
           else if n.release.Ok? then next.meta.(targetSequence := n.target.value, releaseVerified := true)
           else next.meta)
      && next.meta.cursor == Some(n.response.page.cursor) && next.meta.latestLedger == n.response.page.ledger
  {
    var page := n.response.page;
    assert ApplyPage(idx, page).value.meta.latestLedger == page.ledger;
  }

  // Any other sync is synced only by a recovery, and has failed exactly when it had before, when it
  // refuses a page, or when recovery finds the contract not to be the desk's own.
  lemma {:induction false} OtherStatus(idx: Index, n: Reading)
    requires !TakesPage(idx, n)
    ensures
      var status := SyncOnce(idx, n).1;
      && (status == Synced ==> n.response.Expired? && n.response.live.Ok? && idx.meta.cursor.None?)
      && (!(n.response.Expired? && n.response.live.Ok? && idx.meta.cursor.None?) ==>
            (status == Failed <==>
               || idx.meta.fatal
               || (n.response.Served? && ApplyPage(idx, n.response.page).Err?)
               || (n.response.Expired? && idx.meta.cursor.None? && n.response.live == Err(Integrity))))
      && (n.response.Served? && status == Syncing ==>
            SyncOnce(idx, n).0 == ApplyPage(idx, n.response.page).value)
      && (!n.response.Served? && !(n.response.Expired? && n.response.live.Ok? && idx.meta.cursor.None?) ==>
            SyncOnce(idx, n).0 == if status == Failed then idx.(meta := idx.meta.(fatal := true)) else idx)
  {
  }

  // ----- Keeping pace ------------------------------------------------------------------------------

  // The next reading of an index that stands at m: silence, expired ledgers once a page was taken, or a
  // page that goes on from m or earlier, the first of which holds an event at least. The release check
  // may be out of reach but finds nothing wrong.
  ghost predicate KeepsPace(log: seq<Event>, n: Reading, m: nat, span: Span) {
    && n.release != Err(Integrity) && span.start <= m <= span.end <= |log|
    && match n.response
       case NoResponse => span.end == m
       case Expired(_) => 0 < m == span.end
       case Served(page) => 0 < span.end && page.events == Slice(log, span.start, span.end)
  }

  ghost predicate Paced(log: seq<Event>, readings: seq<Reading>, spans: seq<Span>) {
    |spans| == |readings| &&
    forall k :: 0 <= k < |readings| ==> KeepsPace(log, readings[k], Before(spans, 0, k), spans[k])
  }

  // An index that has taken the first m events of the log from nothing.
  ghost predicate InPace(log: seq<Event>, m: nat, idx: Index) {
    && ReadyFor(log, map[], 0, m, EmptyIndex(), idx) && !idx.meta.fatal && (0 < m ==> idx.meta.cursor.Some?)
  }

  ghost predicate LogFromNothing(log: seq<Event>) {
    LogOk(log, map[], 0) && forall i :: 0 <= i < |log| ==> Agrees(EmptyIndex(), log[i])
  }

  lemma {:induction false} PageInPace(log: seq<Event>, m: nat, idx: Index, page: Page, span: Span)
    requires LogFromNothing(log) && InPace(log, m, idx)
    requires span.start <= m <= span.end <= |log| && page.events == Slice(log, span.start, span.end)
    ensures ApplyPage(idx, page).Ok? && InPace(log, span.end, ApplyPage(idx, page).value)
  {
    PageAccepted(log, map[], 0, m, EmptyIndex(), idx, page, span);
  }

  lemma {:induction false} PaceKept(log: seq<Event>, m: nat, idx: Index, n: Reading, span: Span)
    requires LogFromNothing(log) && InPace(log, m, idx) && KeepsPace(log, n, m, span)
    ensures InPace(log, span.end, SyncOnce(idx, n).0) && SyncOnce(idx, n).1 != Failed
    ensures SyncOnce(idx, n).0.meta.lastSequence == |OrderEvents(log[..span.end])|
    ensures SyncOnce(idx, n).1 == Synced <==>
      n.response.Served? && n.release.Ok? && n.target == Some(|OrderEvents(log[..span.end])|)
  {
    if n.response.Served? {
      PageInPace(log, m, idx, n.response.page, span);
      var next := ApplyPage(idx, n.response.page).value;
      if n.target.Some? {
        PageStatus(idx, n);
        PageEnd(log, map[], 0, span.end, EmptyIndex(), next, SyncOnce(idx, n).0);
      }
    }
  }

  lemma {:induction false} LogStartsFromNothing(host: Host, h: History)
    requires JoinSound(host) && Deploy(host, h).Ok?
    ensures LogFromNothing(StateAfter(host, h).events)
    ensures |OrderEvents(StateAfter(host, h).events)| == StateAfter(host, h).bookSeq
  {
    var log := StateAfter(host, h).events;
    assert h.calls[..|h.calls|] == h.calls;
    StartsEmpty(host, h);
    TimelineOf(host, h, 0, |h.calls|);
    LogRegistersOnce(host, h);
    EmptyRep(map[], StateAt(host, h, 0).books);
    EmptyIsReady(log, EmptyIndex());
    ReplayFolds(StateAt(host, h, 0), StateAfter(host, h), map[]);
    assert OrderEvents(log)[0..] == OrderEvents(log);
  }

  lemma {:induction false} RunKeepsPace(host: Host, h: History, readings: seq<Reading>, spans: seq<Span>)
    requires JoinSound(host) && Deploy(host, h).Ok? && Paced(StateAfter(host, h).events, readings, spans)
    ensures InPace(StateAfter(host, h).events, Before(spans, 0, |spans|), SyncAll(EmptyIndex(), readings))
  {
    var log := StateAfter(host, h).events;
    LogStartsFromNothing(host, h);
    if readings == [] {
      EmptyIsReady(log, EmptyIndex());
    } else {
      var k := |readings| - 1;
      assert Before(spans[..k], 0, k) == Before(spans, 0, k);
      assert Paced(log, readings[..k], spans[..k]) by {
        forall i | 0 <= i < k
          ensures KeepsPace(log, readings[..k][i], Before(spans[..k], 0, i), spans[..k][i])
        {
          assert Before(spans[..k], 0, i) == Before(spans, 0, i);
        }
      }
      RunKeepsPace(host, h, readings[..k], spans[..k]);
      PaceKept(log, Before(spans, 0, k), SyncAll(EmptyIndex(), readings[..k]), readings[k], spans[k]);
    }
  }

  // In a run that keeps pace with the contract's log nothing fails, and a sync reports synced exactly
  // when it takes a page, verifies the release, and its target is the sequence of the last order event
  // delivered so far.
  lemma {:induction false} PacedStatus(host: Host, h: History, readings: seq<Reading>, spans: seq<Span>, n: Reading,
      span: Span)
    requires JoinSound(host) && Deploy(host, h).Ok? && Paced(StateAfter(host, h).events, readings, spans)
    requires KeepsPace(StateAfter(host, h).events, n, Before(spans, 0, |spans|), span)
    ensures
      var status, sequence := SyncOnce(SyncAll(EmptyIndex(), readings), n).1,
        |OrderEvents(StateAfter(host, h).events[..span.end])|;
      && status != Failed
      && (status == Synced <==> n.response.Served? && n.release.Ok? && n.target == Some(sequence))
  {
    RunKeepsPace(host, h, readings, spans);
    LogStartsFromNothing(host, h);
    PaceKept(StateAfter(host, h).events, Before(spans, 0, |spans|), SyncAll(EmptyIndex(), readings), n, span);
  }

  // In particular an index that has read to the end of the log is told so, and displays the contract's
  // books.
  lemma {:induction false} CaughtUpIsSynced(host: Host, h: History, readings: seq<Reading>, spans: seq<Span>,
      n: Reading, span: Span)
    requires JoinSound(host) && Deploy(host, h).Ok? && Paced(StateAfter(host, h).events, readings, spans)
    requires KeepsPace(StateAfter(host, h).events, n, Before(spans, 0, |spans|), span)
    requires span.end == |StateAfter(host, h).events|
    requires n.response.Served? && n.release.Ok? && n.target == Some(StateAfter(host, h).bookSeq)
    ensures
      var (idx, status) := SyncOnce(SyncAll(EmptyIndex(), readings), n);
      status == Synced && ShowsBooksAt(host, h, idx, |h.calls|)
  {
    var log, before := StateAfter(host, h).events, SyncAll(EmptyIndex(), readings);
    RunKeepsPace(host, h, readings, spans);
    LogStartsFromNothing(host, h);
    assert log[..span.end] == log;
    PaceKept(log, Before(spans, 0, |spans|), before, n, span);
    assert h.calls[..|h.calls|] == h.calls;
    StartsEmpty(host, h);
    EmptyRep(map[], StateAt(host, h, 0).books);
    CaughtUpShows(host, h, SyncOnce(before, n).0, 0, map[], |h.calls|);
  }

  // ----- Runs of true readings -------------------------------------------------------------------

  // A run in which no sync has reported a failure.
  ghost predicate NoneFailed(readings: seq<Reading>) {
    forall k :: 0 <= k < |readings| ==> SyncOnce(SyncAll(EmptyIndex(), readings[..k]), readings[k]).1 != Failed
  }

  lemma {:induction false} NoFailureNoMark(host: Host, h: History, readings: seq<Reading>)
    requires JoinSound(host) && Deploy(host, h).Ok? && NoneFailed(readings)
    requires forall i :: 0 <= i < |readings| ==> TrueReading(host, h, readings[i])
    ensures !SyncAll(EmptyIndex(), readings).meta.fatal
  {
    if readings != [] {
      var k := |readings| - 1;
      SyncsKeepTrue(host, h, readings[..k]);
      SyncKeepsTrue(host, h, SyncAll(EmptyIndex(), readings[..k]), readings[k]);
    }
  }

  // Over any run of true readings without a failure, an accepted page with a target and a verified
  // release is reported synced exactly when the index is then initialized and at the target.
  lemma {:induction false} TruePageStatus(host: Host, h: History, readings: seq<Reading>, page: Page, target: nat)
    requires JoinSound(host) && Deploy(host, h).Ok? && NoneFailed(readings)
    requires forall i :: 0 <= i < |readings| ==> TrueReading(host, h, readings[i])
    requires ApplyPage(SyncAll(EmptyIndex(), readings), page).Ok?
    ensures
      var idx := SyncAll(EmptyIndex(), readings);
      var next, status := ApplyPage(idx, page).value.meta,
        SyncOnce(idx, Reading(Served(page), Some(target), Ok(()))).1;
      && (status == Synced <==> next.initialized && next.lastSequence == target)
      && (status == Failed <==> !next.initialized)
  {
    NoFailureNoMark(host, h, readings);
    PageStatus(SyncAll(EmptyIndex(), readings), Reading(Served(page), Some(target), Ok(())));
  }

  // A first page without any event is taken for a desk that never opened: once its target is read, the
  // index has failed for good.
  lemma {:induction false} EmptyFirstPageFails(page: Page, target: nat, release: Result<(), Failure>)
    requires page.events == []
    ensures SyncOnce(EmptyIndex(), Reading(Served(page), Some(target), release)).1 == Failed
  {
    PageStatus(EmptyIndex(), Reading(Served(page), Some(target), release));
  }

  // ----- Recovery --------------------------------------------------------------------------------

  lemma {:induction false} PagesKeepTarget(idx: Index, pages: seq<Page>)
    requires !idx.meta.fatal
    ensures
      var meta := ReceiveAll(idx, pages).meta;
      && meta.targetSequence == idx.meta.targetSequence && meta.releaseVerified == idx.meta.releaseVerified
      && !meta.fatal
  {
    if pages != [] {
      var front, last := ReceiveAll(idx, pages[..|pages| - 1]), pages[|pages| - 1];
      PagesKeepTarget(idx, pages[..|pages| - 1]);
      if ApplyAll(front, last.events).Ok? {
        AllKeepsTarget(front, last.events);
      }
    }
  }

  // A live read of point j, with the retained log served in contiguous pages to its end, the last of
  // them short.
  ghost predicate RecoversFrom(host: Host, h: History, j: nat, live: LiveRead, spans: seq<Span>)
    requires Deploy(host, h).Ok?
  {
    && j <= |h.calls| && live.orders == LiveOrders(StateAt(host, h, j), |StateAt(host, h, j).pairs|)
    && live.pairs == PairRows(StateAt(host, h, j)) && live.sequence == StateAt(host, h, j).bookSeq
    && Contiguous(StateAfter(host, h).events, live.pages, spans, |StateAt(host, h, j).events|)
    && Before(spans, |StateAt(host, h, j).events|, |spans|) == |StateAfter(host, h).events|
    && live.pages != [] && Asked(live.pages) == |live.pages|
    && |live.pages[|live.pages| - 1].events| != PAGE_LIMIT
  }

  lemma {:induction false} AcceptedEnd(sj: State, sn: State, idx: Index, pages: seq<Page>, spans: seq<Span>)
    requires Timeline(sj, sn, sn) && RegistersOnce(sn.events) && Rep(sj.books, idx.orders, sj.bookSeq)
    requires idx.meta.initialized && idx.meta.lastSequence == sj.bookSeq && idx.processed == {}
    requires Contiguous(sn.events, pages, spans, |sj.events|) && Before(spans, |sj.events|, |spans|) == |sn.events|
    requires AllAccepted(idx, pages)
    ensures ReceiveAll(idx, pages).meta.initialized && ReceiveAll(idx, pages).meta.lastSequence == sn.bookSeq
  {
    SnapshotIsReady(sj, sn, idx);
    ReplayFolds(sj, sn, idx.orders);
    PagesAccepted(sn.events, idx.orders, sj.bookSeq, |sj.events|, idx, pages, spans, |pages|);
    assert pages[..|pages|] == pages && spans[..|spans|] == spans;
    assert sn.events[..|sn.events|] == sn.events;
  }

  lemma {:induction false} RecoveredEnd(host: Host, h: History, j: nat, live: LiveRead, spans: seq<Span>)
    requires JoinSound(host) && Deploy(host, h).Ok? && RecoversFrom(host, h, j, live, spans)
    ensures
      var accepted, end := AllAccepted(Snapshot(live), live.pages), ReceiveAll(Snapshot(live), live.pages).meta;
      && (accepted <==> DeliveredAgree(host, h, live.protocol, PutEach(live.assets), spans))
      && (accepted ==> end.initialized && end.lastSequence == StateAfter(host, h).bookSeq)
  {
    var sj, sn := StateAt(host, h, j), StateAfter(host, h);
    SnapshotIsLiveIndex(sj, live);
    RecoveryAccepted(host, h, j, live.protocol, PutEach(live.assets), live.pages, spans);
    if AllAccepted(Snapshot(live), live.pages) {
      SnapshotStands(host, h, j);
      TimelineToEnd(host, h, j);
      LogRegistersOnce(host, h);
      AcceptedEnd(sj, sn, Snapshot(live), live.pages, spans);
    }
  }

  // What recovery reports, told by the pages alone.
  lemma {:induction false} RecoveryReports(idx: Index, n: Reading, live: LiveRead)
    requires !idx.meta.fatal && idx.meta.cursor.None? && n.response == Response.Expired(Ok(live))
    requires live.pages != [] && Asked(live.pages) == |live.pages|
    requires |live.pages[|live.pages| - 1].events| != PAGE_LIMIT
    ensures
      var end := ReceiveAll(Snapshot(live), live.pages).meta;
      SyncOnce(idx, n).1 == if AllAccepted(Snapshot(live), live.pages) && end.initialized
        && end.lastSequence == live.sequence then Synced else Syncing
  {
    UpToIsAll(Snapshot(live), live.pages);
    PagesKeepTarget(Snapshot(live), live.pages);
    assert live.pages[..|live.pages|] == live.pages;
  }

  // Recovery never fails an index for its pages, and reports synced exactly when the protocol and the
  // asset tokens it wrote are those of the registrations delivered and no order event has come since the
  // live read.
  lemma {:induction false} RecoveryStatus(host: Host, h: History, j: nat, live: LiveRead, spans: seq<Span>, idx: Index,
      n: Reading)
    requires JoinSound(host) && Deploy(host, h).Ok? && RecoversFrom(host, h, j, live, spans)
    requires !idx.meta.fatal && idx.meta.cursor.None? && n.response == Response.Expired(Ok(live))
    ensures
      var status := SyncOnce(idx, n).1;
      && status != Failed
      && (status == Synced <==>
            && DeliveredAgree(host, h, live.protocol, PutEach(live.assets), spans)
            && StateAfter(host, h).bookSeq == StateAt(host, h, j).bookSeq)
  {
    RecoveredEnd(host, h, j, live, spans);
    RecoveryReports(idx, n, live);
  }
}
