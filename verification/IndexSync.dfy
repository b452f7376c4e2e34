// Whole runs of syncs: a status of synced always means the contract's books, however the index came
// about, and a failure stays.
module IndexSync {
  import opened Wrappers
  import opened Lots
  import opened Types
  import opened Ledger
  import opened BookIndexer
  import opened Replay
  import opened Reachable
  import opened IndexAgreement
  import opened IndexRecovery

  // ----- What the network may answer -----------------------------------------------------------------

  // A live read taken at one state of the contract.
  ghost predicate ReadAt(host: Host, h: History, live: LiveRead, j: nat)
    requires Deploy(host, h).Ok?
  {
    && j <= |h.calls| && live.sequence == StateAt(host, h, j).bookSeq
    && live.orders == LiveOrders(StateAt(host, h, j), |StateAt(host, h, j).pairs|)
  }

  ghost predicate PointOf(host: Host, h: History, k: nat, sequence: nat)
    requires Deploy(host, h).Ok?
  {
    k <= |h.calls| && StateAt(host, h, k).bookSeq == sequence
  }

  ghost predicate PagesFromLog(host: Host, h: History, pages: seq<Page>)
    requires Deploy(host, h).Ok?
  {
    forall i :: 0 <= i < |pages| ==> PageFromLog(StateAfter(host, h).events, pages[i])
  }

  // Answers that are true of the contract: events of its log in any pages, a live read of one state, a
  // sequence it had at some time. What the desk or the release claims is not restricted.
  ghost predicate TrueReading(host: Host, h: History, n: Reading)
    requires Deploy(host, h).Ok?
  {
    && (n.response.Served? ==> PageFromLog(StateAfter(host, h).events, n.response.page))
    && (n.response.Expired? && n.response.live.Ok? ==>
          && (exists j :: ReadAt(host, h, n.response.live.value, j))
          && PagesFromLog(host, h, n.response.live.value.pages))
    && (n.target.Some? ==> exists k :: PointOf(host, h, k, n.target.value))
  }

  // ----- What every sync keeps -----------------------------------------------------------------------

  // The index is a fold of the log from rows that stood for the books at point j.
  ghost predicate FromPoint(host: Host, h: History, idx: Index, j: nat, base: Rows)
    requires Deploy(host, h).Ok?
  {
    && j <= |h.calls| && Rep(StateAt(host, h, j).books, base, StateAt(host, h, j).bookSeq)
    && Tracks(StateAfter(host, h).events, base, StateAt(host, h, j).bookSeq, idx)
  }

  ghost predicate TargetOk(host: Host, h: History, idx: Index)
    requires Deploy(host, h).Ok?
  {
    idx.meta.releaseVerified ==> exists k :: PointOf(host, h, k, idx.meta.targetSequence)
  }

  ghost predicate IndexTrue(host: Host, h: History, idx: Index)
    requires Deploy(host, h).Ok?
  {
    (exists j, base :: FromPoint(host, h, idx, j, base)) && TargetOk(host, h, idx)
  }

  lemma {:induction false} EmptyIsTrue(host: Host, h: History)
    requires JoinSound(host) && Deploy(host, h).Ok?
    ensures IndexTrue(host, h, EmptyIndex())
  {
    StartsEmpty(host, h);
    EmptyRep(map[], StateAt(host, h, 0).books);
    assert OrderEvents(StateAfter(host, h).events)[0..0] == [];
    assert FromPoint(host, h, EmptyIndex(), 0, map[]);
  }

  lemma {:induction false} AllKeepsTarget(idx: Index, ds: seq<Delivery>)
    requires ApplyAll(idx, ds).Ok?
    ensures
      var meta := ApplyAll(idx, ds).value.meta;
      meta.targetSequence == idx.meta.targetSequence && meta.releaseVerified == idx.meta.releaseVerified
  {
    if ds != [] {
      AllKeepsTarget(idx, ds[..|ds| - 1]);
    }
  }

  lemma {:induction false} PageKeepsTrue(host: Host, h: History, idx: Index, page: Page)
    requires JoinSound(host) && Deploy(host, h).Ok? && IndexTrue(host, h, idx)
    requires PageFromLog(StateAfter(host, h).events, page) && ApplyPage(idx, page).Ok?
    ensures IndexTrue(host, h, ApplyPage(idx, page).value) && !ApplyPage(idx, page).value.meta.fatal
  {
    var log, next := StateAfter(host, h).events, ApplyPage(idx, page).value;
    var j, base :| FromPoint(host, h, idx, j, base);
    TimelineToEnd(host, h, j);
    ApplyAllTracks(log, base, StateAt(host, h, j).bookSeq, idx, page.events);
    AllKeepsTarget(idx, page.events);
    assert FromPoint(host, h, next, j, base);
  }

  lemma {:induction false} PagesKeepTrue(host: Host, h: History, idx: Index, pages: seq<Page>)
    requires JoinSound(host) && Deploy(host, h).Ok? && IndexTrue(host, h, idx) && PagesFromLog(host, h, pages)
    requires !idx.meta.fatal
    ensures IndexTrue(host, h, ReceiveUpTo(idx, pages).0) && !ReceiveUpTo(idx, pages).0.meta.fatal
  {
    if pages != [] {
      var front, last := pages[..|pages| - 1], pages[|pages| - 1];
      PagesKeepTrue(host, h, idx, front);
      var x := ReceiveUpTo(idx, front).0;
      if ApplyPage(x, last).Ok? {
        PageKeepsTrue(host, h, x, last);
      }
    }
  }

  lemma {:induction false} SnapshotIsTrue(host: Host, h: History, live: LiveRead)
    requires JoinSound(host) && Deploy(host, h).Ok? && exists j :: ReadAt(host, h, live, j)
    ensures IndexTrue(host, h, Snapshot(live))
  {
    var j :| ReadAt(host, h, live, j);
    SnapshotFromPoint(host, h, Snapshot(live), j, PutAll(live.orders));
    assert PointOf(host, h, j, live.sequence);
  }

  // An index that holds the live rows of point j and its sequence is a fold of no events from there.
  lemma {:induction false} SnapshotFromPoint(host: Host, h: History, idx: Index, j: nat, base: Rows)
    requires JoinSound(host) && Deploy(host, h).Ok? && j <= |h.calls|
    requires base == PutAll(LiveOrders(StateAt(host, h, j), |StateAt(host, h, j).pairs|))
    requires idx.orders == base && idx.meta.lastSequence == StateAt(host, h, j).bookSeq
    ensures FromPoint(host, h, idx, j, base)
  {
    SnapshotStands(host, h, j);
    PointInLog(host, h, j);
    NoFold(OrderEvents(StateAfter(host, h).events), base, StateAt(host, h, j).bookSeq);
  }

  lemma {:induction false} NoFold(all: seq<Event>, base: Rows, from: nat)
    requires from <= |all| && forall i :: 0 <= i < |all| ==> IsOrderEvent(all[i])
    ensures FoldOrders(base, all[from..from]) == Ok(base)
  {
    assert all[from..from] == [];
  }

  lemma {:induction false} PointInLog(host: Host, h: History, j: nat)
    requires JoinSound(host) && Deploy(host, h).Ok? && j <= |h.calls|
    ensures StateAt(host, h, j).bookSeq <= |OrderEvents(StateAfter(host, h).events)|
  {
    SnapshotStands(host, h, j);
    TimelineToEnd(host, h, j);
    FoldReaches(StateAt(host, h, j), StateAfter(host, h), StateAfter(host, h),
      PutAll(LiveOrders(StateAt(host, h, j), |StateAt(host, h, j).pairs|)));
  }

  lemma {:induction false} MetaKeepsTrue(host: Host, h: History, idx: Index, meta: Meta)
    requires Deploy(host, h).Ok? && IndexTrue(host, h, idx) && meta.lastSequence == idx.meta.lastSequence
    requires TargetOk(host, h, idx.(meta := meta))
    ensures IndexTrue(host, h, idx.(meta := meta))
  {
    var j, base :| FromPoint(host, h, idx, j, base);
    assert FromPoint(host, h, idx.(meta := meta), j, base);
  }

  // A failed sync is marked; any other leaves no mark.
  ghost predicate Marked(r: (Index, Status)) {
    r.0.meta.fatal == (r.1 == Failed)
  }

  lemma {:induction false} RecoveryKeepsTrue(host: Host, h: History, live: LiveRead)
    requires JoinSound(host) && Deploy(host, h).Ok?
    requires (exists j :: ReadAt(host, h, live, j)) && PagesFromLog(host, h, live.pages)
    ensures IndexTrue(host, h, AfterRecovery(live).0) && Marked(AfterRecovery(live))
  {
    SnapshotIsTrue(host, h, live);
    PagesKeepTrue(host, h, Snapshot(live), live.pages[..Asked(live.pages)]);
  }

  lemma {:induction false} AfterPageKeepsTrue(host: Host, h: History, idx: Index, page: Page, n: Reading)
    requires JoinSound(host) && Deploy(host, h).Ok? && IndexTrue(host, h, idx) && !idx.meta.fatal
    requires TrueReading(host, h, n)
    ensures IndexTrue(host, h, AfterPage(idx, page, n).0) && Marked(AfterPage(idx, page, n))
  {
    MetaKeepsTrue(host, h, idx, idx.meta.(fatal := true));
    if n.target.Some? {
      var meta := idx.meta.(targetSequence := n.target.value, releaseVerified := true);
      assert TargetOk(host, h, idx.(meta := meta));
      MetaKeepsTrue(host, h, idx, meta);
    }
  }

  lemma {:induction false} SyncKeepsTrue(host: Host, h: History, idx: Index, n: Reading)
    requires JoinSound(host) && Deploy(host, h).Ok? && IndexTrue(host, h, idx) && TrueReading(host, h, n)
    ensures IndexTrue(host, h, SyncOnce(idx, n).0) && Marked(SyncOnce(idx, n))
  {
    if !idx.meta.fatal {
      MetaKeepsTrue(host, h, idx, idx.meta.(fatal := true));
      match n.response
      case NoResponse =>
      case Expired(live) =>
        if live.Ok? {
          RecoveryKeepsTrue(host, h, live.value);
        }
      case Served(page) =>
        if ApplyPage(idx, page).Ok? {
          PageKeepsTrue(host, h, idx, page);
          AfterPageKeepsTrue(host, h, ApplyPage(idx, page).value, page, n);
        }
    }
  }

  lemma {:induction false} SyncsKeepTrue(host: Host, h: History, readings: seq<Reading>)
    requires JoinSound(host) && Deploy(host, h).Ok?
    requires forall i :: 0 <= i < |readings| ==> TrueReading(host, h, readings[i])
    ensures IndexTrue(host, h, SyncAll(EmptyIndex(), readings))
  {
    if readings == [] {
      EmptyIsTrue(host, h);
    } else {
      SyncsKeepTrue(host, h, readings[..|readings| - 1]);
      SyncKeepsTrue(host, h, SyncAll(EmptyIndex(), readings[..|readings| - 1]), readings[|readings| - 1]);
    }
  }

  // ----- Main results ------------------------------------------------------------------------------

  // Any listing of the stored rows displays the books of that moment, entry for entry.
  ghost predicate ShowsBooksAt(host: Host, h: History, idx: Index, k: nat)
    requires Deploy(host, h).Ok? && k <= |h.calls|
  {
    forall rows: seq<Row>, p: nat, s: nat :: Lists(rows, idx.orders) ==>
      Entries(OrdersFor(rows, p, s)) == Book(StateAt(host, h, k), p, s)
  }

  lemma {:induction false} CaughtUpShows(host: Host, h: History, idx: Index, j: nat, base: Rows, k: nat)
    requires JoinSound(host) && Deploy(host, h).Ok? && FromPoint(host, h, idx, j, base) && j <= k <= |h.calls|
    requires idx.meta.lastSequence == StateAt(host, h, k).bookSeq
    ensures ShowsBooksAt(host, h, idx, k)
  {
    var sj, sk, sn := StateAt(host, h, j), StateAt(host, h, k), StateAfter(host, h);
    TimelineOf(host, h, j, k);
    FoldReaches(sj, sk, sn, base);
    forall rows: seq<Row>, p: nat, s: nat | Lists(rows, idx.orders)
      ensures Entries(OrdersFor(rows, p, s)) == Book(sk, p, s)
    {
      DisplayIsTheBook(sk.books, idx.orders, sk.bookSeq, rows, p, s);
    }
  }

  // However the index came about, by syncs that met true events in any pages, recoveries, failures of
  // the network and refused pages in any order: when a sync reports synced, the index displays exactly
  // the books of a moment at which the contract had the sequence that this sync took as its target.
  lemma {:induction false} SyncedIsExact(host: Host, h: History, readings: seq<Reading>, n: Reading) returns (k: nat)
    requires JoinSound(host) && Deploy(host, h).Ok? && TrueReading(host, h, n)
    requires forall i :: 0 <= i < |readings| ==> TrueReading(host, h, readings[i])
    requires SyncOnce(SyncAll(EmptyIndex(), readings), n).1 == Synced
    ensures
      var idx := SyncOnce(SyncAll(EmptyIndex(), readings), n).0;
      && k <= |h.calls| && StateAt(host, h, k).bookSeq == idx.meta.targetSequence
      && ShowsBooksAt(host, h, idx, k)
  {
    var before := SyncAll(EmptyIndex(), readings);
    var idx := SyncOnce(before, n).0;
    SyncsKeepTrue(host, h, readings);
    SyncKeepsTrue(host, h, before, n);
    SyncedStatus(before, n);
    var j, base :| FromPoint(host, h, idx, j, base);
    var t :| PointOf(host, h, t, idx.meta.targetSequence);
    if j <= t {
      k := t;
    } else {
      k := j;
      StatesGrow(host, h, t, j);
    }
    CaughtUpShows(host, h, idx, j, base, k);
  }

  // Synced is reported of what is stored.
  lemma {:induction false} SyncedStatus(idx: Index, n: Reading)
    requires SyncOnce(idx, n).1 == Synced
    ensures StatusOf(SyncOnce(idx, n).0.meta) == Synced
  {
  }

  // A failure stays: once a sync has reported one, no later sync changes anything or reports otherwise.
  lemma {:induction false} FailureStays(host: Host, h: History, readings: seq<Reading>, n: Reading,
      more: seq<Reading>, last: Reading)
    requires JoinSound(host) && Deploy(host, h).Ok? && TrueReading(host, h, n)
    requires forall i :: 0 <= i < |readings| ==> TrueReading(host, h, readings[i])
    requires SyncOnce(SyncAll(EmptyIndex(), readings), n).1 == Failed
    ensures
      var idx := SyncOnce(SyncAll(EmptyIndex(), readings), n).0;
      && StatusOf(idx.meta) == Failed
      && SyncOnce(SyncAll(idx, more), last) == (idx, Failed)
  {
    SyncsKeepTrue(host, h, readings);
    SyncKeepsTrue(host, h, SyncAll(EmptyIndex(), readings), n);
    FatalStays(SyncOnce(SyncAll(EmptyIndex(), readings), n).0, more);
  }

  lemma {:induction false} FatalStays(idx: Index, more: seq<Reading>)
    requires idx.meta.fatal
    ensures SyncAll(idx, more) == idx
  {
    if more != [] {
      FatalStays(idx, more[..|more| - 1]);
    }
  }
}
