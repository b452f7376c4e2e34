// Recovery: an index written from the live books of the contract, and what it agrees with.
module IndexRecovery {
  import opened Wrappers
  import opened Lots
  import opened Types
  import opened Ledger
  import opened BookInvariant
  import opened Value
  import opened BookIndexer
  import opened Replay
  import opened Safety
  import opened Reachable
  import opened Acceptance
  import opened IndexAgreement
  import opened IndexReplay

  // ----- Recovery ----------------------------------------------------------------------------------

  // A live book as rows: position in the book is the priority.
  function LiveBook(st: State, p: nat, s: nat): (rows: seq<Row>)
    ensures |rows| == |Book(st, p, s)|
  {
    seq(|Book(st, p, s)|, i requires 0 <= i < |Book(st, p, s)| => Row(p, s, Book(st, p, s)[i], i + 1))
  }

  // Both sides of the first n pairs.
  function LiveOrders(st: State, n: nat): seq<Row> {
    if n == 0 then [] else LiveOrders(st, n - 1) + LiveBook(st, n - 1, SIDE_BUY) + LiveBook(st, n - 1, SIDE_SELL)
  }

  // The index written from a live read of the contract at one state.
  function LiveIndex(st: State, protocol: (nat, seq<Word>), assets: map<nat, AssetRow>): Index {
    Index(Meta(true, Some(protocol), None, st.bookSeq, 0, st.bookSeq, true, false),
      PutAll(LiveOrders(st, |st.pairs|)), assets,
      map i | 0 <= i < |st.pairs| :: st.pairs[i], {})
  }

  ghost predicate IsLiveRow(st: State, n: nat, r: Row) {
    && r.pairId < n && (r.side == SIDE_BUY || r.side == SIDE_SELL)
    && 0 < r.priority <= |Book(st, r.pairId, r.side)|
    && r.entry == Book(st, r.pairId, r.side)[r.priority - 1]
  }

  lemma {:induction false} LiveBookIsLive(st: State, p: nat, s: nat, r: Row)
    requires s == SIDE_BUY || s == SIDE_SELL
    ensures r in LiveBook(st, p, s) <==> IsLiveRow(st, p + 1, r) && r.pairId == p && r.side == s
  {
    if IsLiveRow(st, p + 1, r) && r.pairId == p && r.side == s {
      assert LiveBook(st, p, s)[r.priority - 1] == r;
    }
  }

  lemma {:induction false} LiveOrdersAreLive(st: State, n: nat, r: Row)
    ensures r in LiveOrders(st, n) <==> IsLiveRow(st, n, r)
  {
    if n > 0 {
      LiveOrdersAreLive(st, n - 1, r);
      LiveBookIsLive(st, n - 1, SIDE_BUY, r);
      LiveBookIsLive(st, n - 1, SIDE_SELL, r);
    }
  }

  lemma {:induction false} PutAllHolds(rows: seq<Row>)
    requires forall a, b :: a in rows && b in rows && KeyOf(a) == KeyOf(b) ==> a == b
    ensures forall r :: r in rows <==> KeyOf(r) in PutAll(rows) && PutAll(rows)[KeyOf(r)] == r
    ensures forall k :: k in PutAll(rows) ==> PutAll(rows)[k] in rows && KeyOf(PutAll(rows)[k]) == k
  {
    if rows != [] {
      var front, last := rows[..|rows| - 1], rows[|rows| - 1];
      assert rows == front + [last];
      PutAllHolds(front);
    }
  }

  // No side holds more orders than the book sequence has counted.
  ghost predicate FewerThanSequence(st: State) {
    forall k :: k in st.books ==> |st.books[k]| <= st.bookSeq
  }

  // The rows are exactly the live ones, each under its key.
  ghost predicate HoldsLive(st: State, rows: Rows) {
    && (forall r :: IsLiveRow(st, |st.pairs|, r) ==> KeyOf(r) in rows && rows[KeyOf(r)] == r)
    && (forall k :: k in rows ==> IsLiveRow(st, |st.pairs|, rows[k]) && KeyOf(rows[k]) == k)
  }

  // Distinct ids in one side make live rows with one key equal.
  lemma {:induction false} LiveKeysAreUnique(st: State, a: Row, b: Row)
    requires BooksOk(st) && IsLiveRow(st, |st.pairs|, a) && IsLiveRow(st, |st.pairs|, b) && KeyOf(a) == KeyOf(b)
    ensures a == b
  {
    var k := (a.pairId, a.side);
    IdsNeverRepeat(st, k, a.priority - 1, k, b.priority - 1);
  }

  lemma {:induction false} LiveRowsHold(st: State)
    requires BooksOk(st)
    ensures HoldsLive(st, PutAll(LiveOrders(st, |st.pairs|)))
  {
    var n, orders := |st.pairs|, LiveOrders(st, |st.pairs|);
    forall r
      ensures r in orders <==> IsLiveRow(st, n, r)
    {
      LiveOrdersAreLive(st, n, r);
    }
    forall a, b | a in orders && b in orders && KeyOf(a) == KeyOf(b)
      ensures a == b
    {
      LiveKeysAreUnique(st, a, b);
    }
    PutAllHolds(orders);
  }

  lemma {:induction false} LiveSideRep(st: State, rows: Rows, p: nat, s: nat)
    requires BooksOk(st) && FewerThanSequence(st) && HoldsLive(st, rows)
    ensures SideRep(At(st.books, (p, s)), rows, p, s, st.bookSeq)
  {
    var book := At(st.books, (p, s));
    forall i | 0 <= i < |book|
      ensures HasRow(rows, p, s, book[i], st.bookSeq) && rows[RowKey(p, s, book[i])] == Row(p, s, book[i], i + 1)
    {
      assert IsLiveRow(st, |st.pairs|, Row(p, s, book[i], i + 1));
    }
    forall i, j | 0 <= i < j < |book|
      ensures Ahead(rows[RowKey(p, s, book[i])], rows[RowKey(p, s, book[j])], s)
    {
      assert SideOk(st, (p, s), book);
      CompareIsPriceThenPriority(rows[RowKey(p, s, book[i])], rows[RowKey(p, s, book[j])], s);
    }
    forall k | k in rows && k.pairId == p && k.side == s
      ensures Shown(book, k)
    {
      var r := rows[k];
      assert book[r.priority - 1].orderId == k.orderId;
    }
  }

  // A snapshot of the live books stands for them.
  lemma {:induction false} LiveSnapshotRep(st: State)
    requires BooksOk(st) && FewerThanSequence(st)
    ensures Rep(st.books, PutAll(LiveOrders(st, |st.pairs|)), st.bookSeq)
  {
    LiveRowsHold(st);
    forall p: nat, s: nat
      ensures SideRep(At(st.books, (p, s)), PutAll(LiveOrders(st, |st.pairs|)), p, s, st.bookSeq)
    {
      LiveSideRep(st, PutAll(LiveOrders(st, |st.pairs|)), p, s);
    }
  }

  lemma {:induction false} CountedFromStart(host: Host, h: History, k: nat)
    requires JoinSound(host) && Deploy(host, h).Ok? && k <= |h.calls|
    ensures FewerThanSequence(StateAt(host, h, k))
  {
    StartsEmpty(host, h);
    StatesGrow(host, h, 0, k);
    SizesFromEmpty(StateAt(host, h, 0), StateAt(host, h, k));
  }

  lemma {:induction false} SizesFromEmpty(st0: State, st: State)
    requires SizesFollow(st0, st) && st0.books == map[] && st0.bookSeq == 0
    ensures FewerThanSequence(st)
  {
    forall key | key in st.books
      ensures |st.books[key]| <= st.bookSeq
    {
      assert |At(st.books, key)| + st0.bookSeq <= |At(st0.books, key)| + st.bookSeq;
    }
  }

  lemma {:induction false} SnapshotStands(host: Host, h: History, j: nat)
    requires JoinSound(host) && Deploy(host, h).Ok? && j <= |h.calls|
    ensures
      var sj := StateAt(host, h, j);
      Rep(sj.books, PutAll(LiveOrders(sj, |sj.pairs|)), sj.bookSeq)
  {
    PointIsGood(host, h, j);
    CountedFromStart(host, h, j);
    LiveSnapshotRep(StateAt(host, h, j));
  }

  // A snapshot stands at its state's place in the log.
  lemma {:induction false} SnapshotIsReady(sj: State, sn: State, idx: Index)
    requires Timeline(sj, sn, sn)
    requires idx.meta.initialized && idx.meta.lastSequence == sj.bookSeq && idx.processed == {}
    ensures ReadyFor(sn.events, idx.orders, sj.bookSeq, |sj.events|, idx, idx)
  {
    assert sn.events[..|sj.events|] == sj.events;
    OrderEventsConcat(sj.events, Added(sj, sn));
    assert OrderEvents(sn.events)[sj.bookSeq..sj.bookSeq] == [];
  }

  // What recovery wrote that a registration might contradict: the protocol, and the asset's token.
  predicate RowsAgree(host: Host, st: State, vkHashes: seq<Word>, protocol: (nat, seq<Word>),
      assets: map<nat, AssetRow>, ev: Event)
  {
    match ev
    case BookInitialized(_, _) => protocol == (SCHEMA_VERSION, vkHashes)
    case AssetRegistered(a, _, _) =>
      a in assets && a in st.assets ==> assets[a].token == AnnouncedToken(host, st.assets[a])
    case _ => true
  }

  lemma {:induction false} AgreesIsRowsAgree(host: Host, h: History, j: nat, protocol: (nat, seq<Word>),
      assets: map<nat, AssetRow>, i: nat)
    requires JoinSound(host) && Deploy(host, h).Ok? && j <= |h.calls| && i < |StateAfter(host, h).events|
    ensures Agrees(LiveIndex(StateAt(host, h, j), protocol, assets), StateAfter(host, h).events[i])
       <==> RowsAgree(host, StateAfter(host, h), h.vkHashes, protocol, assets, StateAfter(host, h).events[i])
  {
    var st0, sn := Deploy(host, h).value, StateAfter(host, h);
    RunKeepsRegistry(host, st0, h.calls);
    RunKeepsRegistry(host, st0, h.calls[..j]);
    LogRegistersOnce(host, h);
    DeployRegistersOnce(host, h);
    if Registration(sn.events[i]) {
      NotRegistered(sn.events, |st0.events|, i);
      LogStartsWithDeployment(host, h, i);
      assert Registers(host, st0, h.vkHashes, st0.events[i]);
    }
  }

  lemma {:induction false} NotRegistered(log: seq<Event>, n: nat, i: nat)
    requires n <= |log| && i < |log| && NoRegistration(log[n..])
    ensures Registration(log[i]) ==> i < n
  {
    if n <= i {
      assert !Registration(log[n..][i - n]);
    }
  }

  lemma {:induction false} LogStartsWithDeployment(host: Host, h: History, i: nat)
    requires JoinSound(host) && Deploy(host, h).Ok? && i < |Deploy(host, h).value.events|
    ensures i < |StateAfter(host, h).events| && StateAfter(host, h).events[i] == Deploy(host, h).value.events[i]
  {
    DeployIsGood(host, h);
    RunKeeps(host, Deploy(host, h).value, h.calls);
  }

  // The registered pairs as rows, by ascending id.
  function PairRows(st: State): seq<(nat, PairDef)> {
    seq(|st.pairs|, i requires 0 <= i < |st.pairs| => (i, st.pairs[i]))
  }

  lemma {:induction false} PutEachByIndex(rows: seq<(nat, PairDef)>, n: nat)
    requires n <= |rows| && forall i :: 0 <= i < |rows| ==> rows[i].0 == i
    ensures PutEach(rows[..n]) == map i | 0 <= i < n :: rows[i].1
  {
    if n > 0 {
      assert rows[..n][..n - 1] == rows[..n - 1];
      PutEachByIndex(rows, n - 1);
    }
  }

  // What recovery reads at one state is written as the live index of that state.
  lemma {:induction false} SnapshotIsLiveIndex(st: State, live: LiveRead)
    requires live.orders == LiveOrders(st, |st.pairs|) && live.pairs == PairRows(st) && live.sequence == st.bookSeq
    ensures Snapshot(live) == LiveIndex(st, live.protocol, PutEach(live.assets))
  {
    PutEachByIndex(live.pairs, |live.pairs|);
    assert live.pairs[..|live.pairs|] == live.pairs;
  }

  // Recovery gets through its pages exactly when none is refused.
  lemma {:induction false} UpToIsAll(idx: Index, pages: seq<Page>)
    ensures ReceiveUpTo(idx, pages).1 <==> AllAccepted(idx, pages)
    ensures AllAccepted(idx, pages) ==> ReceiveUpTo(idx, pages).0 == ReceiveAll(idx, pages)
  {
    if pages != [] {
      var n := |pages| - 1;
      UpToIsAll(idx, pages[..n]);
      AcceptedPrefix(idx, pages, n);
      assert pages[..n + 1] == pages;
    }
  }

  // ----- Main results ------------------------------------------------------------------------------

  // Recovery from the live books read at point j: under any delivery of true events afterwards,
  // whenever the index's sequence equals the contract's at some later point, its display equals the
  // contract's books there, just as after a replay of the whole log.
  lemma {:induction false} RecoveryAgrees(host: Host, h: History, j: nat, protocol: (nat, seq<Word>),
      assets: map<nat, AssetRow>,
      pages: seq<Page>, k: nat, rows: seq<Row>, p: nat, s: nat)
    requires JoinSound(host) && Deploy(host, h).Ok? && j <= k <= |h.calls|
    requires forall i :: 0 <= i < |pages| ==> PageFromLog(StateAfter(host, h).events, pages[i])
    requires
      var idx := ReceiveAll(LiveIndex(StateAt(host, h, j), protocol, assets), pages);
      idx.meta.lastSequence == StateAt(host, h, k).bookSeq && Lists(rows, idx.orders)
    ensures Entries(OrdersFor(rows, p, s)) == Book(StateAt(host, h, k), p, s)
  {
    var sj := StateAt(host, h, j);
    SnapshotStands(host, h, j);
    TimelineOf(host, h, j, k);
    IndexFromBase(sj, StateAt(host, h, k), StateAfter(host, h), LiveIndex(sj, protocol, assets), pages, rows, p, s);
  }

  // Every registration among the delivered events is one that the recovered rows do not contradict.
  ghost predicate DeliveredAgree(host: Host, h: History, protocol: (nat, seq<Word>), assets: map<nat, AssetRow>,
      spans: seq<Span>)
    requires Deploy(host, h).Ok?
  {
    var st := StateAfter(host, h);
    forall k, i :: 0 <= k < |spans| && spans[k].start <= i < spans[k].end && i < |st.events| ==>
      RowsAgree(host, st, h.vkHashes, protocol, assets, st.events[i])
  }

  lemma {:induction false} RecoveryAccepted(host: Host, h: History, j: nat, protocol: (nat, seq<Word>),
      assets: map<nat, AssetRow>, pages: seq<Page>, spans: seq<Span>)
    requires JoinSound(host) && Deploy(host, h).Ok? && j <= |h.calls|
    requires Contiguous(StateAfter(host, h).events, pages, spans, |StateAt(host, h, j).events|)
    ensures AllAccepted(LiveIndex(StateAt(host, h, j), protocol, assets), pages)
       <==> DeliveredAgree(host, h, protocol, assets, spans)
  {
    var sj, sn, idx := StateAt(host, h, j), StateAfter(host, h), LiveIndex(StateAt(host, h, j), protocol, assets);
    SnapshotStands(host, h, j);
    TimelineToEnd(host, h, j);
    LogRegistersOnce(host, h);
    SnapshotIsReady(sj, sn, idx);
    ReplayFolds(sj, sn, idx.orders);
    PagesAccepted(sn.events, idx.orders, sj.bookSeq, |sj.events|, idx, pages, spans, |pages|);
    assert pages[..|pages|] == pages && spans[..|spans|] == spans;
    SpansAgreeIff(host, h, j, protocol, assets, spans);
  }

  // After recovery at point j, contiguous pages that start at or before the snapshot's place in the
  // log, as far back as it is retained, and run to its end: they are all accepted exactly when the
  // recovered protocol and asset tokens are those of the registrations delivered, and then the index
  // displays exactly the contract's books.
  lemma {:induction false} RecoveryCatchesUp(host: Host, h: History, j: nat, protocol: (nat, seq<Word>),
      assets: map<nat, AssetRow>, pages: seq<Page>, spans: seq<Span>, rows: seq<Row>, p: nat, s: nat)
    requires JoinSound(host) && Deploy(host, h).Ok? && j <= |h.calls|
    requires Contiguous(StateAfter(host, h).events, pages, spans, |StateAt(host, h, j).events|)
    requires Before(spans, |StateAt(host, h, j).events|, |spans|) == |StateAfter(host, h).events|
    requires Lists(rows, ReceiveAll(LiveIndex(StateAt(host, h, j), protocol, assets), pages).orders)
    ensures
      var accepted := AllAccepted(LiveIndex(StateAt(host, h, j), protocol, assets), pages);
      && (accepted <==> DeliveredAgree(host, h, protocol, assets, spans))
      && (accepted ==> Entries(OrdersFor(rows, p, s)) == Book(StateAfter(host, h), p, s))
  {
    var sj, sn, idx := StateAt(host, h, j), StateAfter(host, h), LiveIndex(StateAt(host, h, j), protocol, assets);
    RecoveryAccepted(host, h, j, protocol, assets, pages, spans);
    SnapshotStands(host, h, j);
    TimelineToEnd(host, h, j);
    LogRegistersOnce(host, h);
    SnapshotIsReady(sj, sn, idx);
    ContiguousAgrees(sj, sn, idx, |sj.events|, pages, spans, rows, p, s);
  }

  lemma {:induction false} SpansAgreeIff(host: Host, h: History, j: nat, protocol: (nat, seq<Word>),
      assets: map<nat, AssetRow>, spans: seq<Span>)
    requires JoinSound(host) && Deploy(host, h).Ok? && j <= |h.calls|
    ensures SpansAgree(StateAfter(host, h).events, LiveIndex(StateAt(host, h, j), protocol, assets), spans)
       <==> DeliveredAgree(host, h, protocol, assets, spans)
  {
    var sn, idx := StateAfter(host, h), LiveIndex(StateAt(host, h, j), protocol, assets);
    forall i | 0 <= i < |sn.events|
      ensures Agrees(idx, sn.events[i]) <==> RowsAgree(host, sn, h.vkHashes, protocol, assets, sn.events[i])
    {
      AgreesIsRowsAgree(host, h, j, protocol, assets, i);
    }
  }

  // Recovery as a whole: from a live read at point j, with the retained log served in contiguous pages
  // to its end, the last one short, recovery completes exactly when the protocol and the asset tokens
  // it wrote are those of the registrations delivered, and then displays exactly the contract's books.
  lemma {:induction false} RecoveryCompletes(host: Host, h: History, j: nat, live: LiveRead, spans: seq<Span>,
      rows: seq<Row>, p: nat, s: nat)
    requires JoinSound(host) && Deploy(host, h).Ok? && j <= |h.calls|
    requires
      var st := StateAt(host, h, j);
      live.orders == LiveOrders(st, |st.pairs|) && live.pairs == PairRows(st) && live.sequence == st.bookSeq
    requires Contiguous(StateAfter(host, h).events, live.pages, spans, |StateAt(host, h, j).events|)
    requires Before(spans, |StateAt(host, h, j).events|, |spans|) == |StateAfter(host, h).events|
    requires live.pages != [] && Asked(live.pages) == |live.pages|
    requires Lists(rows, AfterRecovery(live).0.orders)
    ensures
      var complete := ReceiveUpTo(Snapshot(live), live.pages).1;
      && (complete <==> DeliveredAgree(host, h, live.protocol, PutEach(live.assets), spans))
      && (complete ==> Entries(OrdersFor(rows, p, s)) == Book(StateAfter(host, h), p, s))
  {
    var assets := PutEach(live.assets);
    SnapshotIsLiveIndex(StateAt(host, h, j), live);
    UpToIsAll(Snapshot(live), live.pages);
    assert live.pages[..|live.pages|] == live.pages;
    RecoveryAccepted(host, h, j, live.protocol, assets, live.pages, spans);
    if ReceiveUpTo(Snapshot(live), live.pages).1 {
      RecoveryCatchesUp(host, h, j, live.protocol, assets, live.pages, spans, rows, p, s);
    }
  }

  // So recovery whose pages reach the registration of a Base-represented asset is refused unless the
  // asset's row carries the contract's own address.
  lemma {:induction false} BaseAssetNeedsAddress(host: Host, h: History, j: nat, protocol: (nat, seq<Word>),
      assets: map<nat, AssetRow>, pages: seq<Page>, spans: seq<Span>, k: nat, i: nat)
    requires JoinSound(host) && Deploy(host, h).Ok? && j <= |h.calls|
    requires Contiguous(StateAfter(host, h).events, pages, spans, |StateAt(host, h, j).events|)
    requires k < |spans| && spans[k].start <= i < spans[k].end && i < |StateAfter(host, h).events|
    requires
      var st := StateAfter(host, h);
      var ev := st.events[i];
      ev.AssetRegistered? && ev.assetId in assets && ev.assetId in st.assets
      && st.assets[ev.assetId].token.None? && assets[ev.assetId].token != host.address
    ensures !AllAccepted(LiveIndex(StateAt(host, h, j), protocol, assets), pages)
  {
    RecoveryAccepted(host, h, j, protocol, assets, pages, spans);
    assert !RowsAgree(host, StateAfter(host, h), h.vkHashes, protocol, assets, StateAfter(host, h).events[i]);
  }

  lemma {:induction false} TimelineToEnd(host: Host, h: History, j: nat)
    requires JoinSound(host) && Deploy(host, h).Ok? && j <= |h.calls|
    ensures Timeline(StateAt(host, h, j), StateAfter(host, h), StateAfter(host, h))
  {
    assert h.calls[..|h.calls|] == h.calls;
    TimelineOf(host, h, j, |h.calls|);
  }
}
