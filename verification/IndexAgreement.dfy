// The browser's index agrees with the contract: under any delivery of true events, after a full
// replay, and after recovery from a live snapshot.
module IndexAgreement {
  import opened Wrappers
  import opened Lots
  import opened Types
  import opened Ledger
  import opened BookInvariant
  import opened Value
  import opened BookIndexer
  import opened Sorting
  import opened Replay
  import opened Safety
  import opened Reachable

  // ----- Displaying a represented side ---------------------------------------------------------

  function Entries(rows: seq<Row>): (es: seq<OrderEntry>)
    ensures |es| == |rows|
  {
    seq(|rows|, i requires 0 <= i < |rows| => rows[i].entry)
  }

  ghost predicate NoRepeats<T>(xs: seq<T>) {
    forall i, j :: 0 <= i < j < |xs| ==> xs[i] != xs[j]
  }

  // A listing of a row store: every stored row once, in any order.
  ghost predicate Lists(rows: seq<Row>, store: Rows) {
    && NoRepeats(rows)
    && (forall r :: r in rows <==> KeyOf(r) in store && store[KeyOf(r)] == r)
  }

  lemma {:induction false} NoRepeatsCount<T>(xs: seq<T>, x: T)
    requires NoRepeats(xs)
    ensures multiset(xs)[x] == if x in xs then 1 else 0
  {
    if xs != [] {
      var front, last := xs[..|xs| - 1], xs[|xs| - 1];
      NoRepeatsCount(front, x);
      assert xs == front + [last];
    }
  }

  lemma {:induction false} SameElements<T>(xs: seq<T>, ys: seq<T>)
    requires NoRepeats(xs) && NoRepeats(ys) && forall x :: x in xs <==> x in ys
    ensures multiset(xs) == multiset(ys)
  {
    forall x: T
      ensures multiset(xs)[x] == multiset(ys)[x]
    {
      NoRepeatsCount(xs, x);
      NoRepeatsCount(ys, x);
    }
  }

  lemma {:induction false} OfSideFilters(rows: seq<Row>, p: nat, s: nat)
    requires NoRepeats(rows)
    ensures NoRepeats(OfSide(rows, p, s))
    ensures forall r :: r in OfSide(rows, p, s) <==> r in rows && r.pairId == p && r.side == s
  {
    if rows != [] {
      var front := rows[..|rows| - 1];
      OfSideFilters(front, p, s);
      assert rows == front + [rows[|rows| - 1]];
    }
  }

  // The rows standing for a side, in book order.
  ghost function RowsOf(book: seq<OrderEntry>, store: Rows, p: nat, s: nat, n: nat): (rows: seq<Row>)
    requires SideRep(book, store, p, s, n)
    ensures |rows| == |book|
    ensures forall i :: 0 <= i < |rows| ==> rows[i] == store[RowKey(p, s, book[i])]
  {
    assert forall i :: 0 <= i < |book| ==> HasRow(store, p, s, book[i], n);
    seq(|book|, i requires 0 <= i < |book| => store[RowKey(p, s, book[i])])
  }

  lemma {:induction false} RowsOfAreTheSide(book: seq<OrderEntry>, store: Rows, p: nat, s: nat, n: nat, r: Row)
    requires SideRep(book, store, p, s, n)
    ensures r in RowsOf(book, store, p, s, n)
       <==> KeyOf(r) in store && store[KeyOf(r)] == r && r.pairId == p && r.side == s
  {
    var rows := RowsOf(book, store, p, s, n);
    if r in rows {
      var i :| 0 <= i < |rows| && rows[i] == r;
      assert HasRow(store, p, s, book[i], n);
    }
    if KeyOf(r) in store && store[KeyOf(r)] == r && r.pairId == p && r.side == s {
      assert Shown(book, KeyOf(r));
      var i :| 0 <= i < |book| && book[i].orderId == r.entry.orderId;
      assert RowKey(p, s, book[i]) == KeyOf(r) && rows[i] == r;
    }
  }

  lemma {:induction false} RowsOfStrictlyOrdered(book: seq<OrderEntry>, store: Rows, p: nat, s: nat, n: nat)
    requires SideRep(book, store, p, s, n)
    ensures StrictlyOrdered(RowsOf(book, store, p, s, n), InOrder(s)) && NoRepeats(RowsOf(book, store, p, s, n))
  {
    var rows := RowsOf(book, store, p, s, n);
    forall i, j | 0 <= i < j < |rows|
      ensures !InOrder(s)(rows[j], rows[i]) && rows[i] != rows[j]
    {
      assert Ahead(store[RowKey(p, s, book[i])], store[RowKey(p, s, book[j])], s);
      CompareIsPriceThenPriority(rows[i], rows[j], s);
    }
  }

  lemma {:induction false} SideIsListed(book: seq<OrderEntry>, store: Rows, n: nat, rows: seq<Row>, p: nat, s: nat)
    requires SideRep(book, store, p, s, n) && Lists(rows, store)
    ensures multiset(OfSide(rows, p, s)) == multiset(RowsOf(book, store, p, s, n))
  {
    var target, mine := RowsOf(book, store, p, s, n), OfSide(rows, p, s);
    RowsOfStrictlyOrdered(book, store, p, s, n);
    OfSideFilters(rows, p, s);
    forall r
      ensures r in mine <==> r in target
    {
      RowsOfAreTheSide(book, store, p, s, n, r);
    }
    SameElements(mine, target);
  }

  lemma {:induction false} EntriesOfRows(book: seq<OrderEntry>, store: Rows, p: nat, s: nat, n: nat)
    requires SideRep(book, store, p, s, n)
    ensures Entries(RowsOf(book, store, p, s, n)) == book
  {
    assert forall i :: 0 <= i < |book| ==> HasRow(store, p, s, book[i], n);
  }

  // Displaying any listing of rows that stand for the books shows each side entry for entry, in
  // the contract's own order.
  lemma {:induction false} DisplayIsTheBook(books: Books, store: Rows, n: nat, rows: seq<Row>, p: nat, s: nat)
    requires Rep(books, store, n) && Lists(rows, store)
    ensures Entries(OrdersFor(rows, p, s)) == At(books, (p, s))
  {
    var book := At(books, (p, s));
    assert SideRep(book, store, p, s, n);
    SideIsListed(book, store, n, rows, p, s);
    CompareIsAPreorder(s);
    SortBySorts(OfSide(rows, p, s), InOrder(s));
    RowsOfStrictlyOrdered(book, store, p, s, n);
    StrictOrderIsUnique(OrdersFor(rows, p, s), RowsOf(book, store, p, s, n), InOrder(s));
    EntriesOfRows(book, store, p, s, n);
  }

  // ----- Any delivery ----------------------------------------------------------------------------

  // A delivery of the event at its own position of the log.
  ghost predicate FromLog(log: seq<Event>, d: Delivery) {
    d.id < |log| && d.event == log[d.id]
  }

  // The index holds exactly the fold of the log's order events after the base, up to its sequence.
  ghost predicate Tracks(log: seq<Event>, base: Rows, from: nat, idx: Index) {
    var all := OrderEvents(log);
    && from <= idx.meta.lastSequence <= |all|
    && FoldOrders(base, all[from..idx.meta.lastSequence]) == Ok(idx.orders)
  }

  lemma {:induction false} LogOrderEvent(log: seq<Event>, i: nat)
    requires i < |log| && IsOrderEvent(log[i])
    ensures log[i] in OrderEvents(log)
  {
    var front := log[..|log| - 1];
    if i < |log| - 1 {
      LogOrderEvent(front, i);
    }
  }

  // In a numbered log the order event with a sequence number is the one at that place.
  lemma {:induction false} SequenceIsPosition(log: seq<Event>, i: nat)
    requires Numbered(OrderEvents(log), 0) && i < |log| && IsOrderEvent(log[i])
    ensures 0 < SequenceOf(log[i]) <= |OrderEvents(log)| && OrderEvents(log)[SequenceOf(log[i]) - 1] == log[i]
  {
    LogOrderEvent(log, i);
  }

  lemma {:induction false} FoldSnoc(base: Rows, all: seq<Event>, from: nat, n: nat)
    requires from <= n < |all| && forall i :: 0 <= i < |all| ==> IsOrderEvent(all[i])
    ensures FoldOrders(base, all[from..n + 1]) ==
      if FoldOrders(base, all[from..n]).Ok? then ApplyOrder(FoldOrders(base, all[from..n]).value, all[n])
      else FoldOrders(base, all[from..n])
  {
    assert all[from..n + 1][..n - from] == all[from..n];
  }

  lemma {:induction false} SequencedTracks(log: seq<Event>, base: Rows, from: nat, idx: Index, d: Delivery)
    requires Numbered(OrderEvents(log), 0) && Tracks(log, base, from, idx) && FromLog(log, d)
    requires IsOrderEvent(d.event)
    ensures var r := ApplySequenced(idx, d); r.Ok? ==> Tracks(log, base, from, r.value)
  {
    var n := idx.meta.lastSequence;
    if SequenceOf(d.event) == n + 1 {
      SequenceIsPosition(log, d.id);
      FoldSnoc(base, OrderEvents(log), from, n);
    }
  }

  // Events that carry no order leave the rows and the sequence alone.
  lemma {:induction false} UnsequencedKeepsOrders(idx: Index, d: Delivery)
    requires !IsOrderEvent(d.event) || d.id in idx.processed
    ensures
      var r := ApplyOne(idx, d);
      r.Ok? ==> r.value.orders == idx.orders && r.value.meta.lastSequence == idx.meta.lastSequence
  {
  }

  // One delivered event, whatever it is and however often it comes, is rejected or keeps the index
  // a fold of the log.
  lemma {:induction false} ApplyOneTracks(log: seq<Event>, base: Rows, from: nat, idx: Index, d: Delivery)
    requires Numbered(OrderEvents(log), 0) && Tracks(log, base, from, idx) && FromLog(log, d)
    ensures var r := ApplyOne(idx, d); r.Ok? ==> Tracks(log, base, from, r.value)
  {
    if IsOrderEvent(d.event) && d.id !in idx.processed {
      assert ApplyOne(idx, d) == ApplySequenced(idx, d);
      SequencedTracks(log, base, from, idx, d);
    } else {
      UnsequencedKeepsOrders(idx, d);
    }
  }

  lemma {:induction false} ApplyAllTracks(log: seq<Event>, base: Rows, from: nat, idx: Index, ds: seq<Delivery>)
    requires Numbered(OrderEvents(log), 0) && Tracks(log, base, from, idx)
    requires forall i :: 0 <= i < |ds| ==> FromLog(log, ds[i])
    ensures var r := ApplyAll(idx, ds); r.Ok? ==> Tracks(log, base, from, r.value)
  {
    if ds != [] {
      var front := ds[..|ds| - 1];
      ApplyAllTracks(log, base, from, idx, front);
      if ApplyAll(idx, front).Ok? {
        ApplyOneTracks(log, base, from, ApplyAll(idx, front).value, ds[|ds| - 1]);
      }
    }
  }

  ghost predicate PageFromLog(log: seq<Event>, page: Page) {
    forall i :: 0 <= i < |page.events| ==> FromLog(log, page.events[i])
  }

  lemma {:induction false} ReceiveAllTracks(log: seq<Event>, base: Rows, from: nat, idx: Index, pages: seq<Page>)
    requires Numbered(OrderEvents(log), 0) && Tracks(log, base, from, idx)
    requires forall i :: 0 <= i < |pages| ==> PageFromLog(log, pages[i])
    ensures Tracks(log, base, from, ReceiveAll(idx, pages))
  {
    if pages != [] {
      var front, page := pages[..|pages| - 1], pages[|pages| - 1];
      ReceiveAllTracks(log, base, from, idx, front);
      assert PageFromLog(log, page);
      ApplyAllTracks(log, base, from, ReceiveAll(idx, front), page.events);
    }
  }

  // ----- The contract's log ----------------------------------------------------------------------

  // The state after the first k calls of a history.
  function StateAt(host: Host, h: History, k: nat): State
    requires Deploy(host, h).Ok? && k <= |h.calls|
  {
    Run(host, Deploy(host, h).value, h.calls[..k])
  }

  lemma {:induction false} RunSplits(host: Host, st: State, a: seq<Call>, b: seq<Call>)
    ensures Run(host, st, a + b) == Run(host, Run(host, st, a), b)
  {
    if b == [] {
      assert a + b == a;
    } else {
      assert (a + b)[..|a + b| - 1] == a + b[..|b| - 1];
      RunSplits(host, st, a, b[..|b| - 1]);
    }
  }

  lemma {:induction false} PointIsGood(host: Host, h: History, k: nat)
    requires JoinSound(host) && Deploy(host, h).Ok? && k <= |h.calls|
    ensures Good(host, StateAt(host, h, k), Idle)
  {
    DeployIsGood(host, h);
    RunKeeps(host, Deploy(host, h).value, h.calls[..k]);
  }

  lemma {:induction false} RunGrows(host: Host, st0: State, calls: seq<Call>, j: nat, k: nat)
    requires JoinSound(host) && Good(host, st0, Idle) && j <= k <= |calls|
    ensures Grows(Run(host, st0, calls[..j]), Run(host, st0, calls[..k]))
  {
    RunKeeps(host, st0, calls[..j]);
    assert calls[..k] == calls[..j] + calls[j..k];
    RunSplits(host, st0, calls[..j], calls[j..k]);
    RunKeeps(host, Run(host, st0, calls[..j]), calls[j..k]);
  }

  lemma {:induction false} StatesGrow(host: Host, h: History, j: nat, k: nat)
    requires JoinSound(host) && Deploy(host, h).Ok? && j <= k <= |h.calls|
    ensures Grows(StateAt(host, h, j), StateAt(host, h, k))
  {
    DeployIsGood(host, h);
    RunGrows(host, Deploy(host, h).value, h.calls, j, k);
  }

  // At every point of a history the log holds exactly one order event per book sequence number.
  lemma {:induction false} LogIsNumbered(host: Host, h: History, k: nat)
    requires JoinSound(host) && Deploy(host, h).Ok? && k <= |h.calls|
    ensures
      var st := StateAt(host, h, k);
      Numbered(OrderEvents(st.events), 0) && |OrderEvents(st.events)| == st.bookSeq
  {
    var st0, st := Deploy(host, h).value, StateAt(host, h, k);
    DeployIsPristine(host, h);
    RegistrationsMintNothing(host, st0.events, 0);
    assert h.calls[..0] == [];
    StatesGrow(host, h, 0, k);
    OrderEventsConcat(st0.events, Added(st0, st));
  }

  ghost predicate Counted(st: State) {
    Numbered(OrderEvents(st.events), 0) && |OrderEvents(st.events)| == st.bookSeq
  }

  // Three points of one history, in order: what the index facts need to know of them.
  ghost predicate Timeline(sj: State, sk: State, sn: State) {
    Counted(sj) && Counted(sk) && Counted(sn) && Grows(sj, sk) && Grows(sk, sn)
  }

  lemma {:induction false} TimelineOf(host: Host, h: History, j: nat, k: nat)
    requires JoinSound(host) && Deploy(host, h).Ok? && j <= k <= |h.calls|
    ensures Timeline(StateAt(host, h, j), StateAt(host, h, k), StateAfter(host, h))
  {
    var n := |h.calls|;
    assert h.calls[..n] == h.calls;
    StatesGrow(host, h, j, k);
    StatesGrow(host, h, k, n);
    LogIsNumbered(host, h, j);
    LogIsNumbered(host, h, k);
    LogIsNumbered(host, h, n);
  }

  // Rows standing for the books at one point fold, over the order events since, to rows standing
  // for the books at a later point.
  lemma {:induction false} FoldReaches(sj: State, sk: State, sn: State, base: Rows)
    requires Timeline(sj, sk, sn) && Rep(sj.books, base, sj.bookSeq)
    ensures
      var all := OrderEvents(sn.events);
      sj.bookSeq <= sk.bookSeq <= |all| && FoldsTo(sj, sk, all[sj.bookSeq..sk.bookSeq], base)
  {
    OrderEventsConcat(sj.events, Added(sj, sk));
    OrderEventsConcat(sk.events, Added(sk, sn));
    assert OrderEvents(sn.events)[sj.bookSeq..sk.bookSeq] == OrderEvents(Added(sj, sk));
    assert FoldsTo(sj, sk, OrderEvents(Added(sj, sk)), base);
  }

  // From an index that stands for the books at sj, any delivery of the events of sn's log leads, as
  // soon as the sequence is that of sk, to a display of exactly the books at sk.
  lemma {:induction false} IndexFromBase(sj: State, sk: State, sn: State, idx: Index, pages: seq<Page>,
      rows: seq<Row>, p: nat, s: nat)
    requires Timeline(sj, sk, sn)
    requires Rep(sj.books, idx.orders, sj.bookSeq) && idx.meta.lastSequence == sj.bookSeq
    requires forall i :: 0 <= i < |pages| ==> PageFromLog(sn.events, pages[i])
    requires ReceiveAll(idx, pages).meta.lastSequence == sk.bookSeq
    requires Lists(rows, ReceiveAll(idx, pages).orders)
    ensures Entries(OrdersFor(rows, p, s)) == Book(sk, p, s)
  {
    FoldReaches(sj, sk, sn, idx.orders);
    assert OrderEvents(sn.events)[sj.bookSeq..sj.bookSeq] == [];
    ReceiveAllTracks(sn.events, idx.orders, sj.bookSeq, idx, pages);
    DisplayIsTheBook(sk.books, ReceiveAll(idx, pages).orders, sk.bookSeq, rows, p, s);
  }

  lemma {:induction false} StartsEmpty(host: Host, h: History)
    requires Deploy(host, h).Ok?
    ensures
      var st := StateAt(host, h, 0);
      st == Deploy(host, h).value && st.books == map[] && st.bookSeq == 0
  {
    assert h.calls[..0] == [];
    DeployIsPristine(host, h);
  }

  // Whatever true events arrive, in whatever pages, order, repetition or omission, once the index's
  // sequence equals the contract's at some point, its display equals the contract's books there.
  lemma {:induction false} AnyDeliveryAgrees(host: Host, h: History, pages: seq<Page>, k: nat, rows: seq<Row>,
      p: nat, s: nat)
    requires JoinSound(host) && Deploy(host, h).Ok? && k <= |h.calls|
    requires forall i :: 0 <= i < |pages| ==> PageFromLog(StateAfter(host, h).events, pages[i])
    requires ReceiveAll(EmptyIndex(), pages).meta.lastSequence == StateAt(host, h, k).bookSeq
    requires Lists(rows, ReceiveAll(EmptyIndex(), pages).orders)
    ensures Entries(OrdersFor(rows, p, s)) == Book(StateAt(host, h, k), p, s)
  {
    StartsEmpty(host, h);
    TimelineOf(host, h, 0, k);
    EmptyRep(map[], StateAt(host, h, 0).books);
    IndexFromBase(StateAt(host, h, 0), StateAt(host, h, k), StateAfter(host, h), EmptyIndex(), pages, rows, p, s);
  }
}
