// What every reachable book satisfies: sorted sides of bounded length, entries that allow partial
// fills and lock no more than they offered, and order ids that are spent and never repeat.
module BookInvariant {
  import opened Wrappers
  import opened Lots
  import opened Types
  import opened Ledger

  // The order a call is working on: accepted, but not (yet) resting.
  datatype Flight = Idle | Busy(order: Order, remaining: nat)

  type Key = (nat, nat)

  ghost predicate PairsOk(st: State) {
    && (forall i :: 0 <= i < |st.pairs| ==> st.pairs[i].baseAsset != st.pairs[i].quoteAsset)
    && (forall i, j :: 0 <= i < j < |st.pairs| ==> !SamePair(st.pairs[i], st.pairs[j]))
  }

  ghost predicate KeyOk(st: State, k: Key) {
    k.0 < |st.pairs| && (k.1 == SIDE_BUY || k.1 == SIDE_SELL)
  }

  ghost predicate EntryOk(st: State, k: Key, e: OrderEntry) {
    && e.orderId in st.nullifiers
    && e.orderId in st.accepted && st.accepted[e.orderId] == Accepted(e.Terms(), k.0, k.1, e.partialAllowed)
    && e.remainingIn <= e.amountIn
    && e.partialAllowed
  }

  ghost predicate Sorted(book: seq<OrderEntry>, side: nat) {
    forall i, j :: 0 <= i < j < |book| ==> !Better(book[j].Terms(), book[i].Terms(), side)
  }

  ghost predicate Distinct(book: seq<OrderEntry>) {
    forall i, j :: 0 <= i < j < |book| ==> book[i].orderId != book[j].orderId
  }

  ghost predicate SideOk(st: State, k: Key, book: seq<OrderEntry>) {
    && KeyOk(st, k)
    && |book| <= BOOK_CAPACITY
    && Sorted(book, k.1)
    && Distinct(book)
    && forall i :: 0 <= i < |book| ==> EntryOk(st, k, book[i])
  }

  ghost predicate Absent(book: seq<OrderEntry>, id: Word) {
    forall i :: 0 <= i < |book| ==> book[i].orderId != id
  }

  ghost predicate BooksOk(st: State) {
    && PairsOk(st)
    && st.accepted.Keys <= st.nullifiers
    && forall k :: k in st.books ==> SideOk(st, k, st.books[k])
  }

  ghost predicate FlightOk(st: State, fl: Flight) {
    fl.Busy? ==>
      && 0 < fl.order.amountIn && 0 < fl.order.minOut && fl.remaining <= fl.order.amountIn
      && fl.order.nullifier in st.accepted
      && st.accepted[fl.order.nullifier].limit == Limit(fl.order.amountIn, fl.order.minOut)
      && forall k :: k in st.books ==> Absent(st.books[k], fl.order.nullifier)
  }

  // Order ids are distinct across all books, not only within a side.
  lemma {:induction false} IdsNeverRepeat(st: State, k1: Key, i1: nat, k2: Key, i2: nat)
    requires BooksOk(st) && k1 in st.books && k2 in st.books
    requires i1 < |st.books[k1]| && i2 < |st.books[k2]|
    requires st.books[k1][i1].orderId == st.books[k2][i2].orderId
    ensures k1 == k2 && i1 == i2
  {
    assert EntryOk(st, k1, st.books[k1][i1]) && EntryOk(st, k2, st.books[k2][i2]);
  }

  // ----- Editing one side ----------------------------------------------------------------------

  lemma {:induction false} SideOkFrame(st: State, st': State, k: Key, book: seq<OrderEntry>)
    requires SideOk(st, k, book)
    requires st'.pairs == st.pairs && st.nullifiers <= st'.nullifiers
    requires forall id :: id in st.accepted ==> id in st'.accepted && st'.accepted[id] == st.accepted[id]
    ensures SideOk(st', k, book)
  {
    forall i | 0 <= i < |book|
      ensures EntryOk(st', k, book[i])
    {
      assert EntryOk(st, k, book[i]);
    }
  }

  // Calls that leave the books alone keep the invariant.
  lemma {:induction false} BooksFrame(st: State, st': State)
    requires BooksOk(st)
    requires st'.pairs == st.pairs && st'.books == st.books && st.nullifiers <= st'.nullifiers
    requires st'.accepted == st.accepted
    ensures BooksOk(st')
  {
    forall k | k in st'.books
      ensures SideOk(st', k, st'.books[k])
    {
      SideOkFrame(st, st', k, st.books[k]);
    }
  }

  lemma {:induction false} StoreKeepsBooks(st: State, st': State, k: Key, book: seq<OrderEntry>)
    requires BooksOk(st) && SideOk(st, k, book)
    requires st'.pairs == st.pairs && st'.nullifiers == st.nullifiers && st'.accepted == st.accepted
    requires st'.books == st.books[k := book]
    ensures BooksOk(st')
  {
    forall j | j in st'.books
      ensures SideOk(st', j, st'.books[j])
    {
      SideOkFrame(st, st', j, st'.books[j]);
    }
  }

  lemma {:induction false} WithoutKeepsSide(st: State, k: Key, book: seq<OrderEntry>, i: nat)
    requires SideOk(st, k, book) && i < |book|
    ensures SideOk(st, k, WithoutAt(book, i))
    ensures Absent(WithoutAt(book, i), book[i].orderId)
    ensures forall id :: Absent(book, id) ==> Absent(WithoutAt(book, i), id)
  {
    var b := WithoutAt(book, i);
    assert forall j :: 0 <= j < |b| ==> b[j] == if j < i then book[j] else book[j + 1];
  }

  lemma {:induction false} UpdateKeepsSide(st: State, k: Key, book: seq<OrderEntry>, i: nat, remaining: Pos)
    requires SideOk(st, k, book) && i < |book| && remaining <= book[i].remainingIn
    ensures SideOk(st, k, book[i := book[i].(remainingIn := remaining)])
    ensures forall id :: Absent(book, id) ==> Absent(book[i := book[i].(remainingIn := remaining)], id)
  {
    var b := book[i := book[i].(remainingIn := remaining)];
    assert forall j :: 0 <= j < |b| ==> b[j].Terms() == book[j].Terms() && b[j].orderId == book[j].orderId;
    forall j | 0 <= j < |b|
      ensures EntryOk(st, k, b[j])
    {
      assert EntryOk(st, k, book[j]);
    }
  }

  lemma {:induction false} SlotIsFirst(book: seq<OrderEntry>, e: OrderEntry, side: nat, j: nat)
    requires j <= |book|
    ensures var pos := SlotFrom(book, e, side, j);
      && (forall i :: j <= i < pos ==> !Better(e.Terms(), book[i].Terms(), side))
      && (pos < |book| ==> Better(e.Terms(), book[pos].Terms(), side))
    decreases |book| - j
  {
    if j < |book| && !Better(e.Terms(), book[j].Terms(), side) {
      SlotIsFirst(book, e, side, j + 1);
    }
  }

  // Where the sorted insertion puts an entry: behind everything at its price or better, ahead of
  // everything worse.
  lemma {:induction false} SlotSplitsSide(book: seq<OrderEntry>, e: OrderEntry, side: nat)
    requires Sorted(book, side)
    ensures var pos := SlotFrom(book, e, side, 0);
      && (forall i :: 0 <= i < pos ==> !Better(e.Terms(), book[i].Terms(), side))
      && (forall i :: pos <= i < |book| ==> Better(e.Terms(), book[i].Terms(), side))
  {
    var pos := SlotFrom(book, e, side, 0);
    SlotIsFirst(book, e, side, 0);
    forall i | pos <= i < |book|
      ensures Better(e.Terms(), book[i].Terms(), side)
    {
      BetterIsAStrictWeakOrder(e.Terms(), book[pos].Terms(), book[i].Terms(), side);
    }
  }

  lemma {:induction false} InsertKeepsSorted(book: seq<OrderEntry>, e: OrderEntry, side: nat)
    requires Sorted(book, side)
    ensures Sorted(WithEntry(book, e, side), side)
  {
    var pos := SlotFrom(book, e, side, 0);
    var b := WithEntry(book, e, side);
    SlotSplitsSide(book, e, side);
    forall i, j | 0 <= i < j < |b|
      ensures !Better(b[j].Terms(), b[i].Terms(), side)
    {
      if i == pos {
        BetterIsAStrictWeakOrder(e.Terms(), book[j - 1].Terms(), e.Terms(), side);
      }
    }
  }

  lemma {:induction false} InsertKeepsSide(st: State, k: Key, book: seq<OrderEntry>, e: OrderEntry)
    requires SideOk(st, k, book) && EntryOk(st, k, e) && Absent(book, e.orderId) && |book| < BOOK_CAPACITY
    ensures SideOk(st, k, WithEntry(book, e, k.1))
  {
    InsertKeepsSorted(book, e, k.1);
    var pos := SlotFrom(book, e, k.1, 0);
    var b := WithEntry(book, e, k.1);
    assert forall j :: 0 <= j < |b| ==>
      b[j] == if j < pos then book[j] else if j == pos then e else book[j - 1];
  }

  // ----- State-level effects -------------------------------------------------------------------

  lemma {:induction false} AcceptKeepsBooks(st: State, t: Taking)
    requires BooksOk(st) && t.taker.nullifier !in st.nullifiers
    requires 0 < t.taker.amountIn && 0 < t.taker.minOut
    ensures BooksOk(Accept(st, t))
    ensures FlightOk(Accept(st, t), Busy(t.taker, t.taker.amountIn))
  {
    var st' := Accept(st, t);
    forall k | k in st.books
      ensures SideOk(st', k, st.books[k]) && Absent(st.books[k], t.taker.nullifier)
    {
      SideOkFrame(st, st', k, st.books[k]);
      forall i | 0 <= i < |st.books[k]|
        ensures st.books[k][i].orderId != t.taker.nullifier
      {
        assert EntryOk(st, k, st.books[k][i]);
      }
    }
  }

  lemma {:induction false} StoreSameKeepsBooks(st: State, pairId: nat, side: nat, fl: Flight)
    requires BooksOk(st) && KeyOk(st, (pairId, side)) && FlightOk(st, fl)
    ensures var st' := StoreBook(st, pairId, side, Book(st, pairId, side));
      BooksOk(st') && FlightOk(st', fl)
  {
    var book := Book(st, pairId, side);
    StoreKeepsBooks(st, StoreBook(st, pairId, side, book), (pairId, side), book);
  }

  lemma {:induction false} RemoveKeepsBooks(st: State, pairId: nat, side: nat, i: nat, reason: RemoveReason, fl: Flight)
    requires BooksOk(st) && FlightOk(st, fl) && i < |Book(st, pairId, side)|
    ensures var st' := RemoveAt(st, pairId, side, i, reason);
      BooksOk(st') && FlightOk(st', fl)
  {
    var k, book := (pairId, side), Book(st, pairId, side);
    WithoutKeepsSide(st, k, book, i);
    StoreKeepsBooks(st, RemoveAt(st, pairId, side, i, reason), k, WithoutAt(book, i));
  }

  lemma {:induction false} UpdateKeepsBooks(st: State, pairId: nat, side: nat, i: nat, remaining: Pos, fl: Flight)
    requires BooksOk(st) && FlightOk(st, fl) && i < |Book(st, pairId, side)|
    requires remaining <= Book(st, pairId, side)[i].remainingIn
    ensures var st' := UpdateAt(st, pairId, side, i, Book(st, pairId, side)[i].(remainingIn := remaining));
      BooksOk(st') && FlightOk(st', fl)
  {
    var k, book := (pairId, side), Book(st, pairId, side);
    var entry := book[i].(remainingIn := remaining);
    UpdateKeepsSide(st, k, book, i, remaining);
    StoreKeepsBooks(st, UpdateAt(st, pairId, side, i, entry), k, book[i := entry]);
  }

  lemma {:induction false} ConsumeKeepsBooks(st: State, t: Taking, i: nat, give: nat, fl: Flight)
    requires BooksOk(st) && FlightOk(st, fl) && i < |Opposing(t, st)| && give <= Opposing(t, st)[i].remainingIn
    ensures BooksOk(Consume(st, t, i, give)) && FlightOk(Consume(st, t, i, give), fl)
  {
    if Opposing(t, st)[i].remainingIn == give {
      RemoveKeepsBooks(st, t.pairId, t.Opp(), i, Filled, fl);
    } else {
      UpdateKeepsBooks(st, t.pairId, t.Opp(), i, Opposing(t, st)[i].remainingIn - give, fl);
    }
  }

  lemma {:induction false} RestKeepsBooks(st: State, pairId: nat, side: nat, entry: OrderEntry)
    requires BooksOk(st) && KeyOk(st, (pairId, side)) && EntryOk(st, (pairId, side), entry)
    requires forall k :: k in st.books ==> Absent(st.books[k], entry.orderId)
    requires |Book(st, pairId, side)| < BOOK_CAPACITY
    ensures BooksOk(Rest(st, pairId, side, entry))
  {
    var k, book := (pairId, side), Book(st, pairId, side);
    InsertKeepsSide(st, k, book, entry);
    StoreKeepsBooks(st, Rest(st, pairId, side, entry), k, WithEntry(book, entry, side));
  }

  // A taker that was verified against this state's pair registry.
  ghost predicate TakingOk(st: State, t: Taking) {
    && t.pairId < |st.pairs| && t.pair == st.pairs[t.pairId]
    && t.taker.assetIn == t.TakerAsset() && t.taker.assetOut == t.MakerAsset()
    && 0 < t.taker.amountIn && 0 < t.taker.minOut
  }

  // A loop state at which the matching loop trades k lots.
  ghost predicate TradesAt(t: Taking, m: Match, k: nat) {
    Filling(t, m) && Decide(t, Opposing(t, m.st)[m.i], m.remaining) == Decision.Trade(k)
  }

  ghost predicate SkipsAt(t: Taking, m: Match) {
    Filling(t, m) && Decide(t, Opposing(t, m.st)[m.i], m.remaining) == Skip
  }

  // Whatever every skip and every trade keeps, the matching loop keeps.
  lemma {:induction false} MatchInduction(host: Host, t: Taking, m: Match, inv: Match -> bool)
    requires m.fills <= MAX_FILLS && inv(m)
    requires forall n :: inv(n) && SkipsAt(t, n) ==> inv(Advance(n))
    requires forall n, k :: inv(n) && TradesAt(t, n, k) ==> inv(DoTrade(host, t, n, k))
    ensures inv(MatchRun(host, t, m))
    decreases MAX_FILLS - m.fills, |Opposing(t, m.st)| - m.i
  {
    if Filling(t, m) {
      match Decide(t, Opposing(t, m.st)[m.i], m.remaining)
      case Stop =>
      case Skip =>
        assert SkipsAt(t, m);
        MatchInduction(host, t, Advance(m), inv);
      case Trade(k) =>
        assert TradesAt(t, m, k);
        MatchInduction(host, t, DoTrade(host, t, m, k), inv);
    }
  }

  function FillAt(t: Taking, m: Match, k: nat): Fill
    requires m.i < |Opposing(t, m.st)|
  {
    var maker := Opposing(t, m.st)[m.i];
    FillOf(maker.amountIn, maker.minOut, k)
  }

  lemma {:induction false} MintFrame(host: Host, st: State, note: Note)
    ensures
      var st' := Mint(host, st, note);
      && st'.pairs == st.pairs && st'.books == st.books && st'.bookSeq == st.bookSeq
      && st'.nullifiers == st.nullifiers && st'.accepted == st.accepted
      && st'.deals == st.deals && st'.flows == st.flows && st'.assets == st.assets && st'.deposits == st.deposits
      && st'.tokens == st.tokens
  {
  }

  lemma {:induction false} RefundFrame(host: Host, st: State, id: Word, note: Note)
    ensures
      var st' := RefundNote(host, st, id, note);
      && st'.pairs == st.pairs && st'.books == st.books && st'.bookSeq == st.bookSeq
      && st'.nullifiers == st.nullifiers && st'.accepted == st.accepted
      && st'.flows == st.flows && st'.assets == st.assets && st'.deposits == st.deposits && st'.tokens == st.tokens
  {
    MintFrame(host, st, note);
  }

  // What the proceeds and the consumption of a fill leave alone.
  lemma {:induction false} ProceedsFrame(host: Host, st: State, t: Taking, maker: OrderEntry, f: Fill)
    ensures
      var st' := Proceeds(host, st, t, maker, f);
      && st'.pairs == st.pairs && st'.books == st.books && st'.bookSeq == st.bookSeq
      && st'.nullifiers == st.nullifiers && st'.accepted == st.accepted
      && st'.deals == st.deals && st'.flows == st.flows && st'.assets == st.assets && st'.deposits == st.deposits
      && st'.tokens == st.tokens
  {
    var noteT := Note(t.MakerAsset(), f.give, t.taker.outputTag);
    MintFrame(host, st, noteT);
    MintFrame(host, Mint(host, st, noteT), Note(t.TakerAsset(), f.pay, maker.outputTag));
  }

  lemma {:induction false} ConsumeFrame(st: State, t: Taking, i: nat, give: nat)
    requires i < |Opposing(t, st)| && give <= Opposing(t, st)[i].remainingIn
    ensures
      var st' := Consume(st, t, i, give);
      && st'.pairs == st.pairs && st'.tree == st.tree
      && st'.nullifiers == st.nullifiers && st'.accepted == st.accepted
      && st'.deals == st.deals && st'.flows == st.flows && st'.assets == st.assets && st'.deposits == st.deposits
      && st'.tokens == st.tokens
  {
  }

  lemma {:induction false} TradeKeepsBooks(host: Host, t: Taking, m: Match, k: nat)
    requires BooksOk(m.st) && FlightOk(m.st, Busy(t.taker, m.remaining)) && TradesAt(t, m, k)
    ensures
      var m' := DoTrade(host, t, m, k);
      BooksOk(m'.st) && FlightOk(m'.st, Busy(t.taker, m'.remaining))
  {
    var maker, f := Opposing(t, m.st)[m.i], FillAt(t, m, k);
    DecidedTradeFits(t, maker, m.remaining);
    var st1 := Proceeds(host, m.st, t, maker, f);
    var fl := Busy(t.taker, m.remaining - f.pay);
    BooksFrame(m.st, st1);
    ConsumeKeepsBooks(st1, t, m.i, f.give, fl);
    BooksFrame(Consume(st1, t, m.i, f.give), DoTrade(host, t, m, k).st);
  }
}
