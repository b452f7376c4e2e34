// Accounting: what the event log minted, what flowed in and out, and what the books lock.
module Value {
  import opened Wrappers
  import opened Lots
  import opened Types
  import opened Codec
  import opened Ledger
  import opened BookInvariant

  // ----- Sums over the log and the flows -------------------------------------------------------

  function Worth(note: Note, asset: nat): nat {
    if note.asset == asset then note.amount else 0
  }

  function MintedBy(ev: Event, asset: nat): nat {
    match ev
    case Shielded(note) => Worth(note, asset)
    case NoteInserted(note) => Worth(note, asset)
    case Settled(noteA, noteB) => Worth(noteA, asset) + Worth(noteB, asset)
    case _ => 0
  }

  // Total note value of an asset announced by an event log.
  function Minted(events: seq<Event>, asset: nat): nat {
    if events == [] then 0
    else Minted(events[..|events| - 1], asset) + MintedBy(events[|events| - 1], asset)
  }

  datatype FlowKind = InByShield | InByBridge | OutByUnshield | Nullified

  function KindOf(f: Flow): FlowKind {
    match f
    case Deposited(_, _) => InByShield
    case Bridged(_, _, _) => InByBridge
    case PaidOut(_, _) => OutByUnshield
    case Spent(_, _, _) => Nullified
  }

  function FlowSum(flows: seq<Flow>, kind: FlowKind, asset: nat): nat {
    if flows == [] then 0
    else
      var f := flows[|flows| - 1];
      FlowSum(flows[..|flows| - 1], kind, asset) + if KindOf(f) == kind && f.asset == asset then f.amount else 0
  }

  lemma {:induction false} MintedAppend(events: seq<Event>, ev: Event, asset: nat)
    ensures Minted(events + [ev], asset) == Minted(events, asset) + MintedBy(ev, asset)
  {
    assert (events + [ev])[..|events|] == events;
  }

  lemma {:induction false} FlowAppend(flows: seq<Flow>, f: Flow, kind: FlowKind, asset: nat)
    ensures FlowSum(flows + [f], kind, asset)
         == FlowSum(flows, kind, asset) + if KindOf(f) == kind && f.asset == asset then f.amount else 0
  {
    assert (flows + [f])[..|flows|] == flows;
  }

  // ----- Sums over the books -------------------------------------------------------------------

  // What of an entry's lock counts: all of it under its asset, or under its order id.
  datatype Measure = ByAsset(asset: nat) | ById(id: Word)

  function Weight(pair: PairDef, side: nat, e: OrderEntry, m: Measure): nat {
    match m
    case ByAsset(a) => if pair.AssetIn(side) == a then e.remainingIn else 0
    case ById(id) => if e.orderId == id then e.remainingIn else 0
  }

  function SideTotal(pair: PairDef, side: nat, book: seq<OrderEntry>, m: Measure): nat {
    if book == [] then 0
    else SideTotal(pair, side, book[..|book| - 1], m) + Weight(pair, side, book[|book| - 1], m)
  }

  function At(books: map<Key, seq<OrderEntry>>, k: Key): seq<OrderEntry> {
    if k in books then books[k] else []
  }

  function PairTotal(pair: PairDef, books: map<Key, seq<OrderEntry>>, p: nat, m: Measure): nat {
    SideTotal(pair, SIDE_BUY, At(books, (p, SIDE_BUY)), m) + SideTotal(pair, SIDE_SELL, At(books, (p, SIDE_SELL)), m)
  }

  // Total measured lock over the first n pairs.
  function TotalTo(pairs: seq<PairDef>, books: map<Key, seq<OrderEntry>>, n: nat, m: Measure): nat
    requires n <= |pairs|
  {
    if n == 0 then 0 else TotalTo(pairs, books, n - 1, m) + PairTotal(pairs[n - 1], books, n - 1, m)
  }

  function Total(st: State, m: Measure): nat {
    TotalTo(st.pairs, st.books, |st.pairs|, m)
  }

  function Locked(st: State, asset: nat): nat {
    Total(st, ByAsset(asset))
  }

  lemma {:induction false} SideTotalConcat(pair: PairDef, side: nat, a: seq<OrderEntry>, b: seq<OrderEntry>, m: Measure)
    ensures SideTotal(pair, side, a + b, m) == SideTotal(pair, side, a, m) + SideTotal(pair, side, b, m)
  {
    if b == [] {
      assert a + b == a;
    } else {
      assert (a + b)[..|a + b| - 1] == a + b[..|b| - 1];
      SideTotalConcat(pair, side, a, b[..|b| - 1], m);
    }
  }

  lemma {:induction false} SideTotalInsert(pair: PairDef, side: nat, a: seq<OrderEntry>, e: OrderEntry,
      b: seq<OrderEntry>, m: Measure)
    ensures SideTotal(pair, side, a + [e] + b, m) == SideTotal(pair, side, a + b, m) + Weight(pair, side, e, m)
  {
    SideTotalConcat(pair, side, a + [e], b, m);
    SideTotalConcat(pair, side, a, [e], m);
    SideTotalConcat(pair, side, a, b, m);
    assert [e][..0] == [];
  }

  lemma {:induction false} WithoutTotal(pair: PairDef, side: nat, book: seq<OrderEntry>, i: nat, m: Measure)
    requires i < |book|
    ensures SideTotal(pair, side, book, m)
         == SideTotal(pair, side, WithoutAt(book, i), m) + Weight(pair, side, book[i], m)
  {
    assert book == book[..i] + [book[i]] + book[i + 1..];
    SideTotalInsert(pair, side, book[..i], book[i], book[i + 1..], m);
  }

  lemma {:induction false} UpdateTotal(pair: PairDef, side: nat, book: seq<OrderEntry>, i: nat, e: OrderEntry,
      m: Measure)
    requires i < |book|
    ensures SideTotal(pair, side, book[i := e], m) + Weight(pair, side, book[i], m)
         == SideTotal(pair, side, book, m) + Weight(pair, side, e, m)
  {
    assert WithoutAt(book[i := e], i) == WithoutAt(book, i);
    WithoutTotal(pair, side, book, i, m);
    WithoutTotal(pair, side, book[i := e], i, m);
  }

  lemma {:induction false} InsertTotal(pair: PairDef, side: nat, book: seq<OrderEntry>, e: OrderEntry, m: Measure)
    ensures SideTotal(pair, side, WithEntry(book, e, side), m)
         == SideTotal(pair, side, book, m) + Weight(pair, side, e, m)
  {
    var pos := SlotFrom(book, e, side, 0);
    assert book == book[..pos] + book[pos..];
    SideTotalInsert(pair, side, book[..pos], e, book[pos..], m);
  }

  // Replacing one side changes the total by the change of that side.
  lemma {:induction false} StoreTotalTo(pairs: seq<PairDef>, books: map<Key, seq<OrderEntry>>, n: nat, k: Key,
      book: seq<OrderEntry>, m: Measure)
    requires n <= |pairs| && k.0 < |pairs| && (k.1 == SIDE_BUY || k.1 == SIDE_SELL)
    ensures TotalTo(pairs, books[k := book], n, m)
         == TotalTo(pairs, books, n, m) + if k.0 < n then
              SideTotal(pairs[k.0], k.1, book, m) - SideTotal(pairs[k.0], k.1, At(books, k), m) else 0
  {
    if n > 0 {
      StoreTotalTo(pairs, books, n - 1, k, book, m);
    }
  }

  lemma {:induction false} StoreTotal(st: State, st': State, k: Key, book: seq<OrderEntry>, m: Measure)
    requires KeyOk(st, k) && st'.pairs == st.pairs && st'.books == st.books[k := book]
    ensures Total(st', m)
         == Total(st, m) + SideTotal(st.pairs[k.0], k.1, book, m) - SideTotal(st.pairs[k.0], k.1, Book(st, k.0, k.1), m)
  {
    StoreTotalTo(st.pairs, st.books, |st.pairs|, k, book, m);
  }

  // An id that rests nowhere locks nothing.
  lemma {:induction false} AbsentTotalTo(st: State, n: nat, id: Word)
    requires n <= |st.pairs|
    requires forall k :: k in st.books ==> Absent(st.books[k], id)
    ensures TotalTo(st.pairs, st.books, n, ById(id)) == 0
  {
    if n > 0 {
      AbsentTotalTo(st, n - 1, id);
      AbsentSide(st.pairs[n - 1], SIDE_BUY, At(st.books, (n - 1, SIDE_BUY)), id);
      AbsentSide(st.pairs[n - 1], SIDE_SELL, At(st.books, (n - 1, SIDE_SELL)), id);
    }
  }

  lemma {:induction false} AbsentSide(pair: PairDef, side: nat, book: seq<OrderEntry>, id: Word)
    requires Absent(book, id)
    ensures SideTotal(pair, side, book, ById(id)) == 0
  {
    if book != [] {
      AbsentSide(pair, side, book[..|book| - 1], id);
    }
  }

  // ----- The balance ---------------------------------------------------------------------------

  function FlightWorth(fl: Flight, asset: nat): nat {
    if fl.Busy? && fl.order.assetIn == asset then fl.remaining else 0
  }

  // Everything an asset's notes and locks are worth, less everything that came in for them.
  function Balance(st: State, fl: Flight, asset: nat): int {
    Minted(st.events, asset) - FlowSum(st.flows, Nullified, asset)
    + Locked(st, asset) + FlightWorth(fl, asset)
    + FlowSum(st.flows, OutByUnshield, asset)
    - FlowSum(st.flows, InByShield, asset) - FlowSum(st.flows, InByBridge, asset)
  }

  ghost predicate ValueOk(st: State, fl: Flight) {
    forall a :: Balance(st, fl, a) == 0
  }

  // How each single effect moves the balance.

  lemma {:induction false} LogBalance(st: State, ev: Event, fl: Flight, a: nat)
    ensures Balance(Log(st, ev), fl, a) == Balance(st, fl, a) + MintedBy(ev, a)
  {
    MintedAppend(st.events, ev, a);
  }

  lemma {:induction false} MintBalance(host: Host, st: State, note: Note, fl: Flight, a: nat)
    ensures Balance(Mint(host, st, note), fl, a) == Balance(st, fl, a) + Worth(note, a)
  {
    MintedAppend(st.events, NoteInserted(note), a);
  }

  lemma {:induction false} SpendBalance(st: State, nullifier: Word, asset: nat, amount: nat, fl: Flight, a: nat)
    ensures Balance(Spend(st, nullifier, asset, amount), fl, a)
         == Balance(st, fl, a) - if asset == a then amount else 0
  {
    var f := Spent(asset, amount, nullifier);
    FlowAppend(st.flows, f, Nullified, a);
    FlowAppend(st.flows, f, OutByUnshield, a);
    FlowAppend(st.flows, f, InByShield, a);
    FlowAppend(st.flows, f, InByBridge, a);
  }

  lemma {:induction false} RemoveBalance(st: State, pairId: nat, side: nat, i: nat, reason: RemoveReason, fl: Flight,
      a: nat)
    requires KeyOk(st, (pairId, side)) && i < |Book(st, pairId, side)|
    ensures Balance(RemoveAt(st, pairId, side, i, reason), fl, a) == Balance(st, fl, a)
      - if st.pairs[pairId].AssetIn(side) == a then Book(st, pairId, side)[i].remainingIn else 0
  {
    var book, m := Book(st, pairId, side), ByAsset(a);
    var st' := RemoveAt(st, pairId, side, i, reason);
    MintedAppend(st.events, st'.events[|st.events|], a);
    StoreTotal(st, st', (pairId, side), WithoutAt(book, i), m);
    WithoutTotal(st.pairs[pairId], side, book, i, m);
  }

  lemma {:induction false} UpdateBalance(st: State, pairId: nat, side: nat, i: nat, e: OrderEntry, fl: Flight, a: nat)
    requires KeyOk(st, (pairId, side)) && i < |Book(st, pairId, side)|
    ensures Balance(UpdateAt(st, pairId, side, i, e), fl, a) == Balance(st, fl, a)
      + if st.pairs[pairId].AssetIn(side) == a then e.remainingIn - Book(st, pairId, side)[i].remainingIn else 0
  {
    var book, m := Book(st, pairId, side), ByAsset(a);
    var st' := UpdateAt(st, pairId, side, i, e);
    MintedAppend(st.events, st'.events[|st.events|], a);
    StoreTotal(st, st', (pairId, side), book[i := e], m);
    UpdateTotal(st.pairs[pairId], side, book, i, e, m);
  }

  lemma {:induction false} RestBalance(st: State, pairId: nat, side: nat, e: OrderEntry, fl: Flight, a: nat)
    requires KeyOk(st, (pairId, side))
    ensures Balance(Rest(st, pairId, side, e), fl, a)
         == Balance(st, fl, a) + if st.pairs[pairId].AssetIn(side) == a then e.remainingIn else 0
  {
    var book, m := Book(st, pairId, side), ByAsset(a);
    var st' := Rest(st, pairId, side, e);
    MintedAppend(st.events, st'.events[|st.events|], a);
    StoreTotal(st, st', (pairId, side), WithEntry(book, e, side), m);
    InsertTotal(st.pairs[pairId], side, book, e, m);
  }

  // ----- Whole steps leave the balance where it was --------------------------------------------

  lemma {:induction false} ConsumeBalance(st: State, t: Taking, i: nat, give: nat, fl: Flight, a: nat)
    requires KeyOk(st, (t.pairId, t.Opp())) && i < |Opposing(t, st)| && give <= Opposing(t, st)[i].remainingIn
    ensures Balance(Consume(st, t, i, give), fl, a)
         == Balance(st, fl, a) - if st.pairs[t.pairId].AssetIn(t.Opp()) == a then give else 0
  {
    var maker := Opposing(t, st)[i];
    if maker.remainingIn == give {
      RemoveBalance(st, t.pairId, t.Opp(), i, Filled, fl, a);
    } else {
      UpdateBalance(st, t.pairId, t.Opp(), i, maker.(remainingIn := maker.remainingIn - give), fl, a);
    }
  }

  lemma {:induction false} TradeBalance(host: Host, t: Taking, m: Match, k: nat, a: nat)
    requires TakingOk(m.st, t) && TradesAt(t, m, k)
    ensures
      var m' := DoTrade(host, t, m, k);
      Balance(m'.st, Busy(t.taker, m'.remaining), a) == Balance(m.st, Busy(t.taker, m.remaining), a)
  {
    var maker, f := Opposing(t, m.st)[m.i], FillAt(t, m, k);
    DecidedTradeFits(t, maker, m.remaining);
    var fl := Busy(t.taker, m.remaining - f.pay);
    var noteT, noteM := Note(t.MakerAsset(), f.give, t.taker.outputTag), Note(t.TakerAsset(), f.pay, maker.outputTag);
    MintBalance(host, m.st, noteT, fl, a);
    MintBalance(host, Mint(host, m.st, noteT), noteM, fl, a);
    var st1 := Proceeds(host, m.st, t, maker, f);
    ConsumeBalance(st1, t, m.i, f.give, fl, a);
    var deal := Deal.Trade(maker.orderId, t.taker.nullifier, f.give, f.pay);
    DealBalance(Consume(st1, t, m.i, f.give), deal, fl, a);
  }

  lemma {:induction false} DealBalance(st: State, deal: Deal, fl: Flight, a: nat)
    ensures Balance(st.(deals := st.deals + [deal]), fl, a) == Balance(st, fl, a)
  {
  }

  lemma {:induction false} AcceptBalance(st: State, t: Taking, a: nat)
    requires 0 < t.taker.amountIn && 0 < t.taker.minOut
    ensures Balance(Accept(st, t), Busy(t.taker, t.taker.amountIn), a) == Balance(st, Idle, a)
  {
    SpendBalance(st, t.taker.nullifier, t.taker.assetIn, t.taker.amountIn, Idle, a);
  }

  lemma {:induction false} RefundBalance(host: Host, st: State, id: Word, note: Note, fl: Flight, a: nat)
    ensures Balance(RefundNote(host, st, id, note), fl, a) == Balance(st, fl, a) + Worth(note, a)
  {
    MintBalance(host, st, note, fl, a);
  }

  // Taking an entry off the book after its lock was minted back restores the balance.
  lemma {:induction false} RemoveAfterRefund(st: State, mid: State, pairId: nat, side: nat, i: nat, note: Note,
      reason: RemoveReason, a: nat)
    requires KeyOk(st, (pairId, side)) && i < |Book(st, pairId, side)|
    requires note.asset == st.pairs[pairId].AssetIn(side) && note.amount == Book(st, pairId, side)[i].remainingIn
    requires mid.pairs == st.pairs && mid.books == st.books
    requires Balance(mid, Idle, a) == Balance(st, Idle, a) + Worth(note, a)
    ensures Balance(RemoveAt(mid, pairId, side, i, reason), Idle, a) == Balance(st, Idle, a)
  {
    RemoveBalance(mid, pairId, side, i, reason, Idle, a);
  }

  lemma {:induction false} CloseBalance(host: Host, st: State, pairId: nat, side: nat, i: nat, note: Note,
      reason: RemoveReason, a: nat)
    requires KeyOk(st, (pairId, side)) && i < |Book(st, pairId, side)|
    requires note.asset == st.pairs[pairId].AssetIn(side) && note.amount == Book(st, pairId, side)[i].remainingIn
    ensures Balance(Close(host, st, pairId, side, i, note, reason), Idle, a) == Balance(st, Idle, a)
  {
    var id := Book(st, pairId, side)[i].orderId;
    RefundFrame(host, st, id, note);
    RefundBalance(host, st, id, note, Idle, a);
    RemoveAfterRefund(st, RefundNote(host, st, id, note), pairId, side, i, note, reason, a);
  }

  lemma {:induction false} ReceiveBalance(host: Host, st: State, flow: Flow, note: Note, a: nat)
    requires KindOf(flow) == InByShield || KindOf(flow) == InByBridge
    requires note.asset == flow.asset && note.amount == flow.amount
    ensures Balance(Receive(host, st, flow, note), Idle, a) == Balance(st, Idle, a)
  {
    FlowAppend(st.flows, flow, Nullified, a);
    FlowAppend(st.flows, flow, OutByUnshield, a);
    FlowAppend(st.flows, flow, InByShield, a);
    FlowAppend(st.flows, flow, InByBridge, a);
    LogBalance(InsertNote(host, st.(flows := st.flows + [flow]), note), Shielded(note), Idle, a);
  }

  lemma {:induction false} ExchangeBalance(host: Host, st: State, a: Order, b: Order, asset: nat)
    requires a.assetIn == b.assetOut && a.assetOut == b.assetIn
    ensures Balance(Exchange(host, st, a, b), Idle, asset) == Balance(st, Idle, asset)
  {
    var noteA, noteB := Note(a.assetOut, b.amountIn, a.outputTag), Note(b.assetOut, a.amountIn, b.outputTag);
    var st1 := Spend(st, a.nullifier, a.assetIn, a.amountIn);
    SpendBalance(st, a.nullifier, a.assetIn, a.amountIn, Idle, asset);
    SpendBalance(st1, b.nullifier, b.assetIn, b.amountIn, Idle, asset);
    var st2 := Spend(st1, b.nullifier, b.assetIn, b.amountIn);
    LogBalance(InsertNote(host, InsertNote(host, st2, noteA), noteB), Settled(noteA, noteB), Idle, asset);
  }

  lemma {:induction false} PayOutBalance(st: State, token: Word, asset: nat, amount: nat, nullifier: Word, a: nat)
    requires amount <= TokenBalance(st, token)
    ensures
      var st' := PayOut(HandOut(Spend(st, nullifier, asset, amount), token, amount), asset, amount, nullifier);
      Balance(st', Idle, a) == Balance(st, Idle, a)
  {
    var st1 := Spend(st, nullifier, asset, amount);
    var out := PaidOut(asset, amount);
    SpendBalance(st, nullifier, asset, amount, Idle, a);
    FlowAppend(st1.flows, out, Nullified, a);
    FlowAppend(st1.flows, out, OutByUnshield, a);
    FlowAppend(st1.flows, out, InByShield, a);
    FlowAppend(st1.flows, out, InByBridge, a);
    MintedAppend(st.events, Unshielded(asset, amount, nullifier), a);
  }

  lemma {:induction false} MergeBalance(host: Host, st: State, asset: nat, ws: seq<Word>, ins: (nat, nat),
      out1: Note, out2: Note, a: nat)
    requires |ws| == JOIN_WORDS && out1.asset == out2.asset == asset && ins.0 + ins.1 == out1.amount + out2.amount
    ensures Balance(Merge(host, st, asset, ws, ins, out1, out2), Idle, a) == Balance(st, Idle, a)
  {
    var st1 := Spend(st, ws[2], asset, ins.0);
    var st2 := Spend(st1, ws[3], asset, ins.1);
    var st3 := Mint(host, st2, out1);
    var st4 := Mint(host, st3, out2);
    SpendBalance(st, ws[2], asset, ins.0, Idle, a);
    SpendBalance(st1, ws[3], asset, ins.1, Idle, a);
    MintBalance(host, st2, out1, Idle, a);
    MintBalance(host, st3, out2, Idle, a);
    assert Merge(host, st, asset, ws, ins, out1, out2) == Log(st4, Joined(asset, ws[2], ws[3]));
    LogBalance(st4, Joined(asset, ws[2], ws[3]), Idle, a);
  }
}
