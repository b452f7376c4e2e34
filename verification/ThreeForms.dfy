// The three ways to trade agree: an exact settlement is a settlement, and two mirrored orders that
// go through the book instead end in the same notes, the same spends and empty books.
module ThreeForms {
  import opened Wrappers
  import opened Lots
  import opened Types
  import opened Codec
  import opened Ledger
  import opened BookInvariant
  import opened Matching
  import opened NoteLog

  // ----- settle_exact is settle ----------------------------------------------------------------

  function Flipped(r: Result<(nat, Side), Error>): Result<(nat, Side), Error> {
    if r.Ok? then Ok((r.value.0, r.value.1.Opposite())) else r
  }

  // Reversing an order's assets finds the same pair on the other side.
  lemma {:induction false} ReversedPair(pairs: seq<PairDef>, assetIn: nat, assetOut: nat, i: nat)
    requires i <= |pairs| && assetIn != assetOut
    ensures PairAndSideFrom(pairs, assetOut, assetIn, i) == Flipped(PairAndSideFrom(pairs, assetIn, assetOut, i))
    decreases |pairs| - i
  {
    if i < |pairs| {
      ReversedPair(pairs, assetIn, assetOut, i + 1);
    }
  }

  // Each order gives exactly what the other asks for.
  predicate Mirrored(a: Order, b: Order) {
    a.assetIn == b.assetOut && a.assetOut == b.assetIn && a.amountIn == b.minOut && b.amountIn == a.minOut
  }

  // settle_exact succeeds exactly when settle does, the two orders mirror each other and their pair
  // is registered; and then both have the same effect.
  lemma {:induction false} ExactIsSettle(host: Host, st: State, x: Signed, y: Signed)
    requires PairsOk(st)
    ensures SettleExact(host, st, x, y).Ok? <==>
      && Settle(host, st, x, y).Ok?
      && (var (a, b) := TwoOrders(host, st, x, y).value;
          Mirrored(a, b) && PairAndSide(st, a.assetIn, a.assetOut).Ok?)
    ensures SettleExact(host, st, x, y).Ok? ==> SettleExact(host, st, x, y) == Settle(host, st, x, y)
  {
    var orders := TwoOrders(host, st, x, y);
    if orders.Ok? {
      var (a, b) := orders.value;
      var place := PairAndSide(st, a.assetIn, a.assetOut);
      if place.Ok? {
        PairIsProper(st, a.assetIn, a.assetOut);
        ReversedPair(st.pairs, a.assetIn, a.assetOut, 0);
      }
    }
  }

  lemma {:induction false} PairIsProper(st: State, assetIn: nat, assetOut: nat)
    requires PairsOk(st) && PairAndSide(st, assetIn, assetOut).Ok?
    ensures assetIn != assetOut
  {
    var (p, side) := PairAndSide(st, assetIn, assetOut).value;
    assert st.pairs[p].baseAsset != st.pairs[p].quoteAsset;
  }

  // ----- Mirrored orders through the book ------------------------------------------------------

  // A mirrored taker takes a fresh maker whole, in one fill.
  lemma {:induction false} MirroredFill(t: Taking, maker: OrderEntry)
    requires maker.remainingIn == maker.amountIn && t.now <= maker.expiry
    requires t.taker.amountIn == maker.minOut && t.taker.minOut == maker.amountIn
    ensures
      var d := Decide(t, maker, t.taker.amountIn);
      d.Trade? && FillOf(maker.amountIn, maker.minOut, d.k) == Fill(maker.amountIn, maker.minOut)
  {
    var g := Gcd(maker.amountIn, maker.minOut);
    var own, price := OwnLot(maker.amountIn, maker.minOut), PriceLot(maker.amountIn, maker.minOut);
    LotFacts(maker.amountIn, maker.minOut);
    ResidueUnique(maker.amountIn, own, g, 0);
    ResidueUnique(maker.minOut, price, g, 0);
    assert CrossAmounts(maker.amountIn, maker.minOut, maker.minOut, maker.amountIn);
  }

  // A taker that meets an empty side rests whole.
  lemma {:induction false} FirstRests(host: Host, st: State, t: Taking)
    requires 0 < t.taker.amountIn && 0 < t.taker.minOut && t.taker.partialAllowed
    requires Opposing(t, st) == [] && |Book(st, t.pairId, t.side.Code())| < BOOK_CAPACITY
    ensures SubmitTaker(host, st, t)
         == Ok(Rest(Begin(st, t).st, t.pairId, t.side.Code(), EntryOf(t.taker, t.taker.amountIn)))
  {
    assert MatchTaker(host, t, st) == Begin(st, t);
    assert Announce(t, Begin(st, t)) == Begin(st, t).st;
  }

  lemma {:induction false} TakesWhole(host: Host, st: State, t: Taking, maker: OrderEntry)
    requires 0 < t.taker.amountIn && Opposing(t, st) == [maker]
    requires maker.remainingIn == maker.amountIn && t.now <= maker.expiry
    requires t.taker.amountIn == maker.minOut && t.taker.minOut == maker.amountIn
    ensures MatchTaker(host, t, st)
         == Match(Traded(host, Begin(st, t).st, t, 0, Fill(maker.amountIn, maker.minOut)), 0, 1, 0, maker.amountIn)
  {
    var m0, f := Begin(st, t), Fill(maker.amountIn, maker.minOut);
    MirroredFill(t, maker);
    var k := Decide(t, maker, m0.remaining).k;
    var m1 := DoTrade(host, t, m0, k);
    TradeIs(host, t, m0, k, f);
    RunTrades(host, t, m0, k, m1, MatchRun(host, t, m0));
    RunEnds(host, t, m1);
  }

  function TakingOf(st: State, now: nat, o: Order, place: (nat, Side)): Taking
    requires place.0 < |st.pairs|
  {
    Taking(now, place.0, st.pairs[place.0], place.1, o)
  }

  // The state after an order came to rest without a fill.
  function Rested(st: State, t: Taking): State
    requires 0 < t.taker.amountIn && 0 < t.taker.minOut
  {
    var st1 := Accept(st, t);
    Rest(Begin(st1, t).st, t.pairId, t.side.Code(), EntryOf(t.taker, t.taker.amountIn))
  }

  ghost predicate EmptyPair(st: State, p: nat) {
    Book(st, p, SIDE_BUY) == [] && Book(st, p, SIDE_SELL) == []
  }

  lemma {:induction false} RestedEffect(host: Host, st: State, t: Taking)
    requires 0 < t.taker.amountIn && 0 < t.taker.minOut && EmptyPair(st, t.pairId)
    ensures
      var st' := Rested(st, t);
      && st'.pairs == st.pairs && st'.tree == st.tree
      && st'.nullifiers == st.nullifiers + {t.taker.nullifier}
      && st'.flows == st.flows + [Spent(t.taker.assetIn, t.taker.amountIn, t.taker.nullifier)]
      && Book(st', t.pairId, t.side.Code()) == [EntryOf(t.taker, t.taker.amountIn)]
      && Book(st', t.pairId, t.Opp()) == []
      && Leaves(host, st'.events) == Leaves(host, st.events)
  {
    var e := EntryOf(t.taker, t.taker.amountIn);
    assert WithEntry([], e, t.side.Code()) == [e];
    LeavesAppend(host, st.events, OrderUpserted(st.bookSeq + 1, t.pairId, t.side.Code(), e));
  }

  // An order that meets an empty side rests.
  lemma {:induction false} FirstSubmit(host: Host, st: State, now: nat, a: Order, place: (nat, Side))
    requires PairAndSide(st, a.assetIn, a.assetOut) == Ok(place)
    requires Book(st, place.0, place.1.Opposite().Code()) == []
    requires |Book(st, place.0, place.1.Code())| < BOOK_CAPACITY
    requires 0 < a.amountIn && 0 < a.minOut && a.partialAllowed && now <= a.expiry && a.nullifier !in st.nullifiers
    ensures SubmitParsed(host, st, now, a) == Ok(Rested(st, TakingOf(st, now, a, place)))
  {
    FirstRests(host, Accept(st, TakingOf(st, now, a, place)), TakingOf(st, now, a, place));
  }

  // A fill announces its two proceeds notes.
  lemma {:induction false} ProceedsLeaves(host: Host, st: State, t: Taking, maker: OrderEntry, f: Fill)
    requires 0 < f.give && 0 < f.pay
    ensures Leaves(host, Proceeds(host, st, t, maker, f).events) == Leaves(host, st.events)
      + [NoteLeaf(host, Note(t.MakerAsset(), f.give, t.taker.outputTag))]
      + [NoteLeaf(host, Note(t.TakerAsset(), f.pay, maker.outputTag))]
  {
    var n1, n2 := Note(t.MakerAsset(), f.give, t.taker.outputTag), Note(t.TakerAsset(), f.pay, maker.outputTag);
    LeavesAppend(host, st.events, NoteInserted(n1));
    LeavesAppend(host, st.events + [NoteInserted(n1)], NoteInserted(n2));
    assert Proceeds(host, st, t, maker, f).events == st.events + [NoteInserted(n1)] + [NoteInserted(n2)];
  }

  lemma {:induction false} RemovedEffect(host: Host, st: State, t: Taking, maker: OrderEntry)
    requires Opposing(t, st) == [maker] && maker.remainingIn == maker.amountIn
    requires Book(st, t.pairId, t.side.Code()) == []
    ensures
      var st' := Consume(st, t, 0, maker.amountIn);
      && st'.nullifiers == st.nullifiers && st'.flows == st.flows && EmptyPair(st', t.pairId)
      && Leaves(host, st'.events) == Leaves(host, st.events)
  {
    LeavesAppend(host, st.events, OrderRemoved(st.bookSeq + 1, t.pairId, t.Opp(), maker.orderId, Filled.Code()));
    assert WithoutAt([maker], 0) == [];
  }

  // What taking a side's only maker whole does.
  lemma {:induction false} TradedEffect(host: Host, st: State, t: Taking, maker: OrderEntry)
    requires Opposing(t, st) == [maker] && maker.remainingIn == maker.amountIn
    requires Book(st, t.pairId, t.side.Code()) == []
    ensures
      var st' := Traded(host, st, t, 0, Fill(maker.amountIn, maker.minOut));
      && st'.nullifiers == st.nullifiers && st'.flows == st.flows && EmptyPair(st', t.pairId)
      && Leaves(host, st'.events) == Leaves(host, st.events)
           + [NoteLeaf(host, Note(t.MakerAsset(), maker.amountIn, t.taker.outputTag))]
           + [NoteLeaf(host, Note(t.TakerAsset(), maker.minOut, maker.outputTag))]
  {
    var f := Fill(maker.amountIn, maker.minOut);
    ProceedsFrame(host, st, t, maker, f);
    ProceedsLeaves(host, st, t, maker, f);
    RemovedEffect(host, Proceeds(host, st, t, maker, f), t, maker);
  }

  // The second order takes the first whole and nothing is left of either.
  lemma {:induction false} SecondTakes(host: Host, st: State, t: Taking, maker: OrderEntry)
    requires Opposing(t, st) == [maker] && Book(st, t.pairId, t.side.Code()) == []
    requires maker.remainingIn == maker.amountIn < I128_LIMIT && t.now <= maker.expiry
    requires t.taker.amountIn == maker.minOut && t.taker.minOut == maker.amountIn
    ensures
      var r := SubmitTaker(host, st, t);
      && r.Ok? && EmptyPair(r.value, t.pairId) && r.value.nullifiers == st.nullifiers && r.value.flows == st.flows
      && Leaves(host, r.value.events) == Leaves(host, st.events)
           + [NoteLeaf(host, Note(t.MakerAsset(), maker.amountIn, t.taker.outputTag))]
           + [NoteLeaf(host, Note(t.TakerAsset(), maker.minOut, maker.outputTag))]
  {
    var m := MatchTaker(host, t, st);
    TakesWhole(host, st, t, maker);
    TradedEffect(host, Begin(st, t).st, t, maker);
    AnnounceEffect(host, t, m);
    NothingLeft(host, st, t, m);
  }

  lemma {:induction false} SecondSubmit(host: Host, st: State, now: nat, b: Order, place: (nat, Side),
      maker: OrderEntry)
    requires PairAndSide(st, b.assetIn, b.assetOut) == Ok(place) && b.nullifier !in st.nullifiers && now <= b.expiry
    requires Book(st, place.0, place.1.Opposite().Code()) == [maker] && Book(st, place.0, place.1.Code()) == []
    requires maker.remainingIn == maker.amountIn < I128_LIMIT && now <= maker.expiry
    requires b.amountIn == maker.minOut && b.minOut == maker.amountIn
    ensures
      var r := SubmitParsed(host, st, now, b);
      && r.Ok? && EmptyPair(r.value, place.0)
      && r.value.nullifiers == st.nullifiers + {b.nullifier}
      && r.value.flows == st.flows + [Spent(b.assetIn, b.amountIn, b.nullifier)]
      && Leaves(host, r.value.events) == Leaves(host, st.events)
           + [NoteLeaf(host, Note(b.assetOut, b.minOut, b.outputTag))]
           + [NoteLeaf(host, Note(b.assetIn, b.amountIn, maker.outputTag))]
  {
    var t := TakingOf(st, now, b, place);
    PastChecks(host, st, now, b, place, Accept(st, t), t);
    SecondTakes(host, Accept(st, t), t, maker);
  }

  // What a submission that passes its checks hands to the matching.
  lemma {:induction false} PastChecks(host: Host, st: State, now: nat, o: Order, place: (nat, Side), st1: State,
      t: Taking)
    requires PairAndSide(st, o.assetIn, o.assetOut) == Ok(place) && o.nullifier !in st.nullifiers && now <= o.expiry
    requires 0 < o.amountIn && 0 < o.minOut && t == TakingOf(st, now, o, place) && st1 == Accept(st, t)
    ensures SubmitParsed(host, st, now, o) == SubmitTaker(host, st1, t)
    ensures st1.books == st.books && st1.events == st.events && st1.nullifiers == st.nullifiers + {o.nullifier}
    ensures st1.flows == st.flows + [Spent(o.assetIn, o.amountIn, o.nullifier)]
  {
  }

  // A taker of which nothing is left is done once its fills are announced.
  lemma {:induction false} NothingLeft(host: Host, st: State, t: Taking, m: Match)
    requires 0 < t.taker.amountIn && 0 < t.taker.minOut
    requires m == MatchTaker(host, t, st) && m.remaining == 0 && m.filledOut < I128_LIMIT
    ensures SubmitTaker(host, st, t) == Ok(Announce(t, m))
  {
  }

  lemma {:induction false} AnnounceEffect(host: Host, t: Taking, m: Match)
    requires m.remaining <= t.taker.amountIn
    ensures
      var st' := Announce(t, m);
      && st'.nullifiers == m.st.nullifiers && st'.flows == m.st.flows && st'.books == m.st.books
      && Leaves(host, st'.events) == Leaves(host, m.st.events)
  {
    if m.remaining < t.taker.amountIn {
      FilledIsQuiet(host, m.st, t.taker.assetIn, t.taker.amountIn - m.remaining, t.taker.assetOut, m.filledOut,
        t.taker.outputTag);
    }
  }

  lemma {:induction false} FilledIsQuiet(host: Host, st: State, assetIn: nat, spent: nat, assetOut: nat, got: nat,
      tag: Word)
    ensures Leaves(host, Log(st, TakerFilled(assetIn, spent, assetOut, got, tag)).events) == Leaves(host, st.events)
  {
    LeavesAppend(host, st.events, TakerFilled(assetIn, spent, assetOut, got, tag));
  }

  // An order has come to rest, alone on its pair.
  ghost predicate RestsAlone(host: Host, st: State, first: State, a: Order, place: (nat, Side)) {
    && 0 < a.amountIn && 0 < a.minOut
    && first.pairs == st.pairs && first.nullifiers == st.nullifiers + {a.nullifier}
    && first.flows == st.flows + [Spent(a.assetIn, a.amountIn, a.nullifier)]
    && Book(first, place.0, place.1.Code()) == [EntryOf(a, a.amountIn)]
    && Book(first, place.0, place.1.Opposite().Code()) == []
    && Leaves(host, first.events) == Leaves(host, st.events)
  }

  lemma {:induction false} MirroredSecond(host: Host, st: State, first: State, a: Order, b: Order, now: nat,
      place: (nat, Side))
    requires RestsAlone(host, st, first, a, place)
    requires Mirrored(a, b) && a.nullifier != b.nullifier && b.nullifier !in st.nullifiers
    requires a.amountIn < I128_LIMIT && now <= a.expiry && now <= b.expiry
    requires PairAndSide(st, b.assetIn, b.assetOut) == Ok((place.0, place.1.Opposite()))
    ensures
      var second := SubmitParsed(host, first, now, b);
      && second.Ok? && EmptyPair(second.value, place.0)
      && second.value.nullifiers == st.nullifiers + {a.nullifier} + {b.nullifier}
      && second.value.flows == st.flows + [Spent(a.assetIn, a.amountIn, a.nullifier)] + [Spent(b.assetIn,
        b.amountIn, b.nullifier)]
      && Leaves(host, second.value.events) == Leaves(host, st.events)
           + [NoteLeaf(host, Note(b.assetOut, a.amountIn, b.outputTag))]
           + [NoteLeaf(host, Note(a.assetOut, b.amountIn, a.outputTag))]
  {
    SecondSubmit(host, first, now, b, (place.0, place.1.Opposite()), EntryOf(a, a.amountIn));
  }

  // A direct exchange announces both notes in one event.
  lemma {:induction false} ExchangeLeaves(host: Host, st: State, a: Order, b: Order)
    ensures
      var direct := Exchange(host, st, a, b);
      && direct.nullifiers == st.nullifiers + {a.nullifier} + {b.nullifier}
      && direct.flows == st.flows + [Spent(a.assetIn, a.amountIn, a.nullifier)] + [Spent(b.assetIn, b.amountIn,
        b.nullifier)]
      && Leaves(host, direct.events) == Leaves(host, st.events)
           + [NoteLeaf(host, Note(a.assetOut, b.amountIn, a.outputTag)), NoteLeaf(host, Note(b.assetOut, a.amountIn,
             b.outputTag))]
  {
    LeavesAppend(host, st.events,
      Settled(Note(a.assetOut, b.amountIn, a.outputTag), Note(b.assetOut, a.amountIn, b.outputTag)));
  }

  // Same spends in the same order, same notes up to order, and nothing left on the pair's books.
  ghost predicate SameOutcome(host: Host, st: State, direct: State, p: nat) {
    && st.nullifiers == direct.nullifiers && st.flows == direct.flows
    && multiset(Leaves(host, st.events)) == multiset(Leaves(host, direct.events))
    && EmptyPair(st, p)
  }

  // Two live orders, the first of which may rest, on a pair whose books are empty.
  ghost predicate CanMeet(st: State, a: Order, b: Order, now1: nat, now2: nat, p: nat) {
    && 0 < a.amountIn && 0 < b.amountIn && a.partialAllowed
    && now1 <= a.expiry && now2 <= a.expiry && now2 <= b.expiry && EmptyPair(st, p)
  }

  // Whenever settle_exact accepts two such orders, submitting the first and then the second to the
  // book also succeeds, with the same outcome.
  lemma {:induction false} BookAgreesWithExact(host: Host, st: State, x: Signed, y: Signed, a: Order, b: Order,
      place: (nat, Side),
    now1: nat, now2: nat)
    requires PairsOk(st) && SettleExact(host, st, x, y).Ok? && TwoOrders(host, st, x, y) == Ok((a, b))
    requires PairAndSide(st, a.assetIn, a.assetOut) == Ok(place) && CanMeet(st, a, b, now1, now2, place.0)
    ensures
      var first := SubmitOrder(host, st, now1, x);
      && first.Ok?
      && (var second := SubmitOrder(host, first.value, now2, y);
          second.Ok? && SameOutcome(host, second.value, SettleExact(host, st, x, y).value, place.0))
  {
    ExactMeans(host, st, x, y, a, b, place);
    var first := Rested(st, TakingOf(st, now1, a, place));
    assert SubmitOrder(host, st, now1, x) == Ok(first) by {
      SubmitsParsed(host, st, st, now1, x, a);
      FirstSubmit(host, st, now1, a, place);
    }
    assert SubmitOrder(host, first, now2, y) == SubmitParsed(host, first, now2, b) by {
      RestedEffect(host, st, TakingOf(st, now1, a, place));
      SubmitsParsed(host, st, first, now2, y, b);
    }
    SubmitsParsed(host, st, st, now1, x, a);
    MirroredAgree(host, st, a, b, now1, now2, place);
  }

  lemma {:induction false} ExactMeans(host: Host, st: State, x: Signed, y: Signed, a: Order, b: Order, place: (nat,
      Side))
    requires PairsOk(st) && SettleExact(host, st, x, y).Ok? && TwoOrders(host, st, x, y) == Ok((a, b))
    requires PairAndSide(st, a.assetIn, a.assetOut) == Ok(place)
    ensures Mirrored(a, b) && a.nullifier != b.nullifier && {a.nullifier, b.nullifier} !! st.nullifiers
    ensures PairAndSide(st, b.assetIn, b.assetOut) == Ok((place.0, place.1.Opposite()))
    ensures SettleExact(host, st, x, y).value == Exchange(host, st, a, b)
    ensures Parses(host, st, x, a) && Parses(host, st, y, b)
  {
    ExactIsSettle(host, st, x, y);
    PairIsProper(st, a.assetIn, a.assetOut);
    ReversedPair(st.pairs, a.assetIn, a.assetOut, 0);
  }

  // A lift proof that verifies against this state and denotes this order.
  ghost predicate Parses(host: Host, st: State, x: Signed, o: Order) {
    var ws := VerifyProof(host, LIFT_OP, x.proof, x.pi, LIFT_WORDS);
    ws.Ok? && ParseOrder(st.tree.roots, ws.value) == Ok(o)
  }

  lemma {:induction false} SubmitsParsed(host: Host, st: State, st': State, now: nat, x: Signed, o: Order)
    requires Parses(host, st, x, o) && st'.tree == st.tree
    ensures SubmitOrder(host, st', now, x) == SubmitParsed(host, st', now, o)
    ensures o.amountIn < I128_LIMIT
  {
  }

  lemma {:induction false} MirroredAgree(host: Host, st: State, a: Order, b: Order, now1: nat, now2: nat,
      place: (nat, Side))
    requires Mirrored(a, b) && a.nullifier != b.nullifier && {a.nullifier, b.nullifier} !! st.nullifiers
    requires a.amountIn < I128_LIMIT && CanMeet(st, a, b, now1, now2, place.0)
    requires PairAndSide(st, a.assetIn, a.assetOut) == Ok(place)
    requires PairAndSide(st, b.assetIn, b.assetOut) == Ok((place.0, place.1.Opposite()))
    ensures
      var second := SubmitParsed(host, Rested(st, TakingOf(st, now1, a, place)), now2, b);
      second.Ok? && SameOutcome(host, second.value, Exchange(host, st, a, b), place.0)
  {
    var t := TakingOf(st, now1, a, place);
    RestedEffect(host, st, t);
    MirroredSecond(host, st, Rested(st, t), a, b, now2, place);
    ExchangeLeaves(host, st, a, b);
    SwappedPair(Leaves(host, st.events), NoteLeaf(host, Note(a.assetOut, b.amountIn, a.outputTag)),
      NoteLeaf(host, Note(b.assetOut, a.amountIn, b.outputTag)));
  }

  lemma {:induction false} SwappedPair(s: seq<Word>, x: Word, y: Word)
    ensures multiset(s + [y] + [x]) == multiset(s + [x, y])
  {
    assert multiset(s + [y] + [x]) == multiset(s) + multiset{y} + multiset{x};
    assert multiset(s + [x, y]) == multiset(s) + multiset{x, y};
  }
}
