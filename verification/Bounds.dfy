// Machine arithmetic: everything a matching call multiplies or subtracts stays within the contract's
// integer types, in every reachable state.
module Bounds {
  import opened Wrappers
  import opened Lots
  import opened Types
  import opened Codec
  import opened Ledger
  import opened BookInvariant
  import opened Matching
  import opened Safety
  import opened Reachable
  import opened Acceptance
  import opened Inputs
  import opened Submissions
  import opened Frames

  predicate Fits(limit: Limit) {
    limit.amountIn < I128_LIMIT && limit.minOut < I128_LIMIT
  }

  // Every order ever accepted has terms in the signed 128-bit range.
  ghost predicate LimitsFit(st: State) {
    forall id :: id in st.accepted ==> Fits(st.accepted[id].limit)
  }

  // A submitted order's terms came through the 128-bit parser.
  lemma {:induction false} SubmitFits(host: Host, st: State, now: nat, x: Signed)
    requires LimitsFit(st)
    ensures var r := SubmitOrder(host, st, now, x); r.Ok? ==> LimitsFit(r.value)
  {
    if SubmitOrder(host, st, now, x).Ok? {
      var o, _, _ := SubmitIsRecorded(host, st, now, x);
    }
  }

  lemma {:induction false} ExecuteFits(host: Host, st: State, call: Call)
    requires LimitsFit(st)
    ensures LimitsFit(Execute(host, st, call))
  {
    if call.CallSubmitOrder? {
      SubmitFits(host, st, call.now, call.x);
      ExecuteSubmits(host, st, call);
    } else {
      ExecuteIsConfined(host, st, call);
    }
  }

  lemma {:induction false} RunFits(host: Host, st: State, calls: seq<Call>)
    requires LimitsFit(st)
    ensures LimitsFit(Run(host, st, calls))
  {
    if calls != [] {
      RunFits(host, st, calls[..|calls| - 1]);
      ExecuteFits(host, Run(host, st, calls[..|calls| - 1]), calls[|calls| - 1]);
    }
  }

  lemma {:induction false} ReachableFits(host: Host, h: History)
    requires JoinSound(host) && Deploy(host, h).Ok?
    ensures LimitsFit(StateAfter(host, h))
  {
    DeployIsPristine(host, h);
    RunFits(host, Deploy(host, h).value, h.calls);
  }

  // 2^254
  const U254_LIMIT := I128_LIMIT * I128_LIMIT

  lemma {:induction false} ProductFits(x: nat, y: nat)
    requires x < I128_LIMIT && y < I128_LIMIT
    ensures x * y < U254_LIMIT
  {
    MulLe(x, I128_LIMIT - 1, y);
    MulLe(y, I128_LIMIT - 1, I128_LIMIT - 1);
  }

  // One iteration of the matching loop; nothing once it has ended.
  function LoopStep(host: Host, t: Taking, m: Match): Match {
    if !Filling(t, m) then m
    else
      match Decide(t, Opposing(t, m.st)[m.i], m.remaining)
      case Stop => m
      case Skip => Advance(m)
      case Trade(k) => DoTrade(host, t, m, k)
  }

  // The loop state after n iterations.
  function LoopAfter(host: Host, t: Taking, m: Match, n: nat): Match {
    if n == 0 then m else LoopStep(host, t, LoopAfter(host, t, m, n - 1))
  }

  lemma {:induction false} LoopKeeps(host: Host, t: Taking, st: State, m: Match, n: nat)
    requires MatchedSince(host, t, st, m) && m.remaining <= t.taker.amountIn
    ensures
      var m' := LoopAfter(host, t, m, n);
      MatchedSince(host, t, st, m') && m'.remaining <= t.taker.amountIn
  {
    if n > 0 {
      LoopKeeps(host, t, st, m, n - 1);
      StepKeepsLoop(host, t, st, LoopAfter(host, t, m, n - 1));
    }
  }

  lemma {:induction false} StepKeepsLoop(host: Host, t: Taking, st: State, m: Match)
    requires MatchedSince(host, t, st, m) && m.remaining <= t.taker.amountIn
    ensures
      var m' := LoopStep(host, t, m);
      MatchedSince(host, t, st, m') && m'.remaining <= t.taker.amountIn
  {
    if Filling(t, m) {
      match Decide(t, Opposing(t, m.st)[m.i], m.remaining)
      case Stop =>
      case Skip =>
      case Trade(k) =>
        TradeMatches(host, t, st, m, k);
        TradeEffect(host, t, m, k);
    }
  }

  lemma {:induction false} LoopStarts(host: Host, st: State, t: Taking)
    requires Good(host, st, Idle) && TakingOk(st, t) && t.taker.nullifier !in st.nullifiers
    ensures
      var m := Begin(Accept(st, t), t);
      MatchedSince(host, t, m.st, m) && m.st.accepted == Accept(st, t).accepted
  {
    AcceptKeeps(host, st, t);
    BeginKeeps(host, Accept(st, t), t);
    UnloggedGrows(Begin(Accept(st, t), t).st, Begin(Accept(st, t), t).st);
  }

  // At every iteration of a submission to any reachable desk, against every entry then stored: both
  // sides of the crossing test and of the price order stay below 2^254, and what the entry still holds,
  // what the taker still has and both amounts of a fill stay below 2^127. The one sum left is the
  // taker's proceeds.
  lemma {:induction false} IntermediatesFit(host: Host, h: History, now: nat, taker: Order, n: nat, m: Match,
      key: Key, i: nat)
    requires JoinSound(host) && Deploy(host, h).Ok? && Admitted(StateAfter(host, h), now, taker)
    requires taker.amountIn < I128_LIMIT && taker.minOut < I128_LIMIT
    requires
      var st, t := StateAfter(host, h), TakingFor(StateAfter(host, h), now, taker);
      m == LoopAfter(host, t, Begin(Accept(st, t), t), n)
    requires key in m.st.books && i < |m.st.books[key]|
    ensures
      var e, d := m.st.books[key][i], Decide(TakingFor(StateAfter(host, h), now, taker), m.st.books[key][i],
        m.remaining);
      && Fits(e.Terms()) && e.remainingIn < I128_LIMIT && m.remaining < I128_LIMIT
      && e.minOut * taker.minOut < U254_LIMIT && e.amountIn * taker.amountIn < U254_LIMIT
      && e.minOut * taker.amountIn < U254_LIMIT && e.amountIn * taker.minOut < U254_LIMIT
      && (d.Trade? ==>
            var f := FillOf(e.amountIn, e.minOut, d.k);
            f.give <= e.remainingIn && f.pay <= m.remaining)
  {
    var st, t := StateAfter(host, h), TakingFor(StateAfter(host, h), now, taker);
    var m0 := Begin(Accept(st, t), t);
    ReachableIsGood(host, h);
    ReachableFits(host, h);
    LoopStarts(host, st, t);
    LoopKeeps(host, t, m0.st, m0, n);
    EntryFits(st, t, m, key, i);
    MakerFits(t, m.st.books[key][i], m.remaining);
  }

  lemma {:induction false} EntryFits(st: State, t: Taking, m: Match, key: Key, i: nat)
    requires LimitsFit(st) && 0 < t.taker.amountIn < I128_LIMIT && 0 < t.taker.minOut < I128_LIMIT
    requires BooksOk(m.st) && m.st.accepted == Accept(st, t).accepted
    requires key in m.st.books && i < |m.st.books[key]|
    ensures Fits(m.st.books[key][i].Terms()) && m.st.books[key][i].remainingIn < I128_LIMIT
  {
    assert SideOk(m.st, key, m.st.books[key]);
    assert EntryOk(m.st, key, m.st.books[key][i]);
  }

  lemma {:induction false} MakerFits(t: Taking, maker: OrderEntry, remaining: nat)
    requires Fits(maker.Terms()) && t.taker.amountIn < I128_LIMIT && t.taker.minOut < I128_LIMIT
    ensures maker.minOut * t.taker.minOut < U254_LIMIT && maker.amountIn * t.taker.amountIn < U254_LIMIT
    ensures maker.minOut * t.taker.amountIn < U254_LIMIT && maker.amountIn * t.taker.minOut < U254_LIMIT
    ensures
      var d := Decide(t, maker, remaining);
      d.Trade? ==>
        var f := FillOf(maker.amountIn, maker.minOut, d.k);
        f.give <= maker.remainingIn && f.pay <= remaining
  {
    ProductFits(maker.minOut, t.taker.minOut);
    ProductFits(maker.amountIn, t.taker.amountIn);
    ProductFits(maker.minOut, t.taker.amountIn);
    ProductFits(maker.amountIn, t.taker.minOut);
    if Decide(t, maker, remaining).Trade? {
      DecidedTradeFits(t, maker, remaining);
    }
  }

  // ----- The depth premise is needed -----------------------------------------------------------

  // A maker that sells nearly 2^127 for one unit, in a single lot.
  predicate Cheap(maker: OrderEntry, now: nat) {
    maker.amountIn == maker.remainingIn == I128_LIMIT - 1 && maker.minOut == 1 && now <= maker.expiry
  }

  lemma {:induction false} CheapFill(t: Taking, maker: OrderEntry, remaining: nat)
    requires Cheap(maker, t.now) && t.taker.minOut <= t.taker.amountIn && 0 < remaining
    ensures Decide(t, maker, remaining) == Decision.Trade(1)
    ensures FillOf(maker.amountIn, maker.minOut, 1) == Fill(I128_LIMIT - 1, 1)
  {
    var x := I128_LIMIT - 1;
    assert Gcd(x, 1) == Gcd(1, 0) == 1;
    LotFacts(x, 1);
    assert OwnLot(x, 1) == x && PriceLot(x, 1) == 1;
    MulLe(1, x, t.taker.amountIn);
  }

  lemma {:induction false} CheapTrade(host: Host, t: Taking, m: Match, end: Match) returns (m': Match)
    requires Filling(t, m) && m.i == 0 && Cheap(Opposing(t, m.st)[0], t.now) && t.taker.minOut <= t.taker.amountIn
    requires Reaches(host, t, m, end)
    ensures Reaches(host, t, m', end)
    ensures Opposing(t, m'.st) == Opposing(t, m.st)[1..] && m'.i == 0 && m'.fills == m.fills + 1
    ensures m'.remaining == m.remaining - 1 && m'.filledOut == m.filledOut + I128_LIMIT - 1
  {
    CheapFill(t, Opposing(t, m.st)[0], m.remaining);
    m' := DoTrade(host, t, m, 1);
    TradeEffect(host, t, m, 1);
    RunTrades(host, t, m, 1, m', end);
    assert WithoutAt(Opposing(t, m.st), 0) == Opposing(t, m.st)[1..];
  }

  // Two such makers are deeper than 2^127 together: a taker that pays two units overflows its
  // proceeds, and the call traps.
  lemma {:induction false} TwoCheapMakersTrap(host: Host, st: State, t: Taking, first: OrderEntry, second: OrderEntry)
    requires Opposing(t, st) == [first, second] && Cheap(first, t.now) && Cheap(second, t.now)
    requires t.taker.amountIn == 2 && t.taker.minOut == 1
    ensures SubmitTaker(host, st, t) == Err(Trap)
  {
    var end := MatchTaker(host, t, st);
    var m1 := CheapTrade(host, t, Begin(st, t), end);
    var m2 := CheapTrade(host, t, m1, end);
    RunEnds(host, t, m2);
  }
}
