// What the matching loop of submit_order achieves: price-time priority, no executable match lost,
// and proceeds drawn from the depth of the opposing side.
module Matching {
  import opened Wrappers
  import opened Lots
  import opened Types
  import opened Ledger
  import opened BookInvariant
  import opened Value
  import opened Safety

  // ----- One iteration -------------------------------------------------------------------------

  // The state after a fill of the maker at i.
  function Traded(host: Host, st: State, t: Taking, i: nat, f: Fill): State
    requires i < |Opposing(t, st)| && f.give <= Opposing(t, st)[i].remainingIn
  {
    var maker := Opposing(t, st)[i];
    var st1 := Proceeds(host, st, t, maker, f);
    assert Opposing(t, st1) == Opposing(t, st) by {
      ProceedsFrame(host, st, t, maker, f);
    }
    var st2 := Consume(st1, t, i, f.give);
    st2.(deals := st2.deals + [Deal.Trade(maker.orderId, t.taker.nullifier, f.give, f.pay)])
  }

  lemma {:induction false} TradedIn(host: Host, st: State, t: Taking, i: nat, f: Fill, st1: State, st2: State)
    requires i < |Opposing(t, st)| && f.give <= Opposing(t, st)[i].remainingIn
    requires st1 == Proceeds(host, st, t, Opposing(t, st)[i], f) && Opposing(t, st1) == Opposing(t, st)
    requires st2 == Consume(st1, t, i, f.give)
    ensures Traded(host, st, t, i, f)
         == st2.(deals := st2.deals + [Deal.Trade(Opposing(t, st)[i].orderId, t.taker.nullifier, f.give, f.pay)])
  {
  }

  lemma {:induction false} TradeIs(host: Host, t: Taking, m: Match, k: nat, f: Fill)
    requires TradesAt(t, m, k) && f == FillAt(t, m, k)
    ensures f.give <= Opposing(t, m.st)[m.i].remainingIn && f.pay <= m.remaining
    ensures DoTrade(host, t, m, k)
         == Match(Traded(host, m.st, t, m.i, f), m.i, m.fills + 1, m.remaining - f.pay, m.filledOut + f.give)
  {
    DecidedTradeFits(t, Opposing(t, m.st)[m.i], m.remaining);
  }

  // The loop state from which the matching loop ends at `end`.
  ghost predicate Reaches(host: Host, t: Taking, m: Match, end: Match) {
    m.fills <= MAX_FILLS && MatchRun(host, t, m) == end
  }

  // The matching loop ends, skips a maker or trades, one iteration at a time.
  lemma {:induction false} RunEnds(host: Host, t: Taking, m: Match)
    requires m.fills <= MAX_FILLS
    requires !Filling(t, m) || Decide(t, Opposing(t, m.st)[m.i], m.remaining) == Stop
    ensures MatchRun(host, t, m) == m
  {
  }

  lemma {:induction false} RunSkips(host: Host, t: Taking, m: Match, end: Match)
    requires Reaches(host, t, m, end) && SkipsAt(t, m)
    ensures Reaches(host, t, Advance(m), end)
  {
  }

  lemma {:induction false} RunTrades(host: Host, t: Taking, m: Match, k: nat, m': Match, end: Match)
    requires Reaches(host, t, m, end) && TradesAt(t, m, k) && m' == DoTrade(host, t, m, k)
    ensures Reaches(host, t, m', end)
  {
  }

  // ----- Priority -------------------------------------------------------------------------------

  // An entry the loop has nothing more to take from: expired, or holding less than one of its lots.
  predicate Passed(e: OrderEntry, now: nat) {
    e.expiry < now || e.remainingIn / OwnLot(e.amountIn, e.minOut) == 0
  }

  ghost predicate HasId(book: seq<OrderEntry>, id: Word, end: int) {
    exists q :: 0 <= q < end && q < |book| && book[q].orderId == id
  }

  // Where loop state m stands relative to the side it started on: everything ahead is passed, the
  // rest is the untouched tail of the original side, and only makers up to the current one traded.
  ghost predicate Progress(book0: seq<OrderEntry>, dealt: nat, t: Taking, m: Match) {
    var book := Opposing(t, m.st);
    var gone := |book0| - |book|;
    && 0 <= gone && m.i <= |book| && dealt <= |m.st.deals|
    && (forall j :: 0 <= j < |book| ==> book[j].partialAllowed)
    && (forall j :: 0 <= j < m.i ==> Passed(book[j], t.now) && HasId(book0, book[j].orderId, m.i + gone))
    && (forall j :: m.i <= j < |book| ==> book[j].orderId == book0[j + gone].orderId)
    && (forall d :: dealt <= d < |m.st.deals| && m.st.deals[d].Trade? ==>
          HasId(book0, m.st.deals[d].maker, m.i + gone + 1))
  }

  lemma {:induction false} HasIdWidens(book: seq<OrderEntry>, id: Word, a: int, b: int)
    requires HasId(book, id, a) && a <= b
    ensures HasId(book, id, b)
  {
  }

  lemma {:induction false} SkipProgresses(book0: seq<OrderEntry>, dealt: nat, t: Taking, m: Match)
    requires Progress(book0, dealt, t, m) && SkipsAt(t, m)
    ensures Progress(book0, dealt, t, Advance(m))
  {
    var book := Opposing(t, m.st);
    var gone := |book0| - |book|;
    assert Passed(book[m.i], t.now);
    assert HasId(book0, book[m.i].orderId, m.i + gone + 1) by {
      assert book0[m.i + gone].orderId == book[m.i].orderId;
    }
    forall j | 0 <= j < m.i
      ensures HasId(book0, book[j].orderId, m.i + gone + 1)
    {
      HasIdWidens(book0, book[j].orderId, m.i + gone, m.i + gone + 1);
    }
    forall d | dealt <= d < |m.st.deals| && m.st.deals[d].Trade?
      ensures HasId(book0, m.st.deals[d].maker, m.i + gone + 2)
    {
      HasIdWidens(book0, m.st.deals[d].maker, m.i + gone + 1, m.i + gone + 2);
    }
  }

  // A trade edits the opposing side in place or drops the current entry, and books one deal.
  lemma {:induction false} TradeEffect(host: Host, t: Taking, m: Match, k: nat)
    requires TradesAt(t, m, k)
    ensures
      var book, f, m' := Opposing(t, m.st), FillAt(t, m, k), DoTrade(host, t, m, k);
      && m'.i == m.i && m'.fills == m.fills + 1
      && f.give <= book[m.i].remainingIn && f.pay <= m.remaining
      && m'.remaining == m.remaining - f.pay && m'.filledOut == m.filledOut + f.give
      && Opposing(t, m'.st) == (if f.give == book[m.i].remainingIn then WithoutAt(book, m.i)
           else book[m.i := book[m.i].(remainingIn := book[m.i].remainingIn - f.give)])
      && m'.st.deals == m.st.deals + [Deal.Trade(book[m.i].orderId, t.taker.nullifier, f.give, f.pay)]
  {
    var maker, f := Opposing(t, m.st)[m.i], FillAt(t, m, k);
    DecidedTradeFits(t, maker, m.remaining);
    ProceedsFrame(host, m.st, t, maker, f);
    ConsumeFrame(Proceeds(host, m.st, t, maker, f), t, m.i, f.give);
  }

  lemma {:induction false} TradeProgresses(host: Host, book0: seq<OrderEntry>, dealt: nat, t: Taking, m: Match, k: nat)
    requires Progress(book0, dealt, t, m) && TradesAt(t, m, k)
    ensures Progress(book0, dealt, t, DoTrade(host, t, m, k))
  {
    var m' := DoTrade(host, t, m, k);
    TradeEffect(host, t, m, k);
    EditProgresses(book0, dealt, t, m, m');
  }

  lemma {:induction false} EditProgresses(book0: seq<OrderEntry>, dealt: nat, t: Taking, m: Match, m': Match)
    requires Progress(book0, dealt, t, m) && m.i < |Opposing(t, m.st)| && m'.i == m.i
    requires
      var book, book' := Opposing(t, m.st), Opposing(t, m'.st);
      || book' == WithoutAt(book, m.i)
      || (exists left: Pos :: book' == book[m.i := book[m.i].(remainingIn := left)])
    requires |m'.st.deals| == |m.st.deals| + 1 && m'.st.deals[..|m.st.deals|] == m.st.deals
    requires m'.st.deals[|m.st.deals|].Trade?
    requires m'.st.deals[|m.st.deals|].maker == Opposing(t, m.st)[m.i].orderId
    ensures Progress(book0, dealt, t, m')
  {
    var book, book', n := Opposing(t, m.st), Opposing(t, m'.st), |m.st.deals|;
    var gone, gone' := |book0| - |book|, |book0| - |book'|;
    forall j | 0 <= j < m.i
      ensures Passed(book'[j], t.now) && HasId(book0, book'[j].orderId, m.i + gone')
    {
      HasIdWidens(book0, book[j].orderId, m.i + gone, m.i + gone');
    }
    forall d | dealt <= d < |m'.st.deals| && m'.st.deals[d].Trade?
      ensures HasId(book0, m'.st.deals[d].maker, m.i + gone' + 1)
    {
      if d < n {
        assert m'.st.deals[d] == m.st.deals[d];
        HasIdWidens(book0, m.st.deals[d].maker, m.i + gone + 1, m.i + gone' + 1);
      } else {
        assert book0[m.i + gone].orderId == book[m.i].orderId;
      }
    }
  }

  lemma {:induction false} MatchProgresses(host: Host, t: Taking, m0: Match)
    requires m0.fills <= MAX_FILLS && m0.i == 0
    requires forall j :: 0 <= j < |Opposing(t, m0.st)| ==> Opposing(t, m0.st)[j].partialAllowed
    ensures Progress(Opposing(t, m0.st), |m0.st.deals|, t, MatchRun(host, t, m0))
  {
    var book0, dealt := Opposing(t, m0.st), |m0.st.deals|;
    forall n | Progress(book0, dealt, t, n) && SkipsAt(t, n)
      ensures Progress(book0, dealt, t, Advance(n))
    {
      SkipProgresses(book0, dealt, t, n);
    }
    forall n, k | Progress(book0, dealt, t, n) && TradesAt(t, n, k)
      ensures Progress(book0, dealt, t, DoTrade(host, t, n, k))
    {
      TradeProgresses(host, book0, dealt, t, n, k);
    }
    MatchInduction(host, t, m0, n => Progress(book0, dealt, t, n));
  }

  // Price-time priority: when a maker traded, every entry that stood ahead of it and is still in
  // the book is expired or holds less than one of its own lots.
  lemma {:induction false} PriceTimePriority(host: Host, t: Taking, m0: Match, d: nat, q: nat, x: nat, y: nat)
    requires m0.fills <= MAX_FILLS && m0.i == 0 && Distinct(Opposing(t, m0.st))
    requires forall j :: 0 <= j < |Opposing(t, m0.st)| ==> Opposing(t, m0.st)[j].partialAllowed
    requires
      var m := MatchRun(host, t, m0);
      |m0.st.deals| <= d < |m.st.deals| && m.st.deals[d].Trade? && q < |Opposing(t, m.st)|
    requires x < y < |Opposing(t, m0.st)|
    requires Opposing(t, m0.st)[x].orderId == Opposing(t, MatchRun(host, t, m0).st)[q].orderId
    requires Opposing(t, m0.st)[y].orderId == MatchRun(host, t, m0).st.deals[d].maker
    ensures Passed(Opposing(t, MatchRun(host, t, m0).st)[q], t.now)
  {
    MatchProgresses(host, t, m0);
    AheadIsPassed(Opposing(t, m0.st), |m0.st.deals|, t, MatchRun(host, t, m0), d, q, x, y);
  }

  lemma {:induction false} AheadIsPassed(book0: seq<OrderEntry>, dealt: nat, t: Taking, m: Match, d: nat, q: nat,
      x: nat, y: nat)
    requires Progress(book0, dealt, t, m) && Distinct(book0)
    requires dealt <= d < |m.st.deals| && m.st.deals[d].Trade? && q < |Opposing(t, m.st)|
    requires x < y < |book0| && book0[x].orderId == Opposing(t, m.st)[q].orderId
    requires book0[y].orderId == m.st.deals[d].maker
    ensures q < m.i && Passed(Opposing(t, m.st)[q], t.now)
  {
    var gone := |book0| - |Opposing(t, m.st)|;
    var y' :| 0 <= y' < m.i + gone + 1 && y' < |book0| && book0[y'].orderId == m.st.deals[d].maker;
    assert y == y';
  }

  // At most one maker that traded is left with a whole lot, and it is where the loop stopped.
  lemma {:induction false} OneMakerLeftWhole(host: Host, t: Taking, m0: Match, d: nat, q: nat)
    requires m0.fills <= MAX_FILLS && m0.i == 0 && Distinct(Opposing(t, m0.st))
    requires forall j :: 0 <= j < |Opposing(t, m0.st)| ==> Opposing(t, m0.st)[j].partialAllowed
    requires
      var m := MatchRun(host, t, m0);
      |m0.st.deals| <= d < |m.st.deals| && m.st.deals[d].Trade? && q < |Opposing(t, m.st)|
    requires Opposing(t, MatchRun(host, t, m0).st)[q].orderId == MatchRun(host, t, m0).st.deals[d].maker
    requires !Passed(Opposing(t, MatchRun(host, t, m0).st)[q], t.now)
    ensures q == MatchRun(host, t, m0).i
  {
    MatchProgresses(host, t, m0);
    WholeIsCurrent(Opposing(t, m0.st), |m0.st.deals|, t, MatchRun(host, t, m0), d, q);
  }

  lemma {:induction false} WholeIsCurrent(book0: seq<OrderEntry>, dealt: nat, t: Taking, m: Match, d: nat, q: nat)
    requires Progress(book0, dealt, t, m) && Distinct(book0)
    requires dealt <= d < |m.st.deals| && m.st.deals[d].Trade? && q < |Opposing(t, m.st)|
    requires Opposing(t, m.st)[q].orderId == m.st.deals[d].maker && !Passed(Opposing(t, m.st)[q], t.now)
    ensures q == m.i
  {
    var gone := |book0| - |Opposing(t, m.st)|;
    var y :| 0 <= y < m.i + gone + 1 && y < |book0| && book0[y].orderId == m.st.deals[d].maker;
    assert book0[q + gone].orderId == book0[y].orderId;
  }

  // ----- What is decided at one maker ------------------------------------------------------------

  // A trade takes place exactly with a live maker at a crossing price of which both sides can afford
  // one lot, and takes as many whole lots as both can, unless the maker would be left with part of what
  // it sells only whole. The loop ends exactly at a live maker that does not cross or of which the taker
  // cannot pay one lot, and passes every other maker.
  lemma {:induction false} DecisionIsExact(t: Taking, maker: OrderEntry, remaining: nat)
    ensures
      var d, own, price := Decide(t, maker, remaining), OwnLot(maker.amountIn, maker.minOut),
        PriceLot(maker.amountIn, maker.minOut);
      var crosses := maker.amountIn * t.taker.amountIn >= maker.minOut * t.taker.minOut;
      && (d.Stop? <==> t.now <= maker.expiry && (!crosses || remaining < price))
      && (d.Trade? <==>
            && t.now <= maker.expiry && crosses && own <= maker.remainingIn && price <= remaining
            && (maker.partialAllowed || maker.remainingIn / own <= remaining / price))
      && (d.Trade? ==> 0 < d.k && d.k * own <= maker.remainingIn && d.k * price <= remaining)
      && (d.Trade? ==> maker.remainingIn < (d.k + 1) * own || remaining < (d.k + 1) * price)
  {
    var own, price := OwnLot(maker.amountIn, maker.minOut), PriceLot(maker.amountIn, maker.minOut);
    LotsWithin(1, own, maker.remainingIn);
    LotsWithin(1, price, remaining);
    var d := Decide(t, maker, remaining);
    if d.Trade? {
      LotsWithin(d.k, own, maker.remainingIn);
      LotsWithin(d.k, price, remaining);
      LotsWithin(d.k + 1, own, maker.remainingIn);
      LotsWithin(d.k + 1, price, remaining);
    }
  }

  // ----- After a partial fill ------------------------------------------------------------------

  // Whole lots left of a balance once k of them are taken.
  lemma {:induction false} LotsLeft(balance: nat, lot: nat, k: nat)
    requires 0 < lot && k * lot <= balance
    ensures k <= balance / lot && (balance - k * lot) / lot == balance / lot - k
  {
    var q, r := balance / lot, balance % lot;
    LotsWithin(k, lot, balance);
    assert balance - k * lot == lot * (q - k) + r by {
      assert lot * (q - k) == lot * q - k * lot;
    }
    ResidueUnique(balance - k * lot, lot, q - k, r);
  }

  // The taker can pay for more lots than the maker holds.
  predicate Outlasts(maker: OrderEntry, remaining: nat) {
    maker.remainingIn / OwnLot(maker.amountIn, maker.minOut) < remaining / PriceLot(maker.amountIn, maker.minOut)
  }

  // After a fill that leaves the maker something, with fills and funds to spare, the loop goes on to
  // the next maker exactly when the taker could pay for more lots than this maker held, and ends
  // otherwise.
  lemma {:induction false} AfterPartialFill(host: Host, t: Taking, m: Match, k: nat)
    requires TradesAt(t, m, k) && FillAt(t, m, k).give < Opposing(t, m.st)[m.i].remainingIn
    requires Filling(t, DoTrade(host, t, m, k))
    ensures
      var maker, m' := Opposing(t, m.st)[m.i], DoTrade(host, t, m, k);
      var outlasts := Outlasts(maker, m.remaining);
      && m'.i == m.i
      && Decide(t, Opposing(t, m'.st)[m'.i], m'.remaining) == (if outlasts then Skip else Stop)
      && MatchRun(host, t, m') == (if outlasts then MatchRun(host, t, Advance(m')) else m')
  {
    var maker, f := Opposing(t, m.st)[m.i], FillAt(t, m, k);
    TradeEffect(host, t, m, k);
    LotsLeft(maker.remainingIn, OwnLot(maker.amountIn, maker.minOut), k);
    LotsLeft(m.remaining, PriceLot(maker.amountIn, maker.minOut), k);
  }

  // A maker that sells at two for one and whose first and only whole lot is two.
  predicate TwoForOne(maker: OrderEntry, now: nat, holds: nat) {
    && maker.amountIn == 4 && maker.minOut == 2 && maker.remainingIn == holds
    && now <= maker.expiry && maker.partialAllowed
  }

  lemma {:induction false} TwoForOneFill(t: Taking, maker: OrderEntry, holds: nat, remaining: nat)
    requires TwoForOne(maker, t.now, holds) && 2 <= holds <= 3 && 0 < remaining
    requires t.taker.minOut == 1 && 0 < t.taker.amountIn
    ensures OwnLot(maker.amountIn, maker.minOut) == 2 && PriceLot(maker.amountIn, maker.minOut) == 1
    ensures Decide(t, maker, remaining) == Decision.Trade(1)
  {
    assert Gcd(4, 2) == Gcd(2, 0) == 2;
  }

  // The loop does go on after a partial fill: a taker with five units takes one lot of a first maker
  // that holds three, which leaves that maker one, and then takes the second maker.
  lemma {:induction false} PartialFillGoesOn(host: Host, st: State, t: Taking, first: OrderEntry, second: OrderEntry)
    requires Opposing(t, st) == [first, second] && TwoForOne(first, t.now, 3) && TwoForOne(second, t.now, 2)
    requires t.taker.amountIn == 5 && t.taker.minOut == 1
    ensures
      var m := MatchTaker(host, t, st);
      && m.fills == 2 && m.filledOut == 4 && m.remaining == 3
      && Opposing(t, m.st) == [first.(remainingIn := 1)]
  {
    var end := MatchTaker(host, t, st);
    var m1 := FirstMakerTaken(host, t, Begin(st, t), end, first, second);
    SecondMakerTaken(host, t, m1, end, first.(remainingIn := 1), second);
  }

  lemma {:induction false} FirstMakerTaken(host: Host, t: Taking, m: Match, end: Match, first: OrderEntry,
      second: OrderEntry) returns (m': Match)
    requires Opposing(t, m.st) == [first, second] && TwoForOne(first, t.now, 3) && t.taker.minOut == 1
    requires m.i == 0 && m.fills == 0 && m.remaining == 5 && m.filledOut == 0 && 0 < t.taker.amountIn
    requires Reaches(host, t, m, end)
    ensures Reaches(host, t, m', end) && Opposing(t, m'.st) == [first.(remainingIn := 1), second]
    ensures m'.i == 1 && m'.fills == 1 && m'.remaining == 4 && m'.filledOut == 2
  {
    TwoForOneFill(t, first, 3, 5);
    var m1 := DoTrade(host, t, m, 1);
    TradeEffect(host, t, m, 1);
    AfterPartialFill(host, t, m, 1);
    RunTrades(host, t, m, 1, m1, end);
    RunSkips(host, t, m1, end);
    m' := Advance(m1);
  }

  lemma {:induction false} SecondMakerTaken(host: Host, t: Taking, m: Match, end: Match, first: OrderEntry,
      second: OrderEntry)
    requires Opposing(t, m.st) == [first, second] && TwoForOne(second, t.now, 2) && t.taker.minOut == 1
    requires m.i == 1 && m.fills == 1 && m.remaining == 4 && m.filledOut == 2 && 0 < t.taker.amountIn
    requires Reaches(host, t, m, end)
    ensures end.fills == 2 && end.filledOut == 4 && end.remaining == 3 && Opposing(t, end.st) == [first]
  {
    TwoForOneFill(t, second, 2, 4);
    var m' := DoTrade(host, t, m, 1);
    TradeEffect(host, t, m, 1);
    RunTrades(host, t, m, 1, m', end);
    RunEnds(host, t, m');
  }

  // ----- Nothing executable is left behind -----------------------------------------------------

  lemma {:induction false} MatchStops(host: Host, t: Taking, m: Match)
    requires m.fills <= MAX_FILLS
    ensures
      var m' := MatchRun(host, t, m);
      !Filling(t, m') || Decide(t, Opposing(t, m'.st)[m'.i], m'.remaining) == Stop
    decreases MAX_FILLS - m.fills, |Opposing(t, m.st)| - m.i
  {
    if Filling(t, m) {
      match Decide(t, Opposing(t, m.st)[m.i], m.remaining)
      case Stop =>
      case Skip => MatchStops(host, t, Advance(m));
      case Trade(k) => MatchStops(host, t, DoTrade(host, t, m, k));
    }
  }

  predicate Crosses(e: OrderEntry, t: Taking) {
    CrossAmounts(e.amountIn, e.minOut, t.taker.amountIn, t.taker.minOut)
  }

  // An entry the taker could still trade with: live, crossing and holding a whole lot.
  predicate Executable(e: OrderEntry, t: Taking) {
    !Passed(e, t.now) && Crosses(e, t)
  }

  // The early exits lose nothing: when the loop ends with fills and funds to spare, an executable
  // entry can only remain because the taker cannot pay for one lot of the live, crossing maker at
  // which it stopped, and that maker is no worse in price than any executable one.
  lemma {:induction false} NoMatchIsLost(host: Host, t: Taking, m0: Match, q: nat)
    requires Good(host, m0.st, Busy(t.taker, m0.remaining)) && TakingOk(m0.st, t) && m0.fills <= MAX_FILLS && m0.i == 0
    requires
      var m := MatchRun(host, t, m0);
      m.fills < MAX_FILLS && 0 < m.remaining && q < |Opposing(t, m.st)| && Executable(Opposing(t, m.st)[q], t)
    ensures
      var m := MatchRun(host, t, m0);
      var book := Opposing(t, m.st);
      && m.i <= q && t.now <= book[m.i].expiry && Crosses(book[m.i], t)
      && m.remaining < PriceLot(book[m.i].amountIn, book[m.i].minOut)
      && !Better(book[q].Terms(), book[m.i].Terms(), t.Opp())
  {
    var m := MatchRun(host, t, m0);
    MatchKeeps(host, t, m0);
    PartialSide(m0.st, t);
    MatchProgresses(host, t, m0);
    MatchStops(host, t, m0);
    assert SideOk(m.st, (t.pairId, t.Opp()), Opposing(t, m.st));
    StoppedBeforeExecutable(t, m, q);
  }

  lemma {:induction false} PartialSide(st: State, t: Taking)
    requires BooksOk(st)
    ensures forall j :: 0 <= j < |Opposing(t, st)| ==> Opposing(t, st)[j].partialAllowed
  {
    forall j | 0 <= j < |Opposing(t, st)|
      ensures Opposing(t, st)[j].partialAllowed
    {
      assert EntryOk(st, (t.pairId, t.Opp()), Opposing(t, st)[j]);
    }
  }

  lemma {:induction false} StoppedBeforeExecutable(t: Taking, m: Match, q: nat)
    requires Sorted(Opposing(t, m.st), t.Opp()) && q < |Opposing(t, m.st)| && m.i <= |Opposing(t, m.st)|
    requires forall j :: 0 <= j < m.i ==> Passed(Opposing(t, m.st)[j], t.now)
    requires m.fills < MAX_FILLS && 0 < m.remaining && Executable(Opposing(t, m.st)[q], t)
    requires !Filling(t, m) || Decide(t, Opposing(t, m.st)[m.i], m.remaining) == Stop
    ensures
      var book := Opposing(t, m.st);
      && m.i <= q && t.now <= book[m.i].expiry && Crosses(book[m.i], t)
      && m.remaining < PriceLot(book[m.i].amountIn, book[m.i].minOut)
      && !Better(book[q].Terms(), book[m.i].Terms(), t.Opp())
  {
    var book := Opposing(t, m.st);
    assert m.i <= q;
    var here := book[m.i];
    BetterIsAStrictWeakOrder(here.Terms(), here.Terms(), here.Terms(), t.Opp());
    assert !Better(book[q].Terms(), here.Terms(), t.Opp());
    if !Crosses(here, t) {
      BehindANonCrossing(here.Terms(), book[q].Terms(), t.taker.amountIn, t.taker.minOut, t.Opp());
    }
    var price := PriceLot(here.amountIn, here.minOut);
    assert m.remaining / price == 0;
    LotsWithin(1, price, m.remaining);
  }

  // ----- Bounds --------------------------------------------------------------------------------

  // Everything the opposing side locks.
  function Depth(t: Taking, st: State): nat {
    SideTotal(t.pair, t.Opp(), Opposing(t, st), ByAsset(t.MakerAsset()))
  }

  ghost predicate ProceedsFromDepth(t: Taking, total: nat, m: Match) {
    m.filledOut + Depth(t, m.st) == total
  }

  lemma {:induction false} TradeDrawsOnDepth(host: Host, t: Taking, m: Match, k: nat)
    requires TradesAt(t, m, k)
    ensures
      var m' := DoTrade(host, t, m, k);
      m'.filledOut + Depth(t, m'.st) == m.filledOut + Depth(t, m.st)
  {
    var m' := DoTrade(host, t, m, k);
    TradeEffect(host, t, m, k);
    EditDepth(t, Opposing(t, m.st), Opposing(t, m'.st), m.i, FillAt(t, m, k).give);
  }

  lemma {:induction false} EditDepth(t: Taking, book: seq<OrderEntry>, book': seq<OrderEntry>, i: nat, give: nat)
    requires i < |book| && give <= book[i].remainingIn
    requires book' == if give == book[i].remainingIn then WithoutAt(book, i)
      else book[i := book[i].(remainingIn := book[i].remainingIn - give)]
    ensures SideTotal(t.pair, t.Opp(), book, ByAsset(t.MakerAsset()))
         == SideTotal(t.pair, t.Opp(), book', ByAsset(t.MakerAsset())) + give
  {
    if give == book[i].remainingIn {
      WithoutTotal(t.pair, t.Opp(), book, i, ByAsset(t.MakerAsset()));
    } else {
      UpdateTotal(t.pair, t.Opp(), book, i, book'[i], ByAsset(t.MakerAsset()));
    }
  }

  // What the taker receives is exactly what the opposing side loses.
  lemma {:induction false} ProceedsAreDepthConsumed(host: Host, t: Taking, m0: Match)
    requires m0.fills <= MAX_FILLS && m0.filledOut == 0
    ensures
      var m := MatchRun(host, t, m0);
      m.filledOut == Depth(t, m0.st) - Depth(t, m.st)
  {
    var total := Depth(t, m0.st);
    forall n, k | ProceedsFromDepth(t, total, n) && TradesAt(t, n, k)
      ensures ProceedsFromDepth(t, total, DoTrade(host, t, n, k))
    {
      TradeDrawsOnDepth(host, t, n, k);
    }
    MatchInduction(host, t, m0, n => ProceedsFromDepth(t, total, n));
  }

  // ----- Admission -----------------------------------------------------------------------------

  // An order that passes every check a submission makes before it matches.
  predicate Admitted(st: State, now: nat, taker: Order) {
    && 0 < taker.amountIn && 0 < taker.minOut && now <= taker.expiry && taker.nullifier !in st.nullifiers
    && PairAndSide(st, taker.assetIn, taker.assetOut).Ok?
  }

  function TakingFor(st: State, now: nat, taker: Order): Taking
    requires Admitted(st, now, taker)
  {
    var (pairId, side) := PairAndSide(st, taker.assetIn, taker.assetOut).value;
    Taking(now, pairId, st.pairs[pairId], side, taker)
  }
}
