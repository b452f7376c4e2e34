// The matching loop as one pass over the opposing side: what a taker gets, pays and leaves behind is
// worked out entry by entry from that side alone, and the loop does exactly that.
module Sweeps {
  import opened Wrappers
  import opened Lots
  import opened Types
  import opened Ledger
  import opened BookInvariant
  import opened Matching
  import opened Payouts

  // A fill of a maker, as that maker stood before it.
  datatype Taken = Taken(maker: OrderEntry, fill: Fill)

  // What a taker gets and pays in all, the side it leaves, and its fills in order.
  datatype Sweep = Sweep(got: nat, paid: nat, left: seq<OrderEntry>, fills: seq<Taken>)

  // What stays of a maker after a fill, if anything.
  function Kept(x: Taken): seq<OrderEntry> {
    if x.fill.give < x.maker.remainingIn then [x.maker.(remainingIn := x.maker.remainingIn - x.fill.give)] else []
  }

  // A taker with so many fills and so much to spend passes over a side. Each maker trades at most once,
  // and the taker stops at a maker that outlasts it.
  function SweepOf(t: Taking, book: seq<OrderEntry>, fills: nat, remaining: nat): Sweep
    decreases |book|, 1
  {
    if book == [] || fills == 0 || remaining == 0 then Sweep(0, 0, book, [])
    else
      match Decide(t, book[0], remaining)
      case Stop => Sweep(0, 0, book, [])
      case Skip =>
        var rest := SweepOf(t, book[1..], fills, remaining);
        rest.(left := [book[0]] + rest.left)
      case Trade(k) => SweepFill(t, book, fills, remaining, k)
  }

  function SweepFill(t: Taking, book: seq<OrderEntry>, fills: nat, remaining: nat, k: nat): Sweep
    requires book != [] && 0 < fills && Decide(t, book[0], remaining) == Decision.Trade(k)
    decreases |book|, 0
  {
    DecidedTradeFits(t, book[0], remaining);
    var x := Taken(book[0], FillOf(book[0].amountIn, book[0].minOut, k));
    var ends := x.fill.give < book[0].remainingIn && !Outlasts(book[0], remaining);
    var rest := if ends then Sweep(0, 0, book[1..], [])
      else SweepOf(t, book[1..], fills - 1, remaining - x.fill.pay);
    Sweep(x.fill.give + rest.got, x.fill.pay + rest.paid, Kept(x) + rest.left, [x] + rest.fills)
  }

  // What a fill announces: both proceeds notes, then the maker's new or last state.
  function FillEvents(t: Taking, seqNo: nat, x: Taken): seq<Event> {
    [NoteInserted(Note(t.MakerAsset(), x.fill.give, t.taker.outputTag)),
     NoteInserted(Note(t.TakerAsset(), x.fill.pay, x.maker.outputTag)),
     if Kept(x) == [] then OrderRemoved(seqNo + 1, t.pairId, t.Opp(), x.maker.orderId, FILLED_CODE)
     else OrderUpserted(seqNo + 1, t.pairId, t.Opp(), Kept(x)[0])]
  }

  function AllFillEvents(t: Taking, seqNo: nat, fills: seq<Taken>): seq<Event>
    decreases |fills|
  {
    if fills == [] then [] else FillEvents(t, seqNo, fills[0]) + AllFillEvents(t, seqNo + 1, fills[1..])
  }

  // Everything the loop does between two of its states is this sweep.
  ghost predicate Swept(t: Taking, m: Match, end: Match, s: Sweep)
    requires m.i <= |Opposing(t, m.st)|
  {
    && end.filledOut == m.filledOut + s.got && end.remaining + s.paid == m.remaining
    && Opposing(t, end.st) == Opposing(t, m.st)[..m.i] + s.left
    && end.st.events == m.st.events + AllFillEvents(t, m.st.bookSeq, s.fills)
    && end.st.bookSeq == m.st.bookSeq + |s.fills| && BooksOnly(m.st, end.st)
    && (forall k :: k != (t.pairId, t.Opp()) ==> Book(end.st, k.0, k.1) == Book(m.st, k.0, k.1))
  }

  lemma {:induction false} NothingSwept(t: Taking, m: Match, book: seq<OrderEntry>)
    requires m.i <= |Opposing(t, m.st)| && book == Opposing(t, m.st)[m.i..]
    ensures Swept(t, m, m, Sweep(0, 0, book, []))
  {
    assert Opposing(t, m.st)[..m.i] + book == Opposing(t, m.st);
    assert m.st.events + [] == m.st.events;
  }

  lemma {:induction false} SkipSweeps(t: Taking, m: Match, end: Match, rest: Sweep)
    requires m.i < |Opposing(t, m.st)| && Swept(t, Advance(m), end, rest)
    ensures Swept(t, m, end, rest.(left := [Opposing(t, m.st)[m.i]] + rest.left))
  {
    var book := Opposing(t, m.st);
    assert book[..m.i + 1] == book[..m.i] + [book[m.i]];
  }

  // One fill, told in raw terms.
  lemma {:induction false} TradeDoes(host: Host, t: Taking, m: Match, k: nat)
    requires TradesAt(t, m, k)
    ensures
      var m', x := DoTrade(host, t, m, k), Taken(Opposing(t, m.st)[m.i], FillAt(t, m, k));
      && m'.st.events == m.st.events + FillEvents(t, m.st.bookSeq, x)
      && m'.st.bookSeq == m.st.bookSeq + 1 && BooksOnly(m.st, m'.st)
      && Opposing(t, m'.st) == Opposing(t, m.st)[..m.i] + Kept(x) + Opposing(t, m.st)[m.i + 1..]
      && (forall k :: k != (t.pairId, t.Opp()) ==> Book(m'.st, k.0, k.1) == Book(m.st, k.0, k.1))
  {
    var maker, f := Opposing(t, m.st)[m.i], FillAt(t, m, k);
    var st1 := Proceeds(host, m.st, t, maker, f);
    DecidedTradeFits(t, maker, m.remaining);
    ProceedsDo(host, m.st, t, maker, f);
    ConsumeDoes(st1, t, m.i, Taken(maker, f));
  }

  lemma {:induction false} ProceedsDo(host: Host, st: State, t: Taking, maker: OrderEntry, f: Fill)
    requires 0 < f.give && 0 < f.pay
    ensures
      var st' := Proceeds(host, st, t, maker, f);
      && st' == st.(tree := st'.tree, events := st'.events)
      && st'.events == st.events + [NoteInserted(Note(t.MakerAsset(), f.give, t.taker.outputTag)),
           NoteInserted(Note(t.TakerAsset(), f.pay, maker.outputTag))]
  {
  }

  lemma {:induction false} ConsumeDoes(st: State, t: Taking, i: nat, x: Taken)
    requires i < |Opposing(t, st)| && x.maker == Opposing(t, st)[i] && x.fill.give <= x.maker.remainingIn
    ensures
      var st' := Consume(st, t, i, x.fill.give);
      && st' == st.(books := st'.books, bookSeq := st.bookSeq + 1,
           events := st.events + [FillEvents(t, st.bookSeq, x)[2]])
      && Opposing(t, st') == Opposing(t, st)[..i] + Kept(x) + Opposing(t, st)[i + 1..]
      && (forall k :: k != (t.pairId, t.Opp()) ==> Book(st', k.0, k.1) == Book(st, k.0, k.1))
  {
    var book := Opposing(t, st);
    if Kept(x) != [] {
      assert book[i := Kept(x)[0]] == book[..i] + Kept(x) + book[i + 1..];
    }
  }

  // What the loop has done between m and m', which stands behind the maker if that stays, is fill x.
  ghost predicate FillsTo(t: Taking, m: Match, x: Taken, m': Match) {
    && m.i < |Opposing(t, m.st)| && x.maker == Opposing(t, m.st)[m.i]
    && m'.i == m.i + |Kept(x)| && m'.fills == m.fills + 1
    && Opposing(t, m'.st) == Opposing(t, m.st)[..m.i] + Kept(x) + Opposing(t, m.st)[m.i + 1..]
    && m'.st.events == m.st.events + FillEvents(t, m.st.bookSeq, x) && m'.st.bookSeq == m.st.bookSeq + 1
    && BooksOnly(m.st, m'.st)
    && (forall k :: k != (t.pairId, t.Opp()) ==> Book(m'.st, k.0, k.1) == Book(m.st, k.0, k.1))
    && m'.filledOut == m.filledOut + x.fill.give && m'.remaining + x.fill.pay == m.remaining
  }

  // Past a fill.
  function Past(host: Host, t: Taking, m: Match, k: nat): Match
    requires TradesAt(t, m, k)
  {
    var m' := DoTrade(host, t, m, k);
    m'.(i := m.i + |Kept(Taken(Opposing(t, m.st)[m.i], FillAt(t, m, k)))|)
  }

  lemma {:induction false} TradeFills(host: Host, t: Taking, m: Match, k: nat)
    requires TradesAt(t, m, k)
    ensures FillsTo(t, m, Taken(Opposing(t, m.st)[m.i], FillAt(t, m, k)), Past(host, t, m, k))
  {
    TradeEffect(host, t, m, k);
    TradeDoes(host, t, m, k);
  }

  // A fill and then the rest of the sweep. When the maker stays, the rest starts behind it.
  lemma {:induction false} FillSweeps(t: Taking, m: Match, x: Taken, m': Match, end: Match, rest: Sweep)
    requires FillsTo(t, m, x, m') && Swept(t, m', end, rest)
    ensures Swept(t, m, end,
      Sweep(x.fill.give + rest.got, x.fill.pay + rest.paid, Kept(x) + rest.left, [x] + rest.fills))
  {
    var book := Opposing(t, m.st);
    assert Opposing(t, m'.st)[..m'.i] == book[..m.i] + Kept(x);
    assert ([x] + rest.fills)[1..] == rest.fills;
  }

  // From any of its states, the loop sweeps what lies ahead of it.
  lemma {:induction false} RunSweeps(host: Host, t: Taking, m: Match, end: Match)
    requires Reaches(host, t, m, end) && m.i <= |Opposing(t, m.st)|
    ensures Swept(t, m, end, SweepOf(t, Opposing(t, m.st)[m.i..], MAX_FILLS - m.fills, m.remaining))
    decreases MAX_FILLS - m.fills, |Opposing(t, m.st)| - m.i, 2
  {
    var ahead := Opposing(t, m.st)[m.i..];
    if !Filling(t, m) || Decide(t, ahead[0], m.remaining).Stop? {
      RunEnds(host, t, m);
      NothingSwept(t, m, ahead);
    } else if Decide(t, ahead[0], m.remaining).Skip? {
      RunSkips(host, t, m, end);
      RunSweeps(host, t, Advance(m), end);
      assert ahead[1..] == Opposing(t, m.st)[m.i + 1..];
      SkipSweeps(t, m, end, SweepOf(t, ahead[1..], MAX_FILLS - m.fills, m.remaining));
    } else {
      var k := Decide(t, ahead[0], m.remaining).k;
      FillRuns(host, t, m, k, DoTrade(host, t, m, k), end);
    }
  }

  lemma {:induction false} FillRuns(host: Host, t: Taking, m: Match, k: nat, m': Match, end: Match)
    requires TradesAt(t, m, k) && m' == DoTrade(host, t, m, k) && Reaches(host, t, m, end)
    ensures Swept(t, m, end, SweepFill(t, Opposing(t, m.st)[m.i..], MAX_FILLS - m.fills, m.remaining, k))
    decreases MAX_FILLS - m.fills, |Opposing(t, m.st)| - m.i, 1
  {
    var x, past := Taken(Opposing(t, m.st)[m.i], FillAt(t, m, k)), Past(host, t, m, k);
    TradeFills(host, t, m, k);
    RunTrades(host, t, m, k, m', end);
    FillGoesOn(host, t, m, k, x, m');
    PastRuns(host, t, m, x, m', past, end);
    FillSweeps(t, m, x, past, end, RestOfSweep(t, m, x));
    FillThenRest(t, m, x, k);
  }

  // Between a fill and the state past it: the loop ends, or goes on behind a maker that the taker
  // outlasts.
  ghost predicate GoesOn(host: Host, t: Taking, m: Match, x: Taken, m': Match) {
    && m'.i == m.i && m'.fills <= MAX_FILLS
    && (Kept(x) != [] && Filling(t, m') ==>
          MatchRun(host, t, m') == if Outlasts(x.maker, m.remaining) then MatchRun(host, t, Advance(m')) else m')
  }

  lemma {:induction false} FillGoesOn(host: Host, t: Taking, m: Match, k: nat, x: Taken, m': Match)
    requires TradesAt(t, m, k) && m' == DoTrade(host, t, m, k)
    requires x == Taken(Opposing(t, m.st)[m.i], FillAt(t, m, k))
    ensures GoesOn(host, t, m, x, m')
  {
    TradeEffect(host, t, m, k);
    if Kept(x) != [] && Filling(t, m') {
      AfterPartialFill(host, t, m, k);
    }
  }

  lemma {:induction false} PastReaches(host: Host, t: Taking, m: Match, x: Taken, m': Match, past: Match, end: Match)
    requires FillsTo(t, m, x, past) && GoesOn(host, t, m, x, m') && Reaches(host, t, m', end)
    requires past == m'.(i := past.i)
    ensures if Kept(x) == [] || (Filling(t, m') && Outlasts(x.maker, m.remaining)) then Reaches(host, t, past, end)
      else end == m'
  {
    if Kept(x) != [] && !Filling(t, m') {
      RunEnds(host, t, m');
    }
  }

  lemma {:induction false} NothingLeftToSweep(t: Taking, m: Match, x: Taken, m': Match, past: Match)
    requires FillsTo(t, m, x, past) && past == m'.(i := past.i) && m'.i == m.i && m.fills < MAX_FILLS
    requires Kept(x) != [] && !(Filling(t, m') && Outlasts(x.maker, m.remaining))
    ensures RestOfSweep(t, m, x) == Sweep(0, 0, Opposing(t, m.st)[m.i + 1..], [])
  {
  }

  lemma {:induction false} PastRuns(host: Host, t: Taking, m: Match, x: Taken, m': Match, past: Match, end: Match)
    requires FillsTo(t, m, x, past) && GoesOn(host, t, m, x, m') && Reaches(host, t, m', end)
    requires past == m'.(i := past.i) && m.fills < MAX_FILLS
    ensures Swept(t, past, end, RestOfSweep(t, m, x))
    decreases MAX_FILLS - m.fills, |Opposing(t, m.st)| - m.i, 0
  {
    var behind := Opposing(t, m.st)[m.i + 1..];
    assert Opposing(t, past.st)[past.i..] == behind;
    PastReaches(host, t, m, x, m', past, end);
    if Kept(x) == [] || (Filling(t, m') && Outlasts(x.maker, m.remaining)) {
      RunSweeps(host, t, past, end);
    } else {
      NothingSwept(t, past, behind);
      NothingLeftToSweep(t, m, x, m', past);
    }
  }

  // What is left to sweep after a fill of the maker that the loop stands at.
  function RestOfSweep(t: Taking, m: Match, x: Taken): Sweep
    requires m.i < |Opposing(t, m.st)| && m.fills < MAX_FILLS && x.fill.pay <= m.remaining
  {
    var behind := Opposing(t, m.st)[m.i + 1..];
    if Kept(x) != [] && !Outlasts(x.maker, m.remaining) then Sweep(0, 0, behind, [])
    else SweepOf(t, behind, MAX_FILLS - m.fills - 1, m.remaining - x.fill.pay)
  }

  lemma {:induction false} FillThenRest(t: Taking, m: Match, x: Taken, k: nat)
    requires TradesAt(t, m, k) && x == Taken(Opposing(t, m.st)[m.i], FillAt(t, m, k)) && x.fill.pay <= m.remaining
    ensures
      var rest := RestOfSweep(t, m, x);
      SweepFill(t, Opposing(t, m.st)[m.i..], MAX_FILLS - m.fills, m.remaining, k)
        == Sweep(x.fill.give + rest.got, x.fill.pay + rest.paid, Kept(x) + rest.left, [x] + rest.fills)
  {
    var book := Opposing(t, m.st);
    assert book[m.i..][0] == book[m.i] && book[m.i..][1..] == book[m.i + 1..];
  }

  // The sweep of a verified taker over the opposing side, of four fills at most.
  function SweepBy(t: Taking, st: State): Sweep {
    SweepOf(t, Opposing(t, st), 4, t.taker.amountIn)
  }

  // What a sweep leaves: the opposing side, every event in order, and all other sides as they were.
  ghost predicate SweptSide(t: Taking, st: State, st': State, s: Sweep) {
    && Opposing(t, st') == s.left
    && st'.events == st.events + AllFillEvents(t, st.bookSeq, s.fills)
    && st'.bookSeq == st.bookSeq + |s.fills| && BooksOnly(st, st')
    && (forall k :: k != (t.pairId, t.Opp()) ==> Book(st', k.0, k.1) == Book(st, k.0, k.1))
  }

  // The loop of a submission is the taker's sweep: what it gets and pays, the side it leaves and every
  // event it publishes.
  lemma {:induction false} MatchIsSweep(host: Host, t: Taking, st: State)
    ensures
      var m, s := MatchTaker(host, t, st), SweepBy(t, st);
      m.filledOut == s.got && m.remaining + s.paid == t.taker.amountIn && SweptSide(t, st, m.st, s)
  {
    var m0 := Begin(st, t);
    assert Opposing(t, m0.st)[0..] == Opposing(t, m0.st) == Opposing(t, st);
    RunSweeps(host, t, m0, MatchTaker(host, t, st));
  }

  // ----- Overflow ------------------------------------------------------------------------------

  // Only the taker's proceeds are summed under a check, and a submission overflows that sum exactly
  // when what its sweep would get, worked out from the opposing side beforehand, is 2^127 or more.
  lemma {:induction false} OverflowIsExactlyQuote(host: Host, st: State, t: Taking)
    requires 0 < t.taker.amountIn && 0 < t.taker.minOut
    ensures
      var quote := SweepBy(t, st).got;
      && MatchTaker(host, t, st).filledOut == quote <= Depth(t, st)
      && (SubmitTaker(host, st, t) == Err(Trap) <==> quote >= I128_LIMIT)
  {
    MatchIsSweep(host, t, st);
    ProceedsAreDepthConsumed(host, t, Begin(st, t));
  }

  function QuoteOf(st: State, now: nat, taker: Order): nat
    requires Admitted(st, now, taker)
  {
    SweepBy(TakingFor(st, now, taker), st).got
  }

  // The same of the call: past its checks, a submission traps exactly when the quote from the other
  // side of the pair is 2^127 or more.
  lemma {:induction false} SubmissionTrapsOnQuote(host: Host, st: State, now: nat, taker: Order)
    ensures SubmitParsed(host, st, now, taker) == Err(Trap) <==>
      Admitted(st, now, taker) && QuoteOf(st, now, taker) >= I128_LIMIT
  {
    if Admitted(st, now, taker) {
      var t := TakingFor(st, now, taker);
      OverflowIsExactlyQuote(host, Accept(st, t), t);
      assert SubmitParsed(host, st, now, taker) == SubmitTaker(host, Accept(st, t), t);
    }
  }
}
