// The life of every submitted order: what it gave and got in trades, what was refunded, and what
// it still locks. Together these always make up exactly the amount it offered, at its price or better.
module Orders {
  import opened Wrappers
  import opened Lots
  import opened Types
  import opened Ledger
  import opened BookInvariant
  import opened Value

  function GaveIn(d: Deal, id: Word): nat {
    match d
    case Trade(maker, taker, makerGave, takerGave) =>
      (if maker == id then makerGave else 0) + (if taker == id then takerGave else 0)
    case Refund(_, _) => 0
  }

  function GotIn(d: Deal, id: Word): nat {
    match d
    case Trade(maker, taker, makerGave, takerGave) =>
      (if maker == id then takerGave else 0) + (if taker == id then makerGave else 0)
    case Refund(_, _) => 0
  }

  function RefundIn(d: Deal, id: Word): nat {
    if d.Refund? && d.order == id then d.amount else 0
  }

  // Offered asset an order has traded away.
  function Gave(deals: seq<Deal>, id: Word): nat {
    if deals == [] then 0 else Gave(deals[..|deals| - 1], id) + GaveIn(deals[|deals| - 1], id)
  }

  // Wanted asset an order has received.
  function Got(deals: seq<Deal>, id: Word): nat {
    if deals == [] then 0 else Got(deals[..|deals| - 1], id) + GotIn(deals[|deals| - 1], id)
  }

  // Offered asset returned by cancellation, expiry or immediate refund.
  function Refunded(deals: seq<Deal>, id: Word): nat {
    if deals == [] then 0 else Refunded(deals[..|deals| - 1], id) + RefundIn(deals[|deals| - 1], id)
  }

  lemma {:induction false} DealAppend(deals: seq<Deal>, d: Deal, id: Word)
    ensures Gave(deals + [d], id) == Gave(deals, id) + GaveIn(d, id)
    ensures Got(deals + [d], id) == Got(deals, id) + GotIn(d, id)
    ensures Refunded(deals + [d], id) == Refunded(deals, id) + RefundIn(d, id)
  {
    assert (deals + [d])[..|deals|] == deals;
  }

  function InFlight(fl: Flight, id: Word): nat {
    if fl.Busy? && fl.order.nullifier == id then fl.remaining else 0
  }

  // What an order still locks on the books.
  function Held(st: State, id: Word): nat {
    Total(st, ById(id))
  }

  predicate AtLimitOrBetter(got: nat, gave: nat, limit: Limit) {
    got * limit.amountIn >= gave * limit.minOut
  }

  ghost predicate OrderOk(st: State, fl: Flight, id: Word) {
    if id in st.accepted then
      && Gave(st.deals, id) + Refunded(st.deals, id) + Held(st, id) + InFlight(fl, id)
         == st.accepted[id].limit.amountIn
      && AtLimitOrBetter(Got(st.deals, id), Gave(st.deals, id), st.accepted[id].limit)
    else
      Gave(st.deals, id) == 0 && Got(st.deals, id) == 0 && Refunded(st.deals, id) == 0
  }

  // A resting order trades at exactly its own price, and only an order that may rest is refunded.
  ghost predicate DealOk(st: State, d: Deal) {
    match d
    case Trade(maker, _, makerGave, takerGave) =>
      && maker in st.accepted
      && makerGave * st.accepted[maker].limit.minOut == takerGave * st.accepted[maker].limit.amountIn
    case Refund(order, _) => order in st.accepted && st.accepted[order].partialAllowed
  }

  ghost predicate OrdersOk(st: State, fl: Flight) {
    && (forall id :: OrderOk(st, fl, id))
    && (forall i :: 0 <= i < |st.deals| ==> DealOk(st, st.deals[i]))
  }

  // Effects that touch neither the books nor the order history.
  lemma {:induction false} OrdersFrame(st: State, st': State, fl: Flight)
    requires OrdersOk(st, fl)
    requires st'.pairs == st.pairs && st'.books == st.books
    requires st'.deals == st.deals && st'.accepted == st.accepted
    ensures OrdersOk(st', fl)
  {
    forall id
      ensures OrderOk(st', fl, id)
    {
      assert OrderOk(st, fl, id);
    }
    forall i | 0 <= i < |st'.deals|
      ensures DealOk(st', st'.deals[i])
    {
      assert DealOk(st, st.deals[i]);
    }
  }

  lemma {:induction false} RemoveHeld(st: State, pairId: nat, side: nat, i: nat, reason: RemoveReason, id: Word)
    requires KeyOk(st, (pairId, side)) && i < |Book(st, pairId, side)|
    ensures Held(RemoveAt(st, pairId, side, i, reason), id) == Held(st, id)
      - if Book(st, pairId, side)[i].orderId == id then Book(st, pairId, side)[i].remainingIn else 0
  {
    var book := Book(st, pairId, side);
    StoreTotal(st, RemoveAt(st, pairId, side, i, reason), (pairId, side), WithoutAt(book, i), ById(id));
    WithoutTotal(st.pairs[pairId], side, book, i, ById(id));
  }

  lemma {:induction false} UpdateHeld(st: State, pairId: nat, side: nat, i: nat, e: OrderEntry, id: Word)
    requires KeyOk(st, (pairId, side)) && i < |Book(st, pairId, side)|
    requires e.orderId == Book(st, pairId, side)[i].orderId
    ensures Held(UpdateAt(st, pairId, side, i, e), id) == Held(st, id)
      + if e.orderId == id then e.remainingIn - Book(st, pairId, side)[i].remainingIn else 0
  {
    var book := Book(st, pairId, side);
    StoreTotal(st, UpdateAt(st, pairId, side, i, e), (pairId, side), book[i := e], ById(id));
    UpdateTotal(st.pairs[pairId], side, book, i, e, ById(id));
  }

  lemma {:induction false} RestHeld(st: State, pairId: nat, side: nat, e: OrderEntry, id: Word)
    requires KeyOk(st, (pairId, side))
    ensures Held(Rest(st, pairId, side, e), id) == Held(st, id) + if e.orderId == id then e.remainingIn else 0
  {
    var book := Book(st, pairId, side);
    StoreTotal(st, Rest(st, pairId, side, e), (pairId, side), WithEntry(book, e, side), ById(id));
    InsertTotal(st.pairs[pairId], side, book, e, ById(id));
  }

  lemma {:induction false} ConsumeHeld(st: State, t: Taking, i: nat, give: nat, id: Word)
    requires KeyOk(st, (t.pairId, t.Opp())) && i < |Opposing(t, st)| && give <= Opposing(t, st)[i].remainingIn
    ensures Held(Consume(st, t, i, give), id)
         == Held(st, id) - if Opposing(t, st)[i].orderId == id then give else 0
  {
    var maker := Opposing(t, st)[i];
    if maker.remainingIn == give {
      RemoveHeld(st, t.pairId, t.Opp(), i, Filled, id);
    } else {
      UpdateHeld(st, t.pairId, t.Opp(), i, maker.(remainingIn := maker.remainingIn - give), id);
    }
  }

  // A crossing maker's exact price is the taker's limit price or better.
  lemma {:induction false} CrossingPays(maker: Limit, taker: Limit, give: nat, pay: nat)
    requires CrossAmounts(maker.amountIn, maker.minOut, taker.amountIn, taker.minOut)
    requires give * maker.minOut == pay * maker.amountIn
    ensures AtLimitOrBetter(give, pay, taker)
  {
    calc {
      (pay * taker.minOut) * maker.amountIn;
      (pay * maker.amountIn) * taker.minOut;
      (give * maker.minOut) * taker.minOut;
      (maker.minOut * taker.minOut) * give;
    <= { MulLe(maker.minOut * taker.minOut, maker.amountIn * taker.amountIn, give); }
      (maker.amountIn * taker.amountIn) * give;
      (give * taker.amountIn) * maker.amountIn;
    }
    MulOrder(pay * taker.minOut, give * taker.amountIn, maker.amountIn);
  }

  lemma {:induction false} LimitAdds(got: nat, gave: nat, moreGot: nat, moreGave: nat, limit: Limit)
    requires AtLimitOrBetter(got, gave, limit) && AtLimitOrBetter(moreGot, moreGave, limit)
    ensures AtLimitOrBetter(got + moreGot, gave + moreGave, limit)
  {
    assert (got + moreGot) * limit.amountIn == got * limit.amountIn + moreGot * limit.amountIn;
    assert (gave + moreGave) * limit.minOut == gave * limit.minOut + moreGave * limit.minOut;
  }

  // An order that has given everything it offered has received at least what it asked for.
  lemma {:induction false} FullySpentMeetsMinimum(got: nat, limit: Limit)
    requires AtLimitOrBetter(got, limit.amountIn, limit)
    ensures got >= limit.minOut
  {
    MulOrder(got, limit.minOut, limit.amountIn);
  }

  // ----- Whole steps keep every order's account ------------------------------------------------

  lemma {:induction false} HeldFrame(st: State, st': State, id: Word)
    requires st'.pairs == st.pairs && st'.books == st.books
    ensures Held(st', id) == Held(st, id)
  {
  }

  // st' differs from st, for the accounts of id, by one trade.
  ghost predicate TradeBooked(st: State, st': State, maker: Word, taker: Word, f: Fill, id: Word) {
    var d := Deal.Trade(maker, taker, f.give, f.pay);
    && Gave(st'.deals, id) == Gave(st.deals, id) + GaveIn(d, id)
    && Got(st'.deals, id) == Got(st.deals, id) + GotIn(d, id)
    && Refunded(st'.deals, id) == Refunded(st.deals, id)
    && Held(st', id) == Held(st, id) - (if maker == id then f.give else 0)
    && st'.accepted == st.accepted
  }

  lemma {:induction false} TradeIsBooked(host: Host, t: Taking, m: Match, k: nat, id: Word)
    requires TakingOk(m.st, t) && TradesAt(t, m, k)
    ensures TradeBooked(m.st, DoTrade(host, t, m, k).st, Opposing(t, m.st)[m.i].orderId, t.taker.nullifier, FillAt(t,
      m, k), id)
  {
    var maker, f := Opposing(t, m.st)[m.i], FillAt(t, m, k);
    DecidedTradeFits(t, maker, m.remaining);
    var st1 := Proceeds(host, m.st, t, maker, f);
    ProceedsFrame(host, m.st, t, maker, f);
    ConsumeFrame(st1, t, m.i, f.give);
    HeldFrame(m.st, st1, id);
    ConsumeHeld(st1, t, m.i, f.give, id);
    HeldFrame(Consume(st1, t, m.i, f.give), DoTrade(host, t, m, k).st, id);
    DealAppend(m.st.deals, Deal.Trade(maker.orderId, t.taker.nullifier, f.give, f.pay), id);
  }

  // The maker is a known order other than the taker, and the fill is at its price and within the
  // taker's limit.
  lemma {:induction false} TradeParties(t: Taking, m: Match, k: nat)
    requires BooksOk(m.st) && FlightOk(m.st, Busy(t.taker, m.remaining)) && TradesAt(t, m, k)
    ensures
      var maker, f := Opposing(t, m.st)[m.i], FillAt(t, m, k);
      && maker.orderId != t.taker.nullifier
      && maker.orderId in m.st.accepted && m.st.accepted[maker.orderId].limit == maker.Terms()
      && AtLimitOrBetter(f.pay, f.give, maker.Terms())
      && AtLimitOrBetter(f.give, f.pay, m.st.accepted[t.taker.nullifier].limit)
  {
    var maker, f := Opposing(t, m.st)[m.i], FillAt(t, m, k);
    assert EntryOk(m.st, (t.pairId, t.Opp()), maker);
    assert Absent(m.st.books[(t.pairId, t.Opp())], t.taker.nullifier);
    FillAtExactPrice(maker.amountIn, maker.minOut, k);
    CrossingPays(maker.Terms(), Limit(t.taker.amountIn, t.taker.minOut), f.give, f.pay);
  }

  lemma {:induction false} BookedTradeKeepsOrder(st: State, st': State, maker: Word, taker: Order, remaining: nat,
      f: Fill, id: Word)
    requires OrderOk(st, Busy(taker, remaining), id) && f.pay <= remaining
    requires TradeBooked(st, st', maker, taker.nullifier, f, id)
    requires maker != taker.nullifier && maker in st.accepted && taker.nullifier in st.accepted
    requires AtLimitOrBetter(f.pay, f.give, st.accepted[maker].limit)
    requires AtLimitOrBetter(f.give, f.pay, st.accepted[taker.nullifier].limit)
    ensures OrderOk(st', Busy(taker, remaining - f.pay), id)
  {
    if id == maker {
      LimitAdds(Got(st.deals, id), Gave(st.deals, id), f.pay, f.give, st.accepted[id].limit);
    } else if id == taker.nullifier {
      LimitAdds(Got(st.deals, id), Gave(st.deals, id), f.give, f.pay, st.accepted[id].limit);
    }
  }

  lemma {:induction false} TradeKeepsOrder(host: Host, t: Taking, m: Match, k: nat, id: Word)
    requires BooksOk(m.st) && TakingOk(m.st, t) && FlightOk(m.st, Busy(t.taker, m.remaining)) && TradesAt(t, m, k)
    requires OrderOk(m.st, Busy(t.taker, m.remaining), id)
    ensures
      var m' := DoTrade(host, t, m, k);
      OrderOk(m'.st, Busy(t.taker, m'.remaining), id)
  {
    var maker, f := Opposing(t, m.st)[m.i], FillAt(t, m, k);
    DecidedTradeFits(t, maker, m.remaining);
    TradeParties(t, m, k);
    TradeIsBooked(host, t, m, k, id);
    BookedTradeKeepsOrder(m.st, DoTrade(host, t, m, k).st, maker.orderId, t.taker, m.remaining, f, id);
  }

  lemma {:induction false} TradeIsExact(host: Host, t: Taking, m: Match, k: nat)
    requires BooksOk(m.st) && TradesAt(t, m, k)
    requires forall i :: 0 <= i < |m.st.deals| ==> DealOk(m.st, m.st.deals[i])
    ensures var st' := DoTrade(host, t, m, k).st;
      forall i :: 0 <= i < |st'.deals| ==> DealOk(st', st'.deals[i])
  {
    var maker, st' := Opposing(t, m.st)[m.i], DoTrade(host, t, m, k).st;
    DecidedTradeFits(t, maker, m.remaining);
    FillAtExactPrice(maker.amountIn, maker.minOut, k);
    assert EntryOk(m.st, (t.pairId, t.Opp()), maker);
    forall i | 0 <= i < |st'.deals|
      ensures DealOk(st', st'.deals[i])
    {
      assert i < |m.st.deals| ==> DealOk(m.st, m.st.deals[i]);
    }
  }

  lemma {:induction false} TradeKeepsOrders(host: Host, t: Taking, m: Match, k: nat)
    requires BooksOk(m.st) && TakingOk(m.st, t) && FlightOk(m.st, Busy(t.taker, m.remaining)) && TradesAt(t, m, k)
    requires OrdersOk(m.st, Busy(t.taker, m.remaining))
    ensures
      var m' := DoTrade(host, t, m, k);
      OrdersOk(m'.st, Busy(t.taker, m'.remaining))
  {
    var m' := DoTrade(host, t, m, k);
    forall id
      ensures OrderOk(m'.st, Busy(t.taker, m'.remaining), id)
    {
      TradeKeepsOrder(host, t, m, k, id);
    }
    TradeIsExact(host, t, m, k);
  }

  lemma {:induction false} AcceptKeepsOrders(st: State, t: Taking)
    requires BooksOk(st) && OrdersOk(st, Idle) && t.taker.nullifier !in st.nullifiers
    requires 0 < t.taker.amountIn && 0 < t.taker.minOut
    ensures OrdersOk(Accept(st, t), Busy(t.taker, t.taker.amountIn))
  {
    var st', fl := Accept(st, t), Busy(t.taker, t.taker.amountIn);
    forall id
      ensures OrderOk(st', fl, id)
    {
      assert OrderOk(st, Idle, id);
      if id == t.taker.nullifier {
        AcceptKeepsBooks(st, t);
        AbsentTotalTo(st, |st.pairs|, id);
      }
    }
    forall i | 0 <= i < |st'.deals|
      ensures DealOk(st', st'.deals[i])
    {
      assert DealOk(st, st.deals[i]);
    }
  }

  // Refunding from a lock, whether in flight or resting, moves value between two accounts of one order.
  lemma {:induction false} RefundAccounts(host: Host, st: State, refunded: Word, note: Note, id: Word)
    ensures var st' := RefundNote(host, st, refunded, note);
      && Gave(st'.deals, id) == Gave(st.deals, id) && Got(st'.deals, id) == Got(st.deals, id)
      && Refunded(st'.deals, id) == Refunded(st.deals, id) + (if id == refunded then note.amount else 0)
      && Held(st', id) == Held(st, id) && st'.accepted == st.accepted
  {
    DealAppend(st.deals, Refund(refunded, note.amount), id);
  }

  lemma {:induction false} RefundKeepsExact(host: Host, st: State, st': State, refunded: Word, amount: nat)
    requires forall i :: 0 <= i < |st.deals| ==> DealOk(st, st.deals[i])
    requires st'.deals == st.deals + [Refund(refunded, amount)] && st'.accepted == st.accepted
    requires refunded in st.accepted && st.accepted[refunded].partialAllowed
    ensures forall i :: 0 <= i < |st'.deals| ==> DealOk(st', st'.deals[i])
  {
    forall i | 0 <= i < |st'.deals|
      ensures DealOk(st', st'.deals[i])
    {
      assert i < |st.deals| ==> DealOk(st, st.deals[i]);
    }
  }

  lemma {:induction false} RefundKeepsOrders(host: Host, st: State, order: Order, note: Note)
    requires OrdersOk(st, Busy(order, note.amount))
    requires order.nullifier in st.accepted && st.accepted[order.nullifier].partialAllowed
    ensures OrdersOk(RefundNote(host, st, order.nullifier, note), Idle)
  {
    var st' := RefundNote(host, st, order.nullifier, note);
    forall id
      ensures OrderOk(st', Idle, id)
    {
      assert OrderOk(st, Busy(order, note.amount), id);
      RefundAccounts(host, st, order.nullifier, note, id);
    }
    RefundKeepsExact(host, st, st', order.nullifier, note.amount);
  }

  lemma {:induction false} CloseKeepsOrders(host: Host, st: State, pairId: nat, side: nat, i: nat, note: Note,
      reason: RemoveReason)
    requires BooksOk(st) && OrdersOk(st, Idle) && i < |Book(st, pairId, side)|
    requires note.amount == Book(st, pairId, side)[i].remainingIn
    ensures OrdersOk(Close(host, st, pairId, side, i, note, reason), Idle)
  {
    var e := Book(st, pairId, side)[i];
    var mid, st' := RefundNote(host, st, e.orderId, note), Close(host, st, pairId, side, i, note, reason);
    assert EntryOk(st, (pairId, side), e);
    forall id
      ensures OrderOk(st', Idle, id)
    {
      assert OrderOk(st, Idle, id);
      RefundAccounts(host, st, e.orderId, note, id);
      RemoveHeld(mid, pairId, side, i, reason, id);
    }
    RefundKeepsExact(host, st, st', e.orderId, note.amount);
  }

  lemma {:induction false} RestKeepsOrders(st: State, pairId: nat, side: nat, order: Order, e: OrderEntry)
    requires KeyOk(st, (pairId, side)) && OrdersOk(st, Busy(order, e.remainingIn)) && order.nullifier in st.accepted
    requires e.orderId == order.nullifier
    ensures OrdersOk(Rest(st, pairId, side, e), Idle)
  {
    var st' := Rest(st, pairId, side, e);
    forall id
      ensures OrderOk(st', Idle, id)
    {
      assert OrderOk(st, Busy(order, e.remainingIn), id);
      RestHeld(st, pairId, side, e, id);
    }
    forall i | 0 <= i < |st'.deals|
      ensures DealOk(st', st'.deals[i])
    {
      assert DealOk(st, st.deals[i]);
    }
  }
}
