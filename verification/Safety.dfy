// The invariant of every reachable state, kept by every entrypoint, together with the fact that
// every entrypoint's log growth replays.
module Safety {
  import opened Wrappers
  import opened Lots
  import opened Types
  import opened Codec
  import opened Ledger
  import opened BookInvariant
  import opened Value
  import opened Orders
  import opened NoteLog
  import opened Replay

  // ----- Flows -----------------------------------------------------------------------------------

  // Value enters and leaves only along the routes its asset's kind allows.
  ghost predicate RouteOk(st: State, f: Flow) {
    match f
    case Deposited(a, _) => a in st.assets && !st.assets[a].kind.BaseRepresented?
    case PaidOut(a, _) => a in st.assets && !st.assets[a].kind.BaseRepresented?
    case Bridged(a, n, d) => a in st.assets && !st.assets[a].kind.Stellar? && d in st.deposits && 0 < n
    case Spent(_, _, nf) => nf in st.nullifiers
  }

  // Two flows that use up the same single-use right.
  predicate SameRight(f: Flow, g: Flow) {
    || (f.Spent? && g.Spent? && f.nullifier == g.nullifier)
    || (f.Bridged? && g.Bridged? && f.deposit == g.deposit)
  }

  predicate HasToken(assets: map<nat, AssetDef>, a: nat, token: Word) {
    a in assets && assets[a].token == Some(token)
  }

  // What a flow moves into the contract's balance of a token.
  function TokenFlow(assets: map<nat, AssetDef>, f: Flow, token: Word): int {
    match f
    case Deposited(a, n) => if HasToken(assets, a, token) then n else 0
    case PaidOut(a, n) => if HasToken(assets, a, token) then 0 - n else 0
    case _ => 0
  }

  function TokenSum(assets: map<nat, AssetDef>, flows: seq<Flow>, token: Word): int {
    if flows == [] then 0
    else TokenSum(assets, flows[..|flows| - 1], token) + TokenFlow(assets, flows[|flows| - 1], token)
  }

  ghost predicate FlowsOk(st: State) {
    && (forall i :: 0 <= i < |st.flows| ==> RouteOk(st, st.flows[i]))
    && (forall i, j :: 0 <= i < j < |st.flows| ==> !SameRight(st.flows[i], st.flows[j]))
    && (forall token :: TokenBalance(st, token) == TokenSum(st.assets, st.flows, token))
  }

  // One more flow, using a right that was not used before.
  lemma {:induction false} FlowKeepsFlows(st: State, st': State, f: Flow)
    requires FlowsOk(st) && RouteOk(st', f) && st'.flows == st.flows + [f] && st'.assets == st.assets
    requires st.nullifiers <= st'.nullifiers && st.deposits <= st'.deposits
    requires f.Spent? ==> f.nullifier !in st.nullifiers
    requires f.Bridged? ==> f.deposit !in st.deposits
    requires forall token :: TokenBalance(st', token) == TokenBalance(st, token) + TokenFlow(st.assets, f, token)
    ensures FlowsOk(st')
  {
    forall i | 0 <= i < |st.flows|
      ensures RouteOk(st', st.flows[i]) && !SameRight(st.flows[i], f)
    {
      assert RouteOk(st, st.flows[i]);
    }
    assert st'.flows[..|st.flows|] == st.flows;
  }

  lemma {:induction false} FlowsFrame(st: State, st': State)
    requires FlowsOk(st) && st'.flows == st.flows && st'.assets == st.assets && st'.tokens == st.tokens
    requires st.nullifiers <= st'.nullifiers && st.deposits <= st'.deposits
    ensures FlowsOk(st')
  {
    forall i | 0 <= i < |st.flows|
      ensures RouteOk(st', st.flows[i])
    {
      assert RouteOk(st, st.flows[i]);
    }
    forall token
      ensures TokenBalance(st', token) == TokenSum(st'.assets, st'.flows, token)
    {
      assert TokenBalance(st, token) == TokenSum(st.assets, st.flows, token);
    }
  }

  // ----- The invariant and the log growth ----------------------------------------------------------

  ghost predicate Good(host: Host, st: State, fl: Flight) {
    && BooksOk(st) && FlightOk(st, fl)
    && ValueOk(st, fl)
    && OrdersOk(st, fl)
    && NotesOk(host, st)
    && FlowsOk(st)
  }

  function Added(st: State, st': State): seq<Event> {
    if |st.events| <= |st'.events| then st'.events[|st.events|..] else []
  }

  // The log only grew, by events that replay.
  ghost predicate Grows(st: State, st': State) {
    Follows(st, st', Added(st, st'))
  }

  lemma {:induction false} FollowsGrows(st: State, st': State, added: seq<Event>)
    requires Follows(st, st', added)
    ensures Grows(st, st')
  {
    assert Added(st, st') == added;
  }

  lemma {:induction false} GrowsTransitive(a: State, b: State, c: State)
    requires Grows(a, b) && Grows(b, c)
    ensures Grows(a, c)
  {
    FollowsTransitive(a, b, c, Added(a, b), Added(b, c));
    FollowsGrows(a, c, Added(a, b) + Added(b, c));
  }

  lemma {:induction false} QuietGrows(st: State, st': State, added: seq<Event>)
    requires st'.events == st.events + added && OrderEvents(added) == [] && st'.bookSeq == st.bookSeq
    requires NoRegistration(added)
    requires forall k :: At(st'.books, k) == At(st.books, k)
    ensures Grows(st, st')
  {
    QuietFollows(st, st', added);
    FollowsGrows(st, st', added);
  }

  lemma {:induction false} UnloggedGrows(st: State, st': State)
    requires st'.events == st.events && st'.bookSeq == st.bookSeq
    requires forall k :: At(st'.books, k) == At(st.books, k)
    ensures Grows(st, st')
  {
    assert st'.events == st.events + [];
    QuietGrows(st, st', []);
  }

  lemma {:induction false} LoggedGrows(st: State, st': State, ev: Event)
    requires st'.events == st.events + [ev] && !BookIndexer.IsOrderEvent(ev) && !Registration(ev)
    requires st'.bookSeq == st.bookSeq
    requires st'.books == st.books
    ensures Grows(st, st')
  {
    OneOrderEvent(ev);
    QuietGrows(st, st', [ev]);
  }

  lemma {:induction false} MintGrows(host: Host, st: State, note: Note)
    ensures Grows(st, Mint(host, st, note))
  {
    if note.amount == 0 {
      UnloggedGrows(st, Mint(host, st, note));
    } else {
      LoggedGrows(st, Mint(host, st, note), NoteInserted(note));
    }
  }

  // ----- Steps of submit_order ---------------------------------------------------------------------

  lemma {:induction false} AcceptKeeps(host: Host, st: State, t: Taking)
    requires Good(host, st, Idle) && TakingOk(st, t) && t.taker.nullifier !in st.nullifiers
    ensures Good(host, Accept(st, t), Busy(t.taker, t.taker.amountIn))
    ensures TakingOk(Accept(st, t), t) && Grows(st, Accept(st, t))
  {
    var st' := Accept(st, t);
    AcceptKeepsBooks(st, t);
    forall a
      ensures Balance(st', Busy(t.taker, t.taker.amountIn), a) == 0
    {
      AcceptBalance(st, t, a);
    }
    AcceptKeepsOrders(st, t);
    FlowKeepsFlows(st, st', Spent(t.taker.assetIn, t.taker.amountIn, t.taker.nullifier));
    UnloggedGrows(st, st');
  }

  lemma {:induction false} BeginKeeps(host: Host, st: State, t: Taking)
    requires Good(host, st, Busy(t.taker, t.taker.amountIn)) && TakingOk(st, t)
    ensures Good(host, Begin(st, t).st, Busy(t.taker, t.taker.amountIn))
    ensures TakingOk(Begin(st, t).st, t) && Grows(st, Begin(st, t).st)
  {
    var st', fl := Begin(st, t).st, Busy(t.taker, t.taker.amountIn);
    StoreSameKeepsBooks(st, t.pairId, t.Opp(), fl);
    StoreSameTotals(st, t.pairId, t.Opp());
    forall a
      ensures Balance(st', fl, a) == 0
    {
      assert Balance(st, fl, a) == 0;
    }
    forall id
      ensures OrderOk(st', fl, id)
    {
      assert OrderOk(st, fl, id);
    }
    forall i | 0 <= i < |st'.deals|
      ensures DealOk(st', st'.deals[i])
    {
      assert DealOk(st, st.deals[i]);
    }
    FlowsFrame(st, st');
    UnloggedGrows(st, st');
  }

  lemma {:induction false} StoreSameTotals(st: State, pairId: nat, side: nat)
    requires KeyOk(st, (pairId, side))
    ensures forall m :: Total(StoreBook(st, pairId, side, Book(st, pairId, side)), m) == Total(st, m)
  {
    forall m
      ensures Total(StoreBook(st, pairId, side, Book(st, pairId, side)), m) == Total(st, m)
    {
      StoreTotal(st, StoreBook(st, pairId, side, Book(st, pairId, side)), (pairId, side), Book(st, pairId, side), m);
    }
  }

  lemma {:induction false} ConsumeGrows(st: State, t: Taking, i: nat, give: nat)
    requires BooksOk(st) && KeyOk(st, (t.pairId, t.Opp()))
    requires i < |Opposing(t, st)| && give <= Opposing(t, st)[i].remainingIn
    ensures Grows(st, Consume(st, t, i, give))
  {
    var maker := Opposing(t, st)[i];
    if maker.remainingIn == give {
      RemoveFollows(st, t.pairId, t.Opp(), i, Filled);
      FollowsGrows(st, Consume(st, t, i, give), [OrderRemoved(st.bookSeq + 1, t.pairId, t.Opp(), maker.orderId,
        Filled.Code())]);
    } else {
      var e := maker.(remainingIn := maker.remainingIn - give);
      UpdateFollows(st, t.pairId, t.Opp(), i, e);
      FollowsGrows(st, Consume(st, t, i, give), [OrderUpserted(st.bookSeq + 1, t.pairId, t.Opp(), e)]);
    }
  }

  lemma {:induction false} ProceedsGrows(host: Host, st: State, t: Taking, maker: OrderEntry, f: Fill)
    ensures Grows(st, Proceeds(host, st, t, maker, f))
  {
    var note := Note(t.MakerAsset(), f.give, t.taker.outputTag);
    MintGrows(host, st, note);
    MintGrows(host, Mint(host, st, note), Note(t.TakerAsset(), f.pay, maker.outputTag));
    GrowsTransitive(st, Mint(host, st, note), Proceeds(host, st, t, maker, f));
  }

  lemma {:induction false} TradeGrows(host: Host, t: Taking, m: Match, k: nat)
    requires BooksOk(m.st) && TakingOk(m.st, t) && TradesAt(t, m, k)
    ensures Grows(m.st, DoTrade(host, t, m, k).st)
  {
    var maker, f := Opposing(t, m.st)[m.i], FillAt(t, m, k);
    DecidedTradeFits(t, maker, m.remaining);
    var st1 := Proceeds(host, m.st, t, maker, f);
    ProceedsFrame(host, m.st, t, maker, f);
    BooksFrame(m.st, st1);
    ProceedsGrows(host, m.st, t, maker, f);
    ConsumeGrows(st1, t, m.i, f.give);
    GrowsTransitive(m.st, st1, Consume(st1, t, m.i, f.give));
    UnloggedGrows(Consume(st1, t, m.i, f.give), DoTrade(host, t, m, k).st);
    GrowsTransitive(m.st, Consume(st1, t, m.i, f.give), DoTrade(host, t, m, k).st);
  }

  lemma {:induction false} ConsumeKeepsNotes(host: Host, st: State, t: Taking, i: nat, give: nat)
    requires NotesOk(host, st) && i < |Opposing(t, st)| && give <= Opposing(t, st)[i].remainingIn
    ensures NotesOk(host, Consume(st, t, i, give))
  {
    var st' := Consume(st, t, i, give);
    LogKeepsNotes(host, st, st'.events[|st.events|]);
  }

  lemma {:induction false} TradeKeepsNotes(host: Host, t: Taking, m: Match, k: nat)
    requires NotesOk(host, m.st) && TradesAt(t, m, k)
    ensures NotesOk(host, DoTrade(host, t, m, k).st)
  {
    var maker, f := Opposing(t, m.st)[m.i], FillAt(t, m, k);
    DecidedTradeFits(t, maker, m.remaining);
    var note := Note(t.MakerAsset(), f.give, t.taker.outputTag);
    MintKeepsNotes(host, m.st, note);
    MintKeepsNotes(host, Mint(host, m.st, note), Note(t.TakerAsset(), f.pay, maker.outputTag));
    ConsumeKeepsNotes(host, Proceeds(host, m.st, t, maker, f), t, m.i, f.give);
  }

  lemma {:induction false} TradeKeepsFlows(host: Host, t: Taking, m: Match, k: nat)
    requires FlowsOk(m.st) && TradesAt(t, m, k)
    ensures FlowsOk(DoTrade(host, t, m, k).st)
  {
    var maker, f := Opposing(t, m.st)[m.i], FillAt(t, m, k);
    DecidedTradeFits(t, maker, m.remaining);
    ProceedsFrame(host, m.st, t, maker, f);
    ConsumeFrame(Proceeds(host, m.st, t, maker, f), t, m.i, f.give);
    FlowsFrame(m.st, DoTrade(host, t, m, k).st);
  }

  lemma {:induction false} TradeKeepsTaking(host: Host, t: Taking, m: Match, k: nat)
    requires TakingOk(m.st, t) && TradesAt(t, m, k)
    ensures TakingOk(DoTrade(host, t, m, k).st, t) && DoTrade(host, t, m, k).st.accepted == m.st.accepted
  {
    var maker, f := Opposing(t, m.st)[m.i], FillAt(t, m, k);
    DecidedTradeFits(t, maker, m.remaining);
    ProceedsFrame(host, m.st, t, maker, f);
    ConsumeFrame(Proceeds(host, m.st, t, maker, f), t, m.i, f.give);
  }

  lemma {:induction false} TradeKeeps(host: Host, t: Taking, m: Match, k: nat)
    requires Good(host, m.st, Busy(t.taker, m.remaining)) && TakingOk(m.st, t) && TradesAt(t, m, k)
    ensures
      var m' := DoTrade(host, t, m, k);
      Good(host, m'.st, Busy(t.taker, m'.remaining)) && TakingOk(m'.st, t) && Grows(m.st, m'.st)
  {
    var m' := DoTrade(host, t, m, k);
    TradeKeepsBooks(host, t, m, k);
    forall a
      ensures Balance(m'.st, Busy(t.taker, m'.remaining), a) == 0
    {
      TradeBalance(host, t, m, k, a);
    }
    TradeKeepsOrders(host, t, m, k);
    TradeKeepsNotes(host, t, m, k);
    TradeKeepsFlows(host, t, m, k);
    TradeKeepsTaking(host, t, m, k);
    TradeGrows(host, t, m, k);
  }

  // A loop state reached from st with the invariant intact.
  ghost predicate MatchedSince(host: Host, t: Taking, st: State, m: Match) {
    && Good(host, m.st, Busy(t.taker, m.remaining)) && TakingOk(m.st, t) && Grows(st, m.st)
    && m.st.accepted == st.accepted
  }

  lemma {:induction false} TradeMatches(host: Host, t: Taking, st: State, m: Match, k: nat)
    requires MatchedSince(host, t, st, m) && TradesAt(t, m, k)
    ensures MatchedSince(host, t, st, DoTrade(host, t, m, k))
  {
    var m' := DoTrade(host, t, m, k);
    TradeKeeps(host, t, m, k);
    TradeKeepsTaking(host, t, m, k);
    GrowsTransitive(st, m.st, m'.st);
  }

  lemma {:induction false} MatchKeeps(host: Host, t: Taking, m: Match)
    requires Good(host, m.st, Busy(t.taker, m.remaining)) && TakingOk(m.st, t) && m.fills <= MAX_FILLS
    ensures MatchedSince(host, t, m.st, MatchRun(host, t, m))
  {
    UnloggedGrows(m.st, m.st);
    forall n, k | MatchedSince(host, t, m.st, n) && TradesAt(t, n, k)
      ensures MatchedSince(host, t, m.st, DoTrade(host, t, n, k))
    {
      TradeMatches(host, t, m.st, n, k);
    }
    MatchInduction(host, t, m, n => MatchedSince(host, t, m.st, n));
  }

  lemma {:induction false} LogFilledKeeps(host: Host, st: State, fl: Flight, ev: Event)
    requires Good(host, st, fl) && ev.TakerFilled?
    ensures Good(host, Log(st, ev), fl) && Grows(st, Log(st, ev))
  {
    BooksFrame(st, Log(st, ev));
    forall a
      ensures Balance(Log(st, ev), fl, a) == 0
    {
      LogBalance(st, ev, fl, a);
      assert Balance(st, fl, a) == 0;
    }
    OrdersFrame(st, Log(st, ev), fl);
    LogKeepsNotes(host, st, ev);
    FlowsFrame(st, Log(st, ev));
    LoggedGrows(st, Log(st, ev), ev);
  }

  lemma {:induction false} RestKeeps(host: Host, st: State, t: Taking, remaining: Pos)
    requires Good(host, st, Busy(t.taker, remaining)) && TakingOk(st, t)
    requires t.taker.partialAllowed && |Book(st, t.pairId, t.side.Code())| < BOOK_CAPACITY
    requires AcceptedHere(st, t)
    ensures
      var st' := Rest(st, t.pairId, t.side.Code(), EntryOf(t.taker, remaining));
      Good(host, st', Idle) && Grows(st, st')
  {
    var side, e := t.side.Code(), EntryOf(t.taker, remaining);
    var st' := Rest(st, t.pairId, side, e);
    assert EntryOk(st, (t.pairId, side), e);
    RestKeepsBooks(st, t.pairId, side, e);
    forall a
      ensures Balance(st', Idle, a) == 0
    {
      RestBalance(st, t.pairId, side, e, Idle, a);
      assert Balance(st, Busy(t.taker, remaining), a) == 0;
    }
    RestKeepsOrders(st, t.pairId, side, t.taker, e);
    LogKeepsNotes(host, st, OrderUpserted(st.bookSeq + 1, t.pairId, side, e));
    FlowsFrame(st, st');
    RestFollows(st, t.pairId, side, e);
    FollowsGrows(st, st', [OrderUpserted(st.bookSeq + 1, t.pairId, side, e)]);
  }

  lemma {:induction false} RefundGrows(host: Host, st: State, id: Word, note: Note)
    ensures Grows(st, RefundNote(host, st, id, note))
  {
    MintGrows(host, st, note);
    UnloggedGrows(Mint(host, st, note), RefundNote(host, st, id, note));
    GrowsTransitive(st, Mint(host, st, note), RefundNote(host, st, id, note));
  }

  lemma {:induction false} RefundKeeps(host: Host, st: State, t: Taking, remaining: nat)
    requires Good(host, st, Busy(t.taker, remaining)) && TakingOk(st, t)
    requires AcceptedHere(st, t) && t.taker.partialAllowed
    ensures
      var st' := RefundNote(host, st, t.taker.nullifier, Note(t.taker.assetIn, remaining, t.taker.outputTag));
      Good(host, st', Idle) && Grows(st, st')
  {
    var note := Note(t.taker.assetIn, remaining, t.taker.outputTag);
    var st' := RefundNote(host, st, t.taker.nullifier, note);
    RefundFrame(host, st, t.taker.nullifier, note);
    BooksFrame(st, st');
    forall a
      ensures Balance(st', Idle, a) == 0
    {
      RefundBalance(host, st, t.taker.nullifier, note, Idle, a);
      assert Balance(st, Busy(t.taker, remaining), a) == 0;
    }
    RefundKeepsOrders(host, st, t.taker, note);
    MintKeepsNotes(host, st, note);
    FlowsFrame(st, st');
    RefundGrows(host, st, t.taker.nullifier, note);
  }

  // Nothing in flight remains once the taker's lock is empty.
  lemma {:induction false} EmptyFlight(host: Host, st: State, order: Order)
    requires Good(host, st, Busy(order, 0))
    ensures Good(host, st, Idle)
  {
    forall a
      ensures Balance(st, Idle, a) == 0
    {
      assert Balance(st, Busy(order, 0), a) == 0;
    }
    forall id
      ensures OrderOk(st, Idle, id)
    {
      assert OrderOk(st, Busy(order, 0), id);
    }
  }

  ghost predicate AcceptedHere(st: State, t: Taking) {
    && t.taker.nullifier in st.accepted
    && st.accepted[t.taker.nullifier].pairId == t.pairId
    && st.accepted[t.taker.nullifier].side == t.side.Code()
    && st.accepted[t.taker.nullifier].partialAllowed == t.taker.partialAllowed
  }

  lemma {:induction false} AnnounceKeeps(host: Host, t: Taking, m: Match)
    requires Good(host, m.st, Busy(t.taker, m.remaining)) && m.remaining <= t.taker.amountIn
    ensures Good(host, Announce(t, m), Busy(t.taker, m.remaining)) && Grows(m.st, Announce(t, m))
    ensures Announce(t, m).pairs == m.st.pairs && Announce(t, m).accepted == m.st.accepted
  {
    var spent := t.taker.amountIn - m.remaining;
    if spent == 0 {
      assert Announce(t, m) == m.st;
      UnloggedGrows(m.st, m.st);
    } else {
      var ev := TakerFilled(t.taker.assetIn, spent, t.taker.assetOut, m.filledOut, t.taker.outputTag);
      assert Announce(t, m) == Log(m.st, ev);
      LogFilledKeeps(host, m.st, Busy(t.taker, m.remaining), ev);
    }
  }

  lemma {:induction false} RestOrRefundKeeps(host: Host, t: Taking, st: State, remaining: nat, st': State)
    requires Good(host, st, Busy(t.taker, remaining)) && TakingOk(st, t) && AcceptedHere(st, t)
    requires RestOrRefund(host, t, st, remaining) == Ok(st')
    ensures Good(host, st', Idle) && Grows(st, st')
  {
    if remaining == 0 {
      assert st' == st;
      EmptyFlight(host, st, t.taker);
      UnloggedGrows(st, st);
    } else if remaining >= OwnLot(t.taker.amountIn, t.taker.minOut)
      && |Book(st, t.pairId, t.side.Code())| < BOOK_CAPACITY {
      assert st' == Rest(st, t.pairId, t.side.Code(), EntryOf(t.taker, remaining));
      RestKeeps(host, st, t, remaining);
    } else {
      assert st' == RefundNote(host, st, t.taker.nullifier, Note(t.taker.assetIn, remaining, t.taker.outputTag));
      RefundKeeps(host, st, t, remaining);
    }
  }

  lemma {:induction false} FinishKeeps(host: Host, t: Taking, m: Match)
    requires Good(host, m.st, Busy(t.taker, m.remaining)) && TakingOk(m.st, t) && AcceptedHere(m.st, t)
    requires m.remaining <= t.taker.amountIn
    ensures var r := Finish(host, t, m); r.Ok? ==> Good(host, r.value, Idle) && Grows(m.st, r.value)
  {
    var r := Finish(host, t, m);
    AnnounceKeeps(host, t, m);
    if r.Ok? {
      RestOrRefundKeeps(host, t, Announce(t, m), m.remaining, r.value);
      GrowsTransitive(m.st, Announce(t, m), r.value);
    }
  }

  lemma {:induction false} SubmitTakerKeeps(host: Host, st: State, t: Taking)
    requires Good(host, st, Idle) && TakingOk(st, t) && t.taker.nullifier !in st.nullifiers
    ensures var r := SubmitTaker(host, Accept(st, t), t); r.Ok? ==> Good(host, r.value, Idle) && Grows(st, r.value)
  {
    var st1 := Accept(st, t);
    var m0 := Begin(st1, t);
    AcceptKeeps(host, st, t);
    BeginKeeps(host, st1, t);
    MatchKeeps(host, t, m0);
    var m := MatchTaker(host, t, st1);
    FinishKeeps(host, t, m);
    GrowsTransitive(st, st1, m0.st);
    GrowsTransitive(st, m0.st, m.st);
    if SubmitTaker(host, st1, t).Ok? {
      GrowsTransitive(st, m.st, SubmitTaker(host, st1, t).value);
    }
  }

  lemma {:induction false} SubmitOrderKeeps(host: Host, st: State, now: nat, x: Signed)
    requires Good(host, st, Idle)
    ensures var r := SubmitOrder(host, st, now, x); r.Ok? ==> Good(host, r.value, Idle) && Grows(st, r.value)
  {
    var r := SubmitOrder(host, st, now, x);
    if r.Ok? {
      var ws := VerifyProof(host, LIFT_OP, x.proof, x.pi, LIFT_WORDS).value;
      var taker := ParseOrder(st.tree.roots, ws).value;
      var (pairId, side) := PairAndSide(st, taker.assetIn, taker.assetOut).value;
      SubmitTakerKeeps(host, st, Taking(now, pairId, st.pairs[pairId], side, taker));
    }
  }

  // ----- The other entrypoints -----------------------------------------------------------------

  lemma {:induction false} CloseKeeps(host: Host, st: State, pairId: nat, side: nat, i: nat, note: Note,
      reason: RemoveReason)
    requires Good(host, st, Idle) && KeyOk(st, (pairId, side)) && i < |Book(st, pairId, side)|
    requires note.asset == st.pairs[pairId].AssetIn(side) && note.amount == Book(st, pairId, side)[i].remainingIn
    ensures
      var st' := Close(host, st, pairId, side, i, note, reason);
      Good(host, st', Idle) && Grows(st, st') && st'.pairs == st.pairs
  {
    var id := Book(st, pairId, side)[i].orderId;
    var mid, st' := RefundNote(host, st, id, note), Close(host, st, pairId, side, i, note, reason);
    RefundFrame(host, st, id, note);
    BooksFrame(st, mid);
    RemoveKeepsBooks(mid, pairId, side, i, reason, Idle);
    forall a
      ensures Balance(st', Idle, a) == 0
    {
      CloseBalance(host, st, pairId, side, i, note, reason, a);
      assert Balance(st, Idle, a) == 0;
    }
    CloseKeepsOrders(host, st, pairId, side, i, note, reason);
    MintKeepsNotes(host, st, note);
    LogKeepsNotes(host, mid, OrderRemoved(mid.bookSeq + 1, pairId, side, id, reason.Code()));
    FlowsFrame(st, st');
    RefundGrows(host, st, id, note);
    RemoveFollows(mid, pairId, side, i, reason);
    FollowsGrows(mid, st', [OrderRemoved(mid.bookSeq + 1, pairId, side, id, reason.Code())]);
    GrowsTransitive(st, mid, st');
  }

  lemma {:induction false} CancelOrderKeeps(host: Host, st: State, pairId: nat, side: nat, x: Signed)
    requires Good(host, st, Idle)
    ensures var r := CancelOrder(host, st, pairId, side, x); r.Ok? ==> Good(host, r.value, Idle) && Grows(st, r.value)
  {
    var r := CancelOrder(host, st, pairId, side, x);
    if r.Ok? {
      var ws := VerifyProof(host, CANCEL_OP, x.proof, x.pi, CANCEL_WORDS).value;
      var book := Book(st, pairId, side);
      var i := FindCancel(book, ws[1], ws[2], 0);
      CloseKeeps(host, st, pairId, side, i, Note(st.pairs[pairId].AssetIn(side), book[i].remainingIn, ws[3]),
        Cancelled);
    }
  }

  lemma {:induction false} ExpireKeeps(host: Host, st: State, pairId: nat, side: nat, assetIn: nat, i: nat)
    requires Good(host, st, Idle) && KeyOk(st, (pairId, side)) && assetIn == st.pairs[pairId].AssetIn(side)
    requires i < |Book(st, pairId, side)|
    ensures
      var st' := Expire(host, st, pairId, side, assetIn, i);
      Good(host, st', Idle) && Grows(st, st') && st'.pairs == st.pairs
  {
    var e := Book(st, pairId, side)[i];
    CloseKeeps(host, st, pairId, side, i, Note(assetIn, e.remainingIn, e.outputTag), Expired);
  }

  // Whatever survives every single expiry survives the pruning loop.
  lemma {:induction false} PruneRunInduction(host: Host, st: State, now: nat, pairId: nat, side: nat,
      assetIn: nat, i: nat, left: nat, inv: State -> bool)
    requires inv(st)
    requires forall s, j ::
      0 <= j < |Book(s, pairId, side)| && inv(s) ==> inv(Expire(host, s, pairId, side, assetIn, j))
    ensures inv(PruneRun(host, st, now, pairId, side, assetIn, i, left))
    decreases left, |Book(st, pairId, side)| - i
  {
    if |Book(st, pairId, side)| <= i || left == 0 {
    } else if Book(st, pairId, side)[i].expiry < now {
      PruneRunInduction(host, Expire(host, st, pairId, side, assetIn, i), now, pairId, side, assetIn, i, left - 1, inv);
    } else {
      PruneRunInduction(host, st, now, pairId, side, assetIn, i + 1, left, inv);
    }
  }

  ghost predicate GoodSince(host: Host, st: State, s: State) {
    Good(host, s, Idle) && Grows(st, s) && s.pairs == st.pairs
  }

  lemma {:induction false} PruneRunKeeps(host: Host, st: State, now: nat, pairId: nat, side: nat, assetIn: nat,
      max: nat)
    requires Good(host, st, Idle) && KeyOk(st, (pairId, side)) && assetIn == st.pairs[pairId].AssetIn(side)
    ensures GoodSince(host, st, PruneRun(host, st, now, pairId, side, assetIn, 0, max))
  {
    UnloggedGrows(st, st);
    forall s, j | 0 <= j < |Book(s, pairId, side)| && GoodSince(host, st, s)
      ensures GoodSince(host, st, Expire(host, s, pairId, side, assetIn, j))
    {
      ExpireKeeps(host, s, pairId, side, assetIn, j);
      GrowsTransitive(st, s, Expire(host, s, pairId, side, assetIn, j));
    }
    PruneRunInduction(host, st, now, pairId, side, assetIn, 0, max, s => GoodSince(host, st, s));
  }

  lemma {:induction false} ReceiveKeeps(host: Host, st: State, st0: State, flow: Flow, note: Note)
    requires Good(host, st, Idle) && RouteOk(st0, flow)
    requires st0 == st.(deposits := st0.deposits, tokens := st0.tokens)
    requires st.deposits <= st0.deposits && (flow.Bridged? ==> flow.deposit !in st.deposits)
    requires forall token :: TokenBalance(st0, token) == TokenBalance(st, token) + TokenFlow(st.assets, flow, token)
    requires KindOf(flow) == InByShield || KindOf(flow) == InByBridge
    requires note.asset == flow.asset && note.amount == flow.amount
    ensures Good(host, Receive(host, st0, flow, note), Idle) && Grows(st, Receive(host, st0, flow, note))
  {
    var st' := Receive(host, st0, flow, note);
    BooksFrame(st, st');
    forall a
      ensures Balance(st', Idle, a) == 0
    {
      assert Balance(st, Idle, a) == 0;
      assert Balance(st0, Idle, a) == Balance(st, Idle, a);
      ReceiveBalance(host, st0, flow, note, a);
    }
    OrdersFrame(st, st', Idle);
    AnnounceKeepsNotes(host, st0.(flows := st0.flows + [flow]), note, Shielded(note));
    FlowKeepsFlows(st, st', flow);
    LoggedGrows(st, st', Shielded(note));
  }

  lemma {:induction false} ShieldKeeps(host: Host, st: State, authorized: bool, transferOk: bool, asset: nat,
      amount: int, tag: Word)
    requires Good(host, st, Idle)
    ensures var r := Shield(host, st, authorized, transferOk, asset, amount, tag);
      r.Ok? ==> Good(host, r.value, Idle) && Grows(st, r.value)
  {
    if Shield(host, st, authorized, transferOk, asset, amount, tag).Ok? {
      ReceiveKeeps(host, st, TakeIn(st, st.assets[asset].token.value, amount), Deposited(asset, amount),
        Note(asset, amount, tag));
    }
  }

  lemma {:induction false} ShieldFromBaseKeeps(host: Host, st: State, seal: seq<Byte>, journal: seq<Byte>)
    requires Good(host, st, Idle)
    ensures var r := ShieldFromBase(host, st, seal, journal); r.Ok? ==> Good(host, r.value, Idle) && Grows(st, r.value)
  {
    if ShieldFromBase(host, st, seal, journal).Ok? {
      var ws := Words(journal, JOURNAL_WORDS);
      ReceiveKeeps(host, st, st.(deposits := st.deposits + {ws[4]}), Bridged(ws[5], ws[6], ws[4]),
        Note(ws[5], ws[6], ws[7]));
    }
  }

  lemma {:induction false} SpendKeepsFlows(st: State, nullifier: Word, asset: nat, amount: nat)
    requires FlowsOk(st) && nullifier !in st.nullifiers
    ensures FlowsOk(Spend(st, nullifier, asset, amount))
  {
    FlowKeepsFlows(st, Spend(st, nullifier, asset, amount), Spent(asset, amount, nullifier));
  }

  lemma {:induction false} ExchangeKeeps(host: Host, st: State, a: Order, b: Order)
    requires Good(host, st, Idle) && a.assetIn == b.assetOut && a.assetOut == b.assetIn
    ensures var r := ExchangeFresh(host, st, a, b); r.Ok? ==> Good(host, r.value, Idle) && Grows(st, r.value)
  {
    if ExchangeFresh(host, st, a, b).Ok? {
      var st' := Exchange(host, st, a, b);
      BooksFrame(st, st');
      forall asset
        ensures Balance(st', Idle, asset) == 0
      {
        assert Balance(st, Idle, asset) == 0;
        ExchangeBalance(host, st, a, b, asset);
      }
      OrdersFrame(st, st', Idle);
      ExchangeKeepsNotes(host, st, a, b);
      var st1 := Spend(st, a.nullifier, a.assetIn, a.amountIn);
      SpendKeepsFlows(st, a.nullifier, a.assetIn, a.amountIn);
      SpendKeepsFlows(st1, b.nullifier, b.assetIn, b.amountIn);
      FlowsFrame(Spend(st1, b.nullifier, b.assetIn, b.amountIn), st');
      LoggedGrows(st, st', Settled(Note(a.assetOut, b.amountIn, a.outputTag), Note(b.assetOut, a.amountIn,
        b.outputTag)));
    }
  }

  lemma {:induction false} SettleKeeps(host: Host, st: State, x: Signed, y: Signed)
    requires Good(host, st, Idle)
    ensures var r := Settle(host, st, x, y); r.Ok? ==> Good(host, r.value, Idle) && Grows(st, r.value)
  {
    var r := TwoOrders(host, st, x, y);
    if r.Ok? && r.value.0.assetIn == r.value.1.assetOut && r.value.0.assetOut == r.value.1.assetIn {
      ExchangeKeeps(host, st, r.value.0, r.value.1);
    }
  }

  // Opposite sides of one pair offer what the other side wants.
  lemma {:induction false} OppositeSidesCross(st: State, a: Order, b: Order)
    requires PairAndSide(st, a.assetIn, a.assetOut).Ok? && PairAndSide(st, b.assetIn, b.assetOut).Ok?
    requires
      var (pa, sa) := PairAndSide(st, a.assetIn, a.assetOut).value;
      var (pb, sb) := PairAndSide(st, b.assetIn, b.assetOut).value;
      pa == pb && sa != sb
    ensures a.assetIn == b.assetOut && a.assetOut == b.assetIn
  {
  }

  lemma {:induction false} SettleExactKeeps(host: Host, st: State, x: Signed, y: Signed)
    requires Good(host, st, Idle)
    ensures var r := SettleExact(host, st, x, y); r.Ok? ==> Good(host, r.value, Idle) && Grows(st, r.value)
  {
    if SettleExact(host, st, x, y).Ok? {
      var (a, b) := TwoOrders(host, st, x, y).value;
      OppositeSidesCross(st, a, b);
      ExchangeKeeps(host, st, a, b);
    }
  }

  lemma {:induction false} WithdrawKeeps(host: Host, st: State, token: Word, asset: nat, amount: nat, nullifier: Word)
    requires Good(host, st, Idle) && nullifier !in st.nullifiers && amount <= TokenBalance(st, token)
    requires HasToken(st.assets, asset, token) && !st.assets[asset].kind.BaseRepresented?
    ensures
      var st' := Withdraw(st, true, token, asset, amount, nullifier).value;
      Good(host, st', Idle) && Grows(st, st')
  {
    var st1 := Spend(st, nullifier, asset, amount);
    var st2, st' := HandOut(st1, token, amount), Withdraw(st, true, token, asset, amount, nullifier).value;
    BooksFrame(st, st');
    forall a
      ensures Balance(st', Idle, a) == 0
    {
      assert Balance(st, Idle, a) == 0;
      PayOutBalance(st, token, asset, amount, nullifier, a);
    }
    OrdersFrame(st, st', Idle);
    LogKeepsNotes(host, st2, Unshielded(asset, amount, nullifier));
    SpendKeepsFlows(st, nullifier, asset, amount);
    FlowKeepsFlows(st1, st', PaidOut(asset, amount));
    LoggedGrows(st, st', Unshielded(asset, amount, nullifier));
  }

  lemma {:induction false} UnshieldKeeps(host: Host, st: State, recipient: Word, transferOk: bool, x: Signed)
    requires Good(host, st, Idle)
    ensures
      var r := Unshield(host, st, recipient, transferOk, x);
      r.Ok? ==> Good(host, r.value, Idle) && Grows(st, r.value)
  {
    if Unshield(host, st, recipient, transferOk, x).Ok? {
      var ws := VerifyProof(host, UNSHIELD_OP, x.proof, x.pi, UNSHIELD_WORDS).value;
      WithdrawKeeps(host, st, st.assets[ws[3]].token.value, ws[3], ws[4], ws[2]);
    }
  }

  lemma {:induction false} MergeKeeps(host: Host, st: State, asset: nat, ws: seq<Word>, ins: (nat, nat), out1: Note,
      out2: Note)
    requires Good(host, st, Idle) && |ws| == JOIN_WORDS
    requires out1.asset == out2.asset == asset && ins.0 + ins.1 == out1.amount + out2.amount
    requires ws[2] != ws[3] && ws[2] !in st.nullifiers && ws[3] !in st.nullifiers
    ensures
      var st' := Merge(host, st, asset, ws, ins, out1, out2);
      Good(host, st', Idle) && Grows(st, st')
  {
    var st1 := Spend(st, ws[2], asset, ins.0);
    var st2 := Spend(st1, ws[3], asset, ins.1);
    var st3 := Mint(host, st2, out1);
    var st4 := Mint(host, st3, out2);
    var st' := Merge(host, st, asset, ws, ins, out1, out2);
    MintFrame(host, st2, out1);
    MintFrame(host, st3, out2);
    BooksFrame(st, st');
    forall a
      ensures Balance(st', Idle, a) == 0
    {
      assert Balance(st, Idle, a) == 0;
      MergeBalance(host, st, asset, ws, ins, out1, out2, a);
    }
    OrdersFrame(st, st', Idle);
    MintKeepsNotes(host, st2, out1);
    MintKeepsNotes(host, st3, out2);
    LogKeepsNotes(host, st4, Joined(asset, ws[2], ws[3]));
    SpendKeepsFlows(st, ws[2], asset, ins.0);
    SpendKeepsFlows(st1, ws[3], asset, ins.1);
    FlowsFrame(st2, st');
    UnloggedGrows(st, st2);
    MintGrows(host, st2, out1);
    MintGrows(host, st3, out2);
    LoggedGrows(st4, st', Joined(asset, ws[2], ws[3]));
    GrowsTransitive(st, st2, st3);
    GrowsTransitive(st, st3, st4);
    GrowsTransitive(st, st4, st');
  }

  // A successful join merges two fresh nullifiers' notes into the two bound outputs.
  lemma {:induction false} JoinMerges(host: Host, st: State, x: Signed) returns (ws: seq<Word>)
    requires Join(host, st, x).Ok? && JoinSound(host)
    ensures |ws| == JOIN_WORDS
    ensures ws[2] != ws[3] && ws[2] !in st.nullifiers && ws[3] !in st.nullifiers
    ensures host.joinInputs(ws).0 + host.joinInputs(ws).1 == ws[6] + ws[8]
    ensures Join(host, st, x).value
         == Merge(host, st, ws[4], ws, host.joinInputs(ws), Note(ws[4], ws[6], ws[5]), Note(ws[4], ws[8], ws[7]))
  {
    ws := VerifyProof(host, JOIN_OP, x.proof, x.pi, JOIN_WORDS).value;
  }

  lemma {:induction false} JoinKeeps(host: Host, st: State, x: Signed)
    requires Good(host, st, Idle) && JoinSound(host) && Join(host, st, x).Ok?
    ensures Good(host, Join(host, st, x).value, Idle) && Grows(st, Join(host, st, x).value)
  {
    var ws := JoinMerges(host, st, x);
    MergeKeeps(host, st, ws[4], ws, host.joinInputs(ws), Note(ws[4], ws[6], ws[5]), Note(ws[4], ws[8], ws[7]));
  }

  // Configuration leaves everything the invariant speaks of alone.
  lemma {:induction false} ConfigKeeps(host: Host, st: State, st': State)
    requires Good(host, st, Idle) && st' == st.(bridge := st'.bridge, blocks := st'.blocks)
    ensures Good(host, st', Idle) && Grows(st, st')
  {
    BooksFrame(st, st');
    forall a
      ensures Balance(st', Idle, a) == 0
    {
      assert Balance(st, Idle, a) == 0;
    }
    OrdersFrame(st, st', Idle);
    FlowsFrame(st, st');
    UnloggedGrows(st, st');
  }

  // ----- Every call, every run -----------------------------------------------------------------

  lemma {:induction false} AttemptKeeps(host: Host, st: State, call: Call)
    requires Good(host, st, Idle) && JoinSound(host)
    ensures var r := Attempt(host, st, call); r.Ok? ==> Good(host, r.value, Idle) && Grows(st, r.value)
  {
    match call
    case CallShield(authorized, transferOk, asset, amount, tag) =>
      ShieldKeeps(host, st, authorized, transferOk, asset, amount, tag);
    case CallConfigureBridge(adminOk, config) => ConfigKeeps(host, st, st.(bridge := Some(config)));
    case CallAttestBlock(adminOk, block, hash) => ConfigKeeps(host, st, st.(blocks := st.blocks[block := hash]));
    case CallShieldFromBase(seal, journal) => ShieldFromBaseKeeps(host, st, seal, journal);
    case CallSettle(a, b) => SettleKeeps(host, st, a, b);
    case CallSettleExact(a, b) => SettleExactKeeps(host, st, a, b);
    case CallUnshield(recipient, transferOk, x) => UnshieldKeeps(host, st, recipient, transferOk, x);
    case CallJoin(x) =>
      if Join(host, st, x).Ok? {
        JoinKeeps(host, st, x);
      }
    case CallSubmitOrder(now, x) => SubmitOrderKeeps(host, st, now, x);
    case CallCancelOrder(pairId, side, x) => CancelOrderKeeps(host, st, pairId, side, x);
    case CallPruneExpired(now, pairId, side, max) =>
      if SideAssetIn(st, pairId, side).Ok? {
        PruneRunKeeps(host, st, now, pairId, side, st.pairs[pairId].AssetIn(side), max);
      }
  }

  // Every call, accepted or reverted, keeps the invariant and extends the log by events that replay.
  lemma {:induction false} ExecuteKeeps(host: Host, st: State, call: Call)
    requires Good(host, st, Idle) && JoinSound(host)
    ensures Good(host, Execute(host, st, call), Idle) && Grows(st, Execute(host, st, call))
  {
    AttemptKeeps(host, st, call);
    UnloggedGrows(st, st);
  }

  lemma {:induction false} RunKeeps(host: Host, st: State, calls: seq<Call>)
    requires Good(host, st, Idle) && JoinSound(host)
    ensures Good(host, Run(host, st, calls), Idle) && Grows(st, Run(host, st, calls))
  {
    if calls == [] {
      UnloggedGrows(st, st);
    } else {
      var front := Run(host, st, calls[..|calls| - 1]);
      RunKeeps(host, st, calls[..|calls| - 1]);
      ExecuteKeeps(host, front, calls[|calls| - 1]);
      GrowsTransitive(st, front, Run(host, st, calls));
    }
  }
}
