// The settlement contract as a transition function over its stored state. Each entrypoint either
// fails, leaving no trace, or returns the whole next state.
module Ledger {
  import opened Wrappers
  import opened Lots
  import opened Types
  import opened Codec
  import NT = NoteTree

  // The world outside the contract: the field hash, the two proof verifiers, and the input amounts
  // a join proof was made for (private to its circuit).
  datatype Host = Host(
    compress: NT.Hash,
    proofBytes: nat,
    verify: (nat, seq<Byte>, seq<Byte>) -> bool,
    joinInputs: seq<Word> -> (nat, nat),
    receiptOk: (BridgeConfig, seq<Byte>, seq<Byte>) -> bool,
    address: Word)

  // What the join circuit guarantees of a proof that verifies: value is conserved.
  ghost predicate JoinSound(host: Host) {
    forall proof, pi :: |pi| == 32 * JOIN_WORDS && host.verify(JOIN_OP, proof, pi) ==>
      var ws := Words(pi, JOIN_WORDS);
      var ins := host.joinInputs(ws);
      ins.0 + ins.1 == ws[6] + ws[8]
  }

  const LIFT_OP := 1
  const UNSHIELD_OP := 2
  const CANCEL_OP := 3
  const JOIN_OP := 4
  const BOOK_CAPACITY := 64
  const MAX_FILLS := 4
  const SCHEMA_VERSION := 1
  const JOURNAL_WORDS := 8

  // Value entering and leaving the note pool, in order of occurrence.
  datatype Flow =
    | Deposited(asset: nat, amount: nat)
    | Bridged(asset: nat, amount: nat, deposit: nat)
    | PaidOut(asset: nat, amount: nat)
    | Spent(asset: nat, amount: nat, nullifier: Word)

  // What has happened to submitted orders, in order of occurrence.
  datatype Deal =
    | Trade(maker: Word, taker: Word, makerGave: nat, takerGave: nat)
    | Refund(order: Word, amount: nat)

  // An order as it was accepted: its limit terms, where it belongs, and whether it may rest.
  datatype Accepted = Accepted(limit: Limit, pairId: nat, side: nat, partialAllowed: bool)

  // Stored state, and what each token contract holds in the contract's name. The last three fields
  // are history nobody stores: they record what the contract did so that whole-run properties can be
  // stated.
  datatype State = State(
    assets: map<nat, AssetDef>,
    pairs: seq<PairDef>,
    nullifiers: set<Word>,
    books: map<(nat, nat), seq<OrderEntry>>,
    bookSeq: nat,
    tree: NT.Tree,
    events: seq<Event>,
    bridge: Option<BridgeConfig>,
    blocks: map<nat, Word>,
    deposits: set<nat>,
    tokens: map<Word, nat>,
    flows: seq<Flow>,
    deals: seq<Deal>,
    accepted: map<Word, Accepted>)

  function Book(st: State, pairId: nat, side: nat): seq<OrderEntry> {
    if (pairId, side) in st.books then st.books[(pairId, side)] else []
  }

  // ----- Single effects ------------------------------------------------------------------------

  function NoteLeaf(host: Host, note: Note): Word {
    host.compress(host.compress(note.asset, note.amount), note.tag)
  }

  function Log(st: State, ev: Event): State {
    st.(events := st.events + [ev])
  }

  function InsertNote(host: Host, st: State, note: Note): State {
    st.(tree := NT.Insert(host.compress, st.tree, NoteLeaf(host, note)))
  }

  // Mint an asset note and announce it; nothing happens for a zero amount.
  function Mint(host: Host, st: State, note: Note): State {
    if note.amount == 0 then st else Log(InsertNote(host, st, note), NoteInserted(note))
  }

  // Spend a note: record its nullifier and the value it carried.
  function Spend(st: State, nullifier: Word, asset: nat, amount: nat): State {
    st.(nullifiers := st.nullifiers + {nullifier}, flows := st.flows + [Spent(asset, amount, nullifier)])
  }

  function StoreBook(st: State, pairId: nat, side: nat, book: seq<OrderEntry>): State {
    st.(books := st.books[(pairId, side) := book])
  }

  function WithoutAt(book: seq<OrderEntry>, i: nat): seq<OrderEntry>
    requires i < |book|
  {
    book[..i] + book[i + 1..]
  }

  function RemoveAt(st: State, pairId: nat, side: nat, i: nat, reason: RemoveReason): State
    requires i < |Book(st, pairId, side)|
  {
    var book := Book(st, pairId, side);
    StoreBook(Log(st, OrderRemoved(st.bookSeq + 1, pairId, side, book[i].orderId, reason.Code())),
      pairId, side, WithoutAt(book, i)).(bookSeq := st.bookSeq + 1)
  }

  function UpdateAt(st: State, pairId: nat, side: nat, i: nat, entry: OrderEntry): State
    requires i < |Book(st, pairId, side)|
  {
    StoreBook(Log(st, OrderUpserted(st.bookSeq + 1, pairId, side, entry)),
      pairId, side, Book(st, pairId, side)[i := entry]).(bookSeq := st.bookSeq + 1)
  }

  // First position from j whose entry the new one is strictly ahead of.
  function SlotFrom(book: seq<OrderEntry>, entry: OrderEntry, side: nat, j: nat): (pos: nat)
    requires j <= |book|
    ensures j <= pos <= |book|
    decreases |book| - j
  {
    if j == |book| || Better(entry.Terms(), book[j].Terms(), side) then j
    else SlotFrom(book, entry, side, j + 1)
  }

  function WithEntry(book: seq<OrderEntry>, entry: OrderEntry, side: nat): seq<OrderEntry> {
    var pos := SlotFrom(book, entry, side, 0);
    book[..pos] + [entry] + book[pos..]
  }

  function Rest(st: State, pairId: nat, side: nat, entry: OrderEntry): State {
    StoreBook(Log(st, OrderUpserted(st.bookSeq + 1, pairId, side, entry)),
      pairId, side, WithEntry(Book(st, pairId, side), entry, side)).(bookSeq := st.bookSeq + 1)
  }

  // Return an order's unfilled value to its owner as a note.
  function RefundNote(host: Host, st: State, orderId: Word, note: Note): State {
    Mint(host, st, note).(deals := st.deals + [Refund(orderId, note.amount)])
  }

  // ----- Matching ------------------------------------------------------------------------------

  // A verified taker on its pair.
  datatype Taking = Taking(now: nat, pairId: nat, pair: PairDef, side: Side, taker: Order)
  {
    function Opp(): nat {
      side.Opposite().Code()
    }
    // The maker's locked asset, which the taker receives.
    function MakerAsset(): nat {
      pair.AssetIn(Opp())
    }
    // The taker's locked asset, which the maker receives.
    function TakerAsset(): nat {
      pair.AssetIn(side.Code())
    }
  }

  datatype Match = Match(st: State, i: nat, fills: nat, remaining: nat, filledOut: nat)

  datatype Decision = Stop | Skip | Trade(k: nat)

  // What the loop does at one maker.
  function Decide(t: Taking, maker: OrderEntry, remaining: nat): Decision {
    if maker.expiry < t.now then Skip
    else if !CrossAmounts(maker.amountIn, maker.minOut, t.taker.amountIn, t.taker.minOut) then Stop
    else
      var kMaker := maker.remainingIn / OwnLot(maker.amountIn, maker.minOut);
      var kTaker := remaining / PriceLot(maker.amountIn, maker.minOut);
      if kTaker == 0 then Stop
      else if kMaker == 0 then Skip
      else if !maker.partialAllowed && kTaker < kMaker then Skip
      else Decision.Trade(Min(kMaker, kTaker))
  }

  // A decided trade is positive and within both balances.
  lemma {:induction false} DecidedTradeFits(t: Taking, maker: OrderEntry, remaining: nat)
    requires Decide(t, maker, remaining).Trade?
    ensures
      var f := FillOf(maker.amountIn, maker.minOut, Decide(t, maker, remaining).k);
      0 < f.give <= maker.remainingIn && 0 < f.pay <= remaining
  {
    var k := Decide(t, maker, remaining).k;
    var own, price := OwnLot(maker.amountIn, maker.minOut), PriceLot(maker.amountIn, maker.minOut);
    LotsWithin(k, own, maker.remainingIn);
    LotsWithin(k, price, remaining);
    FactorSize(own, k);
    FactorSize(price, k);
  }

  function Opposing(t: Taking, st: State): seq<OrderEntry> {
    Book(st, t.pairId, t.Opp())
  }

  function Filling(t: Taking, m: Match): bool {
    m.i < |Opposing(t, m.st)| && m.fills < MAX_FILLS && m.remaining > 0
  }

  // The two proceeds notes of a fill, taker's first.
  function Proceeds(host: Host, st: State, t: Taking, maker: OrderEntry, f: Fill): State {
    Mint(host, Mint(host, st, Note(t.MakerAsset(), f.give, t.taker.outputTag)),
      Note(t.TakerAsset(), f.pay, maker.outputTag))
  }

  function Consume(st: State, t: Taking, i: nat, give: nat): (s: State)
    requires i < |Opposing(t, st)| && give <= Opposing(t, st)[i].remainingIn
    ensures s == st.(books := s.books, bookSeq := s.bookSeq, events := s.events)
  {
    var maker := Opposing(t, st)[i];
    if maker.remainingIn == give then
      RemoveAt(st, t.pairId, t.Opp(), i, Filled)
    else
      UpdateAt(st, t.pairId, t.Opp(), i, maker.(remainingIn := maker.remainingIn - give))
  }

  function DoTrade(host: Host, t: Taking, m: Match, k: nat): Match
    requires Filling(t, m) && Decide(t, Opposing(t, m.st)[m.i], m.remaining) == Decision.Trade(k)
  {
    var maker := Opposing(t, m.st)[m.i];
    var f := FillOf(maker.amountIn, maker.minOut, k);
    DecidedTradeFits(t, maker, m.remaining);
    var st1 := Proceeds(host, m.st, t, maker, f);
    var st2 := Consume(st1, t, m.i, f.give);
    Match(st2.(deals := st2.deals + [Deal.Trade(maker.orderId, t.taker.nullifier, f.give, f.pay)]),
      m.i, m.fills + 1, m.remaining - f.pay, m.filledOut + f.give)
  }

  function Advance(m: Match): Match {
    m.(i := m.i + 1)
  }

  // The matching loop from loop state m. A fill leaves the index in place, a skip advances it.
  function MatchRun(host: Host, t: Taking, m: Match): Match
    requires m.fills <= MAX_FILLS
    decreases MAX_FILLS - m.fills, |Opposing(t, m.st)| - m.i
  {
    if !Filling(t, m) then m
    else
      match Decide(t, Opposing(t, m.st)[m.i], m.remaining)
      case Stop => m
      case Skip => MatchRun(host, t, Advance(m))
      case Trade(k) => MatchRun(host, t, DoTrade(host, t, m, k))
  }

  // ----- Entrypoints ---------------------------------------------------------------------------

  function VerifyProof(host: Host, op: nat, proof: seq<Byte>, pi: seq<Byte>, words: nat): (r: Result<seq<Word>, Error>)
    ensures r.Ok? ==> |pi| == 32 * words && r.value == Words(pi, words) && host.verify(op, proof, pi)
  {
    if |proof| != host.proofBytes then Err(ProofParseError)
    else if |pi| != 32 * words then Err(BadPublicInputs)
    else if !host.verify(op, proof, pi) then Err(VerificationFailed)
    else Ok(Words(pi, words))
  }

  function PairAndSideFrom(pairs: seq<PairDef>, assetIn: nat, assetOut: nat, i: nat): (r: Result<(nat, Side), Error>)
    requires i <= |pairs|
    ensures r.Err? ==> r.error == PairNotRegistered
    ensures r.Ok? ==> r.value.0 < |pairs|
    ensures r.Ok? ==> pairs[r.value.0].AssetIn(r.value.1.Code()) == assetIn
    ensures r.Ok? ==> pairs[r.value.0].AssetIn(r.value.1.Opposite().Code()) == assetOut
    decreases |pairs| - i
  {
    if i == |pairs| then Err(PairNotRegistered)
    else if assetIn == pairs[i].baseAsset && assetOut == pairs[i].quoteAsset then Ok((i, Sell))
    else if assetIn == pairs[i].quoteAsset && assetOut == pairs[i].baseAsset then Ok((i, Buy))
    else PairAndSideFrom(pairs, assetIn, assetOut, i + 1)
  }

  function PairAndSide(st: State, assetIn: nat, assetOut: nat): Result<(nat, Side), Error> {
    PairAndSideFrom(st.pairs, assetIn, assetOut, 0)
  }

  function SideAssetIn(st: State, pairId: nat, side: nat): Result<nat, Error> {
    if |st.pairs| <= pairId then Err(PairNotRegistered)
    else if side == SIDE_SELL || side == SIDE_BUY then Ok(st.pairs[pairId].AssetIn(side))
    else Err(PairNotRegistered)
  }

  // The contract's balance with a token contract.
  function TokenBalance(st: State, token: Word): nat {
    if token in st.tokens then st.tokens[token] else 0
  }

  function TakeIn(st: State, token: Word, amount: nat): State {
    st.(tokens := st.tokens[token := TokenBalance(st, token) + amount])
  }

  function HandOut(st: State, token: Word, amount: nat): State
    requires amount <= TokenBalance(st, token)
  {
    st.(tokens := st.tokens[token := TokenBalance(st, token) - amount])
  }

  // Value enters the pool as a fresh note, announced as shielded.
  function Receive(host: Host, st: State, flow: Flow, note: Note): State {
    Log(InsertNote(host, st.(flows := st.flows + [flow]), note), Shielded(note))
  }

  function Shield(host: Host, st: State, authorized: bool, transferOk: bool, asset: nat, amount: int, tag: Word)
    : Result<State, Error>
  {
    if !authorized then Err(Trap)
    else if amount <= 0 then Err(InvalidAmount)
    else if asset !in st.assets then Err(AssetNotRegistered)
    else if st.assets[asset].kind.BaseRepresented? then Err(AssetNotShieldable)
    else if st.assets[asset].token.None? then Err(AssetConfigInvalid)
    else if !transferOk then Err(Trap)
    else
      Ok(Receive(host, TakeIn(st, st.assets[asset].token.value, amount), Deposited(asset, amount),
        Note(asset, amount, tag)))
  }

  function ShieldFromBase(host: Host, st: State, seal: seq<Byte>, journal: seq<Byte>): Result<State, Error> {
    if st.bridge.None? then Err(BaseBridgeNotConfigured)
    else if |journal| != 32 * JOURNAL_WORDS then Err(BadJournal)
    else if !host.receiptOk(st.bridge.value, seal, journal) then Err(Trap)
    else
      var ws := Words(journal, JOURNAL_WORDS);
      var block :- Narrow(ws[0], U64_LIMIT);
      var deposit :- Narrow(ws[4], U64_LIMIT);
      var asset :- Narrow(ws[5], U32_LIMIT);
      var amount :- Narrow(ws[6], I128_LIMIT);
      if ws[2] != st.bridge.value.configId then Err(ConfigMismatch)
      else if ws[3] != st.bridge.value.bridge then Err(BridgeMismatch)
      else if block !in st.blocks || st.blocks[block] != ws[1] then Err(BaseBlockNotAttested)
      else Credit(host, st, deposit, Note(asset, amount, ws[7]))
  }

  // Mint the note of an authentic Base deposit, once.
  function Credit(host: Host, st: State, deposit: nat, note: Note): Result<State, Error> {
    if note.amount == 0 then Err(InvalidAmount)
    else if note.asset !in st.assets then Err(AssetNotRegistered)
    else if st.assets[note.asset].kind.Stellar? then Err(AssetNotBridgeable)
    else if deposit in st.deposits then Err(DepositAlreadyProcessed)
    else
      Ok(Receive(host, st.(deposits := st.deposits + {deposit}), Bridged(note.asset, note.amount, deposit), note))
  }

  // Both orders' notes are spent and each side receives what the other offered.
  function Exchange(host: Host, st: State, a: Order, b: Order): State {
    var noteA, noteB := Note(a.assetOut, b.amountIn, a.outputTag), Note(b.assetOut, a.amountIn, b.outputTag);
    var spent := Spend(Spend(st, a.nullifier, a.assetIn, a.amountIn), b.nullifier, b.assetIn, b.amountIn);
    Log(InsertNote(host, InsertNote(host, spent, noteA), noteB), Settled(noteA, noteB))
  }

  function ExchangeFresh(host: Host, st: State, a: Order, b: Order): Result<State, Error> {
    if a.nullifier == b.nullifier then Err(NotCompatible)
    else if a.nullifier in st.nullifiers || b.nullifier in st.nullifiers then Err(NullifierUsed)
    else Ok(Exchange(host, st, a, b))
  }

  datatype Signed = Signed(proof: seq<Byte>, pi: seq<Byte>)

  function TwoOrders(host: Host, st: State, x: Signed, y: Signed): Result<(Order, Order), Error> {
    var wa :- VerifyProof(host, LIFT_OP, x.proof, x.pi, LIFT_WORDS);
    var wb :- VerifyProof(host, LIFT_OP, y.proof, y.pi, LIFT_WORDS);
    var a :- ParseOrder(st.tree.roots, wa);
    var b :- ParseOrder(st.tree.roots, wb);
    Ok((a, b))
  }

  function Settle(host: Host, st: State, x: Signed, y: Signed): Result<State, Error> {
    var (a, b) :- TwoOrders(host, st, x, y);
    if a.assetIn != b.assetOut || a.assetOut != b.assetIn then Err(NotCompatible)
    else if a.amountIn < b.minOut || b.amountIn < a.minOut then Err(NotCompatible)
    else ExchangeFresh(host, st, a, b)
  }

  function SettleExact(host: Host, st: State, x: Signed, y: Signed): Result<State, Error> {
    var (a, b) :- TwoOrders(host, st, x, y);
    var (pairA, sideA) :- PairAndSide(st, a.assetIn, a.assetOut);
    var (pairB, sideB) :- PairAndSide(st, b.assetIn, b.assetOut);
    if pairA != pairB || sideA == sideB then Err(NotCompatible)
    else if a.amountIn != b.minOut || b.amountIn != a.minOut then Err(NotCompatible)
    else ExchangeFresh(host, st, a, b)
  }

  function PayOut(st: State, asset: nat, amount: nat, nullifier: Word): State {
    Log(st.(flows := st.flows + [PaidOut(asset, amount)]), Unshielded(asset, amount, nullifier))
  }

  // Spend the note and pay the token out; the token contract refuses a transfer the balance does not
  // cover.
  function Withdraw(st: State, transferOk: bool, token: Word, asset: nat, amount: nat, nullifier: Word)
    : Result<State, Error>
  {
    if !transferOk || TokenBalance(st, token) < amount then Err(Trap)
    else Ok(PayOut(HandOut(Spend(st, nullifier, asset, amount), token, amount), asset, amount, nullifier))
  }

  function Unshield(host: Host, st: State, recipient: Word, transferOk: bool, x: Signed): Result<State, Error> {
    var ws :- VerifyProof(host, UNSHIELD_OP, x.proof, x.pi, UNSHIELD_WORDS);
    if ws[0] != UNSHIELD_DOMAIN then Err(BadPublicInputs)
    else if ws[1] !in st.tree.roots then Err(UnknownRoot)
    else if ws[2] in st.nullifiers then Err(NullifierUsed)
    else
      var asset :- Narrow(ws[3], U32_LIMIT);
      var amount :- Narrow(ws[4], I128_LIMIT);
      if amount == 0 then Err(InvalidAmount)
      else if ws[5] != recipient then Err(RecipientMismatch)
      else if asset !in st.assets then Err(AssetNotRegistered)
      else if st.assets[asset].kind.BaseRepresented? then Err(AssetNotUnshieldable)
      else if st.assets[asset].token.None? then Err(AssetConfigInvalid)
      else Withdraw(st, transferOk, st.assets[asset].token.value, asset, amount, ws[2])
  }

  function Join(host: Host, st: State, x: Signed): Result<State, Error> {
    var ws :- VerifyProof(host, JOIN_OP, x.proof, x.pi, JOIN_WORDS);
    if ws[0] != JOIN_DOMAIN then Err(BadPublicInputs)
    else if ws[1] !in st.tree.roots then Err(UnknownRoot)
    else if ws[2] == ws[3] then Err(NotCompatible)
    else if ws[2] in st.nullifiers || ws[3] in st.nullifiers then Err(NullifierUsed)
    else
      var asset :- Narrow(ws[4], U32_LIMIT);
      var out1 :- Narrow(ws[6], I128_LIMIT);
      var out2 :- Narrow(ws[8], I128_LIMIT);
      Ok(Merge(host, st, asset, ws, host.joinInputs(ws), Note(asset, out1, ws[5]), Note(asset, out2, ws[7])))
  }

  function Merge(host: Host, st: State, asset: nat, ws: seq<Word>, ins: (nat, nat), out1: Note, out2: Note): State
    requires |ws| == JOIN_WORDS
  {
    var spent := Spend(Spend(st, ws[2], asset, ins.0), ws[3], asset, ins.1);
    Log(Mint(host, Mint(host, spent, out1), out2), Joined(asset, ws[2], ws[3]))
  }

  // The taker's note is locked; the order becomes part of the history.
  function Accept(st: State, t: Taking): State
    requires 0 < t.taker.amountIn && 0 < t.taker.minOut
  {
    var limit := Limit(t.taker.amountIn, t.taker.minOut);
    Spend(st, t.taker.nullifier, t.taker.assetIn, t.taker.amountIn).(
      accepted := st.accepted[t.taker.nullifier :=
        Accepted(limit, t.pairId, t.side.Code(), t.taker.partialAllowed)])
  }

  // The loop starts on a loaded copy of the opposing side, which is stored back whatever happens.
  function Begin(st: State, t: Taking): Match {
    Match(StoreBook(st, t.pairId, t.Opp(), Opposing(t, st)), 0, 0, t.taker.amountIn, 0)
  }

  function EntryOf(taker: Order, remaining: Pos): OrderEntry
    requires 0 < taker.amountIn && 0 < taker.minOut
  {
    OrderEntry(taker.nullifier, taker.amountIn, taker.minOut, remaining, taker.outputTag,
      taker.cancelTag, taker.leaf, taker.expiry, taker.partialAllowed)
  }

  // Announce what the taker's fills spent and received, if anything.
  function Announce(t: Taking, m: Match): State
    requires m.remaining <= t.taker.amountIn
  {
    var spent := t.taker.amountIn - m.remaining;
    if spent == 0 then m.st
    else Log(m.st, TakerFilled(t.taker.assetIn, spent, t.taker.assetOut, m.filledOut, t.taker.outputTag))
  }

  // Rest, refund or reject what is left of the taker.
  function RestOrRefund(host: Host, t: Taking, st: State, remaining: nat): Result<State, Error>
    requires 0 < t.taker.amountIn && 0 < t.taker.minOut
  {
    if remaining == 0 then Ok(st)
    else if !t.taker.partialAllowed then Err(NotPartialAllowed)
    else if remaining >= OwnLot(t.taker.amountIn, t.taker.minOut)
      && |Book(st, t.pairId, t.side.Code())| < BOOK_CAPACITY then
      Ok(Rest(st, t.pairId, t.side.Code(), EntryOf(t.taker, remaining)))
    else
      Ok(RefundNote(host, st, t.taker.nullifier, Note(t.taker.assetIn, remaining, t.taker.outputTag)))
  }

  function Finish(host: Host, t: Taking, m: Match): Result<State, Error>
    requires 0 < t.taker.amountIn && 0 < t.taker.minOut
    requires m.remaining <= t.taker.amountIn
  {
    RestOrRefund(host, t, Announce(t, m), m.remaining)
  }

  lemma {:induction false} RemainingShrinks(host: Host, t: Taking, m: Match)
    requires m.fills <= MAX_FILLS
    ensures MatchRun(host, t, m).remaining <= m.remaining
    ensures MatchRun(host, t, m).filledOut >= m.filledOut
    decreases MAX_FILLS - m.fills, |Opposing(t, m.st)| - m.i
  {
    if Filling(t, m) {
      match Decide(t, Opposing(t, m.st)[m.i], m.remaining)
      case Stop =>
      case Skip => RemainingShrinks(host, t, Advance(m));
      case Trade(k) => RemainingShrinks(host, t, DoTrade(host, t, m, k));
    }
  }

  function MatchTaker(host: Host, t: Taking, st: State): (m: Match)
    ensures m.remaining <= t.taker.amountIn
  {
    RemainingShrinks(host, t, Begin(st, t));
    MatchRun(host, t, Begin(st, t))
  }

  function SubmitOrder(host: Host, st: State, now: nat, x: Signed): Result<State, Error> {
    var ws :- VerifyProof(host, LIFT_OP, x.proof, x.pi, LIFT_WORDS);
    var taker :- ParseOrder(st.tree.roots, ws);
    SubmitParsed(host, st, now, taker)
  }

  function SubmitParsed(host: Host, st: State, now: nat, taker: Order): Result<State, Error> {
    if taker.amountIn == 0 || taker.minOut == 0 then Err(InvalidAmount)
    else if taker.expiry < now then Err(OrderExpired)
    else if taker.nullifier in st.nullifiers then Err(NullifierUsed)
    else
      var (pairId, side) :- PairAndSide(st, taker.assetIn, taker.assetOut);
      var t := Taking(now, pairId, st.pairs[pairId], side, taker);
      SubmitTaker(host, Accept(st, t), t)
  }

  function SubmitTaker(host: Host, st: State, t: Taking): Result<State, Error>
    requires 0 < t.taker.amountIn && 0 < t.taker.minOut
  {
    var m := MatchTaker(host, t, st);
    if m.filledOut >= I128_LIMIT then Err(Trap) // the checked i128 sum of proceeds overflows
    else Finish(host, t, m)
  }

  function FindCancel(book: seq<OrderEntry>, leaf: Word, tag: Word, i: nat): (r: nat)
    requires i <= |book|
    ensures i <= r <= |book|
    decreases |book| - i
  {
    if i == |book| || (book[i].leaf == leaf && book[i].cancelTag == tag) then i
    else FindCancel(book, leaf, tag, i + 1)
  }

  // Take an entry off the book and return what it still locks.
  function Close(host: Host, st: State, pairId: nat, side: nat, i: nat, note: Note, reason: RemoveReason): State
    requires i < |Book(st, pairId, side)|
  {
    RemoveAt(RefundNote(host, st, Book(st, pairId, side)[i].orderId, note), pairId, side, i, reason)
  }

  function CancelOrder(host: Host, st: State, pairId: nat, side: nat, x: Signed): Result<State, Error> {
    var ws :- VerifyProof(host, CANCEL_OP, x.proof, x.pi, CANCEL_WORDS);
    if ws[0] != CANCEL_DOMAIN then Err(BadPublicInputs)
    else
      var assetIn :- SideAssetIn(st, pairId, side);
      var book := Book(st, pairId, side);
      var i := FindCancel(book, ws[1], ws[2], 0);
      if i == |book| then Err(OrderNotFound)
      else Ok(Close(host, st, pairId, side, i, Note(assetIn, book[i].remainingIn, ws[3]), Cancelled))
  }

  // Return an expired entry's lock to its own owner tag.
  function Expire(host: Host, st: State, pairId: nat, side: nat, assetIn: nat, i: nat): State
    requires i < |Book(st, pairId, side)|
  {
    var e := Book(st, pairId, side)[i];
    Close(host, st, pairId, side, i, Note(assetIn, e.remainingIn, e.outputTag), Expired)
  }

  // The pruning loop: `max` bounds the removals, not the entries visited.
  function PruneRun(host: Host, st: State, now: nat, pairId: nat, side: nat, assetIn: nat, i: nat, left: nat): State
    decreases left, |Book(st, pairId, side)| - i
  {
    var book := Book(st, pairId, side);
    if |book| <= i || left == 0 then st
    else if book[i].expiry < now then
      PruneRun(host, Expire(host, st, pairId, side, assetIn, i), now, pairId, side, assetIn, i, left - 1)
    else
      PruneRun(host, st, now, pairId, side, assetIn, i + 1, left)
  }

  function PruneExpired(host: Host, st: State, now: nat, pairId: nat, side: nat, max: nat): Result<State, Error> {
    var assetIn :- SideAssetIn(st, pairId, side);
    Ok(PruneRun(host, st, now, pairId, side, assetIn, 0, max))
  }

  // ----- Construction and runs -----------------------------------------------------------------

  function InitialState(host: Host, vkHashes: seq<Word>): State {
    State(map[], [], {}, map[], 0, NT.Empty(host.compress), [BookInitialized(SCHEMA_VERSION, vkHashes)],
      None, map[], {}, map[], [], [], map[])
  }

  function RegisterAsset(host: Host, st: State, a: AssetInit): Result<State, Error> {
    if a.assetId in st.assets then Err(AssetAlreadyRegistered)
    else if a.kind.BaseRepresented? != a.token.None? then Err(AssetConfigInvalid)
    else
      var token := if a.token.Some? then a.token.value else host.address;
      var kind := match a.kind case Stellar => 0 case Dual => 1 case BaseRepresented => 2;
      Ok(Log(st.(assets := st.assets[a.assetId := AssetDef(a.token, a.kind)]),
        AssetRegistered(a.assetId, token, kind)))
  }

  predicate SamePair(p: PairDef, q: PairDef) {
    p == q || (p.baseAsset == q.quoteAsset && p.quoteAsset == q.baseAsset)
  }

  function RegisterPair(st: State, p: PairDef): Result<State, Error> {
    if p.baseAsset == p.quoteAsset then Err(PairNotRegistered)
    else if p.baseAsset !in st.assets || p.quoteAsset !in st.assets then Err(AssetNotRegistered)
    else if exists i :: 0 <= i < |st.pairs| && SamePair(st.pairs[i], p) then Err(PairAlreadyRegistered)
    else Ok(Log(st.(pairs := st.pairs + [p]), PairRegistered(|st.pairs|, p.baseAsset, p.quoteAsset)))
  }

  function RegisterAssets(host: Host, st: State, assets: seq<AssetInit>): Result<State, Error> {
    if assets == [] then Ok(st)
    else
      var st1 :- RegisterAssets(host, st, assets[..|assets| - 1]);
      RegisterAsset(host, st1, assets[|assets| - 1])
  }

  function RegisterPairs(st: State, pairs: seq<PairDef>): Result<State, Error> {
    if pairs == [] then Ok(st)
    else
      var st1 :- RegisterPairs(st, pairs[..|pairs| - 1]);
      RegisterPair(st1, pairs[|pairs| - 1])
  }

  function Construct(host: Host, vksOk: bool, vkHashes: seq<Word>, assets: seq<AssetInit>, pairs: seq<PairDef>)
    : Result<State, Error>
  {
    if !vksOk then Err(VkInvalid)
    else Registered(host, InitialState(host, vkHashes), assets, pairs)
  }

  function Registered(host: Host, st: State, assets: seq<AssetInit>, pairs: seq<PairDef>): Result<State, Error> {
    var st1 :- RegisterAssets(host, st, assets);
    RegisterPairs(st1, pairs)
  }

  datatype Call =
    | CallShield(authorized: bool, transferOk: bool, asset: nat, amount: int, tag: Word)
    | CallConfigureBridge(adminOk: bool, config: BridgeConfig)
    | CallAttestBlock(adminOk: bool, block: nat, hash: Word)
    | CallShieldFromBase(seal: seq<Byte>, journal: seq<Byte>)
    | CallSettle(a: Signed, b: Signed)
    | CallSettleExact(a: Signed, b: Signed)
    | CallUnshield(recipient: Word, transferOk: bool, x: Signed)
    | CallJoin(x: Signed)
    | CallSubmitOrder(now: nat, x: Signed)
    | CallCancelOrder(pairId: nat, side: nat, x: Signed)
    | CallPruneExpired(now: nat, pairId: nat, side: nat, max: nat)

  function Attempt(host: Host, st: State, call: Call): Result<State, Error> {
    match call
    case CallShield(authorized, transferOk, asset, amount, tag) =>
      Shield(host, st, authorized, transferOk, asset, amount, tag)
    case CallConfigureBridge(adminOk, config) => if adminOk then Ok(st.(bridge := Some(config))) else Err(Trap)
    case CallAttestBlock(adminOk, block, hash) =>
      if adminOk then Ok(st.(blocks := st.blocks[block := hash])) else Err(Trap)
    case CallShieldFromBase(seal, journal) => ShieldFromBase(host, st, seal, journal)
    case CallSettle(a, b) => Settle(host, st, a, b)
    case CallSettleExact(a, b) => SettleExact(host, st, a, b)
    case CallUnshield(recipient, transferOk, x) => Unshield(host, st, recipient, transferOk, x)
    case CallJoin(x) => Join(host, st, x)
    case CallSubmitOrder(now, x) => SubmitOrder(host, st, now, x)
    case CallCancelOrder(pairId, side, x) => CancelOrder(host, st, pairId, side, x)
    case CallPruneExpired(now, pairId, side, max) => PruneExpired(host, st, now, pairId, side, max)
  }

  // Checked arithmetic: the u32 leaf count and the u64 book sequence must not overflow.
  predicate WithinCounters(st: State) {
    st.tree.next < U32_LIMIT && st.bookSeq < U64_LIMIT
  }

  function Checked(r: Result<State, Error>): Result<State, Error> {
    if r.Ok? && !WithinCounters(r.value) then Err(Trap) else r
  }

  // A transaction commits or leaves the state as it was.
  function Execute(host: Host, st: State, call: Call): State {
    var r := Checked(Attempt(host, st, call));
    if r.Ok? then r.value else st
  }

  function Run(host: Host, st: State, calls: seq<Call>): State {
    if calls == [] then st
    else Execute(host, Run(host, st, calls[..|calls| - 1]), calls[|calls| - 1])
  }
}
