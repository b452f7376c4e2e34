// Why calls fail: every error that a call returns names something that is so.
module Refusals {
  import opened Wrappers
  import opened Lots
  import opened Types
  import opened Codec
  import opened Ledger
  import opened Inputs
  import opened Payouts
  import opened Outcomes
  import opened Sweeps
  import opened Submissions
  import opened ThreeForms

  // A word of the public inputs, as far as they reach.
  function WordIn(pi: seq<Byte>, k: nat): Word {
    if 32 * k + 32 <= |pi| then WordAt(pi, k) else 0
  }

  // What is wrong with a proof, or with its first word.
  predicate ProofIsWrong(host: Host, op: nat, x: Signed, words: nat, domain: Word, e: Error) {
    match e
    case ProofParseError => |x.proof| != host.proofBytes
    case BadPublicInputs => |x.pi| != 32 * words || WordIn(x.pi, 0) != domain
    case VerificationFailed => !host.verify(op, x.proof, x.pi)
    case _ => false
  }

  predicate OrderIsWrong(host: Host, st: State, x: Signed, e: Error) {
    || ProofIsWrong(host, LIFT_OP, x, LIFT_WORDS, LIFT_DOMAIN, e)
    || match e
       case BadPublicInputs => 1 < WordIn(x.pi, 10)
       case UnknownRoot => WordIn(x.pi, 1) !in st.tree.roots
       case FieldOverflow =>
         || U32_LIMIT <= WordIn(x.pi, 3) || I128_LIMIT <= WordIn(x.pi, 4) || U32_LIMIT <= WordIn(x.pi, 5)
         || I128_LIMIT <= WordIn(x.pi, 6) || U64_LIMIT <= WordIn(x.pi, 9) || U32_LIMIT <= WordIn(x.pi, 10)
       case _ => false
  }

  lemma {:induction false} ProofBlame(host: Host, op: nat, x: Signed, words: nat, domain: Word, e: Error)
    requires VerifyProof(host, op, x.proof, x.pi, words) == Err(e)
    ensures ProofIsWrong(host, op, x, words, domain, e)
  {
  }

  lemma {:induction false} OrderBlame(host: Host, st: State, x: Signed, e: Error)
    requires
      var ws := VerifyProof(host, LIFT_OP, x.proof, x.pi, LIFT_WORDS);
      ws == Err(e) || (ws.Ok? && ParseOrder(st.tree.roots, ws.value) == Err(e))
    ensures OrderIsWrong(host, st, x, e)
  {
    var r := VerifyProof(host, LIFT_OP, x.proof, x.pi, LIFT_WORDS);
    if r.Err? {
      ProofBlame(host, LIFT_OP, x, LIFT_WORDS, LIFT_DOMAIN, e);
    } else {
      WordsBlame(host, st, x, r.value, e);
    }
  }

  lemma {:induction false} WordsBlame(host: Host, st: State, x: Signed, ws: seq<Word>, e: Error)
    requires |ws| == LIFT_WORDS && ParseOrder(st.tree.roots, ws) == Err(e)
    requires |x.pi| == 32 * LIFT_WORDS && ws == Words(x.pi, LIFT_WORDS)
    ensures OrderIsWrong(host, st, x, e)
  {
    WordsAre(x.pi, LIFT_WORDS);
    ParseBlame(st.tree.roots, ws, e);
  }

  lemma {:induction false} ParseBlame(roots: set<Word>, ws: seq<Word>, e: Error)
    requires |ws| == LIFT_WORDS && ParseOrder(roots, ws) == Err(e)
    ensures match e
      case BadPublicInputs => ws[0] != LIFT_DOMAIN || 1 < ws[10]
      case UnknownRoot => ws[1] !in roots
      case FieldOverflow =>
        || U32_LIMIT <= ws[3] || I128_LIMIT <= ws[4] || U32_LIMIT <= ws[5] || I128_LIMIT <= ws[6]
        || U64_LIMIT <= ws[9] || U32_LIMIT <= ws[10]
      case _ => false
  {
  }

  predicate ShieldIsWrong(st: State, authorized: bool, transferOk: bool, asset: nat, amount: int, e: Error) {
    match e
    case Trap => !authorized || !transferOk
    case InvalidAmount => amount <= 0
    case AssetNotRegistered => asset !in st.assets
    case AssetNotShieldable => asset in st.assets && st.assets[asset].kind.BaseRepresented?
    case AssetConfigInvalid => asset in st.assets && st.assets[asset].token.None?
    case _ => false
  }

  predicate JournalIsWrong(host: Host, st: State, seal: seq<Byte>, journal: seq<Byte>, e: Error) {
    var asset := WordIn(journal, 5);
    match e
    case BaseBridgeNotConfigured => st.bridge.None?
    case BadJournal => |journal| != 256
    case Trap => st.bridge.Some? && !host.receiptOk(st.bridge.value, seal, journal)
    case FieldOverflow =>
      || U64_LIMIT <= WordIn(journal, 0) || U64_LIMIT <= WordIn(journal, 4) || U32_LIMIT <= asset
      || I128_LIMIT <= WordIn(journal, 6)
    case ConfigMismatch => st.bridge.Some? && WordIn(journal, 2) != st.bridge.value.configId
    case BridgeMismatch => st.bridge.Some? && WordIn(journal, 3) != st.bridge.value.bridge
    case BaseBlockNotAttested =>
      WordIn(journal, 0) !in st.blocks || st.blocks[WordIn(journal, 0)] != WordIn(journal, 1)
    case InvalidAmount => WordIn(journal, 6) == 0
    case AssetNotRegistered => asset !in st.assets
    case AssetNotBridgeable => asset in st.assets && st.assets[asset].kind.Stellar?
    case DepositAlreadyProcessed => WordIn(journal, 4) in st.deposits
    case _ => false
  }

  predicate WithdrawalIsWrong(host: Host, st: State, to: Word, transferOk: bool, x: Signed, e: Error) {
    var asset, amount := WordIn(x.pi, 3), WordIn(x.pi, 4);
    || ProofIsWrong(host, UNSHIELD_OP, x, UNSHIELD_WORDS, UNSHIELD_DOMAIN, e)
    || match e
       case UnknownRoot => WordIn(x.pi, 1) !in st.tree.roots
       case NullifierUsed => WordIn(x.pi, 2) in st.nullifiers
       case FieldOverflow => U32_LIMIT <= asset || I128_LIMIT <= amount
       case InvalidAmount => amount == 0
       case RecipientMismatch => WordIn(x.pi, 5) != to
       case AssetNotRegistered => asset !in st.assets
       case AssetNotUnshieldable => asset in st.assets && st.assets[asset].kind.BaseRepresented?
       case AssetConfigInvalid => asset in st.assets && st.assets[asset].token.None?
       case Trap => !transferOk || (HasToken(st, asset) && TokenBalance(st, st.assets[asset].token.value) < amount)
       case _ => false
  }

  predicate JoinIsWrong(host: Host, st: State, x: Signed, e: Error) {
    || ProofIsWrong(host, JOIN_OP, x, JOIN_WORDS, JOIN_DOMAIN, e)
    || match e
       case UnknownRoot => WordIn(x.pi, 1) !in st.tree.roots
       case NotCompatible => WordIn(x.pi, 2) == WordIn(x.pi, 3)
       case NullifierUsed => WordIn(x.pi, 2) in st.nullifiers || WordIn(x.pi, 3) in st.nullifiers
       case FieldOverflow =>
         U32_LIMIT <= WordIn(x.pi, 4) || I128_LIMIT <= WordIn(x.pi, 6) || I128_LIMIT <= WordIn(x.pi, 8)
       case _ => false
  }

  // What is wrong with a settlement of two presented orders.
  predicate SettlementIsWrong(host: Host, st: State, x: Signed, y: Signed, strict: bool, e: Error) {
    || OrderIsWrong(host, st, x, e) || OrderIsWrong(host, st, y, e)
    || (TwoOrders(host, st, x, y).Ok?
        && var (a, b) := TwoOrders(host, st, x, y).value;
           match e
           case NotCompatible => !TermsMatch(a, b, strict)
           case NullifierUsed => a.nullifier in st.nullifiers || b.nullifier in st.nullifiers
           case PairNotRegistered =>
             strict && (!Trades(st, a.assetIn, a.assetOut) || !Trades(st, b.assetIn, b.assetOut))
           case _ => false)
  }

  // Two orders that can settle, as far as their terms say.
  predicate TermsMatch(a: Order, b: Order, strict: bool) {
    && a.assetOut == b.assetIn && b.assetOut == a.assetIn && a.nullifier != b.nullifier
    && (if strict then a.minOut == b.amountIn && b.minOut == a.amountIn && a.assetIn != a.assetOut
        else a.minOut <= b.amountIn && b.minOut <= a.amountIn)
  }

  // What is wrong with a submission: with its proof, with the order presented, or with its sweep.
  ghost predicate SubmissionIsWrong(host: Host, st: State, now: nat, x: Signed, e: Error) {
    || OrderIsWrong(host, st, x, e)
    || exists o :: Presents(host, st, x, o) && PresentedIsWrong(st, now, o, e)
  }

  ghost predicate PresentedIsWrong(st: State, now: nat, o: Order, e: Error) {
    match e
    case InvalidAmount => o.amountIn == 0 || o.minOut == 0
    case OrderExpired => o.expiry < now
    case NullifierUsed => o.nullifier in st.nullifiers
    case PairNotRegistered => !Trades(st, o.assetIn, o.assetOut)
    case NotPartialAllowed =>
      && !o.partialAllowed
      && exists p, side :: Belongs(st, o, p, side) && SweepOfOrder(st, now, o, p, side).paid < o.amountIn
    case Trap => exists p, side :: Belongs(st, o, p, side) && I128_LIMIT <= SweepOfOrder(st, now, o, p, side).got
    case _ => false
  }

  function SweepOfOrder(st: State, now: nat, o: Order, p: nat, side: Side): Sweep
    requires p < |st.pairs|
  {
    SweepBy(Taker(st, now, o, p, side), st)
  }

  predicate CancellationIsWrong(host: Host, st: State, p: nat, s: nat, x: Signed, e: Error) {
    || ProofIsWrong(host, CANCEL_OP, x, CANCEL_WORDS, CANCEL_DOMAIN, e)
    || match e
       case PairNotRegistered => !IsSide(st, p, s)
       case OrderNotFound =>
         forall i :: 0 <= i < |Book(st, p, s)| ==>
           Book(st, p, s)[i].leaf != WordIn(x.pi, 1) || Book(st, p, s)[i].cancelTag != WordIn(x.pi, 2)
       case _ => false
  }

  // What is wrong with a call.
  ghost predicate IsWrong(host: Host, st: State, call: Call, e: Error) {
    match call
    case CallShield(authorized, transferOk, asset, amount, _) =>
      ShieldIsWrong(st, authorized, transferOk, asset, amount, e)
    case CallConfigureBridge(adminOk, _) => !adminOk && e == Trap
    case CallAttestBlock(adminOk, _, _) => !adminOk && e == Trap
    case CallShieldFromBase(seal, journal) => JournalIsWrong(host, st, seal, journal, e)
    case CallSettle(x, y) => SettlementIsWrong(host, st, x, y, false, e)
    case CallSettleExact(x, y) => SettlementIsWrong(host, st, x, y, true, e)
    case CallUnshield(to, transferOk, x) => WithdrawalIsWrong(host, st, to, transferOk, x, e)
    case CallJoin(x) => JoinIsWrong(host, st, x, e)
    case CallSubmitOrder(now, x) => SubmissionIsWrong(host, st, now, x, e)
    case CallCancelOrder(p, s, x) => CancellationIsWrong(host, st, p, s, x, e)
    case CallPruneExpired(_, p, s, _) => !IsSide(st, p, s) && e == PairNotRegistered
  }

  // ----- One entrypoint at a time ----------------------------------------------------------------

  ghost predicate Blames(host: Host, st: State, call: Call, r: Result<State, Error>) {
    r.Err? ==> IsWrong(host, st, call, r.error)
  }

  lemma {:induction false} ShieldBlame(host: Host, st: State, call: Call)
    requires call.CallShield?
    ensures Blames(host, st, call,
      Shield(host, st, call.authorized, call.transferOk, call.asset, call.amount, call.tag))
  {
  }

  lemma {:induction false} BridgeBlame(host: Host, st: State, seal: seq<Byte>, journal: seq<Byte>)
    ensures
      var r := ShieldFromBase(host, st, seal, journal);
      r.Err? ==> JournalIsWrong(host, st, seal, journal, r.error)
  {
    if |journal| == 32 * JOURNAL_WORDS {
      WordsAre(journal, JOURNAL_WORDS);
    }
  }

  // The words that a verified proof was read as.
  lemma {:induction false} WordsAre(pi: seq<Byte>, n: nat)
    requires |pi| == 32 * n
    ensures forall k :: 0 <= k < n ==> Words(pi, n)[k] == WordIn(pi, k)
  {
  }

  lemma {:induction false} WithdrawalBlame(host: Host, st: State, to: Word, transferOk: bool, x: Signed)
    ensures
      var r := Unshield(host, st, to, transferOk, x);
      r.Err? ==> WithdrawalIsWrong(host, st, to, transferOk, x, r.error)
  {
    if VerifyProof(host, UNSHIELD_OP, x.proof, x.pi, UNSHIELD_WORDS).Ok? {
      ReadWithdrawalBlame(host, st, to, transferOk, x, Words(x.pi, UNSHIELD_WORDS));
    }
  }

  lemma {:induction false} ReadWithdrawalBlame(host: Host, st: State, to: Word, transferOk: bool, x: Signed,
      ws: seq<Word>)
    requires VerifyProof(host, UNSHIELD_OP, x.proof, x.pi, UNSHIELD_WORDS) == Ok(ws)
    ensures
      var r := Unshield(host, st, to, transferOk, x);
      r.Err? ==> WithdrawalIsWrong(host, st, to, transferOk, x, r.error)
  {
    WordsAre(x.pi, UNSHIELD_WORDS);
    var asset := WordIn(x.pi, 3);
    assert ws[3] == asset && ws[4] == WordIn(x.pi, 4) && ws[5] == WordIn(x.pi, 5);
  }

  lemma {:induction false} JoinBlame(host: Host, st: State, call: Call)
    requires call.CallJoin?
    ensures Blames(host, st, call, Join(host, st, call.x))
  {
  }

  lemma {:induction false} SettlementBlame(host: Host, st: State, call: Call)
    requires call.CallSettle?
    ensures Blames(host, st, call, Settle(host, st, call.a, call.b))
  {
    OrdersBlame(host, st, call.a, call.b);
  }

  lemma {:induction false} OrdersBlame(host: Host, st: State, x: Signed, y: Signed)
    ensures
      var r := TwoOrders(host, st, x, y);
      r.Err? ==> OrderIsWrong(host, st, x, r.error) || OrderIsWrong(host, st, y, r.error)
  {
    var r := TwoOrders(host, st, x, y);
    if r.Err? {
      var wx := VerifyProof(host, LIFT_OP, x.proof, x.pi, LIFT_WORDS);
      if wx == Err(r.error) || (wx.Ok? && ParseOrder(st.tree.roots, wx.value) == Err(r.error)) {
        OrderBlame(host, st, x, r.error);
      } else {
        OrderBlame(host, st, y, r.error);
      }
    }
  }

  lemma {:induction false} StrictBlame(host: Host, st: State, call: Call)
    requires call.CallSettleExact?
    ensures Blames(host, st, call, SettleExact(host, st, call.a, call.b))
  {
    OrdersBlame(host, st, call.a, call.b);
    var orders := TwoOrders(host, st, call.a, call.b);
    if orders.Ok? {
      StrictOrdersBlame(host, st, call.a, call.b, orders.value.0, orders.value.1);
    }
  }

  lemma {:induction false} StrictOrdersBlame(host: Host, st: State, x: Signed, y: Signed, a: Order, b: Order)
    requires TwoOrders(host, st, x, y) == Ok((a, b))
    ensures
      var r := SettleExact(host, st, x, y);
      r.Err? ==> SettlementIsWrong(host, st, x, y, true, r.error)
  {
    FoundIsTraded(st.pairs, a.assetIn, a.assetOut, 0);
    FoundIsTraded(st.pairs, b.assetIn, b.assetOut, 0);
    if TermsMatch(a, b, true) && PairAndSide(st, a.assetIn, a.assetOut).Ok? {
      MatchingGoesOn(host, st, x, y, a, b);
    }
  }

  // Matching orders of a registered pair fail only over their notes.
  lemma {:induction false} MatchingGoesOn(host: Host, st: State, x: Signed, y: Signed, a: Order, b: Order)
    requires TwoOrders(host, st, x, y) == Ok((a, b)) && TermsMatch(a, b, true)
    requires PairAndSide(st, a.assetIn, a.assetOut).Ok?
    ensures SettleExact(host, st, x, y) == ExchangeFresh(host, st, a, b)
  {
    ReversedPair(st.pairs, a.assetIn, a.assetOut, 0);
  }

  lemma {:induction false} SubmissionBlame(host: Host, st: State, call: Call)
    requires call.CallSubmitOrder?
    ensures Blames(host, st, call, SubmitOrder(host, st, call.now, call.x))
  {
    var r, x := SubmitOrder(host, st, call.now, call.x), call.x;
    if r.Err? {
      var ws := VerifyProof(host, LIFT_OP, x.proof, x.pi, LIFT_WORDS);
      if ws == Err(r.error) || (ws.Ok? && ParseOrder(st.tree.roots, ws.value) == Err(r.error)) {
        OrderBlame(host, st, x, r.error);
      } else {
        var o := ParseOrder(st.tree.roots, ws.value).value;
        OrderIsExact(host, st, x, o);
        ParsedBlame(host, st, call.now, o);
      }
    }
  }

  lemma {:induction false} ParsedBlame(host: Host, st: State, now: nat, o: Order)
    ensures
      var r := SubmitParsed(host, st, now, o);
      r.Err? ==> PresentedIsWrong(st, now, o, r.error)
  {
    FoundIsTraded(st.pairs, o.assetIn, o.assetOut, 0);
    if Submittable(st, now, o) && PairAndSide(st, o.assetIn, o.assetOut).Ok? {
      var (p, side) := PairAndSide(st, o.assetIn, o.assetOut).value;
      PlaceIsExactFrom(st, o, 0, p, side);
      ParsedIsTaken(host, st, now, o, p, side);
      TakenBlame(host, Accept(st, Taker(st, now, o, p, side)), Taker(st, now, o, p, side));
      assert SweepOfOrder(st, now, o, p, side)
        == SweepBy(Taker(st, now, o, p, side), Accept(st, Taker(st, now, o, p, side)));
    }
  }

  lemma {:induction false} TakenBlame(host: Host, st: State, t: Taking)
    requires 0 < t.taker.amountIn && 0 < t.taker.minOut
    ensures
      var r, s := SubmitTaker(host, st, t), SweepBy(t, st);
      r.Err? ==>
        || (r.error == Trap && I128_LIMIT <= s.got)
        || (r.error == NotPartialAllowed && !t.taker.partialAllowed && s.paid < t.taker.amountIn)
  {
    MatchIsSweep(host, t, st);
  }

  lemma {:induction false} CancellationBlame(host: Host, st: State, call: Call)
    requires call.CallCancelOrder?
    ensures Blames(host, st, call, CancelOrder(host, st, call.pairId, call.side, call.x))
  {
    FindCancelIsFirst(Book(st, call.pairId, call.side), WordIn(call.x.pi, 1), WordIn(call.x.pi, 2), 0);
  }

  // No call ever fails for a reason that is not so.
  lemma {:induction false} ErrorsAreTrue(host: Host, st: State, call: Call)
    ensures Blames(host, st, call, Attempt(host, st, call))
  {
    match call
    case CallShield(_, _, _, _, _) => ShieldBlame(host, st, call);
    case CallConfigureBridge(_, _) =>
    case CallAttestBlock(_, _, _) =>
    case CallShieldFromBase(seal, journal) => BridgeBlame(host, st, seal, journal);
    case CallSettle(_, _) => SettlementBlame(host, st, call);
    case CallSettleExact(_, _) => StrictBlame(host, st, call);
    case CallUnshield(to, transferOk, x) => WithdrawalBlame(host, st, to, transferOk, x);
    case CallJoin(_) => JoinBlame(host, st, call);
    case CallSubmitOrder(_, _) => SubmissionBlame(host, st, call);
    case CallCancelOrder(_, _, _) => CancellationBlame(host, st, call);
    case CallPruneExpired(_, _, _, _) =>
  }
}
