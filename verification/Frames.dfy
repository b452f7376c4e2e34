// Which calls may change what, and so where a bridged note's authority comes from.
module Frames {
  import opened Wrappers
  import opened Types
  import opened Codec
  import opened Ledger
  import opened Inputs
  import opened Payouts
  import opened Outcomes
  import opened Submissions
  import opened Reachable
  import opened Deployment
  import opened IndexAgreement

  // ----- What a kind of call is confined to ------------------------------------------------------

  // The registry never changes and no nullifier is ever taken back. Only the administrator's calls
  // change the bridge and the attested blocks, only deposits and withdrawals move tokens, only bridged
  // deposits are recorded by a bridging, only spending calls spend, and only the calls of the book touch
  // the books, the accepted orders only a submission.
  ghost predicate Confined(call: Call, st: State, st': State) {
    && st'.assets == st.assets && st'.pairs == st.pairs && st.nullifiers <= st'.nullifiers
    && (call.CallConfigureBridge? || st'.bridge == st.bridge)
    && (call.CallAttestBlock? || st'.blocks == st.blocks)
    && (call.CallShield? || call.CallUnshield? || st'.tokens == st.tokens)
    && (call.CallShieldFromBase? || st'.deposits == st.deposits)
    && (Spends(call) || st'.nullifiers == st.nullifiers)
    && (OfTheBook(call) || (st'.books == st.books && st'.bookSeq == st.bookSeq))
    && (call.CallSubmitOrder? || st'.accepted == st.accepted)
  }

  predicate Spends(call: Call) {
    call.CallSettle? || call.CallSettleExact? || call.CallUnshield? || call.CallJoin? || call.CallSubmitOrder?
  }

  predicate OfTheBook(call: Call) {
    call.CallSubmitOrder? || call.CallCancelOrder? || call.CallPruneExpired?
  }

  ghost predicate StaysConfined(call: Call, st: State, r: Result<State, Error>) {
    r.Ok? ==> Confined(call, st, r.value)
  }

  lemma {:induction false} BridgingConfined(host: Host, st: State, call: Call)
    requires call.CallShieldFromBase?
    ensures StaysConfined(call, st, ShieldFromBase(host, st, call.seal, call.journal))
  {
    BridgesExactly(host, st, call.seal, call.journal);
    if ShieldFromBase(host, st, call.seal, call.journal).Ok? {
      var d :| Authentic(host, st, call.seal, call.journal, d) && MayMint(st, d);
      BridgeDoes(host, st, call.seal, call.journal, d);
    }
  }

  lemma {:induction false} WithdrawalConfined(host: Host, st: State, call: Call)
    requires call.CallUnshield?
    ensures StaysConfined(call, st, Unshield(host, st, call.recipient, call.transferOk, call.x))
  {
    WithdrawsExactly(host, st, call.recipient, call.transferOk, call.x);
    if Unshield(host, st, call.recipient, call.transferOk, call.x).Ok? {
      var w: Withdrawal :| Proven(host, UNSHIELD_OP, call.x, w.Encoded())
        && MayWithdraw(st, call.recipient, call.transferOk, w);
      WithdrawalDoes(host, st, call.recipient, call.transferOk, call.x, w);
    }
  }

  lemma {:induction false} JoinConfined(host: Host, st: State, call: Call)
    requires call.CallJoin?
    ensures StaysConfined(call, st, Join(host, st, call.x))
  {
    JoinsExactly(host, st, call.x);
    if Join(host, st, call.x).Ok? {
      var j: Joining :| Proven(host, JOIN_OP, call.x, j.Encoded()) && MayJoin(st, j);
      JoinDoes(host, st, call.x, j);
    }
  }

  lemma {:induction false} SettlementConfined(host: Host, st: State, call: Call)
    requires call.CallSettle?
    ensures StaysConfined(call, st, Settle(host, st, call.a, call.b))
  {
    SettlesExactly(host, st, call.a, call.b);
    if Settle(host, st, call.a, call.b).Ok? {
      var a, b :| Presents(host, st, call.a, a) && Presents(host, st, call.b, b) && Compatible(st, a, b);
      SettlementDoes(host, st, call.a, call.b, a, b);
    }
  }

  lemma {:induction false} StrictConfined(host: Host, st: State, call: Call)
    requires call.CallSettleExact?
    ensures StaysConfined(call, st, SettleExact(host, st, call.a, call.b))
  {
    SettlesExactlyStrict(host, st, call.a, call.b);
    if SettleExact(host, st, call.a, call.b).Ok? {
      var a, b :| Presents(host, st, call.a, a) && Presents(host, st, call.b, b) && ExactReverses(st, a, b);
      StrictSettlementDoes(host, st, call.a, call.b, a, b);
      SettlementConfined(host, st, CallSettle(call.a, call.b));
    }
  }

  lemma {:induction false} SubmissionConfined(host: Host, st: State, call: Call)
    requires call.CallSubmitOrder?
    ensures StaysConfined(call, st, SubmitOrder(host, st, call.now, call.x))
  {
    SubmitsExactly(host, st, call.now, call.x);
    if SubmitOrder(host, st, call.now, call.x).Ok? {
      var o, p, side :| MaySubmit(host, st, call.now, call.x, o, p, side);
      SubmissionDoes(host, st, call.now, call.x, o, p, side);
    }
  }

  lemma {:induction false} CancellationConfined(host: Host, st: State, call: Call)
    requires call.CallCancelOrder?
    ensures StaysConfined(call, st, CancelOrder(host, st, call.pairId, call.side, call.x))
  {
    CancelsExactly(host, st, call.pairId, call.side, call.x);
    if CancelOrder(host, st, call.pairId, call.side, call.x).Ok? {
      var c, i :| NamesEntry(host, st, call.pairId, call.side, call.x, c, i);
      CancelDoes(host, st, call.pairId, call.side, call.x, c, i);
    }
  }

  // Every call that succeeds stays within what its kind may change.
  lemma {:induction false} CallsAreConfined(host: Host, st: State, call: Call)
    ensures StaysConfined(call, st, Attempt(host, st, call))
  {
    match call
    case CallShield(authorized, transferOk, asset, amount, tag) =>
      ShieldsExactly(host, st, authorized, transferOk, asset, amount, tag);
    case CallConfigureBridge(_, _) =>
    case CallAttestBlock(_, _, _) =>
    case CallShieldFromBase(_, _) => BridgingConfined(host, st, call);
    case CallSettle(_, _) => SettlementConfined(host, st, call);
    case CallSettleExact(_, _) => StrictConfined(host, st, call);
    case CallUnshield(_, _, _) => WithdrawalConfined(host, st, call);
    case CallJoin(_) => JoinConfined(host, st, call);
    case CallSubmitOrder(_, _) => SubmissionConfined(host, st, call);
    case CallCancelOrder(_, _, _) => CancellationConfined(host, st, call);
    case CallPruneExpired(now, pairId, side, max) => PrunePays(host, st, now, pairId, side, max);
  }

  // So does every transaction, which a failing call leaves without a trace.
  lemma {:induction false} ExecuteIsConfined(host: Host, st: State, call: Call)
    ensures Confined(call, st, Execute(host, st, call))
    ensures Attempt(host, st, call).Err? ==> Execute(host, st, call) == st
  {
    CallsAreConfined(host, st, call);
    ExecuteIs(host, st, call, Attempt(host, st, call));
  }

  lemma {:induction false} ExecuteIs(host: Host, st: State, call: Call, r: Result<State, Error>)
    requires r == Attempt(host, st, call)
    ensures Execute(host, st, call) == if r.Ok? && WithinCounters(r.value) then r.value else st
  {
  }

  // ----- Where a bridged note comes from ---------------------------------------------------------

  // The configuration that the administrator set last.
  function LastConfig(calls: seq<Call>): Option<BridgeConfig> {
    if calls == [] then None
    else
      match calls[|calls| - 1]
      case CallConfigureBridge(true, config) => Some(config)
      case _ => LastConfig(calls[..|calls| - 1])
  }

  // The hash that the administrator attested last for a block.
  function LastHash(calls: seq<Call>, block: nat): Option<Word> {
    if calls == [] then None
    else
      match calls[|calls| - 1]
      case CallAttestBlock(true, b, hash) => if b == block then Some(hash) else LastHash(calls[..|calls| - 1], block)
      case _ => LastHash(calls[..|calls| - 1], block)
  }

  function HashOf(st: State, block: nat): Option<Word> {
    if block in st.blocks then Some(st.blocks[block]) else None
  }

  lemma {:induction false} AdminOnly(host: Host, st0: State, calls: seq<Call>, block: nat)
    requires WithinCounters(st0) && st0.bridge == None && block !in st0.blocks
    ensures Run(host, st0, calls).bridge == LastConfig(calls)
    ensures HashOf(Run(host, st0, calls), block) == LastHash(calls, block)
  {
    if calls != [] {
      var front, call := calls[..|calls| - 1], calls[|calls| - 1];
      AdminOnly(host, st0, front, block);
      RunWithinCounters(host, st0, front);
      AdminStep(host, Run(host, st0, front), call, block);
    }
  }

  lemma {:induction false} AdminStep(host: Host, st: State, call: Call, block: nat)
    requires WithinCounters(st)
    ensures
      var st' := Execute(host, st, call);
      && st'.bridge == (if call.CallConfigureBridge? && call.adminOk then Some(call.config) else st.bridge)
      && HashOf(st', block) == (if call.CallAttestBlock? && call.adminOk && call.block == block then Some(call.hash)
           else HashOf(st, block))
  {
    CallsAreConfined(host, st, call);
  }

  lemma {:induction false} DeployHasNoBridge(host: Host, h: History, block: nat)
    requires Deploy(host, h).Ok?
    ensures
      var st := Deploy(host, h).value;
      st.bridge == None && block !in st.blocks && WithinCounters(st)
  {
    DeploysExactly(host, h);
  }

  // In every run, a bridged note is minted exactly when the journal carries a deposit to the bridge and
  // chain that the administrator configured last, in a block for which the administrator attested last
  // the very hash that the journal carries, and the deposit may still be minted; and then to the
  // journal's own owner tag.
  lemma {:induction false} BridgedNotesAreAttested(host: Host, h: History, n: nat, seal: seq<Byte>, journal: seq<Byte>)
    requires Deploy(host, h).Ok? && n <= |h.calls|
    ensures
      var st, cfg := StateAt(host, h, n), LastConfig(h.calls[..n]);
      ShieldFromBase(host, st, seal, journal).Ok? <==>
        exists d :: Attested(host, cfg, h.calls[..n], seal, journal, d) && MayMint(st, d)
  {
    var st, calls := StateAt(host, h, n), h.calls[..n];
    BridgesExactly(host, st, seal, journal);
    forall d
      ensures Attested(host, LastConfig(calls), calls, seal, journal, d) <==> Authentic(host, st, seal, journal, d)
    {
      DeployHasNoBridge(host, h, d.block);
      AdminOnly(host, Deploy(host, h).value, calls, d.block);
    }
  }

  ghost predicate Attested(host: Host, cfg: Option<BridgeConfig>, calls: seq<Call>, seal: seq<Byte>,
      journal: seq<Byte>, d: BaseDeposit)
  {
    && cfg.Some? && FitsWords(d.Encoded()) && journal == Concat(d.Encoded()) && host.receiptOk(cfg.value, seal, journal)
    && d.configId == cfg.value.configId && d.bridge == cfg.value.bridge
    && LastHash(calls, d.block) == Some(d.blockHash)
  }
}
