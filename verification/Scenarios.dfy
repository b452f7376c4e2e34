// Two whole histories, worked out call by call: one in which a token that two assets share leaves a
// Stellar-only asset without a token behind it, and one in which a submission overflows its proceeds.
module Scenarios {
  import opened Wrappers
  import opened Lots
  import opened Types
  import opened Codec
  import opened Ledger
  import opened Value
  import opened Matching
  import opened Sweeps
  import opened Reachable
  import opened Custody
  import opened Bounds
  import opened BookInvariant
  import opened ThreeForms
  import opened Outcomes
  import NT = NoteTree

  // A world in which every proof but a join's verifies and every hash is zero, so that zero is an
  // accepted root from the first insertion on.
  function World(): Host {
    Host((x, y) => 0, 0, (op, proof, pi) => op != JOIN_OP, ws => (0, 0), (config, seal, journal) => true, 0)
  }

  function Sent(words: seq<Word>): Signed {
    Signed([], Concat(words))
  }

  predicate Small(words: seq<Word>) {
    forall i :: 0 <= i < |words| ==> words[i] < I128_LIMIT
  }

  lemma {:induction false} PowGrows(n: nat, m: nat)
    requires n <= m
    ensures Pow256(n) <= Pow256(m)
  {
    if n < m {
      PowGrows(n, m - 1);
    }
  }

  lemma {:induction false} SmallWords(words: seq<Word>)
    requires Small(words)
    ensures FitsWords(words) && Words(Concat(words), |words|) == words
  {
    Limits();
    PowGrows(16, 32);
    WordsOfConcat(words);
  }

  lemma {:induction false} Verifies(op: nat, words: seq<Word>, n: nat)
    requires Small(words) && op != JOIN_OP && n == |words|
    ensures Ledger.VerifyProof(World(), op, [], Concat(words), n) == Ok(words)
  {
    SmallWords(words);
  }

  lemma {:induction false} RunOneMore(host: Host, st: State, calls: seq<Call>, call: Call)
    ensures Run(host, st, calls + [call]) == Execute(host, Run(host, st, calls), call)
  {
    assert (calls + [call])[..|calls|] == calls;
  }

  // Room for another call: no counter is near its limit.
  predicate Roomy(st: State, leaves: nat, seqNo: nat) {
    st.tree.next == leaves < 100 && st.bookSeq == seqNo < 100
  }

  // What an insertion does in this world: one more leaf, and zero is an accepted root.
  lemma {:induction false} Inserted(t: NT.Tree, leaf: Word)
    ensures NT.Insert(World().compress, t, leaf).next == t.next + 1
    ensures NT.Insert(World().compress, t, leaf).roots == t.roots + {0}
  {
  }

  // ----- The calls -----------------------------------------------------------------------------

  function ShieldCall(asset: nat, amount: nat): Call {
    CallShield(true, true, asset, amount, 0)
  }

  lemma {:induction false} Shields(st: State, asset: nat, token: Word, amount: nat, n: nat, q: nat)
    requires Roomy(st, n, q) && n < 99 && 0 < amount
    requires asset in st.assets && !st.assets[asset].kind.BaseRepresented? && st.assets[asset].token == Some(token)
    ensures
      var st' := Execute(World(), st, ShieldCall(asset, amount));
      && Roomy(st', n + 1, q) && st'.tree.roots == st.tree.roots + {0}
      && st'.flows == st.flows + [Deposited(asset, amount)]
      && st'.tokens == st.tokens[token := TokenBalance(st, token) + amount]
      && st' == st.(tree := st'.tree, flows := st'.flows, tokens := st'.tokens, events := st'.events)
  {
    Inserted(st.tree, NoteLeaf(World(), Note(asset, amount, 0)));
  }

  const CONFIG := BridgeConfig(0, 0, 0, 0)

  function JournalWords(deposit: nat, asset: nat, amount: nat): seq<Word> {
    BaseDeposit(0, 0, 0, 0, deposit, asset, amount, 0).Encoded()
  }

  function BridgeCall(deposit: nat, asset: nat, amount: nat): Call {
    CallShieldFromBase([], Concat(JournalWords(deposit, asset, amount)))
  }

  lemma {:induction false} ReadsJournal(host: Host, st: State, seal: seq<Byte>, journal: seq<Byte>, deposit: nat,
      note: Note)
    requires st.bridge == Some(CONFIG) && 0 in st.blocks && st.blocks[0] == 0
    requires |journal| == 32 * JOURNAL_WORDS && host.receiptOk(CONFIG, seal, journal)
    requires deposit < U64_LIMIT && note.asset < U32_LIMIT && note.amount < I128_LIMIT
    requires Words(journal, JOURNAL_WORDS) == [0, 0, 0, 0, deposit, note.asset, note.amount, note.tag]
    ensures ShieldFromBase(host, st, seal, journal) == Credit(host, st, deposit, note)
  {
  }

  lemma {:induction false} Bridges(st: State, deposit: nat, asset: nat, amount: nat, n: nat, q: nat)
    requires Roomy(st, n, q) && n < 99 && st.bridge == Some(CONFIG) && 0 in st.blocks && st.blocks[0] == 0
    requires asset in st.assets && !st.assets[asset].kind.Stellar? && asset < 100
    requires deposit !in st.deposits && deposit < 100 && 0 < amount < I128_LIMIT
    ensures
      var st' := Execute(World(), st, BridgeCall(deposit, asset, amount));
      && Roomy(st', n + 1, q) && st'.tree.roots == st.tree.roots + {0}
      && st'.flows == st.flows + [Bridged(asset, amount, deposit)]
      && st'.deposits == st.deposits + {deposit}
      && st' == st.(tree := st'.tree, flows := st'.flows, deposits := st'.deposits, events := st'.events)
  {
    var note := Note(asset, amount, 0);
    SmallWords(JournalWords(deposit, asset, amount));
    ReadsJournal(World(), st, [], Concat(JournalWords(deposit, asset, amount)), deposit, note);
    assert Attempt(World(), st, BridgeCall(deposit, asset, amount)) == Credit(World(), st, deposit, note);
    Inserted(st.tree, NoteLeaf(World(), Note(asset, amount, 0)));
  }

  // The administrator enables the bridge and attests block zero.
  function EnableCalls(): seq<Call> {
    [CallConfigureBridge(true, CONFIG)] + [CallAttestBlock(true, 0, 0)]
  }

  lemma {:induction false} Enables(st: State, calls: seq<Call>)
    requires WithinCounters(Run(World(), st, calls))
    ensures
      var st0, st' := Run(World(), st, calls), Run(World(), st, calls + EnableCalls());
      st' == st0.(bridge := Some(CONFIG), blocks := st0.blocks[0 := 0])
  {
    var first := calls + [CallConfigureBridge(true, CONFIG)];
    assert calls + EnableCalls() == first + [CallAttestBlock(true, 0, 0)];
    RunOneMore(World(), st, calls, CallConfigureBridge(true, CONFIG));
    RunOneMore(World(), st, first, CallAttestBlock(true, 0, 0));
  }

  function WithdrawalWords(nullifier: Word, asset: nat, amount: nat): seq<Word> {
    Withdrawal(0, nullifier, asset, amount, 0).Encoded()
  }

  function WithdrawCall(nullifier: Word, asset: nat, amount: nat): Call {
    CallUnshield(0, true, Sent(WithdrawalWords(nullifier, asset, amount)))
  }

  lemma {:induction false} Withdraws(st: State, nullifier: Word, asset: nat, token: Word, amount: nat)
    requires 0 in st.tree.roots && nullifier !in st.nullifiers && nullifier < 100 && asset < 100
    requires 0 < amount < I128_LIMIT
    requires asset in st.assets && !st.assets[asset].kind.BaseRepresented? && st.assets[asset].token == Some(token)
    ensures Attempt(World(), st, WithdrawCall(nullifier, asset, amount))
         == Withdraw(st, true, token, asset, amount, nullifier)
  {
    Verifies(UNSHIELD_OP, WithdrawalWords(nullifier, asset, amount), UNSHIELD_WORDS);
  }

  // ----- A shared token ------------------------------------------------------------------------

  const TOKEN := 7
  const SHARED := [AssetInit(0, Some(TOKEN), Stellar), AssetInit(1, Some(TOKEN), Dual)]

  // Enable the bridge, shield 100 of the Stellar-only asset, and bridge 100 into the dual asset.
  function SharedCalls(): seq<Call> {
    EnableCalls() + [ShieldCall(0, 100)] + [BridgeCall(0, 1, 100)]
  }

  // Then withdraw what was bridged.
  function SharedHistory(): History {
    History([], SHARED, [], SharedCalls() + [WithdrawCall(1, 1, 100)])
  }

  const SHARED_DEFS := map[0 := AssetDef(Some(TOKEN), Stellar), 1 := AssetDef(Some(TOKEN), Dual)]

  lemma {:induction false} TwoAssets(host: Host, st: State, a: AssetInit, b: AssetInit) returns (st': State)
    requires RegisterAsset(host, st, a).Ok? && RegisterAsset(host, RegisterAsset(host, st, a).value, b).Ok?
    ensures RegisterAssets(host, st, [a, b]) == Ok(st')
    ensures st' == RegisterAsset(host, RegisterAsset(host, st, a).value, b).value
  {
    assert [a, b][..1] == [a] && [a][..0] == [];
    assert RegisterAssets(host, st, []) == Ok(st);
    assert RegisterAssets(host, st, [a]) == RegisterAsset(host, st, a);
    st' := RegisterAsset(host, RegisterAsset(host, st, a).value, b).value;
  }

  lemma {:induction false} SharedDeploys() returns (st: State)
    ensures Deploy(World(), SharedHistory()) == Ok(st)
    ensures st.assets == SHARED_DEFS
    ensures Roomy(st, 0, 0) && st.flows == [] && st.tokens == map[] && st.deposits == {} && st.nullifiers == {}
    ensures st.tree.roots == {}
  {
    st := TwoAssets(World(), InitialState(World(), []), SHARED[0], SHARED[1]);
  }

  lemma {:induction false} SharedDeposits(st: State, st': State)
    requires st.assets == SHARED_DEFS && Roomy(st, 0, 0) && st.flows == [] && st.tokens == map[]
    requires st.deposits == {} && st.nullifiers == {} && st.tree.roots == {}
    requires st' == Run(World(), st, SharedCalls())
    ensures st'.assets == SHARED_DEFS && Roomy(st', 2, 0) && st'.nullifiers == {} && st'.tree.roots == {0}
    ensures st'.flows == [Deposited(0, 100), Bridged(1, 100, 0)] && st'.tokens == map[TOKEN := 100]
  {
    var w, c2 := World(), EnableCalls();
    var c3 := c2 + [ShieldCall(0, 100)];
    assert [] + EnableCalls() == c2;
    Enables(st, []);
    var s2 := Run(w, st, c2);
    RunOneMore(w, st, c2, ShieldCall(0, 100));
    Shields(s2, 0, TOKEN, 100, 0, 0);
    RunOneMore(w, st, c3, BridgeCall(0, 1, 100));
    Bridges(Run(w, st, c3), 0, 1, 100, 1, 0);
  }

  lemma {:induction false} SharedRuns() returns (st: State)
    ensures Deploy(World(), SharedHistory()).Ok? && st == StateAfter(World(), SharedHistory())
    ensures st.assets == SHARED_DEFS && TokenBalance(st, TOKEN) == 0 && 0 in st.tree.roots && st.nullifiers == {1}
    ensures st.flows == [Deposited(0, 100), Bridged(1, 100, 0), Spent(1, 100, 1), PaidOut(1, 100)]
  {
    var s0 := SharedDeploys();
    var s4 := Run(World(), s0, SharedCalls());
    SharedDeposits(s0, s4);
    RunOneMore(World(), s0, SharedCalls(), WithdrawCall(1, 1, 100));
    Withdraws(s4, 1, 1, TOKEN, 100);
    st := Withdraw(s4, true, TOKEN, 1, 100, 1).value;
  }

  // All that the token contract held is gone, a hundred of the Stellar-only asset is outstanding and
  // by the asset's own ledger fully paid for, and withdrawing it fails.
  lemma {:induction false} SharedTokenRunsOut() returns (st: State)
    ensures Deploy(World(), SharedHistory()).Ok? && st == StateAfter(World(), SharedHistory())
    ensures JoinSound(World()) && st.assets == SHARED_DEFS
    ensures FigureOf(st, Outstanding, 0) == FigureOf(st, Deposits, 0) == 100 && TokenBalance(st, TOKEN) == 0
    ensures Attempt(World(), st, WithdrawCall(2, 0, 100)) == Err(Trap)
  {
    st := SharedRuns();
    WorthByKind(World(), SharedHistory(), 0);
    Withdraws(st, 2, 0, TOKEN, 100);
    SharedFlows(st.flows);
  }

  lemma {:induction false} SharedFlows(flows: seq<Flow>)
    requires flows == [Deposited(0, 100), Bridged(1, 100, 0), Spent(1, 100, 1), PaidOut(1, 100)]
    ensures FlowSum(flows, InByShield, 0) == 100 && FlowSum(flows, OutByUnshield, 0) == 0
  {
    var f1, f2, f3 := [Deposited(0, 100)], [Deposited(0, 100), Bridged(1, 100, 0)],
      [Deposited(0, 100), Bridged(1, 100, 0), Spent(1, 100, 1)];
    assert flows[..3] == f3 && f3[..2] == f2 && f2[..1] == f1 && f1[..0] == [];
    forall kind
      ensures FlowSum(flows, kind, 0) == if kind == InByShield then 100 else 0
    {
      assert FlowSum(f1, kind, 0) == if kind == InByShield then 100 else 0;
      assert FlowSum(f2, kind, 0) == FlowSum(f1, kind, 0);
      assert FlowSum(f3, kind, 0) == FlowSum(f2, kind, 0);
    }
  }

  // ----- Proceeds that overflow ----------------------------------------------------------------

  const MOST := I128_LIMIT - 1
  const CHEAP := [AssetInit(0, None, BaseRepresented), AssetInit(1, Some(TOKEN), Stellar)]
  const CHEAP_DEFS := map[0 := AssetDef(None, BaseRepresented), 1 := AssetDef(Some(TOKEN), Stellar)]

  // Offers as much as a note can hold of the Base-represented asset for one unit of the other.
  function Seller(id: Word): Order {
    Order(id, 0, MOST, 1, 1, 0, 0, 0, true, id)
  }

  // Offers two units for one.
  const BUYER := Order(3, 1, 2, 0, 1, 0, 0, 0, false, 3)

  function SubmitCall(o: Order): Call {
    CallSubmitOrder(0, Sent(OrderWords(0, o)))
  }

  lemma {:induction false} SubmitsParsed(host: Host, st: State, now: nat, x: Signed, ws: seq<Word>, o: Order)
    requires Ledger.VerifyProof(host, LIFT_OP, x.proof, x.pi, LIFT_WORDS) == Ok(ws)
    requires ParseOrder(st.tree.roots, ws) == Ok(o)
    ensures SubmitOrder(host, st, now, x) == SubmitParsed(host, st, now, o)
  {
  }

  lemma {:induction false} Submits(host: Host, st: State, ws: seq<Word>, o: Order)
    requires host == World() && Small(ws) && |ws| == LIFT_WORDS && ParseOrder(st.tree.roots, ws) == Ok(o)
    ensures Attempt(host, st, CallSubmitOrder(0, Sent(ws))) == SubmitParsed(host, st, 0, o)
  {
    Verifies(LIFT_OP, ws, LIFT_WORDS);
    SubmitsParsed(host, st, 0, Sent(ws), ws, o);
  }

  // Two deposits of the most a note can hold come over the bridge, and two units of the other asset
  // are shielded.
  function FundingCalls(): seq<Call> {
    EnableCalls() + [BridgeCall(0, 0, MOST)] + [BridgeCall(1, 0, MOST)] + [ShieldCall(1, 2)]
  }

  // Both deposits are offered on the book.
  function CheapHistory(): History {
    History([], CHEAP, [PairDef(0, 1)], FundingCalls() + [SubmitCall(Seller(1))] + [SubmitCall(Seller(2))])
  }

  lemma {:induction false} CheapDeploys() returns (st: State)
    ensures Deploy(World(), CheapHistory()) == Ok(st)
    ensures st.assets == CHEAP_DEFS && st.pairs == [PairDef(0, 1)] && st.books == map[]
    ensures Roomy(st, 0, 0) && st.deposits == {} && st.nullifiers == {}
  {
    var st2 := TwoAssets(World(), InitialState(World(), []), CHEAP[0], CHEAP[1]);
    st := RegisterPair(st2, PairDef(0, 1)).value;
    assert [PairDef(0, 1)][..0] == [];
    assert RegisterPairs(st2, []) == Ok(st2);
    assert RegisterPairs(st2, [PairDef(0, 1)]) == Ok(st);
  }

  // A desk with one pair, a sell side with these entries, and no buy side.
  ghost predicate Selling(st: State, leaves: nat, spent: set<Word>, entries: seq<OrderEntry>) {
    && st.pairs == [PairDef(0, 1)] && Roomy(st, leaves, |entries|) && st.nullifiers == spent
    && Book(st, 0, SIDE_SELL) == entries && Book(st, 0, SIDE_BUY) == []
  }

  lemma {:induction false} CheapFunds(st: State, st': State)
    requires st.assets == CHEAP_DEFS && Selling(st, 0, {}, []) && st.deposits == {}
    requires st' == Run(World(), st, FundingCalls())
    ensures Selling(st', 3, {}, []) && 0 in st'.tree.roots
  {
    var w, c2 := World(), EnableCalls();
    var c3 := c2 + [BridgeCall(0, 0, MOST)];
    var c4 := c3 + [BridgeCall(1, 0, MOST)];
    assert [] + EnableCalls() == c2;
    Enables(st, []);
    RunOneMore(w, st, c2, BridgeCall(0, 0, MOST));
    Bridges(Run(w, st, c2), 0, 0, MOST, 0, 0);
    RunOneMore(w, st, c3, BridgeCall(1, 0, MOST));
    Bridges(Run(w, st, c3), 1, 0, MOST, 1, 0);
    RunOneMore(w, st, c4, ShieldCall(1, 2));
    Shields(Run(w, st, c4), 1, TOKEN, 2, 2, 0);
  }

  function SellerEntry(id: Word): OrderEntry {
    EntryOf(Seller(id), MOST)
  }

  // Equal offers queue up in the order in which they come.
  lemma {:induction false} SellerRests(st: State, spent: set<Word>, entries: seq<OrderEntry>, id: Word)
    requires Selling(st, 3, spent, entries) && 0 in st.tree.roots && id !in spent && id < 10 && |entries| < 10
    requires forall i :: 0 <= i < |entries| ==> entries[i].Terms() == Limit(MOST, 1)
    ensures
      var st' := Execute(World(), st, SubmitCall(Seller(id)));
      Selling(st', 3, spent + {id}, entries + [SellerEntry(id)]) && st'.tree == st.tree
  {
    var place := (0, Sell);
    ParseOfWords(st.tree.roots, 0, Seller(id));
    Submits(World(), st, OrderWords(0, Seller(id)), Seller(id));
    FirstSubmit(World(), st, 0, Seller(id), place);
    var st' := Rested(st, ThreeForms.TakingOf(st, 0, Seller(id), place));
    QueuesLast(entries, SellerEntry(id));
    assert Execute(World(), st, SubmitCall(Seller(id))) == st';
  }

  lemma {:induction false} QueuesLast(entries: seq<OrderEntry>, e: OrderEntry)
    requires forall i :: 0 <= i < |entries| ==> entries[i].Terms() == e.Terms()
    ensures WithEntry(entries, e, SIDE_SELL) == entries + [e]
  {
    SlotIsFirst(entries, e, SIDE_SELL, 0);
  }

  lemma {:induction false} BothRest(st: State, calls: seq<Call>, s5: State) returns (st': State)
    requires s5 == Run(World(), st, calls) && Selling(s5, 3, {}, []) && 0 in s5.tree.roots
    ensures st' == Run(World(), st, calls + [SubmitCall(Seller(1))] + [SubmitCall(Seller(2))])
    ensures Selling(st', 3, {1, 2}, [SellerEntry(1), SellerEntry(2)]) && 0 in st'.tree.roots
  {
    var c6 := calls + [SubmitCall(Seller(1))];
    RunOneMore(World(), st, calls, SubmitCall(Seller(1)));
    SellerRests(s5, {}, [], 1);
    var s6 := Run(World(), st, c6);
    assert [] + [SellerEntry(1)] == [SellerEntry(1)];
    RunOneMore(World(), st, c6, SubmitCall(Seller(2)));
    SellerRests(s6, {1}, [SellerEntry(1)], 2);
    st' := Run(World(), st, c6 + [SubmitCall(Seller(2))]);
  }

  // A reachable desk on which a buyer that pays two units for at least one overflows its proceeds: the
  // call fails although every amount in sight fits.
  lemma {:induction false} OverflowIsReachable() returns (st: State)
    ensures JoinSound(World()) && Deploy(World(), CheapHistory()).Ok? && st == StateAfter(World(), CheapHistory())
    ensures Admitted(st, 0, BUYER) && QuoteOf(st, 0, BUYER) >= I128_LIMIT
    ensures Attempt(World(), st, SubmitCall(BUYER)) == Err(Trap)
  {
    var s0 := CheapDeploys();
    var s5 := Run(World(), s0, FundingCalls());
    CheapFunds(s0, s5);
    st := BothRest(s0, FundingCalls(), s5);
    BuyerTraps(st);
  }

  lemma {:induction false} BuyerTraps(st: State)
    requires Selling(st, 3, {1, 2}, [SellerEntry(1), SellerEntry(2)]) && 0 in st.tree.roots
    ensures Admitted(st, 0, BUYER) && QuoteOf(st, 0, BUYER) >= I128_LIMIT
    ensures Attempt(World(), st, SubmitCall(BUYER)) == Err(Trap)
  {
    var t := TakingFor(st, 0, BUYER);
    TwoCheapMakersTrap(World(), Accept(st, t), t, SellerEntry(1), SellerEntry(2));
    ParseOfWords(st.tree.roots, 0, BUYER);
    Submits(World(), st, OrderWords(0, BUYER), BUYER);
    SubmissionTrapsOnQuote(World(), st, 0, BUYER);
  }
}
