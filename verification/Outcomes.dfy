// What each call needs and what it then does, told by the encoded public inputs and the stored fields
// alone: a call succeeds exactly when it may, and then everything it changes is named.
module Outcomes {
  import opened Wrappers
  import opened Lots
  import opened Types
  import opened Codec
  import opened Ledger
  import opened BookInvariant
  import opened Inputs
  import opened Payouts
  import opened ThreeForms
  import NT = NoteTree

  // The tree after one leaf for each of these notes, in order.
  function Grown(host: Host, tree: NT.Tree, notes: seq<Note>): NT.Tree {
    if notes == [] then tree
    else
      var n := notes[|notes| - 1];
      NT.Insert(host.compress, Grown(host, tree, notes[..|notes| - 1]),
        host.compress(host.compress(n.asset, n.amount), n.tag))
  }

  lemma {:induction false} GrownByOne(host: Host, tree: NT.Tree, n: Note)
    ensures Grown(host, tree, [n]) == NT.Insert(host.compress, tree, NoteLeaf(host, n))
  {
    assert [n][..0] == [];
    assert Grown(host, tree, []) == tree;
  }

  lemma {:induction false} GrownByTwo(host: Host, tree: NT.Tree, n: Note, m: Note)
    ensures Grown(host, tree, [n, m])
         == NT.Insert(host.compress, NT.Insert(host.compress, tree, NoteLeaf(host, n)), NoteLeaf(host, m))
  {
    assert [n, m][..1] == [n];
    GrownByOne(host, tree, n);
  }

  // An asset whose token the contract can take and hand out.
  predicate HasToken(st: State, asset: nat) {
    asset in st.assets && !st.assets[asset].kind.BaseRepresented? && st.assets[asset].token.Some?
  }

  // ----- Shielding -----------------------------------------------------------------------------

  // A deposit needs the depositor's consent, a positive amount of an asset with a token, and the
  // token's transfer; it adds to that token's balance and nothing else, and mints one note to the
  // depositor's tag.
  lemma {:induction false} ShieldsExactly(host: Host, st: State, authorized: bool, transferOk: bool, asset: nat,
      amount: int, tag: Word)
    ensures
      var r := Shield(host, st, authorized, transferOk, asset, amount, tag);
      && (r.Ok? <==> authorized && transferOk && 0 < amount && HasToken(st, asset))
      && (r.Ok? ==>
            var token, note := st.assets[asset].token.value, Note(asset, amount, tag);
            r.value == st.(tokens := st.tokens[token := TokenBalance(st, token) + amount],
              tree := Grown(host, st.tree, [note]), events := st.events + [Shielded(note)],
              flows := st.flows + [Deposited(asset, amount)]))
  {
    if 0 < amount {
      GrownByOne(host, st.tree, Note(asset, amount, tag));
    }
  }

  // ----- Bridging ------------------------------------------------------------------------------

  // A Base deposit as the bridge's journal carries it.
  datatype BaseDeposit = BaseDeposit(block: nat, blockHash: Word, configId: Word, bridge: Word, deposit: nat,
    asset: nat, amount: nat, tag: Word)
  {
    function Encoded(): seq<Word> {
      [block, blockHash, configId, bridge, deposit, asset, amount, tag]
    }
  }

  // Made to the configured bridge on the configured chain, in a block whose attested hash is the
  // deposit's own.
  predicate FromConfigured(st: State, d: BaseDeposit)
    requires st.bridge.Some?
  {
    && d.configId == st.bridge.value.configId && d.bridge == st.bridge.value.bridge
    && d.block in st.blocks && st.blocks[d.block] == d.blockHash
  }

  // The journal and its receipt carry this deposit.
  ghost predicate Authentic(host: Host, st: State, seal: seq<Byte>, journal: seq<Byte>, d: BaseDeposit) {
    && st.bridge.Some? && FitsWords(d.Encoded()) && journal == Concat(d.Encoded())
    && host.receiptOk(st.bridge.value, seal, journal) && FromConfigured(st, d)
  }

  // It fits its machine types, is in an asset that lives on Base, and was not minted before.
  ghost predicate MayMint(st: State, d: BaseDeposit) {
    && d.block < U64_LIMIT && d.deposit < U64_LIMIT && d.asset < U32_LIMIT && 0 < d.amount < I128_LIMIT
    && d.asset in st.assets && !st.assets[d.asset].kind.Stellar? && d.deposit !in st.deposits
  }

  lemma {:induction false} JournalReads(host: Host, st: State, seal: seq<Byte>, journal: seq<Byte>, d: BaseDeposit)
    requires st.bridge.Some? && |journal| == 32 * JOURNAL_WORDS && Words(journal, JOURNAL_WORDS) == d.Encoded()
    requires host.receiptOk(st.bridge.value, seal, journal)
    ensures
      var r := ShieldFromBase(host, st, seal, journal);
      && (r.Ok? <==> MayMint(st, d) && FromConfigured(st, d))
      && (r.Ok? ==> r == Credit(host, st, d.deposit, Note(d.asset, d.amount, d.tag)))
  {
  }

  // A bridged mint needs the configured chain, the configured bridge and the attested hash of that very
  // block; it mints one note to the journal's owner tag, and the deposit can be minted no more.
  lemma {:induction false} BridgesExactly(host: Host, st: State, seal: seq<Byte>, journal: seq<Byte>)
    ensures ShieldFromBase(host, st, seal, journal).Ok?
       <==> exists d: BaseDeposit :: Authentic(host, st, seal, journal, d) && MayMint(st, d)
  {
    if st.bridge.Some? && |journal| == 32 * JOURNAL_WORDS && host.receiptOk(st.bridge.value, seal, journal) {
      var ws := Words(journal, JOURNAL_WORDS);
      var d := BaseDeposit(ws[0], ws[1], ws[2], ws[3], ws[4], ws[5], ws[6], ws[7]);
      assert ws == d.Encoded();
      EncodingIsExact(journal, ws);
      JournalReads(host, st, seal, journal, d);
    }
    forall d | Authentic(host, st, seal, journal, d) && MayMint(st, d)
      ensures ShieldFromBase(host, st, seal, journal).Ok?
    {
      BridgeDoes(host, st, seal, journal, d);
    }
  }

  lemma {:induction false} BridgeDoes(host: Host, st: State, seal: seq<Byte>, journal: seq<Byte>, d: BaseDeposit)
    requires Authentic(host, st, seal, journal, d) && MayMint(st, d)
    ensures
      var note := Note(d.asset, d.amount, d.tag);
      ShieldFromBase(host, st, seal, journal)
        == Ok(st.(deposits := st.deposits + {d.deposit}, tree := Grown(host, st.tree, [note]),
             events := st.events + [Shielded(note)], flows := st.flows + [Bridged(d.asset, d.amount, d.deposit)]))
  {
    EncodingIsExact(journal, d.Encoded());
    JournalReads(host, st, seal, journal, d);
    GrownByOne(host, st.tree, Note(d.asset, d.amount, d.tag));
  }

  // ----- Withdrawing ---------------------------------------------------------------------------

  datatype Withdrawal = Withdrawal(root: Word, nullifier: Word, asset: nat, amount: nat, recipient: Word) {
    function Encoded(): seq<Word> {
      [UNSHIELD_DOMAIN, root, nullifier, asset, amount, recipient]
    }
  }

  // A withdrawal of a positive amount from an unspent note, bound to the payee the caller names, in an
  // asset whose token covers it.
  ghost predicate MayWithdraw(st: State, to: Word, transferOk: bool, w: Withdrawal) {
    && w.root in st.tree.roots && w.nullifier !in st.nullifiers && w.recipient == to
    && w.asset < U32_LIMIT && 0 < w.amount < I128_LIMIT && HasToken(st, w.asset)
    && transferOk && w.amount <= TokenBalance(st, st.assets[w.asset].token.value)
  }

  lemma {:induction false} WithdrawalReads(host: Host, st: State, to: Word, transferOk: bool, x: Signed, w: Withdrawal)
    requires VerifyProof(host, UNSHIELD_OP, x.proof, x.pi, UNSHIELD_WORDS) == Ok(w.Encoded())
    ensures
      var r := Unshield(host, st, to, transferOk, x);
      && (r.Ok? <==> MayWithdraw(st, to, transferOk, w))
      && (r.Ok? ==>
            r == Withdraw(st, transferOk, st.assets[w.asset].token.value, w.asset, w.amount, w.nullifier))
  {
  }

  // A withdrawal succeeds exactly when its proof carries one that may be made to the named payee.
  lemma {:induction false} WithdrawsExactly(host: Host, st: State, to: Word, transferOk: bool, x: Signed)
    ensures Unshield(host, st, to, transferOk, x).Ok?
       <==> exists w: Withdrawal :: Proven(host, UNSHIELD_OP, x, w.Encoded()) && MayWithdraw(st, to, transferOk, w)
  {
    var r := VerifyProof(host, UNSHIELD_OP, x.proof, x.pi, UNSHIELD_WORDS);
    if Unshield(host, st, to, transferOk, x).Ok? {
      var ws := r.value;
      var w := Withdrawal(ws[1], ws[2], ws[3], ws[4], ws[5]);
      assert ws == w.Encoded();
      VerifiedIsProven(host, UNSHIELD_OP, x, UNSHIELD_WORDS);
      WithdrawalReads(host, st, to, transferOk, x, w);
    }
    forall w: Withdrawal | Proven(host, UNSHIELD_OP, x, w.Encoded()) && MayWithdraw(st, to, transferOk, w)
      ensures Unshield(host, st, to, transferOk, x).Ok?
    {
      WithdrawalDoes(host, st, to, transferOk, x, w);
    }
  }

  // Exactly that note is spent, exactly that token hands out the amount, and one event says so.
  lemma {:induction false} WithdrawalDoes(host: Host, st: State, to: Word, transferOk: bool, x: Signed, w: Withdrawal)
    requires Proven(host, UNSHIELD_OP, x, w.Encoded()) && MayWithdraw(st, to, transferOk, w)
    ensures
      var token := st.assets[w.asset].token.value;
      Unshield(host, st, to, transferOk, x)
        == Ok(st.(nullifiers := st.nullifiers + {w.nullifier},
             tokens := st.tokens[token := TokenBalance(st, token) - w.amount],
             events := st.events + [Unshielded(w.asset, w.amount, w.nullifier)],
             flows := st.flows + [Spent(w.asset, w.amount, w.nullifier), PaidOut(w.asset, w.amount)]))
  {
    WithdrawalPays(host, st, to, transferOk, x, w);
    assert st.flows + [Spent(w.asset, w.amount, w.nullifier)] + [PaidOut(w.asset, w.amount)]
        == st.flows + [Spent(w.asset, w.amount, w.nullifier), PaidOut(w.asset, w.amount)];
  }

  lemma {:induction false} WithdrawalPays(host: Host, st: State, to: Word, transferOk: bool, x: Signed, w: Withdrawal)
    requires Proven(host, UNSHIELD_OP, x, w.Encoded()) && MayWithdraw(st, to, transferOk, w)
    ensures Unshield(host, st, to, transferOk, x)
         == Withdraw(st, transferOk, st.assets[w.asset].token.value, w.asset, w.amount, w.nullifier)
  {
    ProofIsExact(host, UNSHIELD_OP, x, UNSHIELD_WORDS, w.Encoded());
    WithdrawalReads(host, st, to, transferOk, x, w);
  }

  // ----- Joining -------------------------------------------------------------------------------

  // A note of nothing is not made.
  function Real(n: Note): seq<Note> {
    if n.amount == 0 then [] else [n]
  }

  function Inserted(notes: seq<Note>): seq<Event> {
    seq(|notes|, i requires 0 <= i < |notes| => NoteInserted(notes[i]))
  }

  lemma {:induction false} MintDoes(host: Host, st: State, n: Note)
    ensures Mint(host, st, n)
         == st.(tree := Grown(host, st.tree, Real(n)), events := st.events + Inserted(Real(n)))
  {
    GrownByOne(host, st.tree, n);
    assert Grown(host, st.tree, []) == st.tree;
    assert st.events + Inserted([]) == st.events;
    assert Inserted([n]) == [NoteInserted(n)];
  }

  lemma {:induction false} GrownAppends(host: Host, tree: NT.Tree, a: seq<Note>, b: seq<Note>)
    ensures Grown(host, Grown(host, tree, a), b) == Grown(host, tree, a + b)
  {
    if b == [] {
      assert a + b == a;
    } else {
      GrownAppends(host, tree, a, b[..|b| - 1]);
      assert (a + b)[..|a + b| - 1] == a + b[..|b| - 1];
    }
  }

  // Two notes of one asset become two notes, each of its own amount to its own tag.
  datatype Joining = Joining(root: Word, nf1: Word, nf2: Word, asset: nat, tag1: Word, out1: nat, tag2: Word,
    out2: nat)
  {
    function Encoded(): seq<Word> {
      [JOIN_DOMAIN, root, nf1, nf2, asset, tag1, out1, tag2, out2]
    }
    // The notes it makes: none for an output of nothing.
    function Outputs(): seq<Note> {
      Real(Note(asset, out1, tag1)) + Real(Note(asset, out2, tag2))
    }
  }

  ghost predicate MayJoin(st: State, j: Joining) {
    && j.root in st.tree.roots && j.nf1 != j.nf2 && j.nf1 !in st.nullifiers && j.nf2 !in st.nullifiers
    && j.asset < U32_LIMIT && j.out1 < I128_LIMIT && j.out2 < I128_LIMIT
  }

  lemma {:induction false} JoiningReads(host: Host, st: State, x: Signed, j: Joining)
    requires VerifyProof(host, JOIN_OP, x.proof, x.pi, JOIN_WORDS) == Ok(j.Encoded())
    ensures
      var r := Join(host, st, x);
      && (r.Ok? <==> MayJoin(st, j))
      && (r.Ok? ==> r.value == Merge(host, st, j.asset, j.Encoded(), host.joinInputs(j.Encoded()),
            Note(j.asset, j.out1, j.tag1), Note(j.asset, j.out2, j.tag2)))
  {
  }

  lemma {:induction false} JoinsExactly(host: Host, st: State, x: Signed)
    ensures Join(host, st, x).Ok?
       <==> exists j: Joining :: Proven(host, JOIN_OP, x, j.Encoded()) && MayJoin(st, j)
  {
    if Join(host, st, x).Ok? {
      var ws := VerifyProof(host, JOIN_OP, x.proof, x.pi, JOIN_WORDS).value;
      var j := Joining(ws[1], ws[2], ws[3], ws[4], ws[5], ws[6], ws[7], ws[8]);
      assert ws == j.Encoded();
      VerifiedIsProven(host, JOIN_OP, x, JOIN_WORDS);
      JoiningReads(host, st, x, j);
    }
    forall j: Joining | Proven(host, JOIN_OP, x, j.Encoded()) && MayJoin(st, j)
      ensures Join(host, st, x).Ok?
    {
      JoinDoes(host, st, x, j);
    }
  }

  // Exactly the two notes are spent, and the two bound notes are made and announced in order, each with
  // its own amount and tag.
  lemma {:induction false} JoinDoes(host: Host, st: State, x: Signed, j: Joining)
    requires Proven(host, JOIN_OP, x, j.Encoded()) && MayJoin(st, j)
    ensures
      var ins := host.joinInputs(j.Encoded());
      Join(host, st, x)
        == Ok(st.(nullifiers := st.nullifiers + {j.nf1, j.nf2}, tree := Grown(host, st.tree, j.Outputs()),
             events := st.events + Inserted(j.Outputs()) + [Event.Joined(j.asset, j.nf1, j.nf2)],
             flows := st.flows + [Spent(j.asset, ins.0, j.nf1), Spent(j.asset, ins.1, j.nf2)]))
  {
    JoinMerges(host, st, x, j);
    MintsOutputs(host, st, j);
  }

  lemma {:induction false} JoinMerges(host: Host, st: State, x: Signed, j: Joining)
    requires Proven(host, JOIN_OP, x, j.Encoded()) && MayJoin(st, j)
    ensures Join(host, st, x)
         == Ok(Merge(host, st, j.asset, j.Encoded(), host.joinInputs(j.Encoded()),
              Note(j.asset, j.out1, j.tag1), Note(j.asset, j.out2, j.tag2)))
  {
    ProofIsExact(host, JOIN_OP, x, JOIN_WORDS, j.Encoded());
    JoiningReads(host, st, x, j);
  }

  lemma {:induction false} MintsOutputs(host: Host, st: State, j: Joining)
    ensures
      var ins := host.joinInputs(j.Encoded());
      Merge(host, st, j.asset, j.Encoded(), ins, Note(j.asset, j.out1, j.tag1), Note(j.asset, j.out2, j.tag2))
        == st.(nullifiers := st.nullifiers + {j.nf1, j.nf2}, tree := Grown(host, st.tree, j.Outputs()),
             events := st.events + Inserted(j.Outputs()) + [Event.Joined(j.asset, j.nf1, j.nf2)],
             flows := st.flows + [Spent(j.asset, ins.0, j.nf1), Spent(j.asset, ins.1, j.nf2)])
  {
    var ins := host.joinInputs(j.Encoded());
    var spent := Spend(Spend(st, j.nf1, j.asset, ins.0), j.nf2, j.asset, ins.1);
    assert st.nullifiers + {j.nf1} + {j.nf2} == st.nullifiers + {j.nf1, j.nf2};
    assert st.flows + [Spent(j.asset, ins.0, j.nf1)] + [Spent(j.asset, ins.1, j.nf2)]
        == st.flows + [Spent(j.asset, ins.0, j.nf1), Spent(j.asset, ins.1, j.nf2)];
    MintsTwo(host, spent, j);
  }

  lemma {:induction false} MintsTwo(host: Host, st: State, j: Joining)
    ensures Mint(host, Mint(host, st, Note(j.asset, j.out1, j.tag1)), Note(j.asset, j.out2, j.tag2))
         == st.(tree := Grown(host, st.tree, j.Outputs()), events := st.events + Inserted(j.Outputs()))
  {
    var n1, n2 := Note(j.asset, j.out1, j.tag1), Note(j.asset, j.out2, j.tag2);
    MintDoes(host, st, n1);
    MintDoes(host, Mint(host, st, n1), n2);
    GrownAppends(host, st.tree, Real(n1), Real(n2));
    assert Inserted(Real(n1)) + Inserted(Real(n2)) == Inserted(Real(n1) + Real(n2));
    assert st.events + Inserted(Real(n1)) + Inserted(Real(n2)) == st.events + (Inserted(Real(n1)) + Inserted(Real(n2)));
  }

  // ----- Direct settlement ---------------------------------------------------------------------

  // Each order asks for the asset that the other offers and gets at least its minimum of it, and both
  // spend notes of their own that nobody has spent.
  predicate Compatible(st: State, a: Order, b: Order) {
    && a.assetOut == b.assetIn && b.assetOut == a.assetIn && a.minOut <= b.amountIn && b.minOut <= a.amountIn
    && a.nullifier != b.nullifier && a.nullifier !in st.nullifiers && b.nullifier !in st.nullifiers
  }

  lemma {:induction false} SettlesParsed(host: Host, st: State, x: Signed, y: Signed, a: Order, b: Order)
    requires TwoOrders(host, st, x, y) == Ok((a, b))
    ensures Settle(host, st, x, y).Ok? <==> Compatible(st, a, b)
    ensures Settle(host, st, x, y).Ok? ==> Settle(host, st, x, y) == Ok(Exchange(host, st, a, b))
  {
  }

  // Two presented orders settle exactly when they are compatible.
  lemma {:induction false} SettlesExactly(host: Host, st: State, x: Signed, y: Signed)
    ensures Settle(host, st, x, y).Ok?
       <==> exists a, b :: Presents(host, st, x, a) && Presents(host, st, y, b) && Compatible(st, a, b)
  {
    if Settle(host, st, x, y).Ok? {
      var (a, b) := TwoOrders(host, st, x, y).value;
      OrdersAreExact(host, st, x, y, a, b);
      SettlesParsed(host, st, x, y, a, b);
    }
    if a, b :| Presents(host, st, x, a) && Presents(host, st, y, b) && Compatible(st, a, b) {
      OrdersAreExact(host, st, x, y, a, b);
      SettlesParsed(host, st, x, y, a, b);
    }
  }

  lemma {:induction false} ExchangeDoes(host: Host, st: State, a: Order, b: Order)
    requires a.assetOut == b.assetIn && b.assetOut == a.assetIn
    ensures
      var noteA, noteB := Note(b.assetIn, b.amountIn, a.outputTag), Note(a.assetIn, a.amountIn, b.outputTag);
      Exchange(host, st, a, b)
        == st.(nullifiers := st.nullifiers + {a.nullifier, b.nullifier},
             tree := Grown(host, st.tree, [noteA, noteB]), events := st.events + [Settled(noteA, noteB)],
             flows := st.flows + [Spent(a.assetIn, a.amountIn, a.nullifier), Spent(b.assetIn, b.amountIn, b.nullifier)])
  {
    GrownByTwo(host, st.tree, Note(b.assetIn, b.amountIn, a.outputTag), Note(a.assetIn, a.amountIn, b.outputTag));
    assert st.nullifiers + {a.nullifier} + {b.nullifier} == st.nullifiers + {a.nullifier, b.nullifier};
    assert st.flows + [Spent(a.assetIn, a.amountIn, a.nullifier)] + [Spent(b.assetIn, b.amountIn, b.nullifier)]
        == st.flows + [Spent(a.assetIn, a.amountIn, a.nullifier), Spent(b.assetIn, b.amountIn, b.nullifier)];
  }

  // Then each is paid all that the other offers, to its own output tag, and nothing else changes.
  lemma {:induction false} SettlementDoes(host: Host, st: State, x: Signed, y: Signed, a: Order, b: Order)
    requires Presents(host, st, x, a) && Presents(host, st, y, b) && Compatible(st, a, b)
    ensures
      var noteA, noteB := Note(b.assetIn, b.amountIn, a.outputTag), Note(a.assetIn, a.amountIn, b.outputTag);
      Settle(host, st, x, y)
        == Ok(st.(nullifiers := st.nullifiers + {a.nullifier, b.nullifier},
             tree := Grown(host, st.tree, [noteA, noteB]), events := st.events + [Settled(noteA, noteB)],
             flows := st.flows
               + [Spent(a.assetIn, a.amountIn, a.nullifier), Spent(b.assetIn, b.amountIn, b.nullifier)]))
  {
    OrdersAreExact(host, st, x, y, a, b);
    SettlesParsed(host, st, x, y, a, b);
    ExchangeDoes(host, st, a, b);
  }

  lemma {:induction false} SettleEitherWay(host: Host, st: State, x: Signed, y: Signed)
    requires Settle(host, st, x, y).Ok?
    ensures Settle(host, st, y, x).Ok?
  {
    var (a, b) := TwoOrders(host, st, x, y).value;
    OrdersAreExact(host, st, x, y, a, b);
    SettlesParsed(host, st, x, y, a, b);
    OrdersAreExact(host, st, y, x, b, a);
    SettlesParsed(host, st, y, x, b, a);
  }

  // Which side is called the first does not matter.
  lemma {:induction false} SettleIsSymmetric(host: Host, st: State, x: Signed, y: Signed)
    ensures Settle(host, st, x, y).Ok? <==> Settle(host, st, y, x).Ok?
  {
    if Settle(host, st, x, y).Ok? {
      SettleEitherWay(host, st, x, y);
    }
    if Settle(host, st, y, x).Ok? {
      SettleEitherWay(host, st, y, x);
    }
  }

  // One of the registered pairs trades these two assets.
  predicate Trades(st: State, a: nat, b: nat) {
    exists i :: 0 <= i < |st.pairs| && SamePair(st.pairs[i], PairDef(a, b))
  }

  lemma {:induction false} FoundIsTraded(pairs: seq<PairDef>, a: nat, b: nat, i: nat)
    requires i <= |pairs|
    ensures PairAndSideFrom(pairs, a, b, i).Ok? <==> exists j :: i <= j < |pairs| && SamePair(pairs[j], PairDef(a, b))
    decreases |pairs| - i
  {
    if i < |pairs| {
      FoundIsTraded(pairs, a, b, i + 1);
    }
  }

  // Each order offers exactly what the other asks for, and some pair trades their two assets.
  predicate ExactReverses(st: State, a: Order, b: Order) {
    && Compatible(st, a, b) && a.amountIn == b.minOut && b.amountIn == a.minOut
    && a.assetIn != a.assetOut && Trades(st, a.assetIn, a.assetOut)
  }

  // The strict form takes exact reverses only, and then does what the other form does.
  lemma {:induction false} SettlesExactlyStrict(host: Host, st: State, x: Signed, y: Signed)
    ensures SettleExact(host, st, x, y).Ok?
       <==> exists a, b :: Presents(host, st, x, a) && Presents(host, st, y, b) && ExactReverses(st, a, b)
  {
    if SettleExact(host, st, x, y).Ok? {
      var (a, b) := TwoOrders(host, st, x, y).value;
      OrdersAreExact(host, st, x, y, a, b);
      StrictOfParsed(host, st, x, y, a, b);
    }
    if a, b :| Presents(host, st, x, a) && Presents(host, st, y, b) && ExactReverses(st, a, b) {
      OrdersAreExact(host, st, x, y, a, b);
      StrictOfParsed(host, st, x, y, a, b);
    }
  }

  lemma {:induction false} StrictSettlementDoes(host: Host, st: State, x: Signed, y: Signed, a: Order, b: Order)
    requires Presents(host, st, x, a) && Presents(host, st, y, b) && ExactReverses(st, a, b)
    ensures SettleExact(host, st, x, y) == Settle(host, st, x, y)
  {
    OrdersAreExact(host, st, x, y, a, b);
    StrictOfParsed(host, st, x, y, a, b);
  }

  lemma {:induction false} StrictOfParsed(host: Host, st: State, x: Signed, y: Signed, a: Order, b: Order)
    requires TwoOrders(host, st, x, y) == Ok((a, b))
    ensures
      var r := SettleExact(host, st, x, y);
      && (r.Ok? <==> ExactReverses(st, a, b))
      && (r.Ok? ==> r == Settle(host, st, x, y))
  {
    FoundIsTraded(st.pairs, a.assetIn, a.assetOut, 0);
    if a.assetIn != a.assetOut {
      ReversedPair(st.pairs, a.assetIn, a.assetOut, 0);
    } else {
      SameAssetSells(st.pairs, a.assetIn, 0);
    }
  }

  lemma {:induction false} SameAssetSells(pairs: seq<PairDef>, asset: nat, i: nat)
    requires i <= |pairs|
    ensures var r := PairAndSideFrom(pairs, asset, asset, i); r.Ok? ==> r.value.1 == Sell
    decreases |pairs| - i
  {
    if i < |pairs| {
      SameAssetSells(pairs, asset, i + 1);
    }
  }

  // ----- Cancelling ----------------------------------------------------------------------------

  datatype Cancellation = Cancellation(leaf: Word, tag: Word, returnTag: Word) {
    function Encoded(): seq<Word> {
      [CANCEL_DOMAIN, leaf, tag, returnTag]
    }
  }

  // One side of a registered pair.
  predicate IsSide(st: State, p: nat, s: nat) {
    p < |st.pairs| && (s == SIDE_BUY || s == SIDE_SELL)
  }

  // The first entry of the side that answers to this leaf and cancel tag stands at i.
  predicate FirstNamed(book: seq<OrderEntry>, c: Cancellation, i: nat) {
    && i < |book| && book[i].leaf == c.leaf && book[i].cancelTag == c.tag
    && (forall j :: 0 <= j < i ==> book[j].leaf != c.leaf || book[j].cancelTag != c.tag)
  }

  ghost predicate NamesEntry(host: Host, st: State, p: nat, s: nat, x: Signed, c: Cancellation, i: nat) {
    Proven(host, CANCEL_OP, x, c.Encoded()) && FirstNamed(Book(st, p, s), c, i)
  }

  lemma {:induction false} CancellationReads(host: Host, st: State, p: nat, s: nat, x: Signed, c: Cancellation)
    requires VerifyProof(host, CANCEL_OP, x.proof, x.pi, CANCEL_WORDS) == Ok(c.Encoded())
    ensures
      var r, book := CancelOrder(host, st, p, s, x), Book(st, p, s);
      var i := FindCancel(book, c.leaf, c.tag, 0);
      && (r.Ok? <==> IsSide(st, p, s) && FirstNamed(book, c, i))
      && (r.Ok? ==>
            var note := Note(st.pairs[p].AssetIn(s), book[i].remainingIn, c.returnTag);
            r.value == Close(host, st, p, s, i, note, Cancelled))
  {
    FindCancelIsFirst(Book(st, p, s), c.leaf, c.tag, 0);
  }

  // A cancellation succeeds exactly when its proof names the leaf and the cancel tag of an entry of
  // that side.
  lemma {:induction false} CancelsExactly(host: Host, st: State, p: nat, s: nat, x: Signed)
    ensures CancelOrder(host, st, p, s, x).Ok?
       <==> IsSide(st, p, s) && exists c, i :: NamesEntry(host, st, p, s, x, c, i)
  {
    if CancelOrder(host, st, p, s, x).Ok? {
      var ws := VerifyProof(host, CANCEL_OP, x.proof, x.pi, CANCEL_WORDS).value;
      var c := Cancellation(ws[1], ws[2], ws[3]);
      assert ws == c.Encoded();
      VerifiedIsProven(host, CANCEL_OP, x, CANCEL_WORDS);
      CancellationReads(host, st, p, s, x, c);
      assert NamesEntry(host, st, p, s, x, c, FindCancel(Book(st, p, s), c.leaf, c.tag, 0));
    }
    if c, i :| IsSide(st, p, s) && NamesEntry(host, st, p, s, x, c, i) {
      CancelDoes(host, st, p, s, x, c, i);
    }
  }

  // Exactly that entry leaves the side, all that it locks goes to the return tag in one note, and two
  // events say so.
  lemma {:induction false} CancelDoes(host: Host, st: State, p: nat, s: nat, x: Signed, c: Cancellation, i: nat)
    requires IsSide(st, p, s) && NamesEntry(host, st, p, s, x, c, i)
    ensures
      var book := Book(st, p, s);
      var note := Note(st.pairs[p].AssetIn(s), book[i].remainingIn, c.returnTag);
      CancelOrder(host, st, p, s, x)
        == Ok(st.(books := st.books[(p, s) := book[..i] + book[i + 1..]], bookSeq := st.bookSeq + 1,
             tree := Grown(host, st.tree, [note]), deals := st.deals + [Refund(book[i].orderId, book[i].remainingIn)],
             events := st.events
               + [NoteInserted(note), OrderRemoved(st.bookSeq + 1, p, s, book[i].orderId, CANCELLED_CODE)]))
  {
    var book := Book(st, p, s);
    FindCancelIsFirst(book, c.leaf, c.tag, 0);
    assert FindCancel(book, c.leaf, c.tag, 0) == i;
    ProofIsExact(host, CANCEL_OP, x, CANCEL_WORDS, c.Encoded());
    CancellationReads(host, st, p, s, x, c);
    CloseDoes(host, st, p, s, i, Note(st.pairs[p].AssetIn(s), book[i].remainingIn, c.returnTag), Cancelled);
  }

  lemma {:induction false} CloseDoes(host: Host, st: State, p: nat, s: nat, i: nat, note: Note, reason: RemoveReason)
    requires i < |Book(st, p, s)| && 0 < note.amount
    ensures
      var book := Book(st, p, s);
      Close(host, st, p, s, i, note, reason)
        == st.(books := st.books[(p, s) := book[..i] + book[i + 1..]], bookSeq := st.bookSeq + 1,
             tree := Grown(host, st.tree, [note]), deals := st.deals + [Refund(book[i].orderId, note.amount)],
             events := st.events
               + [NoteInserted(note), OrderRemoved(st.bookSeq + 1, p, s, book[i].orderId, reason.Code())])
  {
    GrownByOne(host, st.tree, note);
    var id := Book(st, p, s)[i].orderId;
    assert st.events + [NoteInserted(note)] + [OrderRemoved(st.bookSeq + 1, p, s, id, reason.Code())]
        == st.events + [NoteInserted(note), OrderRemoved(st.bookSeq + 1, p, s, id, reason.Code())];
  }
}
