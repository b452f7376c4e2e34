// The settlement contract as a program: stored fields updated in place, the loops of the tree, the
// book and the matching, and the host that commits a call or discards it. Every method is proved
// equal to its transition function in Ledger.
module Contract {
  import opened Wrappers
  import opened Lots
  import opened Types
  import opened Codec
  import opened Ledger
  import opened BookInvariant
  import opened Matching
  import opened Payouts
  import opened Reachable
  import NT = NoteTree

  type Levels = s: seq<Word> | |s| == NT.TREE_DEPTH witness seq(NT.TREE_DEPTH, i => 0)

  // Everything the contract stores.
  datatype Storage = Storage(
    assets: map<nat, AssetDef>,
    pairs: seq<PairDef>,
    nullifiers: set<Word>,
    books: map<(nat, nat), seq<OrderEntry>>,
    bookSeq: nat,
    treeFilled: Levels,
    treeNext: nat,
    treeRoot: Word,
    roots: set<Word>,
    events: seq<Event>,
    bridge: Option<BridgeConfig>,
    blocks: map<nat, Word>,
    deposits: set<nat>,
    tokens: map<Word, nat>)

  function StoredPart(st: State): Storage {
    Storage(st.assets, st.pairs, st.nullifiers, st.books, st.bookSeq, st.tree.filled, st.tree.next, st.tree.root,
      st.tree.roots, st.events, st.bridge, st.blocks, st.deposits, st.tokens)
  }

  // A call's outcome and the state it leaves behind are what the transition function says.
  ghost predicate Meets(r: Result<(), Error>, after: State, spec: Result<State, Error>) {
    match spec
    case Ok(st) => r.Ok? && after == st
    case Err(e) => r == Err(e)
  }

  // Minting touches neither the books nor the book sequence.
  lemma {:induction false} MintCommutes(host: Host, st: State, note: Note, books: map<(nat, nat), seq<OrderEntry>>,
      bookSeq: nat)
    ensures Mint(host, st.(books := books, bookSeq := bookSeq), note)
         == Mint(host, st, note).(books := books, bookSeq := bookSeq)
  {
  }

  lemma {:induction false} RefundCommutes(host: Host, st: State, orderId: Word, note: Note,
    books: map<(nat, nat), seq<OrderEntry>>, bookSeq: nat)
    ensures RefundNote(host, st.(books := books, bookSeq := bookSeq), orderId, note)
         == RefundNote(host, st, orderId, note).(books := books, bookSeq := bookSeq)
  {
    MintCommutes(host, st, note, books, bookSeq);
  }

  lemma {:induction false} ProceedsCommute(host: Host, st: State, t: Taking, maker: OrderEntry, f: Fill,
    books: map<(nat, nat), seq<OrderEntry>>, bookSeq: nat)
    ensures Proceeds(host, st.(books := books, bookSeq := bookSeq), t, maker, f)
         == Proceeds(host, st, t, maker, f).(books := books, bookSeq := bookSeq)
  {
    var noteT := Note(t.MakerAsset(), f.give, t.taker.outputTag);
    MintCommutes(host, st, noteT, books, bookSeq);
    MintCommutes(host, Mint(host, st, noteT), Note(t.TakerAsset(), f.pay, maker.outputTag), books, bookSeq);
  }

  // What a fill moves, told in base and quote units: a buying taker's maker gives base.
  function FillIn(takerSide: Side, fBase: nat, qQuote: nat): Fill {
    if takerSide.Buy? then Fill(fBase, qQuote) else Fill(qQuote, fBase)
  }

  // Loading a side that is not stored yet changes nothing for the pruning loop.
  lemma {:induction false} PruneOnLoaded(host: Host, st: State, now: nat, pairId: nat, side: nat, assetIn: nat,
      max: nat)
    ensures
      var loaded := StoreBook(st, pairId, side, Book(st, pairId, side));
      if Book(st, pairId, side) == [] then
        && PruneRun(host, st, now, pairId, side, assetIn, 0, max) == st
        && PruneRun(host, loaded, now, pairId, side, assetIn, 0, max) == loaded
      else loaded == st
  {
  }

  // Registration stops at the first entry it refuses.
  lemma {:induction false} AssetsStop(host: Host, st: State, assets: seq<AssetInit>, n: nat)
    requires n <= |assets|
    ensures var r := RegisterAssets(host, st, assets[..n]); r.Err? ==> RegisterAssets(host, st, assets) == r
    decreases |assets|
  {
    if n < |assets| {
      var front := assets[..|assets| - 1];
      assert front[..n] == assets[..n];
      AssetsStop(host, st, front, n);
    } else {
      assert assets[..n] == assets;
    }
  }

  lemma {:induction false} PairsStop(st: State, pairs: seq<PairDef>, n: nat)
    requires n <= |pairs|
    ensures var r := RegisterPairs(st, pairs[..n]); r.Err? ==> RegisterPairs(st, pairs) == r
    decreases |pairs|
  {
    if n < |pairs| {
      var front := pairs[..|pairs| - 1];
      assert front[..n] == pairs[..n];
      PairsStop(st, front, n);
    } else {
      assert pairs[..n] == pairs;
    }
  }

  class Settlement {
    const host: Host
    var assets: map<nat, AssetDef>
    var pairs: seq<PairDef>
    var nullifiers: set<Word>
    var books: map<(nat, nat), seq<OrderEntry>>
    var bookSeq: nat
    var treeFilled: Levels
    var treeNext: nat
    var treeRoot: Word
    var roots: set<Word>
    var events: seq<Event>
    var bridge: Option<BridgeConfig>
    var blocks: map<nat, Word>
    var deposits: set<nat>
    var tokens: map<Word, nat> // kept by the token contracts, and rolled back with everything else
    ghost var flows: seq<Flow>
    ghost var deals: seq<Deal>
    ghost var accepted: map<Word, Accepted>

    ghost function Tree(): NT.Tree
      reads this
    {
      NT.Tree(treeFilled, treeNext, treeRoot, roots)
    }

    // The stored state as a value.
    ghost function Model(): State
      reads this
    {
      State(assets, pairs, nullifiers, books, bookSeq, Tree(), events, bridge, blocks, deposits, tokens,
        flows, deals, accepted)
    }

    // The state with a book side and a book sequence that are still local to a call.
    ghost function Pending(key: (nat, nat), book: seq<OrderEntry>, seqNo: nat): State
      reads this
    {
      Model().(books := books[key := book], bookSeq := seqNo)
    }

    // ----- Notes -------------------------------------------------------------------------------

    method TreeInit()
      modifies `treeFilled, `treeNext, `treeRoot, `roots
      ensures Tree() == NT.Empty(host.compress)
    {
      var filled: seq<Word> := [];
      var i := 0;
      while i < NT.TREE_DEPTH
        invariant 0 <= i <= NT.TREE_DEPTH && |filled| == i
        invariant forall j :: 0 <= j < i ==> filled[j] == NT.ZeroAt(host.compress, j)
      {
        filled := filled + [NT.ZeroAt(host.compress, i)];
        i := i + 1;
      }
      assert filled == NT.Zeros(host.compress);
      var z := NT.ZeroAt(host.compress, NT.TREE_DEPTH - 1);
      treeFilled, treeNext, treeRoot, roots := filled, 0, host.compress(z, z), {};
    }

    method TreeInsert(leaf: Word)
      modifies `treeFilled, `treeNext, `treeRoot, `roots
      ensures Tree() == NT.Insert(host.compress, old(Tree()), leaf)
    {
      var filled, idx := treeFilled, treeNext;
      var cur, i := leaf, 0;
      while i < NT.TREE_DEPTH
        invariant 0 <= i <= NT.TREE_DEPTH && |filled| == NT.TREE_DEPTH
        invariant cur == NT.Climb(host.compress, treeFilled, idx, leaf, i)
        invariant forall j :: 0 <= j < i ==> filled[j] == NT.FilledAt(host.compress, treeFilled, idx, leaf, j)
        invariant forall j :: i <= j < NT.TREE_DEPTH ==> filled[j] == treeFilled[j]
      {
        if NT.Shift(idx, i) % 2 == 0 {
          filled := filled[i := cur];
          cur := host.compress(cur, NT.ZeroAt(host.compress, i));
        } else {
          cur := host.compress(filled[i], cur);
        }
        i := i + 1;
      }
      assert filled == NT.Refill(host.compress, treeFilled, idx, leaf);
      treeFilled, treeNext, treeRoot, roots := filled, idx + 1, cur, roots + {cur};
    }

    method InsertLeaf(note: Note)
      modifies `treeFilled, `treeNext, `treeRoot, `roots
      ensures Model() == InsertNote(host, old(Model()), note)
    {
      TreeInsert(NoteLeaf(host, note));
    }

    // Mark a note spent. What it was worth is part of the history, not of the stored state.
    method SpendNote(nullifier: Word, ghost asset: nat, ghost amount: nat)
      modifies `nullifiers, `flows
      ensures Model() == Spend(old(Model()), nullifier, asset, amount)
    {
      nullifiers := nullifiers + {nullifier};
      flows := flows + [Spent(asset, amount, nullifier)];
    }

    method MintNote(asset: nat, amount: nat, tag: Word)
      modifies `treeFilled, `treeNext, `treeRoot, `roots, `events
      ensures Model() == Mint(host, old(Model()), Note(asset, amount, tag))
    {
      if amount <= 0 {
        assert Model() == old(Model());
        return;
      }
      InsertLeaf(Note(asset, amount, tag));
      events := events + [NoteInserted(Note(asset, amount, tag))];
    }

    // ----- Pairs and books ---------------------------------------------------------------------

    method PairAndSide(assetIn: nat, assetOut: nat) returns (r: Result<(nat, Side), Error>)
      ensures r == Ledger.PairAndSide(Model(), assetIn, assetOut)
    {
      var i := 0;
      while i < |pairs|
        invariant i <= |pairs|
        invariant PairAndSideFrom(pairs, assetIn, assetOut, i) == PairAndSideFrom(pairs, assetIn, assetOut, 0)
      {
        var p := pairs[i];
        if assetIn == p.baseAsset && assetOut == p.quoteAsset {
          return Ok((i, Sell));
        }
        if assetIn == p.quoteAsset && assetOut == p.baseAsset {
          return Ok((i, Buy));
        }
        i := i + 1;
      }
      r := Err(PairNotRegistered);
    }

    method SideAssets(pairId: nat, side: nat) returns (r: Result<(nat, nat), Error>)
      ensures match r
        case Ok(assets) =>
          && SideAssetIn(Model(), pairId, side) == Ok(assets.0)
          && assets.1 == pairs[pairId].AssetIn(if side == SIDE_BUY then SIDE_SELL else SIDE_BUY)
        case Err(e) => SideAssetIn(Model(), pairId, side) == Err(e)
    {
      if |pairs| <= pairId {
        return Err(PairNotRegistered);
      }
      var pair := pairs[pairId];
      if side == SIDE_SELL {
        r := Ok((pair.baseAsset, pair.quoteAsset));
      } else if side == SIDE_BUY {
        r := Ok((pair.quoteAsset, pair.baseAsset));
      } else {
        r := Err(PairNotRegistered);
      }
    }

    function BookLoad(pairId: nat, side: nat): (book: seq<OrderEntry>)
      reads this
      ensures book == Book(Model(), pairId, side)
    {
      if (pairId, side) in books then books[(pairId, side)] else []
    }

    method BookStore(pairId: nat, side: nat, book: seq<OrderEntry>)
      modifies `books
      ensures Model() == StoreBook(old(Model()), pairId, side, book)
    {
      books := books[(pairId, side) := book];
    }

    static method BookInsertSorted(book: seq<OrderEntry>, entry: OrderEntry, side: nat) returns (r: seq<OrderEntry>)
      ensures r == WithEntry(book, entry, side)
    {
      var pos, j := |book|, 0;
      while j < |book|
        invariant 0 <= j <= |book| && pos == |book|
        invariant SlotFrom(book, entry, side, j) == SlotFrom(book, entry, side, 0)
      {
        if Better(entry.Terms(), book[j].Terms(), side) {
          pos := j;
          break;
        }
        j := j + 1;
      }
      r := book[..pos] + [entry] + book[pos..];
    }

    method PublishUpserted(seqNo: nat, pairId: nat, side: nat, entry: OrderEntry) returns (next: nat)
      modifies `events
      ensures next == seqNo + 1
      ensures Model() == Log(old(Model()), OrderUpserted(next, pairId, side, entry))
    {
      next := seqNo + 1;
      events := events + [OrderUpserted(next, pairId, side, entry)];
    }

    method PublishRemoved(seqNo: nat, pairId: nat, side: nat, orderId: Word, reason: RemoveReason) returns (next: nat)
      modifies `events
      ensures next == seqNo + 1
      ensures Model() == Log(old(Model()), OrderRemoved(next, pairId, side, orderId, reason.Code()))
    {
      next := seqNo + 1;
      events := events + [OrderRemoved(next, pairId, side, orderId, reason.Code())];
    }

    // ----- Matching ----------------------------------------------------------------------------

    // A fill's two proceeds notes, the taker's first.
    method PayProceeds(t: Taking, maker: OrderEntry, fBase: nat, qQuote: nat)
      modifies `treeFilled, `treeNext, `treeRoot, `roots, `events
      ensures Model() == Proceeds(host, old(Model()), t, maker, FillIn(t.side, fBase, qQuote))
    {
      if t.side.Buy? {
        MintNote(t.pair.baseAsset, fBase, t.taker.outputTag);
        MintNote(t.pair.quoteAsset, qQuote, maker.outputTag);
      } else {
        MintNote(t.pair.quoteAsset, qQuote, t.taker.outputTag);
        MintNote(t.pair.baseAsset, fBase, maker.outputTag);
      }
    }

    method RemoveLocal(pairId: nat, side: nat, book: seq<OrderEntry>, seqNo: nat, i: nat, reason: RemoveReason)
      returns (book': seq<OrderEntry>, seqNo': nat)
      requires i < |book|
      modifies `events
      ensures Pending((pairId, side), book', seqNo')
           == RemoveAt(old(Pending((pairId, side), book, seqNo)), pairId, side, i, reason)
      ensures book' == WithoutAt(book, i)
    {
      seqNo' := PublishRemoved(seqNo, pairId, side, book[i].orderId, reason);
      book' := book[..i] + book[i + 1..];
    }

    // The maker at i keeps `left`, or leaves the side when nothing is left.
    method ShrinkMaker(t: Taking, book: seq<OrderEntry>, seqNo: nat, i: nat, left: nat)
      returns (book': seq<OrderEntry>, seqNo': nat)
      requires i < |book| && left <= book[i].remainingIn
      modifies `events
      ensures
        var key := (t.pairId, t.Opp());
        Pending(key, book', seqNo')
          == Consume(old(Pending(key, book, seqNo)), t, i, book[i].remainingIn - left)
    {
      var maker := book[i];
      if left == 0 {
        book', seqNo' := RemoveLocal(t.pairId, t.Opp(), book, seqNo, i, Filled);
      } else {
        maker := maker.(remainingIn := left);
        book' := book[i := maker];
        seqNo' := PublishUpserted(seqNo, t.pairId, t.Opp(), maker);
      }
    }

    // The loop's locals, together with the stored state, as one loop state of the matching.
    ghost function Loop(t: Taking, book: seq<OrderEntry>, seqNo: nat, i: nat, fills: nat, remaining: nat,
        filledOut: nat)
      : Match
      reads this
    {
      Match(Pending((t.pairId, t.Opp()), book, seqNo), i, fills, remaining, filledOut)
    }

    // The effects of a fill: proceeds to both, then the maker shrinks or leaves.
    method MoveFunds(t: Taking, book: seq<OrderEntry>, seqNo: nat, i: nat, fBase: nat, qQuote: nat)
      returns (book': seq<OrderEntry>, seqNo': nat)
      requires i < |book| && FillIn(t.side, fBase, qQuote).give <= book[i].remainingIn
      modifies `treeFilled, `treeNext, `treeRoot, `roots, `events, `deals
      ensures Pending((t.pairId, t.Opp()), book', seqNo')
           == Traded(host, old(Pending((t.pairId, t.Opp()), book, seqNo)), t, i, FillIn(t.side, fBase, qQuote))
    {
      ghost var st := Pending((t.pairId, t.Opp()), book, seqNo);
      var f := FillIn(t.side, fBase, qQuote);
      ProceedsCommute(host, Model(), t, book[i], f, st.books, seqNo);
      PayProceeds(t, book[i], fBase, qQuote);
      ghost var st1 := Pending((t.pairId, t.Opp()), book, seqNo);
      assert st1 == Proceeds(host, st, t, book[i], f);
      book', seqNo' := ShrinkMaker(t, book, seqNo, i, book[i].remainingIn - f.give);
      TradedIn(host, st, t, i, f, st1, Pending((t.pairId, t.Opp()), book', seqNo'));
      deals := deals + [Deal.Trade(book[i].orderId, t.taker.nullifier, f.give, f.pay)];
    }

    // Execute a fill of the maker at i and settle the loop's running amounts.
    method FillMaker(t: Taking, book: seq<OrderEntry>, seqNo: nat, i: nat, fills: nat, remaining: nat, filledOut: nat,
      fBase: nat, qQuote: nat, ghost k: nat)
      returns (book': seq<OrderEntry>, seqNo': nat, remaining': nat, filledOut': nat)
      requires TradesAt(t, Loop(t, book, seqNo, i, fills, remaining, filledOut), k)
      requires FillIn(t.side, fBase, qQuote) == FillOf(book[i].amountIn, book[i].minOut, k)
      modifies `treeFilled, `treeNext, `treeRoot, `roots, `events, `deals
      ensures Loop(t, book', seqNo', i, fills + 1, remaining', filledOut')
           == DoTrade(host, t, old(Loop(t, book, seqNo, i, fills, remaining, filledOut)), k)
    {
      TradeIs(host, t, Loop(t, book, seqNo, i, fills, remaining, filledOut), k, FillIn(t.side, fBase, qQuote));
      book', seqNo' := MoveFunds(t, book, seqNo, i, fBase, qQuote);
      if t.side.Buy? {
        remaining', filledOut' := remaining - qQuote, filledOut + fBase;
      } else {
        remaining', filledOut' := remaining - fBase, filledOut + qQuote;
      }
    }

    // What to do at one maker, and for a fill its amounts in base and quote.
    static method Consider(t: Taking, maker: OrderEntry, remaining: nat) returns (d: Decision, fBase: nat, qQuote: nat)
      ensures d == Decide(t, maker, remaining)
      ensures d.Trade? ==> FillIn(t.side, fBase, qQuote) == FillOf(maker.amountIn, maker.minOut, d.k)
    {
      fBase, qQuote := 0, 0;
      if maker.expiry < t.now {
        return Skip, 0, 0;
      }
      if !CrossAmounts(maker.amountIn, maker.minOut, t.taker.amountIn, t.taker.minOut) {
        return Stop, 0, 0;
      }
      var lots := ComputeLots(t.side.Buy?, maker.amountIn, maker.minOut, maker.remainingIn, remaining);
      if lots.kTaker == 0 {
        return Stop, 0, 0;
      }
      if lots.kMaker == 0 {
        return Skip, 0, 0;
      }
      if !maker.partialAllowed && lots.kTaker < lots.kMaker {
        return Skip, 0, 0;
      }
      var k := if lots.kMaker < lots.kTaker then lots.kMaker else lots.kTaker;
      d, fBase, qQuote := Decision.Trade(k), k * lots.baseLot, k * lots.quoteLot;
    }

    // Match the taker against the opposing side and store that side back; the sequence stays local.
    // An overflowing sum of proceeds stops the call at once.
    method MatchBook(t: Taking) returns (seqNo: nat, remaining: nat, filledOut: nat)
      modifies `treeFilled, `treeNext, `treeRoot, `roots, `events, `books, `deals
      ensures
        var m := MatchTaker(host, t, old(Model()));
        && (filledOut < I128_LIMIT <==> m.filledOut < I128_LIMIT)
        && (filledOut < I128_LIMIT ==>
              Model().(bookSeq := seqNo) == m.st && remaining == m.remaining && filledOut == m.filledOut)
    {
      ghost var m := Begin(Model(), t);
      ghost var end := MatchRun(host, t, m);
      var book := BookLoad(t.pairId, t.Opp());
      var i, fills := 0, 0;
      seqNo, remaining, filledOut := bookSeq, t.taker.amountIn, 0;
      while i < |book| && fills < MAX_FILLS && remaining > 0
        invariant m == Loop(t, book, seqNo, i, fills, remaining, filledOut)
        invariant Reaches(host, t, m, end)
        invariant books == old(books) && bookSeq == old(bookSeq)
        invariant filledOut < I128_LIMIT
        decreases MAX_FILLS - fills, |book| - i
      {
        var d, fBase, qQuote := Consider(t, book[i], remaining);
        match d {
          case Stop =>
            break;
          case Skip =>
            RunSkips(host, t, m, end);
            i, m := i + 1, Advance(m);
          case Trade(k) =>
            ghost var was := m;
            book, seqNo, remaining, filledOut :=
              FillMaker(t, book, seqNo, i, fills, remaining, filledOut, fBase, qQuote, k);
            fills := fills + 1;
            m := Loop(t, book, seqNo, i, fills, remaining, filledOut);
            RunTrades(host, t, was, k, m, end);
            if filledOut >= I128_LIMIT {
              RemainingShrinks(host, t, m);
              return;
            }
        }
      }
      RunEnds(host, t, m);
      BookStore(t.pairId, t.Opp(), book);
    }

    // Rest what is left of the taker on its own side.
    method RestTaker(t: Taking, seqNo: nat, remaining: Pos, mySide: seq<OrderEntry>) returns (last: nat)
      requires 0 < t.taker.amountIn && 0 < t.taker.minOut && mySide == BookLoad(t.pairId, t.side.Code())
      modifies `events, `books
      ensures Model().(bookSeq := last)
           == Rest(old(Model().(bookSeq := seqNo)), t.pairId, t.side.Code(), EntryOf(t.taker, remaining))
    {
      var entry := EntryOf(t.taker, remaining);
      var sorted := BookInsertSorted(mySide, entry, t.side.Code());
      BookStore(t.pairId, t.side.Code(), sorted);
      last := PublishUpserted(seqNo, t.pairId, t.side.Code(), entry);
    }

    // Mint an order's unfilled value back to its owner.
    method Refund(orderId: Word, note: Note)
      modifies `treeFilled, `treeNext, `treeRoot, `roots, `events, `deals
      ensures Model() == RefundNote(host, old(Model()), orderId, note)
    {
      MintNote(note.asset, note.amount, note.tag);
      deals := deals + [Deal.Refund(orderId, note.amount)];
    }

    // Rest, refund or reject what is left of the taker, and store the book sequence.
    method RestOrRefund(t: Taking, seqNo: nat, remaining: nat) returns (r: Result<(), Error>)
      requires 0 < t.taker.amountIn && 0 < t.taker.minOut
      modifies `treeFilled, `treeNext, `treeRoot, `roots, `events, `books, `bookSeq, `deals
      ensures Meets(r, Model(), Ledger.RestOrRefund(host, t, old(Model().(bookSeq := seqNo)), remaining))
    {
      var last := seqNo;
      if remaining > 0 {
        if !t.taker.partialAllowed {
          return Err(NotPartialAllowed);
        }
        var takerLot := ReducedLot(t.taker.amountIn, t.taker.minOut);
        var mySide := BookLoad(t.pairId, t.side.Code());
        if remaining >= takerLot && |mySide| < BOOK_CAPACITY {
          last := RestTaker(t, seqNo, remaining, mySide);
        } else {
          var note := Note(t.taker.assetIn, remaining, t.taker.outputTag);
          RefundCommutes(host, Model(), t.taker.nullifier, note, books, seqNo);
          Refund(t.taker.nullifier, note);
        }
      }
      if last != bookSeq {
        bookSeq := last;
      }
      r := Ok(());
    }

    // Match a verified taker, announce its fills, and dispose of what is left.
    method SubmitTaker(t: Taking) returns (r: Result<(), Error>)
      requires 0 < t.taker.amountIn && 0 < t.taker.minOut
      modifies `treeFilled, `treeNext, `treeRoot, `roots, `events, `books, `bookSeq, `deals
      ensures Meets(r, Model(), Ledger.SubmitTaker(host, old(Model()), t))
    {
      ghost var m := MatchTaker(host, t, Model());
      var seqNo, remaining, filledOut := MatchBook(t);
      if filledOut >= I128_LIMIT {
        return Err(Trap);
      }
      var filledIn := t.taker.amountIn - remaining;
      if filledIn > 0 {
        events := events + [TakerFilled(t.taker.assetIn, filledIn, t.taker.assetOut, filledOut, t.taker.outputTag)];
      }
      assert Model().(bookSeq := seqNo) == Announce(t, m);
      r := RestOrRefund(t, seqNo, remaining);
    }

    // ----- Proofs and orders -------------------------------------------------------------------

    method VerifyProof(op: nat, proof: seq<Byte>, pi: seq<Byte>, words: nat) returns (r: Result<(), Error>)
      ensures match r
        case Ok(_) => |pi| == 32 * words && Ledger.VerifyProof(host, op, proof, pi, words) == Ok(Words(pi, words))
        case Err(e) => Ledger.VerifyProof(host, op, proof, pi, words) == Err(e)
    {
      if |proof| != host.proofBytes {
        return Err(ProofParseError);
      }
      if |pi| != 32 * words {
        return Err(BadPublicInputs);
      }
      if !host.verify(op, proof, pi) {
        return Err(VerificationFailed);
      }
      r := Ok(());
    }

    method ParseOrder(pi: seq<Byte>) returns (r: Result<Order, Error>)
      requires |pi| == 32 * LIFT_WORDS
      ensures r == Codec.ParseOrder(roots, Words(pi, LIFT_WORDS))
    {
      if WordAt(pi, 0) != LIFT_DOMAIN {
        return Err(BadPublicInputs);
      }
      if WordAt(pi, 1) !in roots {
        return Err(UnknownRoot);
      }
      var partialWord :- WordToU32(ReadWord(pi, 10));
      if partialWord > 1 {
        return Err(BadPublicInputs);
      }
      var assetIn :- WordToU32(ReadWord(pi, 3));
      var amountIn :- WordToI128(ReadWord(pi, 4));
      var assetOut :- WordToU32(ReadWord(pi, 5));
      var minOut :- WordToI128(ReadWord(pi, 6));
      var expiry :- WordToU64(ReadWord(pi, 9));
      r := Ok(Order(WordAt(pi, 2), assetIn, amountIn, assetOut, minOut, WordAt(pi, 7), WordAt(pi, 8), expiry,
        partialWord == 1, WordAt(pi, 11)));
    }

    // ----- Book entrypoints --------------------------------------------------------------------

    method SubmitOrder(now: nat, x: Signed) returns (r: Result<(), Error>)
      modifies this
      ensures Meets(r, Model(), Ledger.SubmitOrder(host, old(Model()), now, x))
    {
      var _ :- VerifyProof(LIFT_OP, x.proof, x.pi, LIFT_WORDS);
      var taker :- ParseOrder(x.pi);
      r := SubmitParsed(now, taker);
    }

    method SubmitParsed(now: nat, taker: Order) returns (r: Result<(), Error>)
      modifies this
      ensures Meets(r, Model(), Ledger.SubmitParsed(host, old(Model()), now, taker))
    {
      if taker.amountIn <= 0 || taker.minOut <= 0 {
        return Err(InvalidAmount);
      }
      if taker.expiry < now {
        return Err(OrderExpired);
      }
      if taker.nullifier in nullifiers {
        return Err(NullifierUsed);
      }
      SpendNote(taker.nullifier, taker.assetIn, taker.amountIn);
      var pairAndSide :- PairAndSide(taker.assetIn, taker.assetOut);
      var t := Taking(now, pairAndSide.0, pairs[pairAndSide.0], pairAndSide.1, taker);
      accepted := accepted[taker.nullifier :=
        Accepted(Limit(taker.amountIn, taker.minOut), t.pairId, t.side.Code(), taker.partialAllowed)];
      assert Model() == Accept(old(Model()), t);
      r := SubmitTaker(t);
    }

    // Return what the entry at i locks and take it off the side.
    method Close(pairId: nat, side: nat, book: seq<OrderEntry>, seqNo: nat, i: nat, note: Note, reason: RemoveReason)
      returns (book': seq<OrderEntry>, seqNo': nat)
      requires i < |book|
      modifies `treeFilled, `treeNext, `treeRoot, `roots, `events, `deals
      ensures Pending((pairId, side), book', seqNo')
           == Ledger.Close(host, old(Pending((pairId, side), book, seqNo)), pairId, side, i, note, reason)
      ensures book' == WithoutAt(book, i)
    {
      RefundCommutes(host, Model(), book[i].orderId, note, books[(pairId, side) := book], seqNo);
      Refund(book[i].orderId, note);
      book', seqNo' := RemoveLocal(pairId, side, book, seqNo, i, reason);
    }

    method CancelOrder(pairId: nat, side: nat, x: Signed) returns (r: Result<(), Error>)
      modifies this
      ensures Meets(r, Model(), Ledger.CancelOrder(host, old(Model()), pairId, side, x))
    {
      var _ :- VerifyProof(CANCEL_OP, x.proof, x.pi, CANCEL_WORDS);
      if WordAt(x.pi, 0) != CANCEL_DOMAIN {
        return Err(BadPublicInputs);
      }
      var leaf, tag, returnTag := WordAt(x.pi, 1), WordAt(x.pi, 2), WordAt(x.pi, 3);
      var assets :- SideAssets(pairId, side);
      var book := BookLoad(pairId, side);
      var i := 0;
      while i < |book|
        invariant 0 <= i <= |book|
        invariant FindCancel(book, leaf, tag, i) == FindCancel(book, leaf, tag, 0)
      {
        var e := book[i];
        if e.leaf == leaf && e.cancelTag == tag {
          assert Pending((pairId, side), book, bookSeq) == Model();
          var book', seqNo := Close(pairId, side, book, bookSeq, i, Note(assets.0, e.remainingIn, returnTag),
            Cancelled);
          BookStore(pairId, side, book');
          bookSeq := seqNo;
          return Ok(());
        }
        i := i + 1;
      }
      r := Err(OrderNotFound);
    }

    // Expire the entry at i, one step of the pruning loop.
    method ExpireLocal(now: nat, pairId: nat, side: nat, assetIn: nat, book: seq<OrderEntry>, seqNo: nat, i: nat,
      ghost left: nat, ghost end: State)
      returns (book': seq<OrderEntry>, seqNo': nat)
      requires i < |book| && book[i].expiry < now && 0 < left
      requires PrunesTo(host, Pending((pairId, side), book, seqNo), now, pairId, side, assetIn, i, left, end)
      modifies `treeFilled, `treeNext, `treeRoot, `roots, `events, `deals
      ensures PrunesTo(host, Pending((pairId, side), book', seqNo'), now, pairId, side, assetIn, i, left - 1, end)
      ensures book' == WithoutAt(book, i)
    {
      ghost var st := Pending((pairId, side), book, seqNo);
      var e := book[i];
      book', seqNo' := Close(pairId, side, book, seqNo, i, Note(assetIn, e.remainingIn, e.outputTag), Expired);
      PruneTakes(host, st, now, pairId, side, assetIn, i, left, Pending((pairId, side), book', seqNo'), end);
    }

    // The pruning loop, on a loaded side.
    method PruneSide(now: nat, pairId: nat, side: nat, assetIn: nat, max: nat, book0: seq<OrderEntry>, seqNo0: nat)
      returns (book: seq<OrderEntry>, seqNo: nat, removed: nat, ghost visited: nat)
      modifies `treeFilled, `treeNext, `treeRoot, `roots, `events, `deals
      ensures Pending((pairId, side), book, seqNo)
           == PruneRun(host, old(Pending((pairId, side), book0, seqNo0)), now, pairId, side, assetIn, 0, max)
      ensures removed == |Due(book0, now, max)| && visited == Visits(book0, now, max)
      ensures removed == 0 ==> Model() == old(Model()) && book == book0 && seqNo == seqNo0
    {
      var i := 0;
      book, seqNo, removed, visited := book0, seqNo0, 0, 0;
      ghost var left := max;
      ghost var due, visits := |Due(book0, now, max)|, Visits(book0, now, max);
      assert book0[0..] == book0;
      ghost var end := PruneRun(host, Pending((pairId, side), book, seqNo), now, pairId, side, assetIn, 0, max);
      while i < |book| && removed < max
        invariant left == max - removed
        invariant Counts(book, now, i, left, due - removed, visits - visited)
        invariant removed == 0 ==> Model() == old(Model()) && book == book0 && seqNo == seqNo0
        invariant PrunesTo(host, Pending((pairId, side), book, seqNo), now, pairId, side, assetIn, i, left, end)
        decreases left, |book| - i
      {
        CountStep(book, now, i, left, due - removed, visits - visited);
        visited := visited + 1;
        if book[i].expiry < now {
          book, seqNo := ExpireLocal(now, pairId, side, assetIn, book, seqNo, i, left, end);
          removed, left := removed + 1, left - 1;
        } else {
          PruneSkips(host, Pending((pairId, side), book, seqNo), now, pairId, side, assetIn, i, left, end);
          i := i + 1;
        }
      }
    }

    method PruneExpired(now: nat, pairId: nat, side: nat, max: nat) returns (r: Result<nat, Error>)
      modifies this
      ensures match r
        case Ok(removed) =>
          && Ledger.PruneExpired(host, old(Model()), now, pairId, side, max) == Ok(Model())
          && removed == |Due(Book(old(Model()), pairId, side), now, max)|
        case Err(e) => Ledger.PruneExpired(host, old(Model()), now, pairId, side, max) == Err(e)
    {
      var assets :- SideAssets(pairId, side);
      var book := BookLoad(pairId, side);
      PruneOnLoaded(host, Model(), now, pairId, side, assets.0, max);
      assert Pending((pairId, side), book, bookSeq) == StoreBook(Model(), pairId, side, book);
      var book', seqNo, removed, _ := PruneSide(now, pairId, side, assets.0, max, book, bookSeq);
      if removed > 0 {
        BookStore(pairId, side, book');
        bookSeq := seqNo;
      }
      r := Ok(removed);
    }

    // ----- Deposits, withdrawals and joins -----------------------------------------------------

    // The token contract moves an amount into the contract's balance.
    method TransferIn(token: Word, amount: nat)
      modifies `tokens
      ensures Model() == TakeIn(old(Model()), token, amount)
    {
      tokens := tokens[token := (if token in tokens then tokens[token] else 0) + amount];
    }

    // The token contract moves an amount out of the contract's balance, if that covers it.
    method TransferOut(token: Word, amount: nat) returns (ok: bool)
      modifies `tokens
      ensures ok <==> amount <= TokenBalance(old(Model()), token)
      ensures ok ==> Model() == HandOut(old(Model()), token, amount)
    {
      var balance := if token in tokens then tokens[token] else 0;
      if balance < amount {
        return false;
      }
      tokens := tokens[token := balance - amount];
      ok := true;
    }

    // Insert a received note and announce it as shielded.
    method ReceiveNote(note: Note, ghost flow: Flow)
      modifies `treeFilled, `treeNext, `treeRoot, `roots, `events, `flows
      ensures Model() == Receive(host, old(Model()), flow, note)
    {
      flows := flows + [flow];
      InsertLeaf(note);
      events := events + [Shielded(note)];
    }

    method Shield(authorized: bool, transferOk: bool, asset: nat, amount: int, tag: Word) returns (r: Result<(), Error>)
      modifies this
      ensures Meets(r, Model(), Ledger.Shield(host, old(Model()), authorized, transferOk, asset, amount, tag))
    {
      if !authorized {
        return Err(Trap);
      }
      if amount <= 0 {
        return Err(InvalidAmount);
      }
      if asset !in assets {
        return Err(AssetNotRegistered);
      }
      var def := assets[asset];
      if def.kind.BaseRepresented? {
        return Err(AssetNotShieldable);
      }
      if def.token.None? {
        return Err(AssetConfigInvalid);
      }
      if !transferOk {
        return Err(Trap);
      }
      TransferIn(def.token.value, amount);
      ReceiveNote(Note(asset, amount, tag), Deposited(asset, amount));
      r := Ok(());
    }

    method ConfigureBaseBridge(adminOk: bool, config: BridgeConfig) returns (r: Result<(), Error>)
      modifies `bridge
      ensures Meets(r, Model(), Attempt(host, old(Model()), CallConfigureBridge(adminOk, config)))
    {
      if !adminOk {
        return Err(Trap);
      }
      bridge := Some(config);
      r := Ok(());
    }

    method AttestBaseBlock(adminOk: bool, block: nat, hash: Word) returns (r: Result<(), Error>)
      modifies `blocks
      ensures Meets(r, Model(), Attempt(host, old(Model()), CallAttestBlock(adminOk, block, hash)))
    {
      if !adminOk {
        return Err(Trap);
      }
      blocks := blocks[block := hash];
      r := Ok(());
    }

    // Whether a journal word is the ABI encoding of an address: 12 zero bytes, then the address.
    static method IsAddress(w: seq<Byte>, address: EvmAddress) returns (same: bool)
      requires |w| == 32
      ensures same <==> Big(w) == address
    {
      FitsLowBytes(w, 20);
      AddressLimit();
      var zero := HighBytesZero(w, 20);
      same := zero && Big(w[12..]) == address;
    }

    method ShieldFromBase(seal: seq<Byte>, journal: seq<Byte>) returns (r: Result<(), Error>)
      modifies this
      ensures Meets(r, Model(), Ledger.ShieldFromBase(host, old(Model()), seal, journal))
    {
      if bridge.None? {
        return Err(BaseBridgeNotConfigured);
      }
      if |journal| != 32 * JOURNAL_WORDS {
        return Err(BadJournal);
      }
      if !host.receiptOk(bridge.value, seal, journal) {
        return Err(Trap);
      }
      var block :- WordToU64(ReadWord(journal, 0));
      var deposit :- WordToU64(ReadWord(journal, 4));
      var asset :- WordToU32(ReadWord(journal, 5));
      var amount :- WordToI128(ReadWord(journal, 6));
      if WordAt(journal, 2) != bridge.value.configId {
        return Err(ConfigMismatch);
      }
      var ours := IsAddress(ReadWord(journal, 3), bridge.value.bridge);
      if !ours {
        return Err(BridgeMismatch);
      }
      if block !in blocks || blocks[block] != WordAt(journal, 1) {
        return Err(BaseBlockNotAttested);
      }
      r := Credit(deposit, Note(asset, amount, WordAt(journal, 7)));
    }

    // Mint the note of an authentic Base deposit, once.
    method Credit(deposit: nat, note: Note) returns (r: Result<(), Error>)
      modifies this
      ensures Meets(r, Model(), Ledger.Credit(host, old(Model()), deposit, note))
    {
      if note.amount <= 0 {
        return Err(InvalidAmount);
      }
      if note.asset !in assets {
        return Err(AssetNotRegistered);
      }
      if assets[note.asset].kind.Stellar? {
        return Err(AssetNotBridgeable);
      }
      if deposit in deposits {
        return Err(DepositAlreadyProcessed);
      }
      deposits := deposits + {deposit};
      ReceiveNote(note, Bridged(note.asset, note.amount, deposit));
      r := Ok(());
    }

    method Unshield(recipient: Word, transferOk: bool, x: Signed) returns (r: Result<(), Error>)
      modifies this
      ensures Meets(r, Model(), Ledger.Unshield(host, old(Model()), recipient, transferOk, x))
    {
      var _ :- VerifyProof(UNSHIELD_OP, x.proof, x.pi, UNSHIELD_WORDS);
      if WordAt(x.pi, 0) != UNSHIELD_DOMAIN {
        return Err(BadPublicInputs);
      }
      if WordAt(x.pi, 1) !in roots {
        return Err(UnknownRoot);
      }
      var nullifier := WordAt(x.pi, 2);
      if nullifier in nullifiers {
        return Err(NullifierUsed);
      }
      var asset :- WordToU32(ReadWord(x.pi, 3));
      var amount :- WordToI128(ReadWord(x.pi, 4));
      if amount <= 0 {
        return Err(InvalidAmount);
      }
      if WordAt(x.pi, 5) != recipient {
        return Err(RecipientMismatch);
      }
      if asset !in assets {
        return Err(AssetNotRegistered);
      }
      if assets[asset].kind.BaseRepresented? {
        return Err(AssetNotUnshieldable);
      }
      if assets[asset].token.None? {
        return Err(AssetConfigInvalid);
      }
      r := Withdraw(transferOk, assets[asset].token.value, asset, amount, nullifier);
    }

    method Withdraw(transferOk: bool, token: Word, asset: nat, amount: nat, nullifier: Word)
      returns (r: Result<(), Error>)
      modifies this
      ensures Meets(r, Model(), Ledger.Withdraw(old(Model()), transferOk, token, asset, amount, nullifier))
    {
      SpendNote(nullifier, asset, amount);
      if !transferOk {
        return Err(Trap);
      }
      var covered := TransferOut(token, amount);
      if !covered {
        return Err(Trap);
      }
      PayOut(asset, amount, nullifier);
      r := Ok(());
    }

    method PayOut(asset: nat, amount: nat, nullifier: Word)
      modifies `events, `flows
      ensures Model() == Ledger.PayOut(old(Model()), asset, amount, nullifier)
    {
      flows := flows + [PaidOut(asset, amount)];
      events := events + [Unshielded(asset, amount, nullifier)];
    }

    method Join(x: Signed) returns (r: Result<(), Error>)
      modifies this
      ensures Meets(r, Model(), Ledger.Join(host, old(Model()), x))
    {
      var _ :- VerifyProof(JOIN_OP, x.proof, x.pi, JOIN_WORDS);
      if WordAt(x.pi, 0) != JOIN_DOMAIN {
        return Err(BadPublicInputs);
      }
      if WordAt(x.pi, 1) !in roots {
        return Err(UnknownRoot);
      }
      var nf1, nf2 := WordAt(x.pi, 2), WordAt(x.pi, 3);
      if nf1 == nf2 {
        return Err(NotCompatible);
      }
      if nf1 in nullifiers || nf2 in nullifiers {
        return Err(NullifierUsed);
      }
      var asset :- WordToU32(ReadWord(x.pi, 4));
      var out1 :- WordToI128(ReadWord(x.pi, 6));
      var out2 :- WordToI128(ReadWord(x.pi, 8));
      Merge(asset, x.pi, Note(asset, out1, WordAt(x.pi, 5)), Note(asset, out2, WordAt(x.pi, 7)));
      r := Ok(());
    }

    method MintOutputs(out1: Note, out2: Note)
      modifies `treeFilled, `treeNext, `treeRoot, `roots, `events
      ensures Model() == Mint(host, Mint(host, old(Model()), out1), out2)
    {
      MintNote(out1.asset, out1.amount, out1.tag);
      MintNote(out2.asset, out2.amount, out2.tag);
    }

    // Spend both notes of a join and mint its two outputs.
    method Merge(asset: nat, pi: seq<Byte>, out1: Note, out2: Note)
      requires |pi| == 32 * JOIN_WORDS
      modifies this
      ensures Model() == Ledger.Merge(host, old(Model()), asset, Words(pi, JOIN_WORDS),
        host.joinInputs(Words(pi, JOIN_WORDS)), out1, out2)
    {
      var nf1, nf2 := WordAt(pi, 2), WordAt(pi, 3);
      ghost var ins := host.joinInputs(Words(pi, JOIN_WORDS));
      SpendNote(nf1, asset, ins.0);
      SpendNote(nf2, asset, ins.1);
      MintOutputs(out1, out2);
      events := events + [Joined(asset, nf1, nf2)];
    }

    // ----- Direct settlement -------------------------------------------------------------------

    method Exchange(a: Order, b: Order)
      modifies `treeFilled, `treeNext, `treeRoot, `roots, `events, `nullifiers, `flows
      ensures Model() == Ledger.Exchange(host, old(Model()), a, b)
    {
      SpendNote(a.nullifier, a.assetIn, a.amountIn);
      SpendNote(b.nullifier, b.assetIn, b.amountIn);
      var noteA, noteB := Note(a.assetOut, b.amountIn, a.outputTag), Note(b.assetOut, a.amountIn, b.outputTag);
      InsertLeaf(noteA);
      InsertLeaf(noteB);
      events := events + [Settled(noteA, noteB)];
    }

    method ExchangeFresh(a: Order, b: Order) returns (r: Result<(), Error>)
      modifies `treeFilled, `treeNext, `treeRoot, `roots, `events, `nullifiers, `flows
      ensures Meets(r, Model(), Ledger.ExchangeFresh(host, old(Model()), a, b))
    {
      if a.nullifier == b.nullifier {
        return Err(NotCompatible);
      }
      if a.nullifier in nullifiers || b.nullifier in nullifiers {
        return Err(NullifierUsed);
      }
      Exchange(a, b);
      r := Ok(());
    }

    method TwoOrders(x: Signed, y: Signed) returns (r: Result<(Order, Order), Error>)
      ensures r == Ledger.TwoOrders(host, Model(), x, y)
    {
      var _ :- VerifyProof(LIFT_OP, x.proof, x.pi, LIFT_WORDS);
      var _ :- VerifyProof(LIFT_OP, y.proof, y.pi, LIFT_WORDS);
      var a :- ParseOrder(x.pi);
      var b :- ParseOrder(y.pi);
      r := Ok((a, b));
    }

    method Settle(x: Signed, y: Signed) returns (r: Result<(), Error>)
      modifies `treeFilled, `treeNext, `treeRoot, `roots, `events, `nullifiers, `flows
      ensures Meets(r, Model(), Ledger.Settle(host, old(Model()), x, y))
    {
      var orders :- TwoOrders(x, y);
      var (a, b) := orders;
      if a.assetIn != b.assetOut || a.assetOut != b.assetIn {
        return Err(NotCompatible);
      }
      if a.amountIn < b.minOut || b.amountIn < a.minOut {
        return Err(NotCompatible);
      }
      r := ExchangeFresh(a, b);
    }

    method SettleExact(x: Signed, y: Signed) returns (r: Result<(), Error>)
      modifies `treeFilled, `treeNext, `treeRoot, `roots, `events, `nullifiers, `flows
      ensures Meets(r, Model(), Ledger.SettleExact(host, old(Model()), x, y))
    {
      var orders :- TwoOrders(x, y);
      var (a, b) := orders;
      var placeA :- PairAndSide(a.assetIn, a.assetOut);
      var placeB :- PairAndSide(b.assetIn, b.assetOut);
      if placeA.0 != placeB.0 || placeA.1 == placeB.1 {
        return Err(NotCompatible);
      }
      if a.amountIn != b.minOut || b.amountIn != a.minOut {
        return Err(NotCompatible);
      }
      r := ExchangeFresh(a, b);
    }

    // ----- Deployment and the host -------------------------------------------------------------

    constructor (host: Host, vkHashes: seq<Word>)
      ensures this.host == host && Model() == InitialState(host, vkHashes)
    {
      this.host := host;
      assets, pairs, nullifiers, books, bookSeq := map[], [], {}, map[], 0;
      treeFilled, treeNext, treeRoot, roots := seq(NT.TREE_DEPTH, i => 0), 0, 0, {};
      bridge, blocks, deposits, tokens := None, map[], {}, map[];
      flows, deals, accepted := [], [], map[];
      events := [BookInitialized(SCHEMA_VERSION, vkHashes)];
      new;
      TreeInit();
    }

    method RegisterAsset(a: AssetInit) returns (r: Result<(), Error>)
      modifies `assets, `events
      ensures Meets(r, Model(), Ledger.RegisterAsset(host, old(Model()), a))
    {
      if a.assetId in assets {
        return Err(AssetAlreadyRegistered);
      }
      match (a.kind, a.token) {
        case (BaseRepresented, None) =>
        case (BaseRepresented, Some(_)) => return Err(AssetConfigInvalid);
        case (_, Some(_)) =>
        case (_, None) => return Err(AssetConfigInvalid);
      }
      assets := assets[a.assetId := AssetDef(a.token, a.kind)];
      var token := if a.token.Some? then a.token.value else host.address;
      var kind := match a.kind case Stellar => 0 case Dual => 1 case BaseRepresented => 2;
      events := events + [AssetRegistered(a.assetId, token, kind)];
      r := Ok(());
    }

    method RegisterPair(p: PairDef) returns (r: Result<(), Error>)
      modifies `pairs, `events
      ensures Meets(r, Model(), Ledger.RegisterPair(old(Model()), p))
    {
      if p.baseAsset == p.quoteAsset {
        return Err(PairNotRegistered);
      }
      if p.baseAsset !in assets || p.quoteAsset !in assets {
        return Err(AssetNotRegistered);
      }
      var i := 0;
      while i < |pairs|
        invariant 0 <= i <= |pairs|
        invariant forall j :: 0 <= j < i ==> !SamePair(pairs[j], p)
      {
        var existing := pairs[i];
        if (existing.baseAsset == p.baseAsset && existing.quoteAsset == p.quoteAsset)
          || (existing.baseAsset == p.quoteAsset && existing.quoteAsset == p.baseAsset) {
          assert SamePair(pairs[i], p);
          return Err(PairAlreadyRegistered);
        }
        i := i + 1;
      }
      var pairId := |pairs|;
      pairs := pairs + [p];
      events := events + [PairRegistered(pairId, p.baseAsset, p.quoteAsset)];
      r := Ok(());
    }

    method AddAssets(assetInits: seq<AssetInit>) returns (r: Result<(), Error>)
      modifies `assets, `events
      ensures Meets(r, Model(), RegisterAssets(host, old(Model()), assetInits))
    {
      ghost var st0 := Model();
      var i := 0;
      while i < |assetInits|
        invariant 0 <= i <= |assetInits|
        invariant RegisterAssets(host, st0, assetInits[..i]) == Ok(Model())
      {
        assert assetInits[..i + 1][..i] == assetInits[..i];
        AssetsStop(host, st0, assetInits, i + 1);
        var _ :- RegisterAsset(assetInits[i]);
        i := i + 1;
      }
      assert assetInits[..i] == assetInits;
      r := Ok(());
    }

    method AddPairs(pairDefs: seq<PairDef>) returns (r: Result<(), Error>)
      modifies `pairs, `events
      ensures Meets(r, Model(), RegisterPairs(old(Model()), pairDefs))
    {
      ghost var st0 := Model();
      var i := 0;
      while i < |pairDefs|
        invariant 0 <= i <= |pairDefs|
        invariant RegisterPairs(st0, pairDefs[..i]) == Ok(Model())
      {
        assert pairDefs[..i + 1][..i] == pairDefs[..i];
        PairsStop(st0, pairDefs, i + 1);
        var _ :- RegisterPair(pairDefs[i]);
        i := i + 1;
      }
      assert pairDefs[..i] == pairDefs;
      r := Ok(());
    }

    // The rest of construction: the static assets, then the pairs over them.
    method Configure(assetInits: seq<AssetInit>, pairDefs: seq<PairDef>) returns (r: Result<(), Error>)
      modifies `assets, `pairs, `events
      ensures Meets(r, Model(), Registered(host, old(Model()), assetInits, pairDefs))
    {
      var _ :- AddAssets(assetInits);
      r := AddPairs(pairDefs);
    }

    // Route a call to its entrypoint. What a failing entrypoint leaves behind is not yet undone.
    method Dispatch(call: Call) returns (r: Result<(), Error>)
      modifies this
      ensures Meets(r, Model(), Attempt(host, old(Model()), call))
    {
      match call {
        case CallShield(authorized, transferOk, asset, amount, tag) =>
          r := Shield(authorized, transferOk, asset, amount, tag);
        case CallConfigureBridge(adminOk, config) => r := ConfigureBaseBridge(adminOk, config);
        case CallAttestBlock(adminOk, block, hash) => r := AttestBaseBlock(adminOk, block, hash);
        case CallShieldFromBase(seal, journal) => r := ShieldFromBase(seal, journal);
        case CallSettle(a, b) => r := Settle(a, b);
        case CallSettleExact(a, b) => r := SettleExact(a, b);
        case CallUnshield(recipient, transferOk, x) => r := Unshield(recipient, transferOk, x);
        case CallJoin(x) => r := Join(x);
        case CallSubmitOrder(now, x) => r := SubmitOrder(now, x);
        case CallCancelOrder(pairId, side, x) => r := CancelOrder(pairId, side, x);
        case CallPruneExpired(now, pairId, side, max) =>
          var _ :- PruneExpired(now, pairId, side, max);
          r := Ok(());
      }
    }

    function Copy(): (s: Storage)
      reads this
      ensures s == StoredPart(Model())
    {
      Storage(assets, pairs, nullifiers, books, bookSeq, treeFilled, treeNext, treeRoot, roots, events,
        bridge, blocks, deposits, tokens)
    }

    method PutBackTree(s: Storage)
      modifies `treeFilled, `treeNext, `treeRoot, `roots
      ensures Tree() == NT.Tree(s.treeFilled, s.treeNext, s.treeRoot, s.roots)
    {
      treeFilled, treeNext, treeRoot, roots := s.treeFilled, s.treeNext, s.treeRoot, s.roots;
    }

    method PutBackBooks(s: Storage)
      modifies `assets, `pairs, `nullifiers, `books, `bookSeq
      ensures assets == s.assets && pairs == s.pairs && nullifiers == s.nullifiers
      ensures books == s.books && bookSeq == s.bookSeq
    {
      assets, pairs, nullifiers, books, bookSeq := s.assets, s.pairs, s.nullifiers, s.books, s.bookSeq;
    }

    method PutBack(s: Storage, ghost st: State)
      requires s == StoredPart(st)
      modifies this
      ensures Model() == st
    {
      PutBackTree(s);
      PutBackBooks(s);
      events, bridge, blocks, deposits, tokens := s.events, s.bridge, s.blocks, s.deposits, s.tokens;
      flows, deals, accepted := st.flows, st.deals, st.accepted;
    }

    // A transaction: the host keeps a copy of the storage, runs the call, and puts the copy back if
    // the call fails or a checked counter has overflowed.
    method Invoke(call: Call) returns (r: Result<(), Error>)
      modifies this
      ensures Model() == Execute(host, old(Model()), call)
      ensures r.Ok? <==> Checked(Attempt(host, old(Model()), call)).Ok?
    {
      var copy := Copy();
      r := Dispatch(call);
      if r.Ok? && (treeNext >= U32_LIMIT || bookSeq >= U64_LIMIT) {
        r := Err(Trap);
      }
      if r.Err? {
        PutBack(copy, old(Model()));
      }
    }

    method InvokeAll(calls: seq<Call>)
      modifies this
      ensures Model() == Run(host, old(Model()), calls)
    {
      ghost var st0 := Model();
      var i := 0;
      while i < |calls|
        invariant 0 <= i <= |calls|
        invariant Model() == Run(host, st0, calls[..i])
      {
        assert calls[..i + 1][..i] == calls[..i];
        var _ := Invoke(calls[i]);
        i := i + 1;
      }
      assert calls[..i] == calls;
    }
  }

  // Deploying the contract and invoking it reaches exactly the states of the model, so everything
  // proved of reachable states holds of this object's fields.
  method DeployAndRun(host: Host, h: History) returns (r: Result<Settlement, Error>)
    ensures r.Ok? <==> Deploy(host, h).Ok?
    ensures r.Ok? ==> fresh(r.value) && r.value.Model() == StateAfter(host, h)
  {
    var desk := new Settlement(host, h.vkHashes);
    var configured := desk.Configure(h.assets, h.pairs);
    if configured.Err? {
      return Err(configured.error);
    }
    desk.InvokeAll(h.calls);
    r := Ok(desk);
  }
}
