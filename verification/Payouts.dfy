// Who is paid what: every way an order's value leaves the books, told by the notes it announces and
// by what it leaves on the side, independently of how the loops get there.
module Payouts {
  import opened Wrappers
  import opened Lots
  import opened Types
  import opened Codec
  import opened Ledger
  import opened BookInvariant
  import opened Matching
  import opened NoteLog
  import opened Inputs
  import opened ThreeForms

  // ----- One entry -----------------------------------------------------------------------------

  // Closing an entry announces one note and takes that entry off its side; nothing else moves.
  lemma {:induction false} ClosePays(host: Host, st: State, p: nat, s: nat, i: nat, note: Note, reason: RemoveReason)
    requires i < |Book(st, p, s)| && 0 < note.amount
    ensures
      var st' := Close(host, st, p, s, i, note, reason);
      && Leaves(host, st'.events) == Leaves(host, st.events) + [NoteLeaf(host, note)]
      && st'.books == st.books[(p, s) := WithoutAt(Book(st, p, s), i)]
      && st'.bookSeq == st.bookSeq + 1 && st'.nullifiers == st.nullifiers
  {
    var id := Book(st, p, s)[i].orderId;
    var mid := RefundNote(host, st, id, note);
    RefundFrame(host, st, id, note);
    LeavesAppend(host, st.events, NoteInserted(note));
    LeavesAppend(host, mid.events, OrderRemoved(mid.bookSeq + 1, p, s, id, reason.Code()));
  }

  // A fill pays the taker out of the maker's lock and the maker out of the taker's, each to its own
  // output tag.
  lemma {:induction false} TradePays(host: Host, t: Taking, m: Match, k: nat)
    requires TradesAt(t, m, k)
    ensures
      var maker, f := Opposing(t, m.st)[m.i], FillAt(t, m, k);
      Leaves(host, DoTrade(host, t, m, k).st.events) == Leaves(host, m.st.events)
        + [NoteLeaf(host, Note(t.MakerAsset(), f.give, t.taker.outputTag))]
        + [NoteLeaf(host, Note(t.TakerAsset(), f.pay, maker.outputTag))]
  {
    var maker, f := Opposing(t, m.st)[m.i], FillAt(t, m, k);
    var st1 := Proceeds(host, m.st, t, maker, f);
    DecidedTradeFits(t, maker, m.remaining);
    ProceedsFrame(host, m.st, t, maker, f);
    ProceedsLeaves(host, m.st, t, maker, f);
    ConsumeAnnouncesNoNote(host, st1, t, m.i, f.give);
  }

  // Book events announce no note.
  lemma {:induction false} BookEventIsQuiet(host: Host, events: seq<Event>, ev: Event)
    requires ev.OrderUpserted? || ev.OrderRemoved?
    ensures Leaves(host, events + [ev]) == Leaves(host, events)
  {
    LeavesAppend(host, events, ev);
    assert Leaves(host, events) + [] == Leaves(host, events);
  }

  lemma {:induction false} ConsumeAnnouncesNoNote(host: Host, st: State, t: Taking, i: nat, give: nat)
    requires i < |Opposing(t, st)| && give <= Opposing(t, st)[i].remainingIn
    ensures Leaves(host, Consume(st, t, i, give).events) == Leaves(host, st.events)
  {
    var st' := Consume(st, t, i, give);
    var ev := st'.events[|st.events|];
    assert st'.events == st.events + [ev];
    BookEventIsQuiet(host, st.events, ev);
  }

  // What is left of a taker is paid back to its own output tag exactly when it cannot rest: when it is
  // less than one of the order's own lots, or the order's side is full. A resting remainder is paid to
  // nobody, and one that may not rest fails the call.
  lemma {:induction false} RemainderPays(host: Host, t: Taking, st: State, remaining: nat)
    requires 0 < t.taker.amountIn && 0 < t.taker.minOut
    ensures
      var r, mine := RestOrRefund(host, t, st, remaining), Book(st, t.pairId, t.side.Code());
      var refunds := 0 < remaining
        && (remaining < OwnLot(t.taker.amountIn, t.taker.minOut) || |mine| >= BOOK_CAPACITY);
      && (r.Ok? <==> remaining == 0 || t.taker.partialAllowed)
      && (r.Ok? && refunds ==>
            && r.value.books == st.books
            && Leaves(host, r.value.events) == Leaves(host, st.events)
                 + [NoteLeaf(host, Note(t.taker.assetIn, remaining, t.taker.outputTag))])
      && (r.Ok? && !refunds ==> Leaves(host, r.value.events) == Leaves(host, st.events))
      && (r.Ok? && 0 < remaining && !refunds ==>
            var o := t.taker;
            var e := OrderEntry(o.nullifier, o.amountIn, o.minOut, remaining, o.outputTag, o.cancelTag, o.leaf,
              o.expiry, o.partialAllowed);
            Book(r.value, t.pairId, t.side.Code()) == WithEntry(mine, e, t.side.Code()))
  {
    var note := Note(t.taker.assetIn, remaining, t.taker.outputTag);
    if 0 < remaining {
      RefundFrame(host, st, t.taker.nullifier, note);
      LeavesAppend(host, st.events, NoteInserted(note));
      RestEffect(host, st, t.pairId, t.side.Code(), EntryOf(t.taker, remaining));
    }
  }

  // A direct settlement spends two distinct fresh notes and pays each order, to its own output tag, in
  // the asset it asked for, all that the other offered, which is at least its minimum.
  lemma {:induction false} SettlePays(host: Host, st: State, x: Signed, y: Signed, a: Order, b: Order)
    requires TwoOrders(host, st, x, y) == Ok((a, b)) && Settle(host, st, x, y).Ok?
    ensures
      var st' := Settle(host, st, x, y).value;
      && a.nullifier != b.nullifier && {a.nullifier, b.nullifier} !! st.nullifiers
      && st'.nullifiers == st.nullifiers + {a.nullifier, b.nullifier} && st'.books == st.books
      && a.minOut <= b.amountIn && b.minOut <= a.amountIn
      && Leaves(host, st'.events) == Leaves(host, st.events)
           + [NoteLeaf(host, Note(b.assetIn, b.amountIn, a.outputTag)),
              NoteLeaf(host, Note(a.assetIn, a.amountIn, b.outputTag))]
  {
    ExchangeLeaves(host, st, a, b);
  }

  // ----- Cancelling ----------------------------------------------------------------------------

  lemma {:induction false} FindCancelIsFirst(book: seq<OrderEntry>, leaf: Word, tag: Word, i: nat)
    requires i <= |book|
    ensures
      var r := FindCancel(book, leaf, tag, i);
      && (r < |book| ==> book[r].leaf == leaf && book[r].cancelTag == tag)
      && (forall j :: i <= j < r ==> book[j].leaf != leaf || book[j].cancelTag != tag)
    decreases |book| - i
  {
    if i < |book| && !(book[i].leaf == leaf && book[i].cancelTag == tag) {
      FindCancelIsFirst(book, leaf, tag, i + 1);
    }
  }

  // A verified cancel proof for this domain, naming an order leaf, a cancel tag and a return tag.
  ghost predicate CancelProof(host: Host, x: Signed, leaf: Word, tag: Word, returnTag: Word) {
    Proven(host, CANCEL_OP, x, [CANCEL_DOMAIN, leaf, tag, returnTag])
  }

  // A cancellation succeeds exactly when the side exists and holds an entry with that leaf and that
  // cancel authority; then all that the first such entry locks goes to the return tag.
  lemma {:induction false} CancelPays(host: Host, st: State, p: nat, s: nat, x: Signed, leaf: Word, tag: Word,
      returnTag: Word)
    requires CancelProof(host, x, leaf, tag, returnTag)
    ensures
      var r, book := CancelOrder(host, st, p, s, x), Book(st, p, s);
      && (r.Ok? <==> SideAssetIn(st, p, s).Ok? && exists i :: 0 <= i < |book| && Names(book[i], leaf, tag))
      && (r.Ok? ==> exists i ::
            && 0 <= i < |book| && Names(book[i], leaf, tag)
            && r.value.books == st.books[(p, s) := WithoutAt(book, i)]
            && Leaves(host, r.value.events) == Leaves(host, st.events)
                 + [NoteLeaf(host, Note(SideAssetIn(st, p, s).value, book[i].remainingIn, returnTag))])
  {
    var book := Book(st, p, s);
    var i := FindCancel(book, leaf, tag, 0);
    FindCancelIsFirst(book, leaf, tag, 0);
    ProofIsExact(host, CANCEL_OP, x, CANCEL_WORDS, [CANCEL_DOMAIN, leaf, tag, returnTag]);
    if i < |book| {
      assert Names(book[i], leaf, tag);
      if SideAssetIn(st, p, s).Ok? {
        ClosePays(host, st, p, s, i, Note(SideAssetIn(st, p, s).value, book[i].remainingIn, returnTag), Cancelled);
      }
    }
  }

  predicate Names(e: OrderEntry, leaf: Word, tag: Word) {
    e.leaf == leaf && e.cancelTag == tag
  }

  lemma {:induction false} RemoveInserted(book: seq<OrderEntry>, e: OrderEntry, side: nat)
    ensures
      var pos := SlotFrom(book, e, side, 0);
      pos < |WithEntry(book, e, side)| && WithEntry(book, e, side)[pos] == e
      && WithoutAt(WithEntry(book, e, side), pos) == book
  {
  }

  // Cancelling undoes resting: when no other entry of the side answers to its leaf and cancel tag, a
  // rested order that is cancelled before any fill leaves the side as it was, and everything it
  // offered goes to the return tag.
  lemma {:induction false} CancelUndoesRest(host: Host, st: State, p: nat, s: nat, e: OrderEntry, x: Signed,
      returnTag: Word)
    requires CancelProof(host, x, e.leaf, e.cancelTag, returnTag) && SideAssetIn(st, p, s).Ok?
    requires forall i :: 0 <= i < |Book(st, p, s)| ==> !Names(Book(st, p, s)[i], e.leaf, e.cancelTag)
    ensures
      var r := CancelOrder(host, Rest(st, p, s, e), p, s, x);
      && r.Ok? && Book(r.value, p, s) == Book(st, p, s)
      && (forall k :: k != (p, s) ==> Book(r.value, k.0, k.1) == Book(st, k.0, k.1))
      && Leaves(host, r.value.events) == Leaves(host, st.events)
           + [NoteLeaf(host, Note(SideAssetIn(st, p, s).value, e.remainingIn, returnTag))]
  {
    var st1, book := Rest(st, p, s, e), Book(st, p, s);
    var pos := SlotFrom(book, e, s, 0);
    RemoveInserted(book, e, s);
    OnlyNamed(book, e, s, FindCancel(WithEntry(book, e, s), e.leaf, e.cancelTag, 0));
    RestEffect(host, st, p, s, e);
    CancelsAt(host, st1, p, s, x, e.leaf, e.cancelTag, returnTag, pos);
    ClosePays(host, st1, p, s, pos, Note(SideAssetIn(st, p, s).value, e.remainingIn, returnTag), Cancelled);
  }

  lemma {:induction false} RestEffect(host: Host, st: State, p: nat, s: nat, e: OrderEntry)
    ensures
      var st' := Rest(st, p, s, e);
      && st'.books == st.books[(p, s) := WithEntry(Book(st, p, s), e, s)] && st'.pairs == st.pairs
      && Leaves(host, st'.events) == Leaves(host, st.events)
  {
    BookEventIsQuiet(host, st.events, OrderUpserted(st.bookSeq + 1, p, s, e));
  }

  lemma {:induction false} CancelsAt(host: Host, st: State, p: nat, s: nat, x: Signed, leaf: Word, tag: Word,
      returnTag: Word, i: nat)
    requires CancelProof(host, x, leaf, tag, returnTag) && SideAssetIn(st, p, s).Ok?
    requires i < |Book(st, p, s)| && FindCancel(Book(st, p, s), leaf, tag, 0) == i
    ensures
      var note := Note(SideAssetIn(st, p, s).value, Book(st, p, s)[i].remainingIn, returnTag);
      CancelOrder(host, st, p, s, x) == Ok(Close(host, st, p, s, i, note, Cancelled))
  {
    ProofIsExact(host, CANCEL_OP, x, CANCEL_WORDS, [CANCEL_DOMAIN, leaf, tag, returnTag]);
  }

  lemma {:induction false} OnlyNamed(book: seq<OrderEntry>, e: OrderEntry, side: nat, r: nat)
    requires forall i :: 0 <= i < |book| ==> !Names(book[i], e.leaf, e.cancelTag)
    requires r == FindCancel(WithEntry(book, e, side), e.leaf, e.cancelTag, 0)
    ensures r == SlotFrom(book, e, side, 0)
  {
    var b, pos := WithEntry(book, e, side), SlotFrom(book, e, side, 0);
    FindCancelIsFirst(b, e.leaf, e.cancelTag, 0);
    assert Names(b[pos], e.leaf, e.cancelTag);
    assert forall j :: 0 <= j < |b| && j != pos ==> b[j] == book[if j < pos then j else j - 1];
  }

  // ----- Pruning -------------------------------------------------------------------------------

  // The first `max` expired entries of a side, in order.
  function Due(book: seq<OrderEntry>, now: nat, max: nat): seq<OrderEntry> {
    if book == [] || max == 0 then []
    else if book[0].expiry < now then [book[0]] + Due(book[1..], now, max - 1)
    else Due(book[1..], now, max)
  }

  // The side without them.
  function Kept(book: seq<OrderEntry>, now: nat, max: nat): seq<OrderEntry> {
    if book == [] || max == 0 then book
    else if book[0].expiry < now then Kept(book[1..], now, max - 1)
    else [book[0]] + Kept(book[1..], now, max)
  }

  // Reason codes of the removal event.
  const FILLED_CODE := 0
  const CANCELLED_CODE := 1
  const EXPIRED_CODE := 2

  // What an expired entry announces: a note over what it locks, to its own output tag, and its removal.
  function ExpiryEvents(asset: nat, p: nat, s: nat, seqNo: nat, e: OrderEntry): seq<Event> {
    [NoteInserted(Note(asset, e.remainingIn, e.outputTag)), OrderRemoved(seqNo + 1, p, s, e.orderId, EXPIRED_CODE)]
  }

  function AllExpiryEvents(asset: nat, p: nat, s: nat, seqNo: nat, entries: seq<OrderEntry>): seq<Event>
    decreases |entries|
  {
    if entries == [] then []
    else ExpiryEvents(asset, p, s, seqNo, entries[0]) + AllExpiryEvents(asset, p, s, seqNo + 1, entries[1..])
  }

  // Nothing but the books, the tree, the log and the history of deals differs.
  ghost predicate BooksOnly(st: State, st': State) {
    st' == st.(books := st'.books, bookSeq := st'.bookSeq, tree := st'.tree, events := st'.events,
      deals := st'.deals)
  }

  lemma {:induction false} ExpirePays(host: Host, st: State, p: nat, s: nat, asset: nat, i: nat)
    requires i < |Book(st, p, s)|
    ensures
      var st', e := Expire(host, st, p, s, asset, i), Book(st, p, s)[i];
      && Book(st', p, s) == WithoutAt(Book(st, p, s), i) && st'.bookSeq == st.bookSeq + 1 && BooksOnly(st, st')
      && st'.events == st.events + ExpiryEvents(asset, p, s, st.bookSeq, e)
      && (forall k :: k != (p, s) ==> Book(st', k.0, k.1) == Book(st, k.0, k.1))
  {
    var e := Book(st, p, s)[i];
    var note := Note(asset, e.remainingIn, e.outputTag);
    assert st.events + [NoteInserted(note)] + [OrderRemoved(st.bookSeq + 1, p, s, e.orderId, EXPIRED_CODE)]
        == st.events + ExpiryEvents(asset, p, s, st.bookSeq, e);
  }

  // The state from which the pruning loop, at entry i with `left` removals to go, ends at `end`.
  ghost predicate PrunesTo(host: Host, st: State, now: nat, pairId: nat, side: nat, assetIn: nat, i: nat, left: nat,
      end: State) {
    PruneRun(host, st, now, pairId, side, assetIn, i, left) == end
  }

  lemma {:induction false} PruneTakes(host: Host, st: State, now: nat, pairId: nat, side: nat, assetIn: nat, i: nat,
      left: nat, st': State, end: State)
    requires PrunesTo(host, st, now, pairId, side, assetIn, i, left, end)
    requires i < |Book(st, pairId, side)| && 0 < left && Book(st, pairId, side)[i].expiry < now
    requires st' == Expire(host, st, pairId, side, assetIn, i)
    ensures PrunesTo(host, st', now, pairId, side, assetIn, i, left - 1, end)
  {
  }

  lemma {:induction false} PruneSkips(host: Host, st: State, now: nat, pairId: nat, side: nat, assetIn: nat, i: nat,
      left: nat, end: State)
    requires PrunesTo(host, st, now, pairId, side, assetIn, i, left, end)
    requires i < |Book(st, pairId, side)| && 0 < left && Book(st, pairId, side)[i].expiry >= now
    ensures PrunesTo(host, st, now, pairId, side, assetIn, i + 1, left, end)
  {
  }

  // What a pruning from entry i leaves and pays.
  ghost predicate Pruned(host: Host, st: State, st': State, now: nat, p: nat, s: nat, asset: nat, i: nat, left: nat)
    requires i <= |Book(st, p, s)|
  {
    var book := Book(st, p, s);
    var due := Due(book[i..], now, left);
    && Book(st', p, s) == book[..i] + Kept(book[i..], now, left)
    && st'.events == st.events + AllExpiryEvents(asset, p, s, st.bookSeq, due)
    && st'.bookSeq == st.bookSeq + |due| && BooksOnly(st, st')
    && (forall k :: k != (p, s) ==> Book(st', k.0, k.1) == Book(st, k.0, k.1))
  }

  lemma {:induction false} DueStep(book: seq<OrderEntry>, now: nat, i: nat, left: nat)
    requires i < |book| && 0 < left
    ensures
      var rest := book[i + 1..];
      if book[i].expiry < now then
        && Due(book[i..], now, left) == [book[i]] + Due(rest, now, left - 1)
        && Kept(book[i..], now, left) == Kept(rest, now, left - 1)
      else
        && Due(book[i..], now, left) == Due(rest, now, left)
        && Kept(book[i..], now, left) == [book[i]] + Kept(rest, now, left)
  {
    assert book[i..][1..] == book[i + 1..];
  }

  lemma {:induction false} PruneRunPays(host: Host, st: State, now: nat, p: nat, s: nat, asset: nat, i: nat,
      left: nat, end: State)
    requires i <= |Book(st, p, s)| && PrunesTo(host, st, now, p, s, asset, i, left, end)
    ensures Pruned(host, st, end, now, p, s, asset, i, left)
    decreases left, |Book(st, p, s)| - i
  {
    if i == |Book(st, p, s)| || left == 0 {
      NothingDue(host, st, now, p, s, asset, i, left);
    } else if Book(st, p, s)[i].expiry < now {
      var st1 := Expire(host, st, p, s, asset, i);
      PruneTakes(host, st, now, p, s, asset, i, left, st1, end);
      ExpirePays(host, st, p, s, asset, i);
      PruneRunPays(host, st1, now, p, s, asset, i, left - 1, end);
      TakeDue(host, st, st1, end, now, p, s, asset, i, left);
    } else {
      PruneSkips(host, st, now, p, s, asset, i, left, end);
      PruneRunPays(host, st, now, p, s, asset, i + 1, left, end);
      PassDue(host, st, end, now, p, s, asset, i, left);
    }
  }

  lemma {:induction false} NothingDue(host: Host, st: State, now: nat, p: nat, s: nat, asset: nat, i: nat, left: nat)
    requires i <= |Book(st, p, s)| && (i == |Book(st, p, s)| || left == 0)
    ensures Pruned(host, st, st, now, p, s, asset, i, left)
  {
    var book := Book(st, p, s);
    assert book[..i] + book[i..] == book;
    assert st.events + [] == st.events;
  }

  lemma {:induction false} PassDue(host: Host, st: State, end: State, now: nat, p: nat, s: nat, asset: nat, i: nat,
      left: nat)
    requires i < |Book(st, p, s)| && 0 < left && Book(st, p, s)[i].expiry >= now
    requires Pruned(host, st, end, now, p, s, asset, i + 1, left)
    ensures Pruned(host, st, end, now, p, s, asset, i, left)
  {
    var book := Book(st, p, s);
    DueStep(book, now, i, left);
    assert book[..i + 1] == book[..i] + [book[i]];
  }

  lemma {:induction false} TakeDue(host: Host, st: State, st1: State, end: State, now: nat, p: nat, s: nat,
      asset: nat, i: nat, left: nat)
    requires i < |Book(st, p, s)| && 0 < left && Book(st, p, s)[i].expiry < now
    requires Book(st1, p, s) == WithoutAt(Book(st, p, s), i) && st1.bookSeq == st.bookSeq + 1 && BooksOnly(st, st1)
    requires st1.events == st.events + ExpiryEvents(asset, p, s, st.bookSeq, Book(st, p, s)[i])
    requires forall k :: k != (p, s) ==> Book(st1, k.0, k.1) == Book(st, k.0, k.1)
    requires Pruned(host, st1, end, now, p, s, asset, i, left - 1)
    ensures Pruned(host, st, end, now, p, s, asset, i, left)
  {
    var book, b := Book(st, p, s), WithoutAt(Book(st, p, s), i);
    DueStep(book, now, i, left);
    assert b[..i] == book[..i] && b[i..] == book[i + 1..];
    ExpiryFirst(st.events, asset, p, s, st.bookSeq, book[i], Due(book[i + 1..], now, left - 1));
  }

  lemma {:induction false} ExpiryFirst(events: seq<Event>, asset: nat, p: nat, s: nat, seqNo: nat, e: OrderEntry,
      rest: seq<OrderEntry>)
    ensures events + AllExpiryEvents(asset, p, s, seqNo, [e] + rest)
         == (events + ExpiryEvents(asset, p, s, seqNo, e)) + AllExpiryEvents(asset, p, s, seqNo + 1, rest)
  {
    assert ([e] + rest)[1..] == rest;
  }

  // Pruning a side removes exactly its first `max` expired entries and announces, in book order, a note
  // over what each locks to its own output tag and its removal as expired; nothing else changes.
  lemma {:induction false} PrunePays(host: Host, st: State, now: nat, p: nat, s: nat, max: nat)
    ensures
      var r, book := PruneExpired(host, st, now, p, s, max), Book(st, p, s);
      && (r.Ok? <==> p < |st.pairs| && (s == SIDE_BUY || s == SIDE_SELL))
      && (r.Ok? ==>
            && Book(r.value, p, s) == Kept(book, now, max)
            && r.value.bookSeq == st.bookSeq + |Due(book, now, max)|
            && r.value.events == st.events
                 + AllExpiryEvents(st.pairs[p].AssetIn(s), p, s, st.bookSeq, Due(book, now, max))
            && BooksOnly(st, r.value)
            && forall k :: k != (p, s) ==> Book(r.value, k.0, k.1) == Book(st, k.0, k.1))
  {
    if SideAssetIn(st, p, s).Ok? {
      var asset := st.pairs[p].AssetIn(s);
      PruneRunPays(host, st, now, p, s, asset, 0, max, PruneRun(host, st, now, p, s, asset, 0, max));
      assert Book(st, p, s)[0..] == Book(st, p, s);
    }
  }

  // ----- What max bounds -----------------------------------------------------------------------

  // How many entries the pruning loop looks at.
  function Visits(book: seq<OrderEntry>, now: nat, max: nat): (n: nat)
    ensures |Due(book, now, max)| <= n <= |book|
    ensures |Due(book, now, max)| <= max
  {
    if book == [] || max == 0 then 0
    else 1 + Visits(book[1..], now, if book[0].expiry < now then max - 1 else max)
  }

  // From entry i on, the loop has `due` entries to remove and `visits` to look at.
  ghost predicate Counts(book: seq<OrderEntry>, now: nat, i: nat, left: nat, due: int, visits: int) {
    i <= |book| && due == |Due(book[i..], now, left)| && visits == Visits(book[i..], now, left)
  }

  lemma {:induction false} CountStep(book: seq<OrderEntry>, now: nat, i: nat, left: nat, due: int, visits: int)
    requires i < |book| && 0 < left && Counts(book, now, i, left, due, visits)
    ensures book[i].expiry < now ==> Counts(WithoutAt(book, i), now, i, left - 1, due - 1, visits - 1)
    ensures book[i].expiry >= now ==> Counts(book, now, i + 1, left, due, visits - 1)
  {
    DueStep(book, now, i, left);
    assert book[i..][1..] == book[i + 1..];
    assert WithoutAt(book, i)[i..] == book[i + 1..];
  }

  // `max` bounds the removals always, but the entries visited exactly when the side is no longer than
  // that or begins with that many expired entries.
  lemma {:induction false} MaxBoundsVisits(book: seq<OrderEntry>, now: nat, max: nat)
    ensures |Due(book, now, max)| <= max
    ensures Visits(book, now, max) <= max
       <==> |book| <= max || forall j :: 0 <= j < max ==> book[j].expiry < now
  {
    if book != [] && max != 0 {
      if book[0].expiry < now {
        MaxBoundsVisits(book[1..], now, max - 1);
        assert forall j :: 1 <= j < |book| ==> book[1..][j - 1] == book[j];
      } else {
        VisitsCoverLive(book[1..], now, max);
      }
    }
  }

  // The loop runs on until it has removed `max` entries or the side ends.
  lemma {:induction false} VisitsCoverLive(book: seq<OrderEntry>, now: nat, max: nat)
    ensures Visits(book, now, max) >= Min(max, |book|)
  {
    if book != [] && max != 0 {
      VisitsCoverLive(book[1..], now, if book[0].expiry < now then max - 1 else max);
    }
  }

  // A side without expired entries is visited from end to end for any `max` but zero: one removal
  // allowed, 64 live entries, 64 visits.
  lemma {:induction false} LiveSideIsVisitedWhole(book: seq<OrderEntry>, now: nat, max: nat)
    requires 0 < max && forall j :: 0 <= j < |book| ==> now <= book[j].expiry
    ensures Visits(book, now, max) == |book| && Due(book, now, max) == []
  {
    if book != [] {
      LiveSideIsVisitedWhole(book[1..], now, max);
    }
  }
}
