// A whole submission, told by the order that was presented and the books it met: when it succeeds, and
// then every note, entry and event it leaves; and that cancelling takes back exactly what came to rest.
module Submissions {
  import opened Wrappers
  import opened Lots
  import opened Types
  import opened Codec
  import opened Ledger
  import opened BookInvariant
  import opened Matching
  import opened Inputs
  import opened Payouts
  import opened Outcomes
  import opened Sweeps

  // ----- Where an order belongs ----------------------------------------------------------------

  // The first registered pair that trades the order's two assets, and the side that offers the first.
  predicate Belongs(st: State, o: Order, p: nat, side: Side) {
    && p < |st.pairs|
    && o.assetIn == (if side.Sell? then st.pairs[p].baseAsset else st.pairs[p].quoteAsset)
    && o.assetOut == (if side.Sell? then st.pairs[p].quoteAsset else st.pairs[p].baseAsset)
    && (o.assetIn == o.assetOut ==> side == Sell)
    && (forall j :: 0 <= j < p ==> !SamePair(st.pairs[j], PairDef(o.assetIn, o.assetOut)))
  }

  lemma {:induction false} PlaceIsExactFrom(st: State, o: Order, i: nat, p: nat, side: Side)
    requires i <= |st.pairs| && forall j :: 0 <= j < i ==> !SamePair(st.pairs[j], PairDef(o.assetIn, o.assetOut))
    ensures PairAndSideFrom(st.pairs, o.assetIn, o.assetOut, i) == Ok((p, side)) <==> Belongs(st, o, p, side)
    decreases |st.pairs| - i
  {
    if i < |st.pairs| && !SamePair(st.pairs[i], PairDef(o.assetIn, o.assetOut)) {
      PlaceIsExactFrom(st, o, i + 1, p, side);
    }
  }

  // ----- When a submission succeeds ------------------------------------------------------------

  // A live order of positive amounts over an unspent note.
  predicate Submittable(st: State, now: nat, o: Order) {
    0 < o.amountIn && 0 < o.minOut && now <= o.expiry && o.nullifier !in st.nullifiers
  }

  function Taker(st: State, now: nat, o: Order, p: nat, side: Side): Taking
    requires p < |st.pairs|
  {
    Taking(now, p, st.pairs[p], side, o)
  }

  // The order's sweep does not overflow, and fills it if it may not rest.
  predicate Goes(st: State, now: nat, o: Order, p: nat, side: Side)
    requires p < |st.pairs|
  {
    var s := SweepBy(Taker(st, now, o, p, side), st);
    s.got < I128_LIMIT && (o.partialAllowed || s.paid == o.amountIn)
  }

  ghost predicate MaySubmit(host: Host, st: State, now: nat, x: Signed, o: Order, p: nat, side: Side) {
    Presents(host, st, x, o) && Submittable(st, now, o) && Belongs(st, o, p, side) && Goes(st, now, o, p, side)
  }

  lemma {:induction false} ParsedIsTaken(host: Host, st: State, now: nat, o: Order, p: nat, side: Side)
    requires Belongs(st, o, p, side)
    ensures
      var r, t := SubmitParsed(host, st, now, o), Taker(st, now, o, p, side);
      if Submittable(st, now, o) then r == SubmitTaker(host, Accept(st, t), t) else r.Err?
  {
    PlaceIsExactFrom(st, o, 0, p, side);
  }

  lemma {:induction false} TakenSucceeds(host: Host, st: State, t: Taking)
    requires 0 < t.taker.amountIn && 0 < t.taker.minOut
    ensures
      var s := SweepBy(t, st);
      SubmitTaker(host, st, t).Ok? <==> s.got < I128_LIMIT && (t.taker.partialAllowed || s.paid == t.taker.amountIn)
  {
    MatchIsSweep(host, t, st);
  }

  lemma {:induction false} PresentedIsParsed(host: Host, st: State, now: nat, x: Signed, o: Order)
    requires Presents(host, st, x, o)
    ensures SubmitOrder(host, st, now, x) == SubmitParsed(host, st, now, o)
  {
    OrderIsExact(host, st, x, o);
  }

  lemma {:induction false} ParsedGoes(host: Host, st: State, now: nat, o: Order, p: nat, side: Side)
    requires Belongs(st, o, p, side)
    ensures SubmitParsed(host, st, now, o).Ok? <==> Submittable(st, now, o) && Goes(st, now, o, p, side)
  {
    ParsedIsTaken(host, st, now, o, p, side);
    if Submittable(st, now, o) {
      TakenSucceeds(host, Accept(st, Taker(st, now, o, p, side)), Taker(st, now, o, p, side));
    }
  }

  lemma {:induction false} OrderOfSubmission(host: Host, st: State, now: nat, x: Signed) returns (o: Order)
    requires SubmitOrder(host, st, now, x).Ok?
    ensures Presents(host, st, x, o) && SubmitParsed(host, st, now, o).Ok?
  {
    o := ParseOrder(st.tree.roots, VerifyProof(host, LIFT_OP, x.proof, x.pi, LIFT_WORDS).value).value;
    OrderIsExact(host, st, x, o);
  }

  lemma {:induction false} PlaceOfSubmission(host: Host, st: State, now: nat, o: Order) returns (p: nat, side: Side)
    requires SubmitParsed(host, st, now, o).Ok?
    ensures Belongs(st, o, p, side)
  {
    p, side := PairAndSide(st, o.assetIn, o.assetOut).value.0, PairAndSide(st, o.assetIn, o.assetOut).value.1;
    PlaceIsExactFrom(st, o, 0, p, side);
  }

  // A submission succeeds exactly when a proof presents a live order over an unspent note, some pair
  // trades its assets, and its sweep of the opposing side does not overflow and, where the order may
  // not rest, fills it.
  lemma {:induction false} SubmitsExactly(host: Host, st: State, now: nat, x: Signed)
    ensures SubmitOrder(host, st, now, x).Ok? <==> exists o, p, side :: MaySubmit(host, st, now, x, o, p, side)
  {
    if SubmitOrder(host, st, now, x).Ok? {
      var o := OrderOfSubmission(host, st, now, x);
      var p, side := PlaceOfSubmission(host, st, now, o);
      ParsedGoes(host, st, now, o, p, side);
      assert MaySubmit(host, st, now, x, o, p, side);
    }
    if o, p, side :| MaySubmit(host, st, now, x, o, p, side) {
      PresentedIsParsed(host, st, now, x, o);
      ParsedGoes(host, st, now, o, p, side);
    }
  }

  // ----- What a submission leaves --------------------------------------------------------------

  // The order as it rests with so much left.
  function Resting(o: Order, left: Pos): OrderEntry
    requires 0 < o.amountIn && 0 < o.minOut
  {
    OrderEntry(o.nullifier, o.amountIn, o.minOut, left, o.outputTag, o.cancelTag, o.leaf, o.expiry, o.partialAllowed)
  }

  // What is left rests if it is one own lot at least and the own side holds fewer than 64 entries.
  predicate Rests(o: Order, left: nat, mine: seq<OrderEntry>)
    requires 0 < o.amountIn && 0 < o.minOut
  {
    0 < left && OwnLot(o.amountIn, o.minOut) <= left && |mine| < 64
  }

  // The entry was put behind everything at its price or better, ahead of the first that is worse.
  ghost predicate PutIn(mine: seq<OrderEntry>, mine': seq<OrderEntry>, e: OrderEntry, side: nat) {
    exists pos ::
      && 0 <= pos <= |mine| && mine' == mine[..pos] + [e] + mine[pos..]
      && (forall j :: 0 <= j < pos ==> !Better(e.Terms(), mine[j].Terms(), side))
      && (pos < |mine| ==> Better(e.Terms(), mine[pos].Terms(), side))
  }

  // One event that sums up what the order paid and got, if it was filled at all.
  function Summary(o: Order, s: Sweep): seq<Event> {
    if s.paid == 0 then [] else [TakerFilled(o.assetIn, s.paid, o.assetOut, s.got, o.outputTag)]
  }

  // Then the entry that rests, or the note that returns what is left to the order's output tag.
  function Tail(o: Order, left: nat, mine: seq<OrderEntry>, seqNo: nat, p: nat, side: nat): seq<Event>
    requires 0 < o.amountIn && 0 < o.minOut
  {
    if left == 0 then []
    else if Rests(o, left, mine) then [OrderUpserted(seqNo + 1, p, side, Resting(o, left))]
    else [NoteInserted(Note(o.assetIn, left, o.outputTag))]
  }

  // The books and the log after a submission: the swept side, the order on its own side if it rests,
  // every other side as it was, and nothing else in the log.
  ghost predicate Left(st: State, st': State, o: Order, p: nat, side: Side, t: Taking, s: Sweep)
    requires 0 < o.amountIn && 0 < o.minOut && s.paid <= o.amountIn
  {
    var left, mine := o.amountIn - s.paid, Book(st, p, side.Code());
    && Book(st', p, side.Opposite().Code()) == s.left
    && (if Rests(o, left, mine) then PutIn(mine, Book(st', p, side.Code()), Resting(o, left), side.Code())
        else Book(st', p, side.Code()) == mine)
    && (forall k: (nat, nat) :: k != (p, side.Code()) && k != (p, side.Opposite().Code()) ==>
          Book(st', k.0, k.1) == Book(st, k.0, k.1))
    && st'.bookSeq == st.bookSeq + |s.fills| + (if Rests(o, left, mine) then 1 else 0)
    && st'.events == st.events + AllFillEvents(t, st.bookSeq, s.fills) + Summary(o, s)
         + Tail(o, left, mine, st.bookSeq + |s.fills|, p, side.Code())
  }

  // What a loop state becomes once the taker's fills are announced.
  lemma {:induction false} AnnounceDoes(t: Taking, m: Match, s: Sweep)
    requires m.remaining + s.paid == t.taker.amountIn && m.filledOut == s.got
    ensures Announce(t, m) == m.st.(events := m.st.events + Summary(t.taker, s))
  {
    assert m.st.events + [] == m.st.events;
  }

  // What disposing of the remainder changes.
  ghost predicate Disposed(t: Taking, st: State, left: nat, st': State)
    requires 0 < t.taker.amountIn && 0 < t.taker.minOut
  {
    var mine, side := Book(st, t.pairId, t.side.Code()), t.side.Code();
    && (if Rests(t.taker, left, mine) then PutIn(mine, Book(st', t.pairId, side), Resting(t.taker, left), side)
        else st'.books == st.books)
    && (forall k: (nat, nat) :: k != (t.pairId, side) ==> Book(st', k.0, k.1) == Book(st, k.0, k.1))
    && st'.bookSeq == st.bookSeq + (if Rests(t.taker, left, mine) then 1 else 0)
    && st'.events == st.events + Tail(t.taker, left, mine, st.bookSeq, t.pairId, side)
    && BooksOnly(st, st')
  }

  lemma {:induction false} RestDoes(t: Taking, st: State, left: Pos)
    requires 0 < t.taker.amountIn && 0 < t.taker.minOut
    requires Rests(t.taker, left, Book(st, t.pairId, t.side.Code()))
    ensures Disposed(t, st, left, Rest(st, t.pairId, t.side.Code(), Resting(t.taker, left)))
  {
    var mine, side, e := Book(st, t.pairId, t.side.Code()), t.side.Code(), Resting(t.taker, left);
    SlotIsFirst(mine, e, side, 0);
    assert PutIn(mine, WithEntry(mine, e, side), e, side);
  }

  lemma {:induction false} RefundDoes(host: Host, t: Taking, st: State, left: Pos)
    requires 0 < t.taker.amountIn && 0 < t.taker.minOut
    requires !Rests(t.taker, left, Book(st, t.pairId, t.side.Code()))
    ensures Disposed(t, st, left,
      RefundNote(host, st, t.taker.nullifier, Note(t.taker.assetIn, left, t.taker.outputTag)))
  {
  }

  lemma {:induction false} FinishDoes(host: Host, t: Taking, st: State, left: nat, st': State)
    requires 0 < t.taker.amountIn && 0 < t.taker.minOut && RestOrRefund(host, t, st, left) == Ok(st')
    ensures Disposed(t, st, left, st')
  {
    assert st.events + [] == st.events;
    if 0 < left {
      if Rests(t.taker, left, Book(st, t.pairId, t.side.Code())) {
        RestDoes(t, st, left);
      } else {
        RefundDoes(host, t, st, left);
      }
    }
  }

  lemma {:induction false} TakenSteps(host: Host, st: State, t: Taking, st': State) returns (swept: State)
    requires 0 < t.taker.amountIn && 0 < t.taker.minOut && SubmitTaker(host, st, t) == Ok(st')
    ensures SweepBy(t, st).paid <= t.taker.amountIn && SweptSide(t, st, swept, SweepBy(t, st))
    ensures
      var s := SweepBy(t, st);
      Disposed(t, swept.(events := swept.events + Summary(t.taker, s)), t.taker.amountIn - s.paid, st')
  {
    var m, s := MatchTaker(host, t, st), SweepBy(t, st);
    MatchIsSweep(host, t, st);
    AnnounceDoes(t, m, s);
    FinishDoes(host, t, Announce(t, m), m.remaining, st');
    swept := m.st;
  }

  lemma {:induction false} StepsLeave(st: State, t: Taking, s: Sweep, swept: State, st': State)
    requires 0 < t.taker.amountIn && 0 < t.taker.minOut && s.paid <= t.taker.amountIn && SweptSide(t, st, swept, s)
    requires Disposed(t, swept.(events := swept.events + Summary(t.taker, s)), t.taker.amountIn - s.paid, st')
    ensures Left(st, st', t.taker, t.pairId, t.side, t, s) && BooksOnly(st, st')
  {
    assert t.side.Code() != t.Opp();
    assert Book(swept, t.pairId, t.side.Code()) == Book(st, t.pairId, t.side.Code());
  }

  lemma {:induction false} TakenLeaves(host: Host, st: State, t: Taking, st': State)
    requires 0 < t.taker.amountIn && 0 < t.taker.minOut && SubmitTaker(host, st, t) == Ok(st')
    ensures SweepBy(t, st).paid <= t.taker.amountIn
    ensures Left(st, st', t.taker, t.pairId, t.side, t, SweepBy(t, st)) && BooksOnly(st, st')
  {
    var swept := TakenSteps(host, st, t, st');
    StepsLeave(st, t, SweepBy(t, st), swept, st');
  }

  // A submission that may be made spends exactly the order's note, leaves the opposing side swept, and
  // the order's own side with the order in its place, holding what is left of it, if that rests; its
  // log is the fills in order, one summary, and the entry or the note that returns what is left.
  lemma {:induction false} SubmissionDoes(host: Host, st: State, now: nat, x: Signed, o: Order, p: nat, side: Side)
    requires MaySubmit(host, st, now, x, o, p, side)
    ensures SubmitOrder(host, st, now, x).Ok?
    ensures SweepBy(Taker(st, now, o, p, side), st).paid <= o.amountIn
    ensures
      var st', t := SubmitOrder(host, st, now, x).value, Taker(st, now, o, p, side);
      Left(st, st', o, p, side, t, SweepBy(t, st)) && LocksOnly(st, st', o, p, side)
  {
    var t := Taker(st, now, o, p, side);
    PresentedIsParsed(host, st, now, x, o);
    ParsedIsTaken(host, st, now, o, p, side);
    ParsedGoes(host, st, now, o, p, side);
    AcceptedLeaves(host, st, t, SubmitOrder(host, st, now, x).value);
  }

  // Of everything but books, tree, log and deals, only the order's note is spent, and the order is on
  // record with its own terms.
  ghost predicate LocksOnly(st: State, st': State, o: Order, p: nat, side: Side)
    requires 0 < o.amountIn && 0 < o.minOut
  {
    && st'.nullifiers == st.nullifiers + {o.nullifier}
    && st'.accepted == st.accepted[o.nullifier :=
         Accepted(Limit(o.amountIn, o.minOut), p, side.Code(), o.partialAllowed)]
    && st'.flows == st.flows + [Spent(o.assetIn, o.amountIn, o.nullifier)]
    && st'.assets == st.assets && st'.pairs == st.pairs && st'.tokens == st.tokens
    && st'.bridge == st.bridge && st'.blocks == st.blocks && st'.deposits == st.deposits
  }

  lemma {:induction false} AcceptedLeaves(host: Host, st: State, t: Taking, st': State)
    requires 0 < t.taker.amountIn && 0 < t.taker.minOut && SubmitTaker(host, Accept(st, t), t) == Ok(st')
    ensures SweepBy(t, st).paid <= t.taker.amountIn
    ensures Left(st, st', t.taker, t.pairId, t.side, t, SweepBy(t, st)) && LocksOnly(st, st', t.taker, t.pairId, t.side)
  {
    TakenLeaves(host, Accept(st, t), t, st');
    LeftFrame(st, Accept(st, t), st', t, SweepBy(t, st));
  }

  lemma {:induction false} LeftFrame(st: State, st1: State, st': State, t: Taking, s: Sweep)
    requires 0 < t.taker.amountIn && 0 < t.taker.minOut && s.paid <= t.taker.amountIn
    requires st1 == Accept(st, t) && Left(st1, st', t.taker, t.pairId, t.side, t, s) && BooksOnly(st1, st')
    ensures Left(st, st', t.taker, t.pairId, t.side, t, s) && LocksOnly(st, st', t.taker, t.pairId, t.side)
  {
    assert forall k: (nat, nat) :: Book(st1, k.0, k.1) == Book(st, k.0, k.1);
  }

  // ----- Cancelling what came to rest ----------------------------------------------------------

  // A submission after which so much of the order rests, on a side none of whose other entries
  // answers to its leaf and cancel tag.
  ghost predicate CameToRest(host: Host, st: State, now: nat, x: Signed, o: Order, p: nat, side: Side, st1: State,
      left: nat)
  {
    && MaySubmit(host, st, now, x, o, p, side) && SubmitOrder(host, st, now, x) == Ok(st1)
    && left + SweepBy(Taker(st, now, o, p, side), st).paid == o.amountIn
    && Rests(o, left, Book(st, p, side.Code()))
    && (forall e :: e in Book(st, p, side.Code()) ==> e.leaf != o.leaf || e.cancelTag != o.cancelTag)
  }

  lemma {:induction false} RestsInPlace(host: Host, st: State, now: nat, x: Signed, o: Order, p: nat, side: Side,
      st1: State, left: nat) returns (pos: nat)
    requires CameToRest(host, st, now, x, o, p, side, st1, left)
    ensures
      var mine := Book(st, p, side.Code());
      && pos <= |mine| && Book(st1, p, side.Code()) == mine[..pos] + [Resting(o, left)] + mine[pos..]
      && IsSide(st1, p, side.Code()) && st1.pairs[p].AssetIn(side.Code()) == o.assetIn
  {
    SubmissionDoes(host, st, now, x, o, p, side);
    var mine, e := Book(st, p, side.Code()), Resting(o, left);
    var i :| 0 <= i <= |mine| && Book(st1, p, side.Code()) == mine[..i] + [e] + mine[i..];
    pos := i;
  }

  // Then a proof over that leaf and that tag takes back exactly what came to rest: the side is as it
  // was before the submission, and all that was left of the order goes to the return tag.
  lemma {:induction false} CancelTakesBack(host: Host, st: State, now: nat, x: Signed, o: Order, p: nat, side: Side,
      st1: State, left: nat, y: Signed, returnTag: Word)
    requires CameToRest(host, st, now, x, o, p, side, st1, left)
    requires Proven(host, CANCEL_OP, y, [CANCEL_DOMAIN, o.leaf, o.cancelTag, returnTag])
    ensures
      var r := CancelOrder(host, st1, p, side.Code(), y);
      && r.Ok? && Book(r.value, p, side.Code()) == Book(st, p, side.Code())
      && (forall k: (nat, nat) :: k != (p, side.Code()) ==> Book(r.value, k.0, k.1) == Book(st1, k.0, k.1))
      && r.value.events == st1.events + [NoteInserted(Note(o.assetIn, left, returnTag)),
           OrderRemoved(st1.bookSeq + 1, p, side.Code(), o.nullifier, CANCELLED_CODE)]
  {
    var pos := RestsInPlace(host, st, now, x, o, p, side, st1, left);
    var c := Cancellation(o.leaf, o.cancelTag, returnTag);
    assert c.Encoded() == [CANCEL_DOMAIN, o.leaf, o.cancelTag, returnTag];
    RestingIsNamed(Book(st, p, side.Code()), Book(st1, p, side.Code()), Resting(o, left), c, pos);
    CancelDoes(host, st1, p, side.Code(), y, c, pos);
  }

  lemma {:induction false} RestingIsNamed(mine: seq<OrderEntry>, mine': seq<OrderEntry>, e: OrderEntry, c: Cancellation,
      pos: nat)
    requires pos <= |mine| && mine' == mine[..pos] + [e] + mine[pos..] && e.leaf == c.leaf && e.cancelTag == c.tag
    requires forall x :: x in mine ==> x.leaf != c.leaf || x.cancelTag != c.tag
    ensures FirstNamed(mine', c, pos) && mine'[..pos] + mine'[pos + 1..] == mine
  {
  }
}
