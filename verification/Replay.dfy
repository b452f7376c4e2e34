// The index's rows stand for the contract's books: the relation, and how every book effect of the
// contract and the event it emits move both sides together.
module Replay {
  import opened Wrappers
  import opened Lots
  import opened Types
  import opened Ledger
  import opened BookInvariant
  import opened Value
  import opened BookIndexer

  type Books = map<Key, seq<OrderEntry>>

  function RowKey(pairId: nat, side: nat, e: OrderEntry): OrderKey {
    OrderKey(pairId, side, e.orderId)
  }

  ghost predicate HasRow(rows: Rows, pairId: nat, side: nat, e: OrderEntry, sequence: nat) {
    var key := RowKey(pairId, side, e);
    key in rows && rows[key].pairId == pairId && rows[key].side == side && rows[key].entry == e
    && rows[key].priority <= sequence
  }

  // Row a is displayed strictly ahead of row b.
  ghost predicate Ahead(a: Row, b: Row, side: nat) {
    Compare(a, b, side) < 0
  }

  // The rows of one side are its book entries, displayed in book order.
  ghost predicate SideRep(book: seq<OrderEntry>, rows: Rows, pairId: nat, side: nat, sequence: nat) {
    && (forall i :: 0 <= i < |book| ==> HasRow(rows, pairId, side, book[i], sequence))
    && (forall i, j :: 0 <= i < j < |book| ==>
          Ahead(rows[RowKey(pairId, side, book[i])], rows[RowKey(pairId, side, book[j])], side))
    && Covers(book, rows, pairId, side)
  }

  ghost predicate Shown(book: seq<OrderEntry>, k: OrderKey) {
    !Absent(book, k.orderId)
  }

  ghost predicate Covers(book: seq<OrderEntry>, rows: Rows, pairId: nat, side: nat) {
    forall k {:trigger Shown(book, k)} :: k in rows && k.pairId == pairId && k.side == side ==> Shown(book, k)
  }

  ghost predicate Rep(books: Books, rows: Rows, sequence: nat) {
    forall pairId: nat, side: nat :: SideRep(At(books, (pairId, side)), rows, pairId, side, sequence)
  }

  lemma {:induction false} EmptyRep(rows: Rows, books: Books)
    requires rows == map[] && books == map[]
    ensures Rep(books, rows, 0)
  {
  }

  // A side is untouched when no row of it changes.
  lemma {:induction false} SideRepFrame(book: seq<OrderEntry>, rows: Rows, rows': Rows, pairId: nat, side: nat,
      n: nat, n': nat)
    requires SideRep(book, rows, pairId, side, n) && n <= n'
    requires forall k: OrderKey :: k.pairId == pairId && k.side == side ==>
      (k in rows <==> k in rows') && (k in rows ==> rows'[k] == rows[k])
    ensures SideRep(book, rows', pairId, side, n')
  {
    forall k | k in rows' && k.pairId == pairId && k.side == side
      ensures Shown(book, k)
    {
    }
    forall i | 0 <= i < |book|
      ensures HasRow(rows', pairId, side, book[i], n')
    {
      assert HasRow(rows, pairId, side, book[i], n);
    }
  }

  // Storing a represented side where only that side's rows changed.
  lemma {:induction false} StoreRep(books: Books, rows: Rows, rows': Rows, p: nat, s: nat, book: seq<OrderEntry>,
      n: nat)
    requires Rep(books, rows, n)
    requires SideRep(book, rows', p, s, n + 1)
    requires forall k: OrderKey :: k.pairId != p || k.side != s ==>
      (k in rows <==> k in rows') && (k in rows ==> rows'[k] == rows[k])
    ensures Rep(books[(p, s) := book], rows', n + 1)
  {
    forall q: nat, t: nat
      ensures SideRep(At(books[(p, s) := book], (q, t)), rows', q, t, n + 1)
    {
      if (q, t) != (p, s) {
        SideRepFrame(At(books, (q, t)), rows, rows', q, t, n, n + 1);
      }
    }
  }

  lemma {:induction false} WithoutIndex(book: seq<OrderEntry>, i: nat, j: nat)
    requires i < |book| && j < |book| - 1
    ensures WithoutAt(book, i)[j] == book[if j < i then j else j + 1]
  {
  }

  lemma {:induction false} RemoveSideRep(book: seq<OrderEntry>, rows: Rows, p: nat, s: nat, n: nat, i: nat)
    requires SideRep(book, rows, p, s, n) && Distinct(book) && i < |book|
    ensures SideRep(WithoutAt(book, i), rows - {RowKey(p, s, book[i])}, p, s, n + 1)
  {
    var b, rows' := WithoutAt(book, i), rows - {RowKey(p, s, book[i])};
    forall j | 0 <= j < |b|
      ensures HasRow(rows', p, s, b[j], n + 1) && rows'[RowKey(p, s, b[j])] == rows[RowKey(p, s, b[j])]
    {
      WithoutIndex(book, i, j);
      assert HasRow(rows, p, s, book[if j < i then j else j + 1], n);
    }
    forall j, k | 0 <= j < k < |b|
      ensures Ahead(rows'[RowKey(p, s, b[j])], rows'[RowKey(p, s, b[k])], s)
    {
      WithoutIndex(book, i, j);
      WithoutIndex(book, i, k);
    }
    forall k | k in rows' && k.pairId == p && k.side == s
      ensures Shown(b, k)
    {
      assert Shown(book, k);
      var j :| 0 <= j < |book| && book[j].orderId == k.orderId;
      assert j != i;
      var j' := if j < i then j else j - 1;
      WithoutIndex(book, i, j');
      assert b[j'].orderId == k.orderId;
    }
  }

  lemma {:induction false} UpdateSideRep(book: seq<OrderEntry>, rows: Rows, p: nat, s: nat, n: nat, i: nat,
      e: OrderEntry)
    requires SideRep(book, rows, p, s, n) && Distinct(book) && i < |book|
    requires e.orderId == book[i].orderId && e.Terms() == book[i].Terms()
    ensures
      var key := RowKey(p, s, e);
      SideRep(book[i := e], rows[key := Row(p, s, e, rows[key].priority)], p, s, n + 1)
  {
    var key := RowKey(p, s, e);
    assert HasRow(rows, p, s, book[i], n);
    var b, rows' := book[i := e], rows[key := Row(p, s, e, rows[key].priority)];
    forall j | 0 <= j < |b|
      ensures HasRow(rows', p, s, b[j], n + 1)
      ensures rows'[RowKey(p, s, b[j])].entry.Terms() == rows[RowKey(p, s, book[j])].entry.Terms()
      ensures rows'[RowKey(p, s, b[j])].priority == rows[RowKey(p, s, book[j])].priority
    {
      assert HasRow(rows, p, s, book[j], n);
    }
    forall j, k | 0 <= j < k < |b|
      ensures Ahead(rows'[RowKey(p, s, b[j])], rows'[RowKey(p, s, b[k])], s)
    {
      AheadByTerms(rows[RowKey(p, s, book[j])], rows[RowKey(p, s, book[k])],
        rows'[RowKey(p, s, b[j])], rows'[RowKey(p, s, b[k])], s);
    }
    forall k | k in rows' && k.pairId == p && k.side == s
      ensures Shown(b, k)
    {
      assert Shown(book, k);
      var j :| 0 <= j < |book| && book[j].orderId == k.orderId;
      assert b[j].orderId == k.orderId;
    }
  }

  lemma {:induction false} AheadByTerms(a: Row, b: Row, c: Row, d: Row, side: nat)
    requires Ahead(a, b, side)
    requires a.entry.Terms() == c.entry.Terms() && a.priority == c.priority
    requires b.entry.Terms() == d.entry.Terms() && b.priority == d.priority
    ensures Ahead(c, d, side)
  {
  }

  // Price-then-first-upsert order is price-then-insertion order.
  lemma {:induction false} NewestIsBehindItsPrice(a: Row, e: Row, side: nat)
    requires a.priority < e.priority
    ensures !Better(e.entry.Terms(), a.entry.Terms(), side) ==> Ahead(a, e, side)
    ensures Better(e.entry.Terms(), a.entry.Terms(), side) ==> Ahead(e, a, side)
  {
    CompareIsPriceThenPriority(a, e, side);
    CompareIsPriceThenPriority(e, a, side);
  }

  lemma {:induction false} InsertIndex(book: seq<OrderEntry>, e: OrderEntry, s: nat, j: nat)
    requires j <= |book|
    ensures var pos := SlotFrom(book, e, s, 0);
      WithEntry(book, e, s)[j] == if j < pos then book[j] else if j == pos then e else book[j - 1]
  {
  }

  lemma {:induction false} InsertSideRep(book: seq<OrderEntry>, rows: Rows, p: nat, s: nat, n: nat, e: OrderEntry)
    requires SideRep(book, rows, p, s, n) && Sorted(book, s) && Absent(book, e.orderId)
    ensures SideRep(WithEntry(book, e, s), rows[RowKey(p, s, e) := Row(p, s, e, n + 1)], p, s, n + 1)
  {
    var key, pos := RowKey(p, s, e), SlotFrom(book, e, s, 0);
    var b, rows' := WithEntry(book, e, s), rows[key := Row(p, s, e, n + 1)];
    SlotSplitsSide(book, e, s);
    forall j | 0 <= j < |b|
      ensures HasRow(rows', p, s, b[j], n + 1)
      ensures j != pos ==> rows'[RowKey(p, s, b[j])] == rows[RowKey(p, s, b[j])] && HasRow(rows, p, s, b[j], n)
    {
      InsertIndex(book, e, s, j);
      if j != pos {
        assert HasRow(rows, p, s, book[if j < pos then j else j - 1], n);
      }
    }
    forall j, k | 0 <= j < k < |b|
      ensures Ahead(rows'[RowKey(p, s, b[j])], rows'[RowKey(p, s, b[k])], s)
    {
      InsertIndex(book, e, s, j);
      InsertIndex(book, e, s, k);
      if k == pos {
        NewestIsBehindItsPrice(rows'[RowKey(p, s, b[j])], rows'[key], s);
      } else if j == pos {
        NewestIsBehindItsPrice(rows'[RowKey(p, s, b[k])], rows'[key], s);
      }
    }
    InsertCovers(book, rows, p, s, n + 1, e);
  }

  lemma {:induction false} InsertCovers(book: seq<OrderEntry>, rows: Rows, p: nat, s: nat, n: nat, e: OrderEntry)
    requires Covers(book, rows, p, s)
    ensures Covers(WithEntry(book, e, s), rows[RowKey(p, s, e) := Row(p, s, e, n)], p, s)
  {
    var b, pos := WithEntry(book, e, s), SlotFrom(book, e, s, 0);
    forall k: OrderKey | (k in rows || k == RowKey(p, s, e)) && k.pairId == p && k.side == s
      ensures Shown(b, k)
    {
      if k == RowKey(p, s, e) {
        InsertIndex(book, e, s, pos);
        assert b[pos].orderId == k.orderId;
      } else {
        assert Shown(book, k);
        var j :| 0 <= j < |book| && book[j].orderId == k.orderId;
        var j' := if j < pos then j else j + 1;
        InsertIndex(book, e, s, j');
        assert b[j'].orderId == k.orderId;
      }
    }
  }

  // ----- Folding the log -----------------------------------------------------------------------

  // The sequenced order events of a log, in order.
  function OrderEvents(events: seq<Event>): (r: seq<Event>)
    ensures forall i :: 0 <= i < |r| ==> IsOrderEvent(r[i])
  {
    if events == [] then []
    else
      var front, last := OrderEvents(events[..|events| - 1]), events[|events| - 1];
      if IsOrderEvent(last) then front + [last] else front
  }

  function FoldOrders(rows: Rows, evs: seq<Event>): Result<Rows, IndexError>
    requires forall i :: 0 <= i < |evs| ==> IsOrderEvent(evs[i])
  {
    if evs == [] then Ok(rows)
    else
      var front :- FoldOrders(rows, evs[..|evs| - 1]);
      ApplyOrder(front, evs[|evs| - 1])
  }

  lemma {:induction false} OrderEventsConcat(a: seq<Event>, b: seq<Event>)
    ensures OrderEvents(a + b) == OrderEvents(a) + OrderEvents(b)
  {
    if b == [] {
      assert a + b == a;
    } else {
      assert (a + b)[..|a + b| - 1] == a + b[..|b| - 1];
      OrderEventsConcat(a, b[..|b| - 1]);
    }
  }

  lemma {:induction false} FoldConcat(rows: Rows, a: seq<Event>, b: seq<Event>)
    requires forall i :: 0 <= i < |a| ==> IsOrderEvent(a[i])
    requires forall i :: 0 <= i < |b| ==> IsOrderEvent(b[i])
    ensures FoldOrders(rows, a + b) ==
      if FoldOrders(rows, a).Ok? then FoldOrders(FoldOrders(rows, a).value, b) else FoldOrders(rows, a)
  {
    if b == [] {
      assert a + b == a;
    } else {
      assert (a + b)[..|a + b| - 1] == a + b[..|b| - 1];
      FoldConcat(rows, a, b[..|b| - 1]);
    }
  }

  // Order events carry consecutive sequence numbers after n.
  ghost predicate Numbered(evs: seq<Event>, n: nat) {
    forall i :: 0 <= i < |evs| ==> IsOrderEvent(evs[i]) && SequenceOf(evs[i]) == n + i + 1
  }

  ghost predicate FoldsTo(st: State, st': State, evs: seq<Event>, rows: Rows)
    requires forall i :: 0 <= i < |evs| ==> IsOrderEvent(evs[i])
  {
    FoldOrders(rows, evs).Ok? && Rep(st'.books, FoldOrders(rows, evs).value, st'.bookSeq)
  }

  predicate Registration(ev: Event) {
    ev.BookInitialized? || ev.AssetRegistered? || ev.PairRegistered?
  }

  ghost predicate NoRegistration(evs: seq<Event>) {
    forall i :: 0 <= i < |evs| ==> !Registration(evs[i])
  }

  // No side grew by more orders than the book sequence counted.
  ghost predicate SizesFollow(st: State, st': State) {
    forall k :: |At(st'.books, k)| + st.bookSeq <= |At(st.books, k)| + st'.bookSeq
  }

  // From st to st' the log grew by `added`; its order events are numbered on from the book
  // sequence and carry any rows standing for st's books to rows standing for those of st'.
  ghost predicate Follows(st: State, st': State, added: seq<Event>) {
    && st'.events == st.events + added && NoRegistration(added)
    && Numbered(OrderEvents(added), st.bookSeq)
    && st'.bookSeq == st.bookSeq + |OrderEvents(added)|
    && SizesFollow(st, st')
    && forall rows: Rows :: Rep(st.books, rows, st.bookSeq) ==> FoldsTo(st, st', OrderEvents(added), rows)
  }

  lemma {:induction false} FollowsTransitive(a: State, b: State, c: State, ab: seq<Event>, bc: seq<Event>)
    requires Follows(a, b, ab) && Follows(b, c, bc)
    ensures Follows(a, c, ab + bc)
  {
    OrderEventsConcat(ab, bc);
    forall rows: Rows | Rep(a.books, rows, a.bookSeq)
      ensures FoldsTo(a, c, OrderEvents(ab + bc), rows)
    {
      assert FoldsTo(a, b, OrderEvents(ab), rows);
      FoldConcat(rows, OrderEvents(ab), OrderEvents(bc));
      assert FoldsTo(b, c, OrderEvents(bc), FoldOrders(rows, OrderEvents(ab)).value);
    }
  }

  lemma {:induction false} SameBooksRep(books: Books, books': Books, rows: Rows, n: nat)
    requires Rep(books, rows, n)
    requires forall k :: At(books', k) == At(books, k)
    ensures Rep(books', rows, n)
  {
    forall p: nat, s: nat
      ensures SideRep(At(books', (p, s)), rows, p, s, n)
    {
    }
  }

  lemma {:induction false} OneOrderEvent(ev: Event)
    ensures OrderEvents([ev]) == if IsOrderEvent(ev) then [ev] else []
  {
    assert [ev][..0] == [];
  }

  // Effects outside the books follow with no order event.
  lemma {:induction false} QuietFollows(st: State, st': State, added: seq<Event>)
    requires st'.events == st.events + added && OrderEvents(added) == [] && st'.bookSeq == st.bookSeq
    requires NoRegistration(added)
    requires forall k :: At(st'.books, k) == At(st.books, k)
    ensures Follows(st, st', added)
  {
    forall rows: Rows | Rep(st.books, rows, st.bookSeq)
      ensures FoldsTo(st, st', OrderEvents(added), rows)
    {
      SameBooksRep(st.books, st'.books, rows, st.bookSeq);
    }
  }

  // A book effect follows with exactly the order event it emits.
  lemma {:induction false} EffectFollows(st: State, st': State, ev: Event)
    requires IsOrderEvent(ev) && SequenceOf(ev) == st.bookSeq + 1 == st'.bookSeq
    requires st'.events == st.events + [ev]
    requires forall k :: |At(st'.books, k)| <= |At(st.books, k)| + 1
    requires forall rows: Rows :: Rep(st.books, rows, st.bookSeq) ==> FoldsTo(st, st', [ev], rows)
    ensures Follows(st, st', [ev])
  {
    OneOrderEvent(ev);
  }

  lemma {:induction false} FoldOne(rows: Rows, ev: Event)
    requires IsOrderEvent(ev)
    ensures FoldOrders(rows, [ev]) == ApplyOrder(rows, ev)
  {
    assert [ev][..0] == [];
  }

  lemma {:induction false} OneFoldsTo(st: State, st': State, ev: Event, rows: Rows)
    requires IsOrderEvent(ev)
    requires var r := ApplyOrder(rows, ev); r.Ok? && Rep(st'.books, r.value, st'.bookSeq)
    ensures FoldsTo(st, st', [ev], rows)
  {
    FoldOne(rows, ev);
  }

  lemma {:induction false} RemoveRep(books: Books, rows: Rows, n: nat, p: nat, s: nat, i: nat)
    requires Rep(books, rows, n) && Distinct(At(books, (p, s))) && i < |At(books, (p, s))|
    ensures
      var key := RowKey(p, s, At(books, (p, s))[i]);
      key in rows && Rep(books[(p, s) := WithoutAt(At(books, (p, s)), i)], rows - {key}, n + 1)
  {
    var book := At(books, (p, s));
    assert SideRep(book, rows, p, s, n);
    assert HasRow(rows, p, s, book[i], n);
    RemoveSideRep(book, rows, p, s, n, i);
    StoreRep(books, rows, rows - {RowKey(p, s, book[i])}, p, s, WithoutAt(book, i), n);
  }

  lemma {:induction false} RemoveStep(st: State, p: nat, s: nat, i: nat, reason: RemoveReason, rows: Rows)
    requires Distinct(Book(st, p, s)) && KeyOk(st, (p, s)) && i < |Book(st, p, s)|
    requires Rep(st.books, rows, st.bookSeq)
    ensures FoldsTo(st, RemoveAt(st, p, s, i, reason),
      [OrderRemoved(st.bookSeq + 1, p, s, Book(st, p, s)[i].orderId, reason.Code())], rows)
  {
    RemoveRep(st.books, rows, st.bookSeq, p, s, i);
    OneFoldsTo(st, RemoveAt(st, p, s, i, reason),
      OrderRemoved(st.bookSeq + 1, p, s, Book(st, p, s)[i].orderId, reason.Code()), rows);
  }

  lemma {:induction false} RemoveFollows(st: State, p: nat, s: nat, i: nat, reason: RemoveReason)
    requires Distinct(Book(st, p, s)) && KeyOk(st, (p, s)) && i < |Book(st, p, s)|
    ensures Follows(st, RemoveAt(st, p, s, i, reason),
      [OrderRemoved(st.bookSeq + 1, p, s, Book(st, p, s)[i].orderId, reason.Code())])
  {
    var st' := RemoveAt(st, p, s, i, reason);
    var ev := OrderRemoved(st.bookSeq + 1, p, s, Book(st, p, s)[i].orderId, reason.Code());
    forall rows: Rows | Rep(st.books, rows, st.bookSeq)
      ensures FoldsTo(st, st', [ev], rows)
    {
      RemoveStep(st, p, s, i, reason, rows);
    }
    EffectFollows(st, st', ev);
  }

  lemma {:induction false} UpdateRep(books: Books, rows: Rows, n: nat, p: nat, s: nat, i: nat, e: OrderEntry)
    requires Rep(books, rows, n) && Distinct(At(books, (p, s))) && i < |At(books, (p, s))|
    requires e.orderId == At(books, (p, s))[i].orderId && e.Terms() == At(books, (p, s))[i].Terms()
    ensures
      var key := RowKey(p, s, e);
      key in rows
      && Rep(books[(p, s) := At(books, (p, s))[i := e]], rows[key := Row(p, s, e, rows[key].priority)], n + 1)
  {
    var book, key := At(books, (p, s)), RowKey(p, s, e);
    assert SideRep(book, rows, p, s, n);
    assert HasRow(rows, p, s, book[i], n);
    UpdateSideRep(book, rows, p, s, n, i, e);
    StoreRep(books, rows, rows[key := Row(p, s, e, rows[key].priority)], p, s, book[i := e], n);
  }

  lemma {:induction false} UpdateStep(st: State, p: nat, s: nat, i: nat, e: OrderEntry, rows: Rows)
    requires Distinct(Book(st, p, s)) && KeyOk(st, (p, s)) && i < |Book(st, p, s)|
    requires e.orderId == Book(st, p, s)[i].orderId && e.Terms() == Book(st, p, s)[i].Terms()
    requires Rep(st.books, rows, st.bookSeq)
    ensures FoldsTo(st, UpdateAt(st, p, s, i, e), [OrderUpserted(st.bookSeq + 1, p, s, e)], rows)
  {
    UpdateRep(st.books, rows, st.bookSeq, p, s, i, e);
    OneFoldsTo(st, UpdateAt(st, p, s, i, e), OrderUpserted(st.bookSeq + 1, p, s, e), rows);
  }

  lemma {:induction false} UpdateFollows(st: State, p: nat, s: nat, i: nat, e: OrderEntry)
    requires Distinct(Book(st, p, s)) && KeyOk(st, (p, s)) && i < |Book(st, p, s)|
    requires e.orderId == Book(st, p, s)[i].orderId && e.Terms() == Book(st, p, s)[i].Terms()
    ensures Follows(st, UpdateAt(st, p, s, i, e), [OrderUpserted(st.bookSeq + 1, p, s, e)])
  {
    forall rows: Rows | Rep(st.books, rows, st.bookSeq)
      ensures FoldsTo(st, UpdateAt(st, p, s, i, e), [OrderUpserted(st.bookSeq + 1, p, s, e)], rows)
    {
      UpdateStep(st, p, s, i, e, rows);
    }
    EffectFollows(st, UpdateAt(st, p, s, i, e), OrderUpserted(st.bookSeq + 1, p, s, e));
  }

  lemma {:induction false} RestRep(books: Books, rows: Rows, n: nat, p: nat, s: nat, e: OrderEntry)
    requires Rep(books, rows, n) && Sorted(At(books, (p, s)), s) && Absent(At(books, (p, s)), e.orderId)
    ensures Rep(books[(p, s) := WithEntry(At(books, (p, s)), e, s)],
      rows[RowKey(p, s, e) := Row(p, s, e, n + 1)], n + 1)
    ensures RowKey(p, s, e) !in rows
  {
    var book, key := At(books, (p, s)), RowKey(p, s, e);
    assert SideRep(book, rows, p, s, n);
    assert key in rows ==> Shown(book, key);
    InsertSideRep(book, rows, p, s, n, e);
    StoreRep(books, rows, rows[key := Row(p, s, e, n + 1)], p, s, WithEntry(book, e, s), n);
  }

  lemma {:induction false} RestStep(st: State, p: nat, s: nat, e: OrderEntry, rows: Rows)
    requires KeyOk(st, (p, s)) && Sorted(At(st.books, (p, s)), s) && Absent(At(st.books, (p, s)), e.orderId)
    requires Rep(st.books, rows, st.bookSeq)
    ensures FoldsTo(st, Rest(st, p, s, e), [OrderUpserted(st.bookSeq + 1, p, s, e)], rows)
  {
    RestRep(st.books, rows, st.bookSeq, p, s, e);
    OneFoldsTo(st, Rest(st, p, s, e), OrderUpserted(st.bookSeq + 1, p, s, e), rows);
  }

  lemma {:induction false} RestFollows(st: State, p: nat, s: nat, e: OrderEntry)
    requires KeyOk(st, (p, s)) && Sorted(At(st.books, (p, s)), s) && Absent(At(st.books, (p, s)), e.orderId)
    ensures Follows(st, Rest(st, p, s, e), [OrderUpserted(st.bookSeq + 1, p, s, e)])
  {
    forall rows: Rows | Rep(st.books, rows, st.bookSeq)
      ensures FoldsTo(st, Rest(st, p, s, e), [OrderUpserted(st.bookSeq + 1, p, s, e)], rows)
    {
      RestStep(st, p, s, e, rows);
    }
    EffectFollows(st, Rest(st, p, s, e), OrderUpserted(st.bookSeq + 1, p, s, e));
  }
}
