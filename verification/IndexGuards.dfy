// What the page reducer guarantees whatever it is sent, forged events included: nothing stored is ever
// contradicted, nothing is stored before the protocol is known, and no sequence number is passed over.
module IndexGuards {
  import opened Wrappers
  import opened Lots
  import opened Types
  import opened Ledger
  import opened BookInvariant
  import opened BookIndexer
  import opened IndexRecovery

  // Nothing but an initialized index of this schema holds anything; every row lies on a side, under its
  // own key, and came with a sequence number already reached.
  ghost predicate Coherent(idx: Index) {
    && (if idx.meta.initialized then idx.meta.protocol.Some? && idx.meta.protocol.value.0 == 1
        else idx.assets == map[] && idx.pairs == map[] && idx.orders == map[] && idx.meta.lastSequence == 0)
    && (forall k :: k in idx.orders ==>
          && KeyOf(idx.orders[k]) == k && (k.side == SIDE_BUY || k.side == SIDE_SELL)
          && 0 < idx.orders[k].priority <= idx.meta.lastSequence)
  }

  // Everything that was registered is registered still, and the same.
  ghost predicate Extends(idx: Index, idx': Index) {
    && (idx.meta.initialized ==> idx'.meta.initialized && idx'.meta.protocol == idx.meta.protocol)
    && (forall a :: a in idx.assets ==> a in idx'.assets && idx'.assets[a].token == idx.assets[a].token)
    && (forall p :: p in idx.pairs ==> p in idx'.pairs && idx'.pairs[p] == idx.pairs[p])
    && idx.meta.lastSequence <= idx'.meta.lastSequence && idx.processed <= idx'.processed
  }

  lemma {:induction false} EventGuarded(idx: Index, d: Delivery)
    requires Coherent(idx) && ApplyOne(idx, d).Ok?
    ensures Coherent(ApplyOne(idx, d).value) && Extends(idx, ApplyOne(idx, d).value)
  {
    if IsOrderEvent(d.event) && d.id !in idx.processed {
      OrderGuarded(idx, d);
    }
  }

  lemma {:induction false} OrderGuarded(idx: Index, d: Delivery)
    requires IsOrderEvent(d.event) && Coherent(idx) && ApplySequenced(idx, d).Ok?
    ensures Coherent(ApplySequenced(idx, d).value) && Extends(idx, ApplySequenced(idx, d).value)
  {
  }

  lemma {:induction false} EventsGuarded(idx: Index, ds: seq<Delivery>)
    requires Coherent(idx) && ApplyAll(idx, ds).Ok?
    ensures Coherent(ApplyAll(idx, ds).value) && Extends(idx, ApplyAll(idx, ds).value)
  {
    if ds != [] {
      var front, last := ds[..|ds| - 1], ds[|ds| - 1];
      EventsGuarded(idx, front);
      EventGuarded(ApplyAll(idx, front).value, last);
      ExtendsOn(idx, ApplyAll(idx, front).value, ApplyAll(idx, ds).value);
    }
  }

  lemma {:induction false} ExtendsOn(a: Index, b: Index, c: Index)
    requires Extends(a, b) && Extends(b, c)
    ensures Extends(a, c)
  {
  }

  // However many pages of whatever events come, the index stays coherent and contradicts nothing that it
  // held before.
  lemma {:induction false} NothingIsContradicted(idx: Index, pages: seq<Page>)
    requires Coherent(idx)
    ensures Coherent(ReceiveAll(idx, pages)) && Extends(idx, ReceiveAll(idx, pages))
  {
    if pages != [] {
      var front, last := pages[..|pages| - 1], pages[|pages| - 1];
      NothingIsContradicted(idx, front);
      var x := ReceiveAll(idx, front);
      if ApplyPage(x, last).Ok? {
        EventsGuarded(x, last.events);
        ExtendsOn(idx, x, ReceiveAll(idx, pages));
      }
    }
  }

  // An empty index is coherent, and so is one written from the contract's live books.
  lemma {:induction false} StartsCoherent(st: State, vkHashes: seq<Word>, assets: map<nat, AssetRow>)
    requires BooksOk(st) && FewerThanSequence(st)
    ensures Coherent(EmptyIndex()) && Coherent(LiveIndex(st, (SCHEMA_VERSION, vkHashes), assets))
  {
    var rows := PutAll(LiveOrders(st, |st.pairs|));
    LiveRowsHold(st);
    forall k | k in rows
      ensures 0 < rows[k].priority <= st.bookSeq
    {
      assert IsLiveRow(st, |st.pairs|, rows[k]);
    }
  }

  // ----- No gap ----------------------------------------------------------------------------------

  // An order event that the contract might have written: on a side, and removed for a known reason.
  predicate WellFormed(ev: Event) {
    IsOrderEvent(ev) && (ev.side == SIDE_BUY || ev.side == SIDE_SELL) && (ev.OrderRemoved? ==> ev.reason <= 2)
  }

  // The page carries a well-formed order event of this sequence number.
  ghost predicate Accounted(ds: seq<Delivery>, sequence: nat) {
    exists i :: 0 <= i < |ds| && WellFormed(ds[i].event) && SequenceOf(ds[i].event) == sequence
  }

  lemma {:induction false} AccountedMore(ds: seq<Delivery>, d: Delivery, n: nat)
    ensures Accounted(ds + [d], n) <==>
      Accounted(ds, n) || (WellFormed(d.event) && SequenceOf(d.event) == n)
  {
    var all := ds + [d];
    if Accounted(ds, n) {
      var i :| 0 <= i < |ds| && WellFormed(ds[i].event) && SequenceOf(ds[i].event) == n;
      assert all[i] == ds[i];
    }
    if WellFormed(d.event) && SequenceOf(d.event) == n {
      assert all[|ds|] == d;
    }
  }

  // One event moves the sequence on by one at most, to its own, and only if it is well-formed.
  lemma {:induction false} EventCounts(idx: Index, d: Delivery)
    requires ApplyOne(idx, d).Ok?
    ensures
      var n, n' := idx.meta.lastSequence, ApplyOne(idx, d).value.meta.lastSequence;
      n' == n || (n' == n + 1 && WellFormed(d.event) && SequenceOf(d.event) == n')
  {
  }

  // Every sequence number that accepted events move the index past is that of a well-formed order event
  // among them.
  lemma {:induction false} NoSequenceIsSkipped(idx: Index, ds: seq<Delivery>, n: nat)
    requires ApplyAll(idx, ds).Ok? && idx.meta.lastSequence < n <= ApplyAll(idx, ds).value.meta.lastSequence
    ensures Accounted(ds, n)
  {
    if ds != [] {
      var front, last := ds[..|ds| - 1], ds[|ds| - 1];
      assert ds == front + [last];
      EventCounts(ApplyAll(idx, front).value, last);
      AccountedMore(front, last, n);
      if n <= ApplyAll(idx, front).value.meta.lastSequence {
        NoSequenceIsSkipped(idx, front, n);
      }
    }
  }

  // A removal that moves the sequence on takes exactly the row of its order away; no other event takes
  // one.
  lemma {:induction false} RowsLeaveByRemoval(idx: Index, d: Delivery)
    requires ApplyOne(idx, d).Ok?
    ensures
      var idx' := ApplyOne(idx, d).value;
      if d.event.OrderRemoved? && idx'.meta.lastSequence != idx.meta.lastSequence then
        && OrderKey(d.event.pairId, d.event.side, d.event.orderId) in idx.orders
        && idx'.orders == idx.orders - {OrderKey(d.event.pairId, d.event.side, d.event.orderId)}
      else
        forall k :: k in idx.orders ==> k in idx'.orders && idx'.orders[k].priority == idx.orders[k].priority
  {
  }
}
