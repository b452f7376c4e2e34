// The browser's stores as the program that edits them: the page reducer's loop inside a transaction
// that commits or aborts, the live snapshot writer and the failure mark. Each is proved equal to its
// transition function in BookIndexer.
module Stores {
  import opened Wrappers
  import opened Lots
  import opened Types
  import opened Ledger
  import opened BookIndexer
  import opened IndexRecovery

  class BookStore {
    var meta: Option<Meta>
    var orders: Rows
    var assets: map<nat, AssetRow>
    var pairs: map<nat, PairDef>
    var processed: set<nat>

    function MetaRow(): Meta
      reads this
    {
      if meta.Some? then meta.value else InitialMeta()
    }

    ghost function Model(): Index
      reads this
    {
      Index(MetaRow(), orders, assets, pairs, processed)
    }

    // The stores together with the metadata and sequence a transaction is still holding.
    ghost function Working(m: Meta, sequence: nat): Index
      reads this
    {
      Index(m.(lastSequence := sequence), orders, assets, pairs, processed)
    }

    constructor ()
      ensures Model() == EmptyIndex()
    {
      meta, orders, assets, pairs, processed := None, map[], map[], map[], {};
    }

    // An in-sequence order event's effect on the order store.
    method ApplySequenced(m: Meta, sequence: nat, d: Delivery) returns (r: Result<nat, IndexError>)
      requires IsOrderEvent(d.event)
      modifies `orders, `processed
      ensures match r
        case Ok(next) => BookIndexer.ApplySequenced(old(Working(m, sequence)), d) == Ok(Working(m, next))
        case Err(e) => BookIndexer.ApplySequenced(old(Working(m, sequence)), d) == Err(e)
    {
      var next := SequenceOf(d.event);
      if !m.initialized {
        return Err(BeforeInit);
      }
      if next <= sequence {
        processed := processed + {d.id};
        return Ok(sequence);
      }
      if next != sequence + 1 {
        return Err(SequenceGap);
      }
      if d.event.side != SIDE_BUY && d.event.side != SIDE_SELL {
        return Err(BadSide);
      }
      match d.event {
        case OrderUpserted(_, pairId, side, entry) =>
          var key := OrderKey(pairId, side, entry.orderId);
          var priority := if key in orders then orders[key].priority else next;
          orders := orders[key := Row(pairId, side, entry, priority)];
        case OrderRemoved(_, pairId, side, orderId, reason) =>
          var key := OrderKey(pairId, side, orderId);
          if reason > 2 {
            return Err(BadReason);
          }
          if key !in orders {
            return Err(UnknownOrder);
          }
          orders := orders - {key};
      }
      processed := processed + {d.id};
      r := Ok(next);
    }

    // One delivered event. The metadata row and the sequence stay in the transaction's hands.
    method ApplyEvent(m: Meta, sequence: nat, d: Delivery) returns (r: Result<(Meta, nat), IndexError>)
      modifies `orders, `assets, `pairs, `processed
      ensures match r
        case Ok(next) => ApplyOne(old(Working(m, sequence)), d) == Ok(Working(next.0, next.1))
        case Err(e) => ApplyOne(old(Working(m, sequence)), d) == Err(e)
    {
      if d.id in processed {
        return Ok((m, sequence));
      }
      var m' := m;
      match d.event {
        case BookInitialized(schema, hashes) =>
          if schema != BOOK_SCHEMA_VERSION {
            return Err(UnsupportedSchema);
          }
          if m.initialized && m.protocol != Some((schema, hashes)) {
            return Err(ConflictingInit);
          }
          m' := m.(initialized := true, protocol := Some((schema, hashes)));
        case AssetRegistered(assetId, token, kind) =>
          if !m.initialized {
            return Err(BeforeInit);
          }
          if assetId in assets && assets[assetId].token != token {
            return Err(ConflictingAsset);
          }
          assets := assets[assetId := AssetRow(token, KindFromCode(kind))];
        case PairRegistered(pairId, baseAsset, quoteAsset) =>
          if !m.initialized {
            return Err(BeforeInit);
          }
          var pair := PairDef(baseAsset, quoteAsset);
          if pairId in pairs && pairs[pairId] != pair {
            return Err(ConflictingPair);
          }
          pairs := pairs[pairId := pair];
        case OrderUpserted(_, _, _, _) =>
          var next :- ApplySequenced(m, sequence, d);
          return Ok((m, next));
        case OrderRemoved(_, _, _, _, _) =>
          var next :- ApplySequenced(m, sequence, d);
          return Ok((m, next));
        case _ =>
          return Ok((m, sequence));
      }
      processed := processed + {d.id};
      r := Ok((m', sequence));
    }

    // The events of a page in order, up to the first one that is refused.
    method ApplyEvents(m: Meta, sequence: nat, events: seq<Delivery>) returns (r: Result<(Meta, nat), IndexError>)
      modifies `orders, `assets, `pairs, `processed
      ensures match r
        case Ok(next) => ApplyAll(old(Working(m, sequence)), events) == Ok(Working(next.0, next.1))
        case Err(e) => ApplyAll(old(Working(m, sequence)), events) == Err(e)
    {
      ghost var idx := Working(m, sequence);
      var m', running, i := m, sequence, 0;
      while i < |events|
        invariant 0 <= i <= |events|
        invariant ApplyAll(idx, events[..i]) == Ok(Working(m', running))
      {
        assert events[..i + 1][..i] == events[..i];
        AllStop(idx, events, i + 1);
        var next :- ApplyEvent(m', running, events[i]);
        m', running := next.0, next.1;
        i := i + 1;
      }
      assert events[..i] == events;
      r := Ok((m', running));
    }

    // Apply one page and its cursor in one transaction: a refused page aborts and leaves no trace.
    method ApplyBookEventPage(page: Page) returns (r: Result<(), IndexError>)
      modifies this
      ensures Model() == BookIndexer.Receive(old(Model()), page)
      ensures match r
        case Ok(_) => ApplyPage(old(Model()), page).Ok?
        case Err(e) => ApplyPage(old(Model()), page) == Err(e)
    {
      var orders0, assets0, pairs0, processed0 := orders, assets, pairs, processed;
      var m := MetaRow();
      var end := ApplyEvents(m, m.lastSequence, page.events);
      if end.Err? {
        orders, assets, pairs, processed := orders0, assets0, pairs0, processed0;
        return Err(end.error);
      }
      var (m', sequence) := end.value;
      meta := Some(m'.(lastSequence := sequence, cursor := Some(page.cursor), latestLedger := page.ledger,
        fatal := false));
      r := Ok(());
    }

    // ----- A sync --------------------------------------------------------------------------------

    method SetFatal()
      modifies `meta
      ensures Model() == Fail(old(Model()))
    {
      meta := Some(MetaRow().(fatal := true));
    }

    method ReportFailure(e: Failure) returns (status: Status)
      modifies `meta
      ensures (Model(), status) == AfterFailure(old(Model()), e)
    {
      status := Syncing;
      if e == Integrity {
        SetFatal();
        status := Failed;
      }
    }

    // Replace everything by a live read of the contract.
    method WriteLiveSnapshot(live: LiveRead)
      modifies this
      ensures Model() == Snapshot(live)
    {
      orders, assets, pairs, processed := map[], map[], map[], {};
      meta := Some(Meta(true, Some(live.protocol), None, live.sequence, 0, live.sequence, true, false));
      var i := 0;
      while i < |live.assets|
        modifies `assets
        invariant 0 <= i <= |live.assets| && assets == PutEach(live.assets[..i])
      {
        assets := assets[live.assets[i].0 := live.assets[i].1];
        assert live.assets[..i + 1][..i] == live.assets[..i];
        i := i + 1;
      }
      assert live.assets[..i] == live.assets;
      i := 0;
      while i < |live.pairs|
        modifies `pairs
        invariant 0 <= i <= |live.pairs| && pairs == PutEach(live.pairs[..i])
      {
        pairs := pairs[live.pairs[i].0 := live.pairs[i].1];
        assert live.pairs[..i + 1][..i] == live.pairs[..i];
        i := i + 1;
      }
      assert live.pairs[..i] == live.pairs;
      i := 0;
      while i < |live.orders|
        modifies `orders
        invariant 0 <= i <= |live.orders| && orders == PutAll(live.orders[..i])
      {
        orders := orders[KeyOf(live.orders[i]) := live.orders[i]];
        assert live.orders[..i + 1][..i] == live.orders[..i];
        i := i + 1;
      }
      assert live.orders[..i] == live.orders;
    }

    // Apply the pages that come while they come full, up to one that is refused.
    method CatchUp(pages: seq<Page>) returns (complete: bool)
      modifies this
      ensures Model() == ReceiveUpTo(old(Model()), pages[..Asked(pages)]).0
      ensures
        var asked := pages[..Asked(pages)];
        complete == (ReceiveUpTo(old(Model()), asked).1 && asked != [] && |asked[|asked| - 1].events| != PAGE_LIMIT)
    {
      ghost var idx := Model();
      var i, full := 0, true;
      while full
        invariant 0 <= i <= Asked(pages) && ReceiveUpTo(idx, pages[..i]) == (Model(), true)
        invariant full ==> Asked(pages) == i + Asked(pages[i..]) && (i > 0 ==> |pages[i - 1].events| == PAGE_LIMIT)
        invariant !full ==> 0 < i == Asked(pages) && |pages[i - 1].events| != PAGE_LIMIT
        decreases |pages| - i, full
      {
        if i == |pages| {
          return false;
        }
        AskedStep(pages, i);
        ReceiveStep(idx, pages, i);
        var r := ApplyBookEventPage(pages[i]);
        if r.Err? {
          RefusedStays(idx, pages, i + 1, Asked(pages));
          return false;
        }
        full := |pages[i].events| == PAGE_LIMIT;
        i := i + 1;
      }
      complete := true;
    }

    // Write the live read, then catch up with what followed it.
    method Recover(live: LiveRead) returns (status: Status)
      modifies this
      ensures (Model(), status) == AfterRecovery(live)
    {
      WriteLiveSnapshot(live);
      var complete := CatchUp(live.pages);
      status := if complete then StatusOf(MetaRow()) else Syncing;
    }

    // The page is applied; now the contract's sequence and the release's check decide.
    method Conclude(page: Page, n: Reading) returns (status: Status)
      modifies `meta
      ensures (Model(), status) == AfterPage(old(Model()), page, n)
    {
      if n.target.None? {
        return Syncing;
      }
      var updated := MetaRow().(targetSequence := n.target.value);
      if !updated.initialized && page.ledger <= updated.latestLedger {
        SetFatal();
        return Failed;
      }
      match n.release {
        case Err(e) => status := ReportFailure(e);
        case Ok(_) =>
          updated := updated.(releaseVerified := true);
          meta := Some(updated);
          status := StatusOf(MetaRow());
      }
    }

    // One sync: nothing after a failure; recovery where the ledgers are gone and no cursor is stored;
    // otherwise the next page.
    method Sync(n: Reading) returns (status: Status)
      modifies this
      ensures (Model(), status) == SyncOnce(old(Model()), n)
    {
      if MetaRow().fatal {
        return Failed;
      }
      match n.response {
        case NoResponse => status := Syncing;
        case Expired(live) =>
          if MetaRow().cursor.Some? {
            status := Syncing;
          } else {
            match live {
              case Err(e) => status := ReportFailure(e);
              case Ok(read) => status := Recover(read);
            }
          }
        case Served(page) =>
          var r := ApplyBookEventPage(page);
          if r.Err? {
            SetFatal();
            return Failed;
          }
          status := Conclude(page, n);
      }
    }
  }

  // A run of syncs from empty stores reaches exactly the modelled index, so everything proved of runs
  // holds of these stores.
  method SyncFromEmpty(readings: seq<Reading>) returns (store: BookStore)
    ensures fresh(store) && store.Model() == SyncAll(EmptyIndex(), readings)
  {
    store := new BookStore();
    var i := 0;
    while i < |readings|
      invariant 0 <= i <= |readings| && fresh(store)
      invariant store.Model() == SyncAll(EmptyIndex(), readings[..i])
    {
      assert readings[..i + 1][..i] == readings[..i];
      var _ := store.Sync(readings[i]);
      i := i + 1;
    }
    assert readings[..i] == readings;
  }

  lemma {:induction false} AskedStep(pages: seq<Page>, i: nat)
    requires i < |pages|
    ensures Asked(pages[i..]) == 1 + if |pages[i].events| == PAGE_LIMIT then Asked(pages[i + 1..]) else 0
  {
    assert pages[i..][1..] == pages[i + 1..];
  }

  lemma {:induction false} ReceiveStep(idx: Index, pages: seq<Page>, i: nat)
    requires i < |pages| && ReceiveUpTo(idx, pages[..i]).1
    ensures
      var x := ReceiveUpTo(idx, pages[..i]).0;
      var r := ApplyPage(x, pages[i]);
      ReceiveUpTo(idx, pages[..i + 1]) == (if r.Ok? then (r.value, true) else (x, false))
  {
    assert pages[..i + 1][..i] == pages[..i];
  }

  // Once a page is refused, the rest of the pages changes nothing.
  lemma {:induction false} RefusedStays(idx: Index, pages: seq<Page>, n: nat, m: nat)
    requires n <= m <= |pages| && !ReceiveUpTo(idx, pages[..n]).1
    ensures ReceiveUpTo(idx, pages[..m]) == ReceiveUpTo(idx, pages[..n])
  {
    if n < m {
      RefusedStays(idx, pages, n, m - 1);
      assert pages[..m][..m - 1] == pages[..m - 1];
    }
  }

  // A page stops at the first event it refuses.
  lemma {:induction false} AllStop(idx: Index, events: seq<Delivery>, n: nat)
    requires n <= |events|
    ensures var r := ApplyAll(idx, events[..n]); r.Err? ==> ApplyAll(idx, events) == r
    decreases |events|
  {
    if n < |events| {
      var front := events[..|events| - 1];
      assert front[..n] == events[..n];
      AllStop(idx, front, n);
    } else {
      assert events[..n] == events;
    }
  }
}
