// Contiguous delivery is never rejected: a replay of the whole log, and the catch-up after
// recovering from a snapshot of the live books.
module IndexReplay {
  import opened Wrappers
  import opened Lots
  import opened Types
  import opened Ledger
  import opened BookInvariant
  import opened Value
  import opened BookIndexer
  import opened Replay
  import opened Safety
  import opened Reachable
  import opened IndexAgreement

  // ----- The registrations of a log --------------------------------------------------------------

  predicate SameRegistration(a: Event, b: Event) {
    || (a.BookInitialized? && b.BookInitialized?)
    || (a.AssetRegistered? && b.AssetRegistered? && a.assetId == b.assetId)
    || (a.PairRegistered? && b.PairRegistered? && a.pairId == b.pairId)
  }

  // The log opens with this schema's bookinit and registers nothing twice.
  ghost predicate RegistersOnce(log: seq<Event>) {
    && log != [] && log[0].BookInitialized? && log[0].schema == BOOK_SCHEMA_VERSION
    && forall i, j {:trigger SameRegistration(log[i], log[j])} :: 0 <= i < j < |log| ==> !SameRegistration(log[i],
      log[j])
  }

  // The token an asset's registration announces: its own, or the contract's address for an asset that
  // exists on no token contract.
  function AnnouncedToken(host: Host, def: AssetDef): Word {
    if def.token.Some? then def.token.value else host.address
  }

  // What a registration says is true of the registered state.
  ghost predicate Registers(host: Host, st: State, vkHashes: seq<Word>, ev: Event) {
    match ev
    case BookInitialized(schema, hashes) => schema == SCHEMA_VERSION && hashes == vkHashes
    case AssetRegistered(a, token, _) => a in st.assets && token == AnnouncedToken(host, st.assets[a])
    case PairRegistered(p, base, quote) => p < |st.pairs| && st.pairs[p] == PairDef(base, quote)
    case _ => false
  }

  ghost predicate RegistryOk(host: Host, st: State, vkHashes: seq<Word>) {
    RegistersOnce(st.events) && forall i :: 0 <= i < |st.events| ==> Registers(host, st, vkHashes, st.events[i])
  }

  lemma {:induction false} RegisterKeeps(host: Host, st: State, st': State, vkHashes: seq<Word>, ev: Event)
    requires RegistryOk(host, st, vkHashes) && st'.events == st.events + [ev] && Registers(host, st', vkHashes, ev)
    requires forall a :: a in st.assets ==> a in st'.assets && st'.assets[a] == st.assets[a]
    requires st.pairs <= st'.pairs
    requires forall i :: 0 <= i < |st.events| ==> !SameRegistration(st.events[i], ev)
    ensures RegistryOk(host, st', vkHashes)
  {
    forall i | 0 <= i < |st'.events|
      ensures Registers(host, st', vkHashes, st'.events[i])
    {
      assert i < |st.events| ==> Registers(host, st, vkHashes, st.events[i]);
    }
  }

  lemma {:induction false} AssetsRegisterOnce(host: Host, st: State, vkHashes: seq<Word>, assets: seq<AssetInit>)
    requires RegistryOk(host, st, vkHashes)
    ensures var r := RegisterAssets(host, st, assets); r.Ok? ==> RegistryOk(host, r.value, vkHashes)
  {
    if assets != [] {
      var front, a := assets[..|assets| - 1], assets[|assets| - 1];
      AssetsRegisterOnce(host, st, vkHashes, front);
      if RegisterAssets(host, st, assets).Ok? {
        var st1 := RegisterAssets(host, st, front).value;
        var st2 := RegisterAsset(host, st1, a).value;
        forall i | 0 <= i < |st1.events|
          ensures !SameRegistration(st1.events[i], st2.events[|st1.events|])
        {
          assert Registers(host, st1, vkHashes, st1.events[i]);
        }
        RegisterKeeps(host, st1, st2, vkHashes, st2.events[|st1.events|]);
      }
    }
  }

  lemma {:induction false} PairsRegisterOnce(host: Host, st: State, vkHashes: seq<Word>, pairs: seq<PairDef>)
    requires RegistryOk(host, st, vkHashes)
    ensures var r := RegisterPairs(st, pairs); r.Ok? ==> RegistryOk(host, r.value, vkHashes)
  {
    if pairs != [] {
      var front, p := pairs[..|pairs| - 1], pairs[|pairs| - 1];
      PairsRegisterOnce(host, st, vkHashes, front);
      if RegisterPairs(st, pairs).Ok? {
        var st1 := RegisterPairs(st, front).value;
        var st2 := RegisterPair(st1, p).value;
        forall i | 0 <= i < |st1.events|
          ensures !SameRegistration(st1.events[i], st2.events[|st1.events|])
        {
          assert Registers(host, st1, vkHashes, st1.events[i]);
        }
        RegisterKeeps(host, st1, st2, vkHashes, st2.events[|st1.events|]);
      }
    }
  }

  lemma {:induction false} DeployRegistersOnce(host: Host, h: History)
    requires Deploy(host, h).Ok?
    ensures RegistryOk(host, Deploy(host, h).value, h.vkHashes)
  {
    var st0 := InitialState(host, h.vkHashes);
    AssetsRegisterOnce(host, st0, h.vkHashes, h.assets);
    PairsRegisterOnce(host, RegisterAssets(host, st0, h.assets).value, h.vkHashes, h.pairs);
  }

  lemma {:induction false} LogRegistersOnce(host: Host, h: History)
    requires JoinSound(host) && Deploy(host, h).Ok?
    ensures RegistersOnce(StateAfter(host, h).events)
    ensures
      var n := |Deploy(host, h).value.events|;
      n <= |StateAfter(host, h).events| && NoRegistration(StateAfter(host, h).events[n..])
  {
    var st0 := Deploy(host, h).value;
    DeployIsGood(host, h);
    DeployRegistersOnce(host, h);
    RunKeeps(host, st0, h.calls);
  }

  // ----- Contiguous delivery -----------------------------------------------------------------------

  // The index has seen exactly the first m events of the log.
  ghost predicate InStep(log: seq<Event>, base: Rows, from: nat, m: nat, idx: Index) {
    && m <= |log| && Tracks(log, base, from, idx)
    && idx.meta.lastSequence == |OrderEvents(log[..m])|
    && (forall id :: id in idx.processed ==> id < m)
    && (m > 0 ==> idx.meta.initialized)
  }

  // A registration that does not contradict the registry the index started from.
  predicate Agrees(idx0: Index, ev: Event) {
    match ev
    case BookInitialized(schema, hashes) => idx0.meta.initialized ==> idx0.meta.protocol == Some((schema, hashes))
    case AssetRegistered(a, token, _) => a in idx0.assets ==> idx0.assets[a].token == token
    case PairRegistered(p, base, quote) => p in idx0.pairs ==> idx0.pairs[p] == PairDef(base, quote)
    case _ => true
  }

  ghost predicate Seen(log: seq<Event>, idx: Index, ev: Event) {
    exists i :: i in idx.processed && i < |log| && SameRegistration(log[i], ev)
  }

  // The index's registry is the one it started from, extended by the registrations it has processed,
  // all of which agreed.
  ghost predicate RegistryStep(log: seq<Event>, idx0: Index, idx: Index) {
    && (forall i :: i in idx.processed ==> i < |log| && Agrees(idx0, log[i]))
    && (idx0.meta.initialized ==> idx.meta.initialized && idx.meta.protocol == idx0.meta.protocol)
    && (forall a :: a in idx0.assets ==> a in idx.assets && idx.assets[a].token == idx0.assets[a].token)
    && (forall p :: p in idx0.pairs ==> p in idx.pairs && idx.pairs[p] == idx0.pairs[p])
    && (idx.meta.initialized ==> idx0.meta.initialized || Seen(log, idx, BookInitialized(0, [])))
    && (forall a :: a in idx.assets ==> a in idx0.assets || Seen(log, idx, AssetRegistered(a, 0, 0)))
    && (forall p :: p in idx.pairs ==> p in idx0.pairs || Seen(log, idx, PairRegistered(p, 0, 0)))
  }

  lemma {:induction false} OrdersBefore(log: seq<Event>, m: nat)
    requires m <= |log|
    ensures OrderEvents(log) == OrderEvents(log[..m]) + OrderEvents(log[m..])
  {
    assert log == log[..m] + log[m..];
    OrderEventsConcat(log[..m], log[m..]);
  }

  lemma {:induction false} NextOrder(log: seq<Event>, m: nat)
    requires m < |log| && Numbered(OrderEvents(log), 0)
    ensures OrderEvents(log[..m + 1]) == OrderEvents(log[..m]) + if IsOrderEvent(log[m]) then [log[m]] else []
    ensures IsOrderEvent(log[m]) ==>
      var n := |OrderEvents(log[..m])|;
      n < |OrderEvents(log)| && OrderEvents(log)[n] == log[m] && SequenceOf(log[m]) == n + 1
  {
    assert log[..m + 1] == log[..m] + [log[m]];
    OrderEventsConcat(log[..m], [log[m]]);
    OneOrderEvent(log[m]);
    OrdersBefore(log, m + 1);
  }

  lemma {:induction false} OldOrder(log: seq<Event>, i: nat, m: nat)
    requires i < m <= |log| && Numbered(OrderEvents(log), 0) && IsOrderEvent(log[i])
    ensures SequenceOf(log[i]) <= |OrderEvents(log[..m])|
  {
    NextOrder(log, i);
    assert log[..m][..i + 1] == log[..i + 1];
    OrdersBefore(log[..m], i + 1);
  }

  lemma {:induction false} FoldPrefixOk(base: Rows, all: seq<Event>, from: nat, n: nat)
    requires from <= n <= |all| && forall i :: 0 <= i < |all| ==> IsOrderEvent(all[i])
    requires FoldOrders(base, all[from..]).Ok?
    ensures FoldOrders(base, all[from..n]).Ok?
  {
    assert all[from..] == all[from..n] + all[n..];
    FoldConcat(base, all[from..n], all[n..]);
  }

  // An order event already behind the index is skipped.
  lemma {:induction false} OldIsSkipped(log: seq<Event>, base: Rows, from: nat, m: nat, idx: Index, i: nat)
    requires Numbered(OrderEvents(log), 0) && InStep(log, base, from, m, idx) && i < m && IsOrderEvent(log[i])
    ensures
      var r := ApplyOne(idx, Delivery(i, log[i]));
      r.Ok? && InStep(log, base, from, m, r.value)
  {
    OldOrder(log, i, m);
  }

  lemma {:induction false} NextOrderRows(log: seq<Event>, base: Rows, from: nat, m: nat,
      idx: Index) returns (rows: Rows)
    requires Numbered(OrderEvents(log), 0) && InStep(log, base, from, m, idx) && m < |log| && IsOrderEvent(log[m])
    requires FoldOrders(base, OrderEvents(log)[from..]).Ok?
    ensures
      var n := idx.meta.lastSequence;
      && SequenceOf(log[m]) == n + 1 == |OrderEvents(log[..m + 1])| && from <= n < |OrderEvents(log)|
      && ApplyOrder(idx.orders, log[m]) == Ok(rows)
      && FoldOrders(base, OrderEvents(log)[from..n + 1]) == Ok(rows)
  {
    var n := idx.meta.lastSequence;
    NextOrder(log, m);
    FoldSnoc(base, OrderEvents(log), from, n);
    FoldPrefixOk(base, OrderEvents(log), from, n + 1);
    rows := FoldOrders(base, OrderEvents(log)[from..n + 1]).value;
  }

  // The next order event is in sequence and applies.
  lemma {:induction false} NextOrderApplies(log: seq<Event>, base: Rows, from: nat, m: nat, idx: Index)
    requires Numbered(OrderEvents(log), 0) && InStep(log, base, from, m, idx) && 0 < m < |log| && IsOrderEvent(log[m])
    requires FoldOrders(base, OrderEvents(log)[from..]).Ok?
    ensures
      var r := ApplyOne(idx, Delivery(m, log[m]));
      && r.Ok? && InStep(log, base, from, m + 1, r.value)
      && r.value.processed == idx.processed + {m} && r.value.assets == idx.assets && r.value.pairs == idx.pairs
  {
    var rows := NextOrderRows(log, base, from, m, idx);
    var meta := idx.meta.(lastSequence := idx.meta.lastSequence + 1);
    assert ApplyOne(idx, Delivery(m, log[m])) == Ok(MarkProcessed(idx.(orders := rows, meta := meta), m));
  }

  // Registered once, an event that was not processed yet has not been seen in any form.
  lemma {:induction false} NotSeen(log: seq<Event>, idx: Index, i: nat, ev: Event)
    requires RegistersOnce(log) && i < |log| && i !in idx.processed && SameRegistration(log[i], ev)
    ensures !Seen(log, idx, ev)
  {
    if j :| j in idx.processed && j < |log| && SameRegistration(log[j], ev) {
      assert SameRegistration(log[j], log[i]) && SameRegistration(log[i], log[j]);
    }
  }

  // A registration is accepted exactly when it agrees with the registry the index started from.
  lemma {:induction false} RegistrationIff(log: seq<Event>, idx0: Index, idx: Index, i: nat)
    requires RegistersOnce(log) && RegistryStep(log, idx0, idx) && i < |log| && Registration(log[i])
    requires i > 0 ==> idx.meta.initialized
    ensures ApplyOne(idx, Delivery(i, log[i])).Ok? <==> Agrees(idx0, log[i])
  {
    if i !in idx.processed {
      match log[i]
      case BookInitialized(_, _) =>
        assert i == 0 || SameRegistration(log[0], log[i]);
        NotSeen(log, idx, i, BookInitialized(0, []));
      case AssetRegistered(a, _, _) => NotSeen(log, idx, i, AssetRegistered(a, 0, 0));
      case PairRegistered(p, _, _) => NotSeen(log, idx, i, PairRegistered(p, 0, 0));
    }
  }

  lemma {:induction false} SeenStays(log: seq<Event>, idx: Index, idx': Index, ev: Event)
    requires Seen(log, idx, ev) && idx.processed <= idx'.processed
    ensures Seen(log, idx', ev)
  {
  }

  lemma {:induction false} RegistryMovesOn(log: seq<Event>, idx0: Index, idx: Index, i: nat)
    requires RegistryStep(log, idx0, idx) && i < |log| && Agrees(idx0, log[i])
    requires ApplyOne(idx, Delivery(i, log[i])).Ok?
    ensures RegistryStep(log, idx0, ApplyOne(idx, Delivery(i, log[i])).value)
  {
    var idx' := ApplyOne(idx, Delivery(i, log[i])).value;
    RegistryGrowth(idx, Delivery(i, log[i]));
    if idx'.meta.initialized && !idx0.meta.initialized {
      if idx.meta.initialized {
        SeenStays(log, idx, idx', BookInitialized(0, []));
      } else {
        assert SameRegistration(log[i], BookInitialized(0, []));
      }
    }
    forall a | a in idx'.assets && a !in idx0.assets
      ensures Seen(log, idx', AssetRegistered(a, 0, 0))
    {
      if a in idx.assets {
        SeenStays(log, idx, idx', AssetRegistered(a, 0, 0));
      } else {
        assert SameRegistration(log[i], AssetRegistered(a, 0, 0));
      }
    }
    forall p | p in idx'.pairs && p !in idx0.pairs
      ensures Seen(log, idx', PairRegistered(p, 0, 0))
    {
      if p in idx.pairs {
        SeenStays(log, idx, idx', PairRegistered(p, 0, 0));
      } else {
        assert SameRegistration(log[i], PairRegistered(p, 0, 0));
      }
    }
  }

  // What one event can add to the indexed registry, and what it keeps.
  lemma {:induction false} RegistryGrowth(idx: Index, d: Delivery)
    requires ApplyOne(idx, d).Ok?
    ensures
      var idx', ev := ApplyOne(idx, d).value, d.event;
      && idx.processed <= idx'.processed <= idx.processed + {d.id}
      && (Registration(ev) ==> d.id in idx'.processed)
      && (idx.meta.initialized ==> idx'.meta.initialized && idx'.meta.protocol == idx.meta.protocol)
      && (idx'.meta.initialized ==> idx.meta.initialized || ev.BookInitialized?)
      && (forall a :: a in idx.assets ==> a in idx'.assets && idx'.assets[a].token == idx.assets[a].token)
      && (forall p :: p in idx.pairs ==> p in idx'.pairs && idx'.pairs[p] == idx.pairs[p])
      && (forall a :: a in idx'.assets ==> a in idx.assets || (ev.AssetRegistered? && ev.assetId == a))
      && (forall p :: p in idx'.pairs ==> p in idx.pairs || (ev.PairRegistered? && ev.pairId == p))
  {
  }

  // What an event that carries no order can do to the index.
  lemma {:induction false} UnsequencedEffect(idx: Index, d: Delivery)
    requires !IsOrderEvent(d.event) && ApplyOne(idx, d).Ok?
    ensures
      var idx' := ApplyOne(idx, d).value;
      && idx'.orders == idx.orders && idx'.meta.lastSequence == idx.meta.lastSequence
      && idx'.processed <= idx.processed + {d.id}
      && (idx.meta.initialized || (d.event.BookInitialized? && d.id !in idx.processed) ==> idx'.meta.initialized)
  {
  }

  // An accepted event without an order, wherever it lies up to the index's position, moves that past it.
  lemma {:induction false} OtherMovesOn(log: seq<Event>, base: Rows, from: nat, m: nat, idx: Index, i: nat)
    requires Numbered(OrderEvents(log), 0) && InStep(log, base, from, m, idx)
    requires i <= m && i < |log| && !IsOrderEvent(log[i])
    requires i == 0 ==> log[i].BookInitialized?
    requires ApplyOne(idx, Delivery(i, log[i])).Ok?
    ensures InStep(log, base, from, Max(m, i + 1), ApplyOne(idx, Delivery(i, log[i])).value)
  {
    UnsequencedEffect(idx, Delivery(i, log[i]));
    if i == m {
      NextOrder(log, m);
      assert OrderEvents(log[..m]) + [] == OrderEvents(log[..m]);
    }
  }

  // The index stands at position m and its registry is the one it started from, as far as extended.
  ghost predicate ReadyFor(log: seq<Event>, base: Rows, from: nat, m: nat, idx0: Index, idx: Index) {
    InStep(log, base, from, m, idx) && RegistryStep(log, idx0, idx)
  }

  // A log that a contract wrote, with rows that fold over it.
  ghost predicate LogOk(log: seq<Event>, base: Rows, from: nat) {
    && Numbered(OrderEvents(log), 0) && RegistersOnce(log)
    && from <= |OrderEvents(log)| && FoldOrders(base, OrderEvents(log)[from..]).Ok?
  }

  // Any event up to the index's position is accepted exactly when it agrees.
  lemma {:induction false} StepReady(log: seq<Event>, base: Rows, from: nat, m: nat, idx0: Index, idx: Index, i: nat)
    requires LogOk(log, base, from) && ReadyFor(log, base, from, m, idx0, idx) && i <= m && i < |log|
    ensures
      var r := ApplyOne(idx, Delivery(i, log[i]));
      && (r.Ok? <==> Agrees(idx0, log[i]))
      && (r.Ok? ==> ReadyFor(log, base, from, Max(m, i + 1), idx0, r.value))
  {
    if IsOrderEvent(log[i]) {
      if i < m {
        OldIsSkipped(log, base, from, m, idx, i);
      } else {
        NextOrderApplies(log, base, from, m, idx);
      }
    } else {
      if Registration(log[i]) {
        RegistrationIff(log, idx0, idx, i);
      } else {
        assert ApplyOne(idx, Delivery(i, log[i])) == Ok(idx);
      }
      if ApplyOne(idx, Delivery(i, log[i])).Ok? {
        OtherMovesOn(log, base, from, m, idx, i);
      }
    }
    if ApplyOne(idx, Delivery(i, log[i])).Ok? {
      RegistryMovesOn(log, idx0, idx, i);
    }
  }

  function Max(a: nat, b: nat): nat {
    if a < b then b else a
  }

  // The deliveries of the log's events a up to b.
  function Slice(log: seq<Event>, a: nat, b: nat): (ds: seq<Delivery>)
    requires a <= b <= |log|
    ensures |ds| == b - a
  {
    seq(b - a, i requires 0 <= i < b - a => Delivery(a + i, log[a + i]))
  }

  ghost predicate AgreeIn(log: seq<Event>, idx0: Index, a: nat, b: nat) {
    forall i :: a <= i < b && i < |log| ==> Agrees(idx0, log[i])
  }

  // What is left of an index ready at m by the events from a up to b.
  ghost predicate SliceLeaves(log: seq<Event>, base: Rows, from: nat, m: nat, idx0: Index, a: nat, b: nat,
      r: Result<Index, IndexError>)
  {
    && (r.Ok? <==> AgreeIn(log, idx0, a, b))
    && (r.Ok? ==> ReadyFor(log, base, from, Max(m, b), idx0, r.value))
  }

  // A contiguous slice that starts at or before the index's position is accepted exactly when all of
  // its registrations agree.
  lemma {:induction false} SliceApplies(log: seq<Event>, base: Rows, from: nat, m: nat, idx0: Index, idx: Index,
      a: nat, b: nat)
    requires LogOk(log, base, from) && ReadyFor(log, base, from, m, idx0, idx) && a <= m && a <= b <= |log|
    ensures SliceLeaves(log, base, from, m, idx0, a, b, ApplyAll(idx, Slice(log, a, b)))
    decreases b
  {
    if a == b {
      assert Slice(log, a, b) == [];
    } else {
      SliceApplies(log, base, from, m, idx0, idx, a, b - 1);
      SliceSplits(log, idx0, idx, a, b);
      SliceStep(log, base, from, m, idx0, a, b, ApplyAll(idx, Slice(log, a, b - 1)),
        ApplyAll(idx, Slice(log, a, b)));
    }
  }

  lemma {:induction false} SliceStep(log: seq<Event>, base: Rows, from: nat, m: nat, idx0: Index, a: nat, b: nat,
      front: Result<Index, IndexError>, r: Result<Index, IndexError>)
    requires LogOk(log, base, from) && a < b <= |log| && a <= m
    requires SliceLeaves(log, base, from, m, idx0, a, b - 1, front)
    requires r == if front.Ok? then ApplyOne(front.value, Delivery(b - 1, log[b - 1])) else front
    requires AgreeIn(log, idx0, a, b) <==> AgreeIn(log, idx0, a, b - 1) && Agrees(idx0, log[b - 1])
    ensures SliceLeaves(log, base, from, m, idx0, a, b, r)
  {
    if front.Ok? {
      StepReady(log, base, from, Max(m, b - 1), idx0, front.value, b - 1);
    }
  }

  lemma {:induction false} SliceSplits(log: seq<Event>, idx0: Index, idx: Index, a: nat, b: nat)
    requires a < b <= |log|
    ensures
      var front := ApplyAll(idx, Slice(log, a, b - 1));
      ApplyAll(idx, Slice(log, a, b)) == if front.Ok? then ApplyOne(front.value, Delivery(b - 1, log[b - 1])) else front
    ensures AgreeIn(log, idx0, a, b) <==> AgreeIn(log, idx0, a, b - 1) && Agrees(idx0, log[b - 1])
  {
    var ds := Slice(log, a, b);
    assert ds[..|ds| - 1] == Slice(log, a, b - 1);
  }

  // ----- Pages -------------------------------------------------------------------------------------

  datatype Span = Span(start: nat, end: nat)

  // Where the index stands before page k.
  function Before(spans: seq<Span>, m: nat, k: nat): nat
    requires k <= |spans|
  {
    if k == 0 then m else spans[k - 1].end
  }

  // Pages that deliver contiguous slices of the log, none leaving a gap and none ending early.
  ghost predicate Contiguous(log: seq<Event>, pages: seq<Page>, spans: seq<Span>, m: nat) {
    |pages| == |spans| &&
    forall k :: 0 <= k < |pages| ==>
      && spans[k].start <= Before(spans, m, k) <= spans[k].end <= |log|
      && pages[k].events == Slice(log, spans[k].start, spans[k].end)
  }

  ghost predicate AllAccepted(idx: Index, pages: seq<Page>) {
    forall k :: 0 <= k < |pages| ==> ApplyPage(ReceiveAll(idx, pages[..k]), pages[k]).Ok?
  }

  // Every registration that the pages deliver agrees with the registry the index starts from.
  ghost predicate SpansAgree(log: seq<Event>, idx0: Index, spans: seq<Span>) {
    forall k :: 0 <= k < |spans| ==> AgreeIn(log, idx0, spans[k].start, spans[k].end)
  }

  // The page's cursor and ledger bookkeeping does not touch what readiness speaks of.
  lemma {:induction false} PageEnd(log: seq<Event>, base: Rows, from: nat, m: nat, idx0: Index, idx: Index,
      idx': Index)
    requires ReadyFor(log, base, from, m, idx0, idx)
    requires idx' == idx.(meta := idx'.meta)
    requires idx'.meta.lastSequence == idx.meta.lastSequence && idx'.meta.initialized == idx.meta.initialized
    requires idx'.meta.protocol == idx.meta.protocol
    ensures ReadyFor(log, base, from, m, idx0, idx')
  {
    assert forall ev :: Seen(log, idx, ev) ==> Seen(log, idx', ev);
  }

  lemma {:induction false} PageAccepted(log: seq<Event>, base: Rows, from: nat, m: nat, idx0: Index, idx: Index,
      page: Page, span: Span)
    requires LogOk(log, base, from) && ReadyFor(log, base, from, m, idx0, idx)
    requires span.start <= m <= span.end <= |log| && page.events == Slice(log, span.start, span.end)
    ensures
      var r := ApplyPage(idx, page);
      && (r.Ok? <==> AgreeIn(log, idx0, span.start, span.end))
      && (r.Ok? ==> ReadyFor(log, base, from, span.end, idx0, r.value))
  {
    SliceApplies(log, base, from, m, idx0, idx, span.start, span.end);
    if ApplyPage(idx, page).Ok? {
      PageEnd(log, base, from, span.end, idx0, ApplyAll(idx, page.events).value, ApplyPage(idx, page).value);
    }
  }

  lemma {:induction false} AcceptedPrefix(idx: Index, pages: seq<Page>, n: nat)
    requires n < |pages|
    ensures AllAccepted(idx, pages[..n + 1])
       <==> AllAccepted(idx, pages[..n]) && ApplyPage(ReceiveAll(idx, pages[..n]), pages[n]).Ok?
  {
    var all, front := pages[..n + 1], pages[..n];
    forall k | 0 <= k <= n
      ensures all[..k] == pages[..k] && all[k] == pages[k] && (k < n ==> front[..k] == pages[..k])
    {
    }
    if AllAccepted(idx, all) {
      assert ApplyPage(ReceiveAll(idx, all[..n]), all[n]).Ok?;
      forall k | 0 <= k < n
        ensures ApplyPage(ReceiveAll(idx, front[..k]), front[k]).Ok?
      {
        assert ApplyPage(ReceiveAll(idx, all[..k]), all[k]).Ok?;
      }
    }
    if AllAccepted(idx, front) && ApplyPage(ReceiveAll(idx, front), pages[n]).Ok? {
      forall k | 0 <= k <= n
        ensures ApplyPage(ReceiveAll(idx, all[..k]), all[k]).Ok?
      {
        assert k < n ==> ApplyPage(ReceiveAll(idx, front[..k]), front[k]).Ok?;
      }
    }
  }

  lemma {:induction false} ReceiveNext(idx: Index, pages: seq<Page>, n: nat)
    requires n < |pages| && ApplyPage(ReceiveAll(idx, pages[..n]), pages[n]).Ok?
    ensures ReceiveAll(idx, pages[..n + 1]) == ApplyPage(ReceiveAll(idx, pages[..n]), pages[n]).value
  {
    assert pages[..n + 1][..n] == pages[..n];
  }

  // What is left of an index ready at m by the first n pages.
  ghost predicate PagesLeave(log: seq<Event>, base: Rows, from: nat, m: nat, idx: Index, pages: seq<Page>,
      spans: seq<Span>, n: nat)
    requires n <= |pages| == |spans|
  {
    && (AllAccepted(idx, pages[..n]) <==> SpansAgree(log, idx, spans[..n]))
    && (AllAccepted(idx, pages[..n]) ==>
          ReadyFor(log, base, from, Before(spans, m, n), idx, ReceiveAll(idx, pages[..n])))
  }

  // The first n pages are all accepted exactly when the registrations they deliver all agree.
  lemma {:induction false} PagesAccepted(log: seq<Event>, base: Rows, from: nat, m: nat, idx: Index,
      pages: seq<Page>, spans: seq<Span>, n: nat)
    requires LogOk(log, base, from) && ReadyFor(log, base, from, m, idx, idx)
    requires Contiguous(log, pages, spans, m) && n <= |pages|
    ensures PagesLeave(log, base, from, m, idx, pages, spans, n)
  {
    if n == 0 {
      assert pages[..0] == [] && spans[..0] == [];
    } else {
      PagesAccepted(log, base, from, m, idx, pages, spans, n - 1);
      PageStep(log, base, from, m, idx, pages, spans, n - 1, ReceiveAll(idx, pages[..n - 1]));
    }
  }

  lemma {:induction false} PageStep(log: seq<Event>, base: Rows, from: nat, m: nat, idx: Index, pages: seq<Page>,
      spans: seq<Span>, n: nat, front: Index)
    requires LogOk(log, base, from) && Contiguous(log, pages, spans, m) && n < |pages|
    requires PagesLeave(log, base, from, m, idx, pages, spans, n) && front == ReceiveAll(idx, pages[..n])
    ensures PagesLeave(log, base, from, m, idx, pages, spans, n + 1)
  {
    AcceptedPrefix(idx, pages, n);
    SpansPrefix(log, idx, spans, n);
    if AllAccepted(idx, pages[..n]) {
      PageAccepted(log, base, from, Before(spans, m, n), idx, front, pages[n], spans[n]);
      if AllAccepted(idx, pages[..n + 1]) {
        ReceiveNext(idx, pages, n);
      }
    }
  }

  lemma {:induction false} SpansPrefix(log: seq<Event>, idx: Index, spans: seq<Span>, n: nat)
    requires n < |spans|
    ensures SpansAgree(log, idx, spans[..n + 1])
       <==> SpansAgree(log, idx, spans[..n]) && AgreeIn(log, idx, spans[n].start, spans[n].end)
  {
    forall k | 0 <= k <= n
      ensures spans[..n + 1][k] == spans[k] && (k < n ==> spans[..n][k] == spans[k])
    {
    }
    if SpansAgree(log, idx, spans[..n + 1]) {
      assert AgreeIn(log, idx, spans[..n + 1][n].start, spans[..n + 1][n].end);
      forall k | 0 <= k < n
        ensures AgreeIn(log, idx, spans[..n][k].start, spans[..n][k].end)
      {
        assert AgreeIn(log, idx, spans[..n + 1][k].start, spans[..n + 1][k].end);
      }
    }
  }

  // ----- Main results ------------------------------------------------------------------------------

  lemma {:induction false} ReplayFolds(sj: State, sn: State, base: Rows)
    requires Timeline(sj, sn, sn) && Rep(sj.books, base, sj.bookSeq)
    ensures
      var all := OrderEvents(sn.events);
      && sj.bookSeq <= |all| && FoldOrders(base, all[sj.bookSeq..]).Ok?
      && all[sj.bookSeq..sj.bookSeq] == []
  {
    FoldReaches(sj, sn, sn, base);
    var all := OrderEvents(sn.events);
    assert all[sj.bookSeq..|all|] == all[sj.bookSeq..];
  }

  lemma {:induction false} ContiguousIsFromLog(log: seq<Event>, pages: seq<Page>, spans: seq<Span>, m: nat)
    requires Contiguous(log, pages, spans, m)
    ensures forall i :: 0 <= i < |pages| ==> PageFromLog(log, pages[i])
  {
  }

  // From an index that stands for the books at sj and is ready at position m, contiguous pages to
  // the end of sn's log are all accepted exactly when their registrations agree with the index, and
  // then lead to a display of exactly the books at sn.
  lemma {:induction false} ContiguousAgrees(sj: State, sn: State, idx: Index, m: nat, pages: seq<Page>,
      spans: seq<Span>, rows: seq<Row>, p: nat, s: nat)
    requires Timeline(sj, sn, sn) && RegistersOnce(sn.events)
    requires Rep(sj.books, idx.orders, sj.bookSeq) && idx.meta.lastSequence == sj.bookSeq
    requires ReadyFor(sn.events, idx.orders, sj.bookSeq, m, idx, idx)
    requires Contiguous(sn.events, pages, spans, m) && Before(spans, m, |spans|) == |sn.events|
    requires Lists(rows, ReceiveAll(idx, pages).orders)
    ensures AllAccepted(idx, pages) <==> SpansAgree(sn.events, idx, spans)
    ensures AllAccepted(idx, pages) ==>
      ReceiveAll(idx, pages).meta.lastSequence == sn.bookSeq && Entries(OrdersFor(rows, p, s)) == Book(sn, p, s)
  {
    ReplayFolds(sj, sn, idx.orders);
    PagesAccepted(sn.events, idx.orders, sj.bookSeq, m, idx, pages, spans, |pages|);
    assert pages[..|pages|] == pages && spans[..|spans|] == spans;
    assert sn.events[..|sn.events|] == sn.events;
    if AllAccepted(idx, pages) {
      ContiguousIsFromLog(sn.events, pages, spans, m);
      IndexFromBase(sj, sn, sn, idx, pages, rows, p, s);
    }
  }

  lemma {:induction false} EmptyIsReady(log: seq<Event>, idx: Index)
    requires idx == EmptyIndex()
    ensures ReadyFor(log, idx.orders, 0, 0, idx, idx)
    ensures forall i :: 0 <= i < |log| ==> Agrees(idx, log[i])
  {
    assert log[..0] == [] && OrderEvents(log)[0..0] == [];
  }

  // Replaying the whole log from nothing, in contiguous pages of any size that may overlap, no page
  // is rejected; the index reaches the contract's book sequence and displays exactly its books.
  lemma {:induction false} FullReplayAgrees(host: Host, h: History, pages: seq<Page>, spans: seq<Span>,
      rows: seq<Row>, p: nat, s: nat)
    requires JoinSound(host) && Deploy(host, h).Ok?
    requires Contiguous(StateAfter(host, h).events, pages, spans, 0)
    requires Before(spans, 0, |spans|) == |StateAfter(host, h).events|
    requires Lists(rows, ReceiveAll(EmptyIndex(), pages).orders)
    ensures AllAccepted(EmptyIndex(), pages)
    ensures ReceiveAll(EmptyIndex(), pages).meta.lastSequence == StateAfter(host, h).bookSeq
    ensures Entries(OrdersFor(rows, p, s)) == Book(StateAfter(host, h), p, s)
  {
    var sn := StateAfter(host, h);
    assert h.calls[..|h.calls|] == h.calls;
    StartsEmpty(host, h);
    TimelineOf(host, h, 0, |h.calls|);
    LogRegistersOnce(host, h);
    EmptyRep(map[], StateAt(host, h, 0).books);
    EmptyIsReady(sn.events, EmptyIndex());
    ContiguousAgrees(StateAt(host, h, 0), sn, EmptyIndex(), 0, pages, spans, rows, p, s);
  }
}
