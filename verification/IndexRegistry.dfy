// The index's registry: a row says what the contract announced, and a full replay leaves exactly the
// contract's assets, pairs and protocol.
module IndexRegistry {
  import opened Wrappers
  import opened Types
  import opened Ledger
  import opened BookIndexer
  import opened Replay
  import opened Reachable
  import opened Deployment
  import opened IndexAgreement
  import opened IndexReplay
  import opened Safety
  import opened Acceptance
  import opened IndexRecovery
  import opened SyncStatus

  // ----- Rows say what was announced ---------------------------------------------------------------

  // The index holds what this registration announced.
  predicate Reflects(idx: Index, ev: Event) {
    match ev
    case BookInitialized(schema, hashes) => idx.meta.initialized && idx.meta.protocol == Some((schema, hashes))
    case AssetRegistered(a, token, kind) =>
      a in idx.assets && idx.assets[a]
        == AssetRow(token, if kind == 0 then Stellar else if kind == 1 then Dual else BaseRepresented)
    case PairRegistered(p, base, quote) => p in idx.pairs && idx.pairs[p] == PairDef(base, quote)
    case _ => true
  }

  // Kinds are announced by these codes.
  ghost predicate KindsOk(log: seq<Event>) {
    forall i :: 0 <= i < |log| && log[i].AssetRegistered? ==> log[i].kind <= 2
  }

  ghost predicate Announces(log: seq<Event>, idx: Index, ev: Event) {
    exists i :: i in idx.processed && i < |log| && SameRegistration(log[i], ev)
  }

  // Every registration processed is reflected, and every row is one of them.
  ghost predicate Reflecting(log: seq<Event>, idx: Index) {
    && (forall i :: i in idx.processed ==> i < |log| && Reflects(idx, log[i]))
    && (forall a :: a in idx.assets ==> Announces(log, idx, AssetRegistered(a, 0, 0)))
    && (forall p :: p in idx.pairs ==> Announces(log, idx, PairRegistered(p, 0, 0)))
  }

  lemma {:induction false} AnnouncesStill(log: seq<Event>, idx: Index, idx': Index, ev: Event)
    requires Announces(log, idx, ev) && idx.processed <= idx'.processed
    ensures Announces(log, idx', ev)
  {
  }

  // No other registration of the log concerns what one of them registers.
  lemma {:induction false} OneRegistration(log: seq<Event>, i: nat, j: nat)
    requires RegistersOnce(log) && i < |log| && j < |log| && i != j
    ensures !SameRegistration(log[i], log[j])
  {
    assert !SameRegistration(log[if i < j then i else j], log[if i < j then j else i]);
  }

  lemma {:induction false} RegistrationReflects(log: seq<Event>, idx: Index, i: nat)
    requires RegistersOnce(log) && KindsOk(log) && Reflecting(log, idx) && i < |log| && i !in idx.processed
    requires ApplyOne(idx, Delivery(i, log[i])).Ok?
    ensures
      var idx' := ApplyOne(idx, Delivery(i, log[i])).value;
      && (i in idx'.processed ==> Reflects(idx', log[i]))
      && (forall j :: j in idx.processed ==> Reflects(idx', log[j]))
  {
    var idx' := ApplyOne(idx, Delivery(i, log[i])).value;
    forall j | j in idx.processed
      ensures Reflects(idx', log[j])
    {
      OneRegistration(log, i, j);
    }
  }

  lemma {:induction false} EventReflects(log: seq<Event>, idx: Index, i: nat)
    requires RegistersOnce(log) && KindsOk(log) && Reflecting(log, idx) && i < |log|
    requires ApplyOne(idx, Delivery(i, log[i])).Ok?
    ensures Reflecting(log, ApplyOne(idx, Delivery(i, log[i])).value)
  {
    var idx' := ApplyOne(idx, Delivery(i, log[i])).value;
    if i !in idx.processed {
      RegistrationReflects(log, idx, i);
      forall a | a in idx'.assets
        ensures Announces(log, idx', AssetRegistered(a, 0, 0))
      {
        if a in idx.assets {
          AnnouncesStill(log, idx, idx', AssetRegistered(a, 0, 0));
        } else {
          assert SameRegistration(log[i], AssetRegistered(a, 0, 0));
        }
      }
      forall p | p in idx'.pairs
        ensures Announces(log, idx', PairRegistered(p, 0, 0))
      {
        if p in idx.pairs {
          AnnouncesStill(log, idx, idx', PairRegistered(p, 0, 0));
        } else {
          assert SameRegistration(log[i], PairRegistered(p, 0, 0));
        }
      }
    }
  }

  // Events that a reducer marks once it has seen them.
  predicate OfTheIndex(ev: Event) {
    ev.BookInitialized? || ev.AssetRegistered? || ev.PairRegistered? || IsOrderEvent(ev)
  }

  lemma {:induction false} EventsReflect(log: seq<Event>, idx: Index, ds: seq<Delivery>)
    requires RegistersOnce(log) && KindsOk(log) && Reflecting(log, idx) && ApplyAll(idx, ds).Ok?
    requires forall i :: 0 <= i < |ds| ==> FromLog(log, ds[i])
    ensures Reflecting(log, ApplyAll(idx, ds).value)
    ensures idx.processed <= ApplyAll(idx, ds).value.processed
    ensures forall i :: 0 <= i < |ds| && OfTheIndex(ds[i].event) ==> ds[i].id in ApplyAll(idx, ds).value.processed
  {
    if ds != [] {
      var front, last := ds[..|ds| - 1], ds[|ds| - 1];
      EventsReflect(log, idx, front);
      assert FromLog(log, last);
      EventReflects(log, ApplyAll(idx, front).value, last.id);
      assert forall i :: 0 <= i < |ds| - 1 ==> ds[i] == front[i];
    }
  }

  // Whatever true events came in whatever pages, the registry rows are what the contract announced.
  lemma {:induction false} PagesReflect(log: seq<Event>, pages: seq<Page>)
    requires RegistersOnce(log) && KindsOk(log)
    requires forall i :: 0 <= i < |pages| ==> PageFromLog(log, pages[i])
    ensures Reflecting(log, ReceiveAll(EmptyIndex(), pages))
  {
    if pages != [] {
      var front, last := pages[..|pages| - 1], pages[|pages| - 1];
      PagesReflect(log, front);
      assert PageFromLog(log, last);
      if ApplyPage(ReceiveAll(EmptyIndex(), front), last).Ok? {
        EventsReflect(log, ReceiveAll(EmptyIndex(), front), last.events);
      }
    }
  }

  // ----- A full replay -------------------------------------------------------------------------------

  lemma {:induction false} PageProcesses(log: seq<Event>, idx: Index, page: Page, span: Span)
    requires RegistersOnce(log) && KindsOk(log) && Reflecting(log, idx) && ApplyPage(idx, page).Ok?
    requires span.start <= span.end <= |log| && page.events == Slice(log, span.start, span.end)
    ensures idx.processed <= ApplyPage(idx, page).value.processed
    ensures forall i :: span.start <= i < span.end && OfTheIndex(log[i]) ==> i in ApplyPage(idx, page).value.processed
  {
    EventsReflect(log, idx, page.events);
    forall i | span.start <= i < span.end && OfTheIndex(log[i])
      ensures i in ApplyPage(idx, page).value.processed
    {
      assert page.events[i - span.start] == Delivery(i, log[i]);
    }
  }

  // Pages of the whole log, all of them accepted.
  ghost predicate Replays(log: seq<Event>, pages: seq<Page>, spans: seq<Span>) {
    && RegistersOnce(log) && KindsOk(log) && Contiguous(log, pages, spans, 0)
    && Before(spans, 0, |spans|) == |log| && AllAccepted(EmptyIndex(), pages)
  }

  lemma {:induction false} PrefixReflects(log: seq<Event>, pages: seq<Page>, spans: seq<Span>, n: nat)
    requires Replays(log, pages, spans) && n <= |pages|
    ensures Reflecting(log, ReceiveAll(EmptyIndex(), pages[..n]))
  {
    ContiguousIsFromLog(log, pages, spans, 0);
    PagesReflect(log, pages[..n]);
  }

  ghost predicate DoneBy(pages: seq<Page>, n: nat, i: nat)
    requires n <= |pages|
  {
    i in ReceiveAll(EmptyIndex(), pages[..n]).processed
  }

  lemma {:induction false} NextPage(log: seq<Event>, pages: seq<Page>, spans: seq<Span>, n: nat, i: nat)
    requires Replays(log, pages, spans) && n < |pages| && i < |log| && OfTheIndex(log[i])
    ensures DoneBy(pages, n, i) || Before(spans, 0, n) <= i < Before(spans, 0, n + 1) ==> DoneBy(pages, n + 1, i)
  {
    PrefixReflects(log, pages, spans, n);
    ReceiveNext(EmptyIndex(), pages, n);
    PageProcesses(log, ReceiveAll(EmptyIndex(), pages[..n]), pages[n], spans[n]);
  }

  // After n of them, every event before their end that concerns the index is processed.
  lemma {:induction false} AllProcessed(log: seq<Event>, pages: seq<Page>, spans: seq<Span>, n: nat, i: nat)
    requires Replays(log, pages, spans) && n <= |pages|
    requires i < Before(spans, 0, n) && i < |log| && OfTheIndex(log[i])
    ensures DoneBy(pages, n, i)
  {
    if 0 < n {
      if i < Before(spans, 0, n - 1) {
        AllProcessed(log, pages, spans, n - 1, i);
      }
      NextPage(log, pages, spans, n - 1, i);
    }
  }

  // After all of them, every registration of the log is reflected, and every row is one.
  lemma {:induction false} ReplayReflects(log: seq<Event>, pages: seq<Page>, spans: seq<Span>, i: nat)
    requires Replays(log, pages, spans) && i < |log| && OfTheIndex(log[i])
    ensures Reflecting(log, ReceiveAll(EmptyIndex(), pages)) && Reflects(ReceiveAll(EmptyIndex(), pages), log[i])
  {
    assert pages[..|pages|] == pages;
    AllProcessed(log, pages, spans, |pages|, i);
    PrefixReflects(log, pages, spans, |pages|);
  }

  // ----- The contract's registry -----------------------------------------------------------------------

  // The rows of a contract's assets and pairs.
  function AssetRows(host: Host, assets: map<nat, AssetDef>): map<nat, AssetRow> {
    map a | a in assets :: AssetRow(AnnouncedToken(host, assets[a]), assets[a].kind)
  }

  function PairRowsOf(pairs: seq<PairDef>): map<nat, PairDef> {
    map p | 0 <= p < |pairs| :: pairs[p]
  }

  // A log that opens with exactly these registrations.
  ghost predicate Opens(host: Host, log: seq<Event>, vkHashes: seq<Word>, assets: seq<AssetInit>, pairs: seq<PairDef>) {
    var opening := [BookInitialized(1, vkHashes)] + AssetEvents(host, assets) + PairEvents(pairs);
    && |opening| <= |log| && log[..|opening|] == opening
    && (forall i :: |opening| <= i < |log| ==> !Registration(log[i]))
  }

  // The registrations of such a log, one by one.
  lemma {:induction false} OpeningIs(host: Host, log: seq<Event>, vkHashes: seq<Word>, assets: seq<AssetInit>,
      pairs: seq<PairDef>, i: nat)
    requires Opens(host, log, vkHashes, assets, pairs) && i < |log| && (i == 0 || Registration(log[i]))
    ensures i < 1 + |assets| + |pairs|
    ensures log[i] == if i == 0 then BookInitialized(1, vkHashes)
      else if i <= |assets| then Announced(host, assets[i - 1])
      else PairRegistered(i - 1 - |assets|, pairs[i - 1 - |assets|].baseAsset, pairs[i - 1 - |assets|].quoteAsset)
  {
    var opening := [BookInitialized(1, vkHashes)] + AssetEvents(host, assets) + PairEvents(pairs);
    if i < |opening| {
      assert log[i] == log[..|opening|][i] == opening[i];
    }
  }

  lemma {:induction false} LogOpens(host: Host, h: History)
    requires JoinSound(host) && Deploy(host, h).Ok?
    ensures Opens(host, StateAfter(host, h).events, h.vkHashes, h.assets, h.pairs)
    ensures StateAfter(host, h).assets == Deploy(host, h).value.assets && StateAfter(host, h).pairs == h.pairs
    ensures Stores(StateAfter(host, h).assets, h.assets)
  {
    var st0, log := Deploy(host, h).value, StateAfter(host, h).events;
    DeploysExactly(host, h);
    DeployIsGood(host, h);
    RunKeeps(host, st0, h.calls);
    LogRegistersOnce(host, h);
    RunKeepsRegistry(host, st0, h.calls);
    forall i | |st0.events| <= i < |log|
      ensures !Registration(log[i])
    {
      NotRegistered(log, |st0.events|, i);
    }
  }

  lemma {:induction false} OpeningKinds(host: Host, log: seq<Event>, vkHashes: seq<Word>, assets: seq<AssetInit>,
      pairs: seq<PairDef>)
    requires Opens(host, log, vkHashes, assets, pairs)
    ensures KindsOk(log)
  {
    forall i | 0 <= i < |log| && log[i].AssetRegistered?
      ensures log[i].kind <= 2
    {
      OpeningIs(host, log, vkHashes, assets, pairs, i);
    }
  }

  // What an index that reflects such a log holds of the registry.
  lemma {:induction false} ReflectedRegistry(host: Host, log: seq<Event>, h: History, st: State, idx: Index)
    requires Opens(host, log, h.vkHashes, h.assets, h.pairs) && Stores(st.assets, h.assets) && st.pairs == h.pairs
    requires Reflecting(log, idx) && forall i :: 0 <= i < |log| && Registration(log[i]) ==> Reflects(idx, log[i])
    ensures idx.assets == AssetRows(host, st.assets)
    ensures idx.pairs == PairRowsOf(st.pairs) && idx.meta.protocol == Some((1, h.vkHashes))
  {
    OpeningIs(host, log, h.vkHashes, h.assets, h.pairs, 0);
    forall a
      ensures a in idx.assets <==> a in st.assets
      ensures a in st.assets ==> idx.assets[a] == AssetRow(AnnouncedToken(host, st.assets[a]), st.assets[a].kind)
    {
      AssetReflected(host, log, h, st, idx, a);
    }
    forall p: nat
      ensures p in idx.pairs <==> p < |st.pairs|
      ensures p < |st.pairs| ==> idx.pairs[p] == st.pairs[p]
    {
      PairReflected(host, log, h, st, idx, p);
    }
  }

  lemma {:induction false} AssetReflected(host: Host, log: seq<Event>, h: History, st: State, idx: Index, a: nat)
    requires Opens(host, log, h.vkHashes, h.assets, h.pairs) && Stores(st.assets, h.assets)
    requires Reflecting(log, idx) && forall i :: 0 <= i < |log| && Registration(log[i]) ==> Reflects(idx, log[i])
    ensures a in idx.assets <==> a in st.assets
    ensures a in st.assets ==> idx.assets[a] == AssetRow(AnnouncedToken(host, st.assets[a]), st.assets[a].kind)
  {
    if a in idx.assets {
      var i :| i in idx.processed && i < |log| && SameRegistration(log[i], AssetRegistered(a, 0, 0));
      OpeningIs(host, log, h.vkHashes, h.assets, h.pairs, i);
      assert h.assets[i - 1].assetId == a;
    }
    if a in st.assets {
      var k :| 0 <= k < |h.assets| && h.assets[k].assetId == a;
      OpeningHolds(host, log, h.vkHashes, h.assets, h.pairs, k + 1);
      assert Reflects(idx, log[k + 1]);
    }
  }

  lemma {:induction false} PairReflected(host: Host, log: seq<Event>, h: History, st: State, idx: Index, p: nat)
    requires Opens(host, log, h.vkHashes, h.assets, h.pairs) && st.pairs == h.pairs
    requires Reflecting(log, idx) && forall i :: 0 <= i < |log| && Registration(log[i]) ==> Reflects(idx, log[i])
    ensures p in idx.pairs <==> p < |st.pairs|
    ensures p < |st.pairs| ==> idx.pairs[p] == st.pairs[p]
  {
    if p in idx.pairs {
      var i :| i in idx.processed && i < |log| && SameRegistration(log[i], PairRegistered(p, 0, 0));
      OpeningIs(host, log, h.vkHashes, h.assets, h.pairs, i);
    }
    if p < |st.pairs| {
      OpeningHolds(host, log, h.vkHashes, h.assets, h.pairs, 1 + |h.assets| + p);
      assert Reflects(idx, log[1 + |h.assets| + p]);
    }
  }

  lemma {:induction false} OpeningHolds(host: Host, log: seq<Event>, vkHashes: seq<Word>, assets: seq<AssetInit>,
      pairs: seq<PairDef>, i: nat)
    requires Opens(host, log, vkHashes, assets, pairs) && i < 1 + |assets| + |pairs|
    ensures i < |log| && Registration(log[i])
    ensures log[i] == if i == 0 then BookInitialized(1, vkHashes)
      else if i <= |assets| then Announced(host, assets[i - 1])
      else PairRegistered(i - 1 - |assets|, pairs[i - 1 - |assets|].baseAsset, pairs[i - 1 - |assets|].quoteAsset)
  {
    var opening := [BookInitialized(1, vkHashes)] + AssetEvents(host, assets) + PairEvents(pairs);
    assert log[i] == log[..|opening|][i] == opening[i];
  }

  // A replay of the whole log leaves the index with exactly the contract's registry: every asset with
  // its token and kind, every pair, and the protocol.
  lemma {:induction false} ReplayRegistry(host: Host, h: History, pages: seq<Page>, spans: seq<Span>)
    requires JoinSound(host) && Deploy(host, h).Ok? && Contiguous(StateAfter(host, h).events, pages, spans, 0)
    requires Before(spans, 0, |spans|) == |StateAfter(host, h).events|
    ensures
      var idx, st := ReceiveAll(EmptyIndex(), pages), StateAfter(host, h);
      && idx.assets == AssetRows(host, st.assets) && idx.pairs == PairRowsOf(st.pairs)
      && idx.meta.protocol == Some((1, h.vkHashes))
  {
    var log, st, idx := StateAfter(host, h).events, StateAfter(host, h), ReceiveAll(EmptyIndex(), pages);
    LogOpens(host, h);
    OpeningKinds(host, log, h.vkHashes, h.assets, h.pairs);
    LogStartsFromNothing(host, h);
    EmptyIsReady(log, EmptyIndex());
    PagesAccepted(log, map[], 0, 0, EmptyIndex(), pages, spans, |pages|);
    assert pages[..|pages|] == pages && spans[..|spans|] == spans;
    assert Replays(log, pages, spans);
    OpeningHolds(host, log, h.vkHashes, h.assets, h.pairs, 0);
    forall i | 0 <= i < |log| && Registration(log[i])
      ensures Reflects(idx, log[i])
    {
      ReplayReflects(log, pages, spans, i);
    }
    ReplayReflects(log, pages, spans, 0);
    ReflectedRegistry(host, log, h, st, idx);
  }
}
