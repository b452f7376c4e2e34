// The browser's book index: a reducer over sequenced book events, applied a page at a time inside
// one transaction, and the comparator that orders a side for display.
module BookIndexer {
  import opened Wrappers
  import opened Lots
  import opened Types
  import opened Sorting

  const BOOK_SCHEMA_VERSION := 1

  datatype Row = Row(pairId: nat, side: nat, entry: OrderEntry, priority: nat)

  datatype OrderKey = OrderKey(pairId: nat, side: nat, orderId: Word)

  type Rows = map<OrderKey, Row>

  datatype AssetRow = AssetRow(token: Word, kind: AssetKind)

  datatype Meta = Meta(
    initialized: bool,
    protocol: Option<(nat, seq<Word>)>, // schema version and verification-key hashes
    cursor: Option<nat>,
    lastSequence: nat,
    latestLedger: nat,
    targetSequence: nat,
    releaseVerified: bool,
    fatal: bool)

  datatype Index = Index(
    meta: Meta,
    orders: Rows,
    assets: map<nat, AssetRow>,
    pairs: map<nat, PairDef>,
    processed: set<nat>)

  datatype IndexError =
    | UnsupportedSchema
    | ConflictingInit
    | BeforeInit
    | ConflictingAsset
    | ConflictingPair
    | SequenceGap
    | BadSide
    | BadReason
    | UnknownOrder

  // An event as the network delivers it, with its globally unique event id.
  datatype Delivery = Delivery(id: nat, event: Event)

  function InitialMeta(): Meta {
    Meta(false, None, None, 0, 0, 0, false, false)
  }

  function EmptyIndex(): Index {
    Index(InitialMeta(), map[], map[], map[], {})
  }

  function KeyOf(r: Row): OrderKey {
    OrderKey(r.pairId, r.side, r.entry.orderId)
  }

  // ----- Order rows ----------------------------------------------------------------------------

  predicate IsOrderEvent(ev: Event) {
    ev.OrderUpserted? || ev.OrderRemoved?
  }

  function SequenceOf(ev: Event): nat
    requires IsOrderEvent(ev)
  {
    ev.sequence
  }

  // Effect of an in-sequence order event on the stored rows. A row keeps the sequence of the event
  // that first created it.
  function ApplyOrder(rows: Rows, ev: Event): Result<Rows, IndexError>
    requires IsOrderEvent(ev)
  {
    if ev.side != SIDE_BUY && ev.side != SIDE_SELL then Err(BadSide)
    else
      match ev
      case OrderUpserted(sequence, pairId, side, entry) =>
        var key := OrderKey(pairId, side, entry.orderId);
        var priority := if key in rows then rows[key].priority else sequence;
        Ok(rows[key := Row(pairId, side, entry, priority)])
      case OrderRemoved(_, pairId, side, orderId, reason) =>
        var key := OrderKey(pairId, side, orderId);
        if reason > 2 then Err(BadReason)
        else if key !in rows then Err(UnknownOrder)
        else Ok(rows - {key})
  }

  // ----- The page reducer ----------------------------------------------------------------------

  function MarkProcessed(idx: Index, id: nat): Index {
    idx.(processed := idx.processed + {id})
  }

  function KindFromCode(n: nat): AssetKind {
    if n == 2 then BaseRepresented else if n == 1 then Dual else Stellar
  }

  // One delivered event. `meta.lastSequence` is the running sequence of the page loop.
  function ApplyOne(idx: Index, d: Delivery): Result<Index, IndexError> {
    if d.id in idx.processed then Ok(idx)
    else
      match d.event
      case BookInitialized(schema, hashes) =>
        if schema != BOOK_SCHEMA_VERSION then Err(UnsupportedSchema)
        else if idx.meta.initialized && idx.meta.protocol != Some((schema, hashes)) then Err(ConflictingInit)
        else Ok(MarkProcessed(idx.(meta := idx.meta.(initialized := true, protocol := Some((schema, hashes)))), d.id))
      case AssetRegistered(assetId, token, kind) =>
        if !idx.meta.initialized then Err(BeforeInit)
        else if assetId in idx.assets && idx.assets[assetId].token != token then Err(ConflictingAsset)
        else Ok(MarkProcessed(idx.(assets := idx.assets[assetId := AssetRow(token, KindFromCode(kind))]), d.id))
      case PairRegistered(pairId, baseAsset, quoteAsset) =>
        if !idx.meta.initialized then Err(BeforeInit)
        else if pairId in idx.pairs && idx.pairs[pairId] != PairDef(baseAsset, quoteAsset) then Err(ConflictingPair)
        else Ok(MarkProcessed(idx.(pairs := idx.pairs[pairId := PairDef(baseAsset, quoteAsset)]), d.id))
      case OrderUpserted(_, _, _, _) => ApplySequenced(idx, d)
      case OrderRemoved(_, _, _, _, _) => ApplySequenced(idx, d)
      case _ => Ok(idx)
  }

  function ApplySequenced(idx: Index, d: Delivery): Result<Index, IndexError>
    requires IsOrderEvent(d.event)
  {
    var next := SequenceOf(d.event);
    if !idx.meta.initialized then Err(BeforeInit)
    else if next <= idx.meta.lastSequence then Ok(MarkProcessed(idx, d.id))
    else if next != idx.meta.lastSequence + 1 then Err(SequenceGap)
    else
      var rows :- ApplyOrder(idx.orders, d.event);
      Ok(MarkProcessed(idx.(orders := rows, meta := idx.meta.(lastSequence := next)), d.id))
  }

  function ApplyAll(idx: Index, ds: seq<Delivery>): Result<Index, IndexError> {
    if ds == [] then Ok(idx)
    else
      var front :- ApplyAll(idx, ds[..|ds| - 1]);
      ApplyOne(front, ds[|ds| - 1])
  }

  datatype Page = Page(events: seq<Delivery>, cursor: nat, ledger: nat)

  function ApplyPage(idx: Index, page: Page): Result<Index, IndexError> {
    var end :- ApplyAll(idx, page.events);
    Ok(end.(meta := end.meta.(cursor := Some(page.cursor), latestLedger := page.ledger, fatal := false)))
  }

  // A rejected page leaves the stored index as it was.
  function Receive(idx: Index, page: Page): Index {
    var r := ApplyPage(idx, page);
    if r.Ok? then r.value else idx
  }

  function ReceiveAll(idx: Index, pages: seq<Page>): Index {
    if pages == [] then idx else Receive(ReceiveAll(idx, pages[..|pages| - 1]), pages[|pages| - 1])
  }

  datatype Status = Syncing | Synced | Failed

  function StatusOf(meta: Meta): Status {
    if meta.fatal then Failed
    else if meta.initialized && meta.releaseVerified && meta.lastSequence == meta.targetSequence then Synced
    else Syncing
  }

  // ----- A sync ----------------------------------------------------------------------------------

  // Rows put one after another under their keys.
  function PutEach<K, V>(rows: seq<(K, V)>): map<K, V> {
    if rows == [] then map[]
    else
      var last := rows[|rows| - 1];
      PutEach(rows[..|rows| - 1])[last.0 := last.1]
  }

  function PutAll(rows: seq<Row>): Rows {
    if rows == [] then map[]
    else PutAll(rows[..|rows| - 1])[KeyOf(rows[|rows| - 1]) := rows[|rows| - 1]]
  }

  // What recovery reads of the contract, and the pages that the network serves afterwards.
  datatype LiveRead = LiveRead(
    protocol: (nat, seq<Word>),
    assets: seq<(nat, AssetRow)>,
    pairs: seq<(nat, PairDef)>,
    orders: seq<Row>,
    sequence: nat,
    pages: seq<Page>)

  // The index written from a live read.
  function Snapshot(live: LiveRead): Index {
    Index(Meta(true, Some(live.protocol), None, live.sequence, 0, live.sequence, true, false),
      PutAll(live.orders), PutEach(live.assets), PutEach(live.pairs), {})
  }

  const PAGE_LIMIT := 1000

  // How many pages recovery asks for: it goes on while they come full.
  function Asked(pages: seq<Page>): (n: nat)
    ensures n <= |pages|
  {
    if pages == [] then 0
    else if |pages[0].events| == PAGE_LIMIT then 1 + Asked(pages[1..]) else 1
  }

  // The pages up to the first one refused, and whether none was.
  function ReceiveUpTo(idx: Index, pages: seq<Page>): (Index, bool) {
    if pages == [] then (idx, true)
    else
      var (front, all) := ReceiveUpTo(idx, pages[..|pages| - 1]);
      if !all then (front, false)
      else
        match ApplyPage(front, pages[|pages| - 1])
        case Ok(next) => (next, true)
        case Err(_) => (front, false)
  }

  datatype Failure = Integrity | Unreachable

  // What the network answers during one sync: the next page of events, or that the ledgers asked for
  // are no longer served and then a live read; the contract's book sequence; the release's check.
  datatype Response = Served(page: Page) | Expired(live: Result<LiveRead, Failure>) | NoResponse

  datatype Reading = Reading(response: Response, target: Option<nat>, release: Result<(), Failure>)

  function Fail(idx: Index): Index {
    idx.(meta := idx.meta.(fatal := true))
  }

  // An integrity failure marks the index for good; anything else leaves it syncing.
  function AfterFailure(idx: Index, e: Failure): (Index, Status) {
    if e == Integrity then (Fail(idx), Failed) else (idx, Syncing)
  }

  // Recovery is over when the last page asked for came short of full.
  function AfterRecovery(live: LiveRead): (Index, Status) {
    var asked := live.pages[..Asked(live.pages)];
    var (end, all) := ReceiveUpTo(Snapshot(live), asked);
    var short := asked != [] && |asked[|asked| - 1].events| != PAGE_LIMIT;
    (end, if all && short then StatusOf(end.meta) else Syncing)
  }

  // With the page applied, the contract's sequence becomes the target once the release is verified.
  function AfterPage(idx: Index, page: Page, n: Reading): (Index, Status) {
    if n.target.None? then (idx, Syncing)
    else if !idx.meta.initialized && page.ledger <= idx.meta.latestLedger then (Fail(idx), Failed)
    else
      match n.release
      case Ok(_) =>
        var meta := idx.meta.(targetSequence := n.target.value, releaseVerified := true);
        (idx.(meta := meta), StatusOf(meta))
      case Err(e) => AfterFailure(idx, e)
  }

  // One sync: what it leaves stored, and the status it reports.
  function SyncOnce(idx: Index, n: Reading): (Index, Status) {
    if idx.meta.fatal then (idx, Failed)
    else
      match n.response
      case NoResponse => (idx, Syncing)
      case Expired(live) =>
        if idx.meta.cursor.Some? then (idx, Syncing)
        else if live.Err? then AfterFailure(idx, live.error)
        else AfterRecovery(live.value)
      case Served(page) =>
        var applied := ApplyPage(idx, page);
        if applied.Err? then (Fail(idx), Failed) else AfterPage(applied.value, page, n)
  }

  function SyncAll(idx: Index, readings: seq<Reading>): Index {
    if readings == [] then idx
    else SyncOnce(SyncAll(idx, readings[..|readings| - 1]), readings[|readings| - 1]).0
  }

  // ----- Display order -------------------------------------------------------------------------

  function Compare(a: Row, b: Row, side: nat): int {
    var (ai, ao, bi, bo) := (a.entry.amountIn, a.entry.minOut, b.entry.amountIn, b.entry.minOut);
    var left := if side == 1 then ao * bi else ai * bo;
    var right := if side == 1 then bo * ai else bi * ao;
    if left != right then
      if side == 1 then (if left < right then -1 else 1) else (if left > right then -1 else 1)
    else if a.priority < b.priority then -1
    else if a.priority > b.priority then 1
    else 0
  }

  function OfSide(rows: seq<Row>, pairId: nat, side: nat): (r: seq<Row>) {
    if rows == [] then []
    else
      var front, last := OfSide(rows[..|rows| - 1], pairId, side), rows[|rows| - 1];
      if last.pairId == pairId && last.side == side then front + [last] else front
  }

  function InOrder(side: nat): (Row, Row) -> bool {
    (a, b) => Compare(a, b, side) <= 0
  }

  function OrdersFor(rows: seq<Row>, pairId: nat, side: nat): seq<Row> {
    SortBy(OfSide(rows, pairId, side), InOrder(side))
  }

  // The comparator is a total preorder that agrees with the contract's price test and breaks
  // price ties by first-upsert sequence.
  lemma {:induction false} CompareIsPriceThenPriority(a: Row, b: Row, side: nat)
    ensures Compare(a, b, side) < 0 <==>
      || Better(a.entry.Terms(), b.entry.Terms(), side)
      || (!Better(b.entry.Terms(), a.entry.Terms(), side) && a.priority < b.priority)
    ensures Compare(a, b, side) == -Compare(b, a, side)
  {
  }

  lemma {:induction false} CompareIsAPreorder(side: nat)
    ensures TotalPreorder(InOrder(side))
  {
    forall a: Row, b: Row, c: Row | Compare(a, b, side) <= 0 && Compare(b, c, side) <= 0
      ensures Compare(a, c, side) <= 0
    {
      CompareTransitive(a, b, c, side);
    }
    forall a: Row, b: Row
      ensures Compare(a, b, side) <= 0 || Compare(b, a, side) <= 0
    {
      CompareIsPriceThenPriority(a, b, side);
    }
  }

  lemma {:induction false} CompareTransitive(a: Row, b: Row, c: Row, side: nat)
    requires Compare(a, b, side) <= 0 && Compare(b, c, side) <= 0
    ensures Compare(a, c, side) <= 0
  {
    CompareIsPriceThenPriority(b, a, side);
    CompareIsPriceThenPriority(c, b, side);
    CompareIsPriceThenPriority(c, a, side);
    BetterIsAStrictWeakOrder(a.entry.Terms(), b.entry.Terms(), c.entry.Terms(), side);
  }
}
