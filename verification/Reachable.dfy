// What holds in every state the deployed contract can reach.
module Reachable {
  import opened Wrappers
  import opened Lots
  import opened Types
  import opened Ledger
  import opened BookInvariant
  import opened Value
  import opened Orders
  import opened NoteLog
  import opened Replay
  import opened Safety
  import NT = NoteTree

  // A deployment and the calls made to it.
  datatype History = History(vkHashes: seq<Word>, assets: seq<AssetInit>, pairs: seq<PairDef>, calls: seq<Call>)

  function Deploy(host: Host, h: History): Result<State, Error> {
    Construct(host, true, h.vkHashes, h.assets, h.pairs)
  }

  function StateAfter(host: Host, h: History): State
    requires Deploy(host, h).Ok?
  {
    Run(host, Deploy(host, h).value, h.calls)
  }

  // Nothing but registrations has happened.
  ghost predicate Pristine(host: Host, st: State) {
    && st.books == map[] && st.accepted == map[] && st.deals == [] && st.flows == [] && st.bookSeq == 0
    && st.tokens == map[]
    && st.tree == NT.Empty(host.compress)
    && PairsOk(st)
    && (forall i :: 0 <= i < |st.events| ==> Registration(st.events[i]))
  }

  lemma {:induction false} AssetsPristine(host: Host, st: State, assets: seq<AssetInit>)
    requires Pristine(host, st)
    ensures var r := RegisterAssets(host, st, assets); r.Ok? ==> Pristine(host, r.value)
  {
    if assets != [] {
      AssetsPristine(host, st, assets[..|assets| - 1]);
    }
  }

  lemma {:induction false} PairsPristine(host: Host, st: State, pairs: seq<PairDef>)
    requires Pristine(host, st)
    ensures var r := RegisterPairs(st, pairs); r.Ok? ==> Pristine(host, r.value)
  {
    if pairs != [] {
      PairsPristine(host, st, pairs[..|pairs| - 1]);
    }
  }

  lemma {:induction false} DeployIsPristine(host: Host, h: History)
    requires Deploy(host, h).Ok?
    ensures Pristine(host, Deploy(host, h).value)
  {
    var st0 := InitialState(host, h.vkHashes);
    AssetsPristine(host, st0, h.assets);
    PairsPristine(host, RegisterAssets(host, st0, h.assets).value, h.pairs);
  }

  lemma {:induction false} RegistrationsMintNothing(host: Host, events: seq<Event>, asset: nat)
    requires forall i :: 0 <= i < |events| ==> Registration(events[i])
    ensures Minted(events, asset) == 0 && Leaves(host, events) == [] && OrderEvents(events) == []
  {
    if events != [] {
      RegistrationsMintNothing(host, events[..|events| - 1], asset);
      assert Registration(events[|events| - 1]);
    }
  }

  lemma {:induction false} NoBooksNoTotal(st: State, n: nat, m: Measure)
    requires n <= |st.pairs| && st.books == map[]
    ensures TotalTo(st.pairs, st.books, n, m) == 0
  {
    if n > 0 {
      NoBooksNoTotal(st, n - 1, m);
    }
  }

  lemma {:induction false} PristineIsGood(host: Host, st: State)
    requires Pristine(host, st)
    ensures Good(host, st, Idle)
  {
    forall a
      ensures Balance(st, Idle, a) == 0
    {
      RegistrationsMintNothing(host, st.events, a);
      NoBooksNoTotal(st, |st.pairs|, ByAsset(a));
    }
    RegistrationsMintNothing(host, st.events, 0);
    NT.EmptyAgrees(host.compress, Leaves(host, st.events));
  }

  lemma {:induction false} DeployIsGood(host: Host, h: History)
    requires Deploy(host, h).Ok?
    ensures Good(host, Deploy(host, h).value, Idle)
  {
    DeployIsPristine(host, h);
    PristineIsGood(host, Deploy(host, h).value);
  }

  // Every reachable state satisfies the invariant.
  lemma {:induction false} ReachableIsGood(host: Host, h: History)
    requires JoinSound(host) && Deploy(host, h).Ok?
    ensures Good(host, StateAfter(host, h), Idle)
  {
    DeployIsGood(host, h);
    RunKeeps(host, Deploy(host, h).value, h.calls);
  }

  // ----- Main results -----------------------------------------------------------------------------

  // Conservation: for every asset, the notes minted less the notes spent, together with what the
  // books lock, are worth exactly what was shielded and bridged less what was unshielded.
  lemma {:induction false} ValueIsConserved(host: Host, h: History, asset: nat)
    requires JoinSound(host) && Deploy(host, h).Ok?
    ensures
      var st := StateAfter(host, h);
      Minted(st.events, asset) - FlowSum(st.flows, Nullified, asset) + Locked(st, asset)
      == FlowSum(st.flows, InByShield, asset) + FlowSum(st.flows, InByBridge, asset)
         - FlowSum(st.flows, OutByUnshield, asset)
  {
    ReachableIsGood(host, h);
    assert Balance(StateAfter(host, h), Idle, asset) == 0;
  }

  // Single use: no nullifier is spent twice and no Base deposit is minted twice.
  lemma {:induction false} RightsAreSingleUse(host: Host, h: History, i: nat, j: nat)
    requires JoinSound(host) && Deploy(host, h).Ok? && i < j < |StateAfter(host, h).flows|
    ensures !SameRight(StateAfter(host, h).flows[i], StateAfter(host, h).flows[j])
  {
    ReachableIsGood(host, h);
  }

  // Every order ever accepted, over its whole life: what it traded away, got back and still locks
  // is what it offered; what it received is at least its limit price for what it gave; and an order
  // that gave everything received at least what it asked for.
  lemma {:induction false} OrdersAreWhole(host: Host, h: History, id: Word)
    requires JoinSound(host) && Deploy(host, h).Ok? && id in StateAfter(host, h).accepted
    ensures
      var st := StateAfter(host, h);
      var limit := st.accepted[id].limit;
      && Gave(st.deals, id) + Refunded(st.deals, id) + Held(st, id) == limit.amountIn
      && Got(st.deals, id) * limit.amountIn >= Gave(st.deals, id) * limit.minOut
      && (Gave(st.deals, id) == limit.amountIn ==> Got(st.deals, id) >= limit.minOut)
  {
    var st := StateAfter(host, h);
    ReachableIsGood(host, h);
    assert OrderOk(st, Idle, id);
    if Gave(st.deals, id) == st.accepted[id].limit.amountIn {
      FullySpentMeetsMinimum(Got(st.deals, id), st.accepted[id].limit);
    }
  }

  // All or nothing: an order accepted without permission to rest has given everything it offered, got
  // at least what it asked for, was refunded nothing and locks nothing, for ever after.
  lemma {:induction false} WholeOrdersAreFilled(host: Host, h: History, id: Word)
    requires JoinSound(host) && Deploy(host, h).Ok? && id in StateAfter(host, h).accepted
    requires !StateAfter(host, h).accepted[id].partialAllowed
    ensures
      var st := StateAfter(host, h);
      var limit := st.accepted[id].limit;
      && Gave(st.deals, id) == limit.amountIn && Got(st.deals, id) >= limit.minOut
      && Refunded(st.deals, id) == 0 && Held(st, id) == 0
  {
    var st := StateAfter(host, h);
    ReachableIsGood(host, h);
    OrdersAreWhole(host, h, id);
    forall k | k in st.books
      ensures Absent(st.books[k], id)
    {
      forall i | 0 <= i < |st.books[k]|
        ensures st.books[k][i].orderId != id
      {
        assert EntryOk(st, k, st.books[k][i]);
      }
    }
    AbsentTotalTo(st, |st.pairs|, id);
    NeverRefunded(st, st.deals, id);
  }

  lemma {:induction false} NeverRefunded(st: State, deals: seq<Deal>, id: Word)
    requires id in st.accepted && !st.accepted[id].partialAllowed
    requires forall i :: 0 <= i < |deals| ==> DealOk(st, deals[i])
    ensures Refunded(deals, id) == 0
  {
    if deals != [] {
      NeverRefunded(st, deals[..|deals| - 1], id);
      assert DealOk(st, deals[|deals| - 1]);
    }
  }

  // Whatever an order trades while resting is at exactly its own price.
  lemma {:induction false} RestingTradesAreExact(host: Host, h: History, i: nat)
    requires JoinSound(host) && Deploy(host, h).Ok? && i < |StateAfter(host, h).deals|
    requires StateAfter(host, h).deals[i].Trade?
    ensures
      var st := StateAfter(host, h);
      var d := st.deals[i];
      d.maker in st.accepted
      && d.makerGave * st.accepted[d.maker].limit.minOut == d.takerGave * st.accepted[d.maker].limit.amountIn
  {
    ReachableIsGood(host, h);
    assert DealOk(StateAfter(host, h), StateAfter(host, h).deals[i]);
  }

  // What an order gave to others while it rested.
  function GaveResting(deals: seq<Deal>, id: Word): nat {
    if deals == [] then 0
    else
      var d := deals[|deals| - 1];
      GaveResting(deals[..|deals| - 1], id) + if d.Trade? && d.maker == id then d.makerGave else 0
  }

  // So a resting order only ever gives whole multiples of its own lot: what it still holds keeps
  // its residue for as long as it rests.
  lemma {:induction false} RestingGivesWholeLots(host: Host, h: History, id: Word)
    requires JoinSound(host) && Deploy(host, h).Ok? && id in StateAfter(host, h).accepted
    ensures
      var st := StateAfter(host, h);
      var limit := st.accepted[id].limit;
      Divides(OwnLot(limit.amountIn, limit.minOut), GaveResting(st.deals, id))
  {
    var st := StateAfter(host, h);
    ReachableIsGood(host, h);
    WholeLots(st, st.deals, id);
  }

  lemma {:induction false} WholeLots(st: State, deals: seq<Deal>, id: Word)
    requires id in st.accepted && forall i :: 0 <= i < |deals| ==> DealOk(st, deals[i])
    ensures
      var limit := st.accepted[id].limit;
      Divides(OwnLot(limit.amountIn, limit.minOut), GaveResting(deals, id))
  {
    var limit := st.accepted[id].limit;
    var lot := OwnLot(limit.amountIn, limit.minOut);
    if deals == [] {
      assert 0 == lot * 0;
    } else {
      var front, d := deals[..|deals| - 1], deals[|deals| - 1];
      WholeLots(st, front, id);
      assert DealOk(st, d);
      if d.Trade? && d.maker == id {
        var j := ExactTradesAreLots(limit.amountIn, limit.minOut, d.makerGave, d.takerGave);
        var k :| GaveResting(front, id) == lot * k;
        MoreLots(lot, k, j);
      }
    }
  }

  lemma {:induction false} MoreLots(lot: int, k: int, j: int)
    ensures Divides(lot, lot * k + j * lot)
  {
    assert lot * k + j * lot == lot * (k + j);
  }

  // Every stored side is within capacity, sorted by price, and holds spent, distinct, partially
  // fillable orders that lock no more than they offered; no order id rests in two places.
  lemma {:induction false} BooksAreSound(host: Host, h: History, k: Key, i: nat)
    requires JoinSound(host) && Deploy(host, h).Ok?
    requires k in StateAfter(host, h).books && i < |StateAfter(host, h).books[k]|
    ensures
      var st := StateAfter(host, h);
      var book, e := st.books[k], st.books[k][i];
      && |book| <= BOOK_CAPACITY && Sorted(book, k.1)
      && e.orderId in st.nullifiers && e.remainingIn <= e.amountIn && e.partialAllowed
      && (forall k', j :: k' in st.books && 0 <= j < |st.books[k']| && st.books[k'][j].orderId == e.orderId
            ==> k' == k && j == i)
  {
    var st := StateAfter(host, h);
    ReachableIsGood(host, h);
    assert EntryOk(st, k, st.books[k][i]);
    forall k', j | k' in st.books && 0 <= j < |st.books[k']| && st.books[k'][j].orderId == st.books[k][i].orderId
      ensures k' == k && j == i
    {
      IdsNeverRepeat(st, k', j, k, i);
    }
  }

  // The incremental tree is the full padded tree over the leaves that the log announces: same
  // root, completed left subtrees at the set bits of the count, and as accepted roots exactly the
  // roots of the non-empty leaf prefixes.
  lemma {:induction false} TreeIsFullTree(host: Host, h: History)
    requires JoinSound(host) && Deploy(host, h).Ok?
    ensures
      var st := StateAfter(host, h);
      var leaves := Leaves(host, st.events);
      && st.tree.next == |leaves| < U32_LIMIT
      && st.tree.root == NT.FullRoot(host.compress, leaves)
      && NT.FilledOk(host.compress, st.tree.filled, leaves)
      && (forall r :: r in st.tree.roots <==> NT.IsPrefixRoot(host.compress, leaves, r))
  {
    ReachableIsGood(host, h);
    CountersHold(host, h);
  }

  lemma {:induction false} CountersHold(host: Host, h: History)
    requires Deploy(host, h).Ok?
    ensures WithinCounters(StateAfter(host, h))
  {
    DeployIsPristine(host, h);
    RunWithinCounters(host, Deploy(host, h).value, h.calls);
  }

  lemma {:induction false} RunWithinCounters(host: Host, st: State, calls: seq<Call>)
    requires WithinCounters(st)
    ensures WithinCounters(Run(host, st, calls))
  {
    if calls != [] {
      RunWithinCounters(host, st, calls[..|calls| - 1]);
    }
  }
}
