// What a deployment needs and what it leaves: its registry is the one asked for, entry for entry.
module Deployment {
  import opened Wrappers
  import opened Types
  import opened Ledger
  import opened Reachable
  import NT = NoteTree

  // A Stellar token exactly where the asset lives on Stellar.
  predicate TokenFits(a: AssetInit) {
    a.token.None? <==> a.kind.BaseRepresented?
  }

  predicate GoodAssets(assets: seq<AssetInit>) {
    && (forall i :: 0 <= i < |assets| ==> TokenFits(assets[i]))
    && (forall i, j :: 0 <= i < j < |assets| ==> assets[i].assetId != assets[j].assetId)
  }

  predicate Lists(assets: seq<AssetInit>, id: nat) {
    exists i :: 0 <= i < |assets| && assets[i].assetId == id
  }

  // Two different listed assets, and no pair twice in either orientation.
  predicate GoodPairs(assets: seq<AssetInit>, pairs: seq<PairDef>) {
    && (forall i :: 0 <= i < |pairs| ==>
          pairs[i].baseAsset != pairs[i].quoteAsset
          && Lists(assets, pairs[i].baseAsset) && Lists(assets, pairs[i].quoteAsset))
    && (forall i, j :: 0 <= i < j < |pairs| ==> !SamePair(pairs[i], pairs[j]))
  }

  // An asset is announced with its token, or with the contract's own address where it has none.
  function Announced(host: Host, a: AssetInit): Event {
    AssetRegistered(a.assetId, if a.token.Some? then a.token.value else host.address,
      match a.kind case Stellar => 0 case Dual => 1 case BaseRepresented => 2)
  }

  function AssetEvents(host: Host, assets: seq<AssetInit>): seq<Event> {
    seq(|assets|, i requires 0 <= i < |assets| => Announced(host, assets[i]))
  }

  function PairEvents(pairs: seq<PairDef>): seq<Event> {
    seq(|pairs|, i requires 0 <= i < |pairs| => PairRegistered(i, pairs[i].baseAsset, pairs[i].quoteAsset))
  }

  // The stored assets are the listed ones, each with its own token and kind.
  ghost predicate Stores(assets: map<nat, AssetDef>, listed: seq<AssetInit>) {
    && (forall id :: id in assets <==> Lists(listed, id))
    && (forall i :: 0 <= i < |listed| ==>
          listed[i].assetId in assets && assets[listed[i].assetId] == AssetDef(listed[i].token, listed[i].kind))
  }

  lemma {:induction false} ListsMore(listed: seq<AssetInit>, a: AssetInit, id: nat)
    ensures Lists(listed + [a], id) <==> Lists(listed, id) || id == a.assetId
  {
    var all := listed + [a];
    if Lists(listed, id) {
      var i :| 0 <= i < |listed| && listed[i].assetId == id;
      assert all[i].assetId == id;
    }
    if id == a.assetId {
      assert all[|listed|].assetId == id;
    }
  }

  lemma {:induction false} AssetsExactly(host: Host, st: State, assets: seq<AssetInit>)
    requires st.assets == map[]
    ensures
      var r := RegisterAssets(host, st, assets);
      && (r.Ok? <==> GoodAssets(assets))
      && (r.Ok? ==>
            && Stores(r.value.assets, assets)
            && r.value == st.(assets := r.value.assets, events := st.events + AssetEvents(host, assets)))
  {
    if assets == [] {
      assert st.events + [] == st.events;
    } else {
      var front, last := assets[..|assets| - 1], assets[|assets| - 1];
      assert assets == front + [last];
      AssetsExactly(host, st, front);
      if GoodAssets(front) {
        OneMoreAsset(host, st, RegisterAssets(host, st, front).value, front, last);
      }
    }
  }

  lemma {:induction false} OneMoreAsset(host: Host, st: State, st1: State, front: seq<AssetInit>, last: AssetInit)
    requires GoodAssets(front) && Stores(st1.assets, front)
    requires st1 == st.(assets := st1.assets, events := st.events + AssetEvents(host, front))
    ensures
      var r := RegisterAsset(host, st1, last);
      && (r.Ok? <==> GoodAssets(front + [last]))
      && (r.Ok? ==>
            && Stores(r.value.assets, front + [last])
            && r.value == st.(assets := r.value.assets, events := st.events + AssetEvents(host, front + [last])))
  {
    var all := front + [last];
    forall id
      ensures Lists(all, id) <==> Lists(front, id) || id == last.assetId
    {
      ListsMore(front, last, id);
    }
    assert AssetEvents(host, all) == AssetEvents(host, front) + [Announced(host, last)];
    GoodMore(front, last);
  }

  lemma {:induction false} GoodMore(front: seq<AssetInit>, last: AssetInit)
    requires GoodAssets(front)
    ensures GoodAssets(front + [last]) <==> TokenFits(last) && !Lists(front, last.assetId)
  {
    var all := front + [last];
    assert all[|front|] == last && forall i :: 0 <= i < |front| ==> all[i] == front[i];
  }

  lemma {:induction false} PairsExactly(st: State, assets: seq<AssetInit>, pairs: seq<PairDef>)
    requires st.pairs == [] && Stores(st.assets, assets)
    ensures
      var r := RegisterPairs(st, pairs);
      && (r.Ok? <==> GoodPairs(assets, pairs))
      && (r.Ok? ==> r.value == st.(pairs := pairs, events := st.events + PairEvents(pairs)))
  {
    if pairs == [] {
      assert st.events + [] == st.events;
    } else {
      var front, last := pairs[..|pairs| - 1], pairs[|pairs| - 1];
      assert pairs == front + [last];
      PairsExactly(st, assets, front);
      if GoodPairs(assets, front) {
        OneMorePair(st, RegisterPairs(st, front).value, assets, front, last);
      }
    }
  }

  lemma {:induction false} OneMorePair(st: State, st1: State, assets: seq<AssetInit>, front: seq<PairDef>,
      last: PairDef)
    requires Stores(st.assets, assets) && GoodPairs(assets, front)
    requires st1 == st.(pairs := front, events := st.events + PairEvents(front))
    ensures
      var r := RegisterPair(st1, last);
      && (r.Ok? <==> GoodPairs(assets, front + [last]))
      && (r.Ok? ==> r.value == st.(pairs := front + [last], events := st.events + PairEvents(front + [last])))
  {
    var all := front + [last];
    assert PairEvents(all) == PairEvents(front) + [PairRegistered(|front|, last.baseAsset, last.quoteAsset)];
    assert all[|front|] == last;
    assert forall i :: 0 <= i < |front| ==> all[i] == front[i];
  }

  // A deployment succeeds exactly when every asset is listed once with a token where it lives on
  // Stellar, and every pair once, in either orientation, over two different listed assets. It then holds
  // that registry and nothing else, and has announced the protocol, the assets and the pairs in order.
  lemma {:induction false} DeploysExactly(host: Host, h: History)
    ensures
      var r := Deploy(host, h);
      && (r.Ok? <==> GoodAssets(h.assets) && GoodPairs(h.assets, h.pairs))
      && (r.Ok? ==>
            && Stores(r.value.assets, h.assets)
            && r.value == State(r.value.assets, h.pairs, {}, map[], 0, NT.Empty(host.compress),
                 [BookInitialized(1, h.vkHashes)] + AssetEvents(host, h.assets) + PairEvents(h.pairs),
                 None, map[], {}, map[], [], [], map[]))
  {
    var st := InitialState(host, h.vkHashes);
    AssetsExactly(host, st, h.assets);
    var r := RegisterAssets(host, st, h.assets);
    if r.Ok? {
      PairsExactly(r.value, h.assets, h.pairs);
    }
  }
}
