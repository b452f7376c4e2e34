// What the contract holds with each token contract, and what that backs. Several assets may share a
// token, so custody is a matter of tokens and not of assets.
module Custody {
  import opened Wrappers
  import opened Types
  import opened Ledger
  import opened Value
  import opened Safety
  import opened Reachable

  // Three figures of an asset: notes and locks in existence, deposits less withdrawals, and what came
  // over the bridge.
  datatype Figure = Outstanding | Deposits | BridgedIn

  function FigureOf(st: State, fig: Figure, a: nat): int {
    match fig
    case Outstanding => Minted(st.events, a) - FlowSum(st.flows, Nullified, a) + Locked(st, a)
    case Deposits => FlowSum(st.flows, InByShield, a) - FlowSum(st.flows, OutByUnshield, a)
    case BridgedIn => FlowSum(st.flows, InByBridge, a)
  }

  // The assets registered with a token.
  function AssetsOf(st: State, token: Word): set<nat> {
    set a | a in st.assets && HasToken(st.assets, a, token)
  }

  ghost function SumOver(st: State, fig: Figure, assets: set<nat>): int {
    if assets == {} then 0
    else
      var a :| a in assets;
      FigureOf(st, fig, a) + SumOver(st, fig, assets - {a})
  }

  lemma {:induction false} SumRemove(st: State, fig: Figure, assets: set<nat>, a: nat)
    requires a in assets
    ensures SumOver(st, fig, assets) == FigureOf(st, fig, a) + SumOver(st, fig, assets - {a})
    decreases |assets|
  {
    var b :| b in assets && SumOver(st, fig, assets) == FigureOf(st, fig, b) + SumOver(st, fig, assets - {b});
    if a != b {
      SumRemove(st, fig, assets - {b}, a);
      SumRemove(st, fig, assets - {a}, b);
      assert assets - {a} - {b} == assets - {b} - {a};
    }
  }

  // A figure that moves at one asset alone moves the sum by as much, if the asset is counted.
  lemma {:induction false} SumMoves(st: State, st': State, fig: Figure, assets: set<nat>, a: nat)
    requires forall b :: b != a ==> FigureOf(st', fig, b) == FigureOf(st, fig, b)
    ensures SumOver(st', fig, assets)
         == SumOver(st, fig, assets) + if a in assets then FigureOf(st', fig, a) - FigureOf(st, fig, a) else 0
    decreases |assets|
  {
    if b :| b in assets {
      SumRemove(st, fig, assets, b);
      SumRemove(st', fig, assets, b);
      SumMoves(st, st', fig, assets - {b}, a);
    }
  }

  lemma {:induction false} SumAdds(st: State, assets: set<nat>)
    requires forall a :: FigureOf(st, Outstanding, a) == FigureOf(st, Deposits, a) + FigureOf(st, BridgedIn, a)
    ensures SumOver(st, Outstanding, assets) == SumOver(st, Deposits, assets) + SumOver(st, BridgedIn, assets)
    decreases |assets|
  {
    if a :| a in assets {
      SumRemove(st, Outstanding, assets, a);
      SumRemove(st, Deposits, assets, a);
      SumRemove(st, BridgedIn, assets, a);
      SumAdds(st, assets - {a});
    }
  }

  // Summing flow by flow and summing asset by asset come to the same.
  lemma {:induction false} TokenSumIsDeposits(st: State, n: nat, token: Word)
    requires n <= |st.flows|
    ensures TokenSum(st.assets, st.flows[..n], token)
         == SumOver(st.(flows := st.flows[..n]), Deposits, AssetsOf(st, token))
  {
    var st' := st.(flows := st.flows[..n]);
    if n == 0 {
      NoDeposits(st', AssetsOf(st, token));
    } else {
      var before, f := st.(flows := st.flows[..n - 1]), st.flows[n - 1];
      TokenSumIsDeposits(st, n - 1, token);
      assert st'.flows == before.flows + [f];
      forall a
        ensures FigureOf(st', Deposits, a) == FigureOf(before, Deposits, a)
          + if a != f.asset then 0 else if f.Deposited? then f.amount else if f.PaidOut? then 0 - f.amount else 0
      {
        FlowAppend(before.flows, f, InByShield, a);
        FlowAppend(before.flows, f, OutByUnshield, a);
      }
      SumMoves(before, st', Deposits, AssetsOf(st, token), f.asset);
      assert st'.flows[..n - 1] == before.flows;
    }
  }

  lemma {:induction false} NoDeposits(st: State, assets: set<nat>)
    requires st.flows == []
    ensures SumOver(st, Deposits, assets) == 0
    decreases |assets|
  {
    if a :| a in assets {
      SumRemove(st, Deposits, assets, a);
      NoDeposits(st, assets - {a});
    }
  }

  // In every run the balance with a token contract is the deposits less the withdrawals of all the
  // assets registered with that token.
  lemma {:induction false} BalanceIsDeposits(host: Host, h: History, token: Word)
    requires JoinSound(host) && Deploy(host, h).Ok?
    ensures
      var st := StateAfter(host, h);
      TokenBalance(st, token) == SumOver(st, Deposits, AssetsOf(st, token))
  {
    var st := StateAfter(host, h);
    ReachableIsGood(host, h);
    TokenSumIsDeposits(st, |st.flows|, token);
    assert st.flows[..|st.flows|] == st.flows;
  }

  // Something was bridged into an asset registered with the token.
  ghost predicate BridgedInto(st: State, token: Word) {
    exists i :: 0 <= i < |st.flows| && st.flows[i].Bridged? && HasToken(st.assets, st.flows[i].asset, token)
  }

  // In every run, what the notes and locks of all the assets of a token are worth is the balance with
  // the token contract plus what was bridged into those assets. So they are backed in full exactly as
  // long as nothing was.
  lemma {:induction false} TokensBackAssets(host: Host, h: History, token: Word)
    requires JoinSound(host) && Deploy(host, h).Ok?
    ensures
      var st := StateAfter(host, h);
      var assets := AssetsOf(st, token);
      && SumOver(st, Outstanding, assets) == TokenBalance(st, token) + SumOver(st, BridgedIn, assets)
      && (SumOver(st, Outstanding, assets) == TokenBalance(st, token) <==> !BridgedInto(st, token))
  {
    var st := StateAfter(host, h);
    forall a
      ensures FigureOf(st, Outstanding, a) == FigureOf(st, Deposits, a) + FigureOf(st, BridgedIn, a)
    {
      ValueIsConserved(host, h, a);
    }
    SumAdds(st, AssetsOf(st, token));
    BalanceIsDeposits(host, h, token);
    ReachableIsGood(host, h);
    BridgedSum(st, AssetsOf(st, token));
    if i :| 0 <= i < |st.flows| && st.flows[i].Bridged? && HasToken(st.assets, st.flows[i].asset, token) {
      assert RouteOk(st, st.flows[i]);
      BridgedCounts(st.flows, i);
    } else {
      forall a | a in AssetsOf(st, token)
        ensures FlowSum(st.flows, InByBridge, a) == 0
      {
        NotBridged(st.flows, a);
      }
    }
  }

  // A token that only Stellar-only assets use backs them one to one.
  lemma {:induction false} StellarTokensBack(host: Host, h: History, token: Word)
    requires JoinSound(host) && Deploy(host, h).Ok?
    requires
      var st := StateAfter(host, h);
      forall a :: a in AssetsOf(st, token) ==> st.assets[a].kind.Stellar?
    ensures
      var st := StateAfter(host, h);
      SumOver(st, Outstanding, AssetsOf(st, token)) == TokenBalance(st, token)
  {
    var st := StateAfter(host, h);
    ReachableIsGood(host, h);
    TokensBackAssets(host, h, token);
    forall i | 0 <= i < |st.flows| && st.flows[i].Bridged?
      ensures !HasToken(st.assets, st.flows[i].asset, token)
    {
      assert RouteOk(st, st.flows[i]);
    }
  }

  lemma {:induction false} BridgedCounts(flows: seq<Flow>, i: nat)
    requires i < |flows| && flows[i].Bridged? && 0 < flows[i].amount
    ensures 0 < FlowSum(flows, InByBridge, flows[i].asset)
  {
    if i < |flows| - 1 {
      BridgedCounts(flows[..|flows| - 1], i);
    }
  }

  lemma {:induction false} NotBridged(flows: seq<Flow>, a: nat)
    requires forall i :: 0 <= i < |flows| ==> !(flows[i].Bridged? && flows[i].asset == a)
    ensures FlowSum(flows, InByBridge, a) == 0
  {
    if flows != [] {
      NotBridged(flows[..|flows| - 1], a);
    }
  }

  lemma {:induction false} BridgedSum(st: State, assets: set<nat>)
    ensures 0 <= SumOver(st, BridgedIn, assets)
    ensures SumOver(st, BridgedIn, assets) == 0 <==> forall a :: a in assets ==> FlowSum(st.flows, InByBridge, a) == 0
    decreases |assets|
  {
    if a :| a in assets {
      SumRemove(st, BridgedIn, assets, a);
      BridgedSum(st, assets - {a});
    }
  }

  // ----- By kind of asset ----------------------------------------------------------------------

  lemma {:induction false} NoRouteNoFlow(st: State, flows: seq<Flow>, asset: nat)
    requires forall i :: 0 <= i < |flows| ==> RouteOk(st, flows[i])
    requires asset in st.assets
    ensures st.assets[asset].kind.Stellar? ==> FlowSum(flows, InByBridge, asset) == 0
    ensures st.assets[asset].kind.BaseRepresented? ==>
      FlowSum(flows, InByShield, asset) == 0 && FlowSum(flows, OutByUnshield, asset) == 0
  {
    if flows != [] {
      NoRouteNoFlow(st, flows[..|flows| - 1], asset);
      assert RouteOk(st, flows[|flows| - 1]);
    }
  }

  // A Stellar-only asset is worth what was deposited for it less what was withdrawn for it; a
  // Base-represented asset what was bridged, none of it ever deposited and none of it ever paid out.
  lemma {:induction false} WorthByKind(host: Host, h: History, asset: nat)
    requires JoinSound(host) && Deploy(host, h).Ok? && asset in StateAfter(host, h).assets
    ensures
      var st := StateAfter(host, h);
      && (st.assets[asset].kind.Stellar? ==> FigureOf(st, Outstanding, asset) == FigureOf(st, Deposits, asset))
      && (st.assets[asset].kind.BaseRepresented? ==>
            && FigureOf(st, Outstanding, asset) == FigureOf(st, BridgedIn, asset)
            && FlowSum(st.flows, InByShield, asset) == 0 && FlowSum(st.flows, OutByUnshield, asset) == 0)
  {
    var st := StateAfter(host, h);
    ReachableIsGood(host, h);
    ValueIsConserved(host, h, asset);
    NoRouteNoFlow(st, st.flows, asset);
  }
}
