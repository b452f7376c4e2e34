// The values the settlement contract stores, takes and emits.
module Types {
  import opened Lots
  import opened Wrappers

  type Byte = b: int | 0 <= b < 256
  type Word = nat

  datatype Error =
    | NullifierUsed
    | NotCompatible
    | ProofParseError
    | VerificationFailed
    | BadPublicInputs
    | UnknownRoot
    | FieldOverflow
    | AssetNotRegistered
    | InvalidAmount
    | AssetAlreadyRegistered
    | RecipientMismatch
    | PairNotRegistered
    | OrderExpired
    | OrderNotFound
    | NotPartialAllowed
    | PairAlreadyRegistered
    | BaseBridgeNotConfigured
    | BadJournal
    | ConfigMismatch
    | BridgeMismatch
    | BaseBlockNotAttested
    | DepositAlreadyProcessed
    | AssetNotShieldable
    | AssetNotBridgeable
    | AssetNotUnshieldable
    | AssetConfigInvalid
    | VkInvalid
    | Trap // the host aborts: failed authorization, failed token transfer, checked overflow

  const U32_LIMIT := 0x1_0000_0000
  const U64_LIMIT := 0x1_0000_0000_0000_0000
  const I128_LIMIT := 0x8000_0000_0000_0000_0000_0000_0000_0000

  // One verified side of a trade.
  datatype Order = Order(
    nullifier: Word,
    assetIn: nat,
    amountIn: nat,
    assetOut: nat,
    minOut: nat,
    outputTag: Word,
    cancelTag: Word,
    expiry: nat,
    partialAllowed: bool,
    leaf: Word)

  datatype Side = Buy | Sell {
    function Code(): nat {
      if Buy? then SIDE_BUY else SIDE_SELL
    }

    function Opposite(): Side {
      if Buy? then Sell else Buy
    }
  }

  datatype AssetKind = Stellar | Dual | BaseRepresented

  datatype AssetDef = AssetDef(token: Option<Word>, kind: AssetKind)

  datatype AssetInit = AssetInit(assetId: nat, token: Option<Word>, kind: AssetKind)

  // Canonical orientation: SELL gives base and wants quote, BUY gives quote and wants base.
  datatype PairDef = PairDef(baseAsset: nat, quoteAsset: nat) {
    function AssetIn(side: nat): nat {
      if side == SIDE_SELL then baseAsset else quoteAsset
    }
  }

  // A resting order. Amounts are positive by type, so every construction site proves it.
  datatype OrderEntry = OrderEntry(
    orderId: Word,
    amountIn: Pos,
    minOut: Pos,
    remainingIn: Pos,
    outputTag: Word,
    cancelTag: Word,
    leaf: Word,
    expiry: nat,
    partialAllowed: bool)
  {
    function Terms(): Limit {
      Limit(amountIn, minOut)
    }
  }

  type EvmAddress = a: nat | a < 0x1_0000000000_0000000000_0000000000_0000000000

  datatype BridgeConfig = BridgeConfig(router: Word, imageId: Word, configId: Word, bridge: EvmAddress)

  datatype RemoveReason = Filled | Cancelled | Expired {
    function Code(): nat {
      match this
      case Filled => 0
      case Cancelled => 1
      case Expired => 2
    }
  }

  datatype Event =
    | BookInitialized(schema: nat, vkHashes: seq<Word>)
    | AssetRegistered(assetId: nat, token: Word, kind: nat)
    | PairRegistered(pairId: nat, baseAsset: nat, quoteAsset: nat)
    | Shielded(note: Note)
    | NoteInserted(note: Note)
    | Settled(noteA: Note, noteB: Note)
    | Unshielded(asset: nat, amount: nat, nullifier: Word)
    | Joined(asset: nat, nf1: Word, nf2: Word)
    | TakerFilled(assetIn: nat, amountIn: nat, assetOut: nat, amountOut: nat, tag: Word)
    | OrderUpserted(sequence: nat, pairId: nat, side: nat, entry: OrderEntry)
    | OrderRemoved(sequence: nat, pairId: nat, side: nat, orderId: Word, reason: nat)

  // The three public fields behind an asset note's leaf.
  datatype Note = Note(asset: nat, amount: nat, tag: Word)
}
