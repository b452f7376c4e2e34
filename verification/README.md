# Verification of the settlement desk

A Dafny model of the desk's on-chain settlement contract, of the browser index that mirrors its order
books, and of three smaller cores beside them, with machine-checked proofs.

`dafny verify dfyconfig.toml` checks the whole project.

## What is modelled

**Settlement contract.** `Ledger.dfy` is the contract as a transition function over its stored state:
each entrypoint returns the next state or an error, and `Execute` commits or leaves the state alone.
`Contract.dfy` is the contract as the program it is: a class whose fields are the stored entries, with
the loops over tree levels, pairs, books and makers, and the host that puts every field back when a call
fails. Each method is proved equal to its transition function, and `DeployAndRun` ties the object to the
reachable states about which the main results speak. `Lots`, `Codec` and `NoteTree` hold the arithmetic,
the byte words and the Merkle tree. `Reachable`, `Custody`, `Acceptance` and `Frames` have the results about
whole runs; `Deployment`, `Outcomes` and `Submissions` say when each call succeeds and what it then leaves,
from the encoded inputs (`Inputs`) and the stored fields alone, `Refusals` why it fails; `Matching`, `Sweeps`,
`Payouts`, `ThreeForms` and `Bounds` have the results about the matching and about pairs of operations;
`Scenarios` works out two whole histories call by call.

The state carries the contract's balance with each token contract, which those contracts keep, and three
history fields that nobody stores: value flows, deals (trades and refunds) and the accepted orders' terms.
Results about value count flows, minted less nullified, because a nullifier does not determine a note.

**Book index.** `BookIndexer.dfy` is the page reducer, the comparator and one sync as functions,
`Stores.dfy` the stores, the transaction and the loops. `Replay`, `IndexAgreement`, `IndexReplay`,
`IndexRecovery` and `IndexSync` prove that what the index displays is the contract's book, `SyncStatus` that it
is reported as such exactly then, `IndexRegistry` that its registry is the contract's, and `IndexGuards` what
holds even of forged events.

**Amounts, desk shares, prove service.** `Amount.dfy`; `Base64Url.dfy`, `DeskShare.dfy` and
`ShareParsing.dfy`; `Proving.dfy`, a state machine whose steps are the atomic blocks of requests, tasks and prover processes,
interleaved freely with restarts that the processes outlive; `ProveBlocks.dfy`, what the blocks of one
request or task do in a row; `ProvingRuns.dfy`, two runs worked out; and `ProveService.dfy`, the service
as a class.

## How to read it

* The world is a parameter. `Host` holds the field hash, the proof verifier, the receipt check and the
  input amounts a join proof was made for; `World` holds SHA-256, JSON and letter case. The only facts
  assumed of them are premises of the results: `JoinSound` (a verified join conserves value),
  `CollisionFree` (for the membership result alone) and `Sound` (JSON parsing inverts printing).
* Words are natural numbers; machine widths are explicit. The u32 leaf count, the u64 book sequence and
  the i128 sum of proceeds are checked and abort the call. Every other i128 value and U256 product of the
  matching is proved in range.
* Inductions are written out: every lemma turns the verifier's automatic induction off.
* Which error a call returns follows the order of the code's checks, and names something that is so. When a call would both fail a check
  and overflow a counter, only the fact that it fails is modelled.

## Where the code and its comments differ

* A maker that was partially filled need not end the loop (`contracts/settlement/src/lib.rs:1327`). With
  fills and funds to spare the loop goes on to the next maker exactly when the taker could pay for more
  lots than the maker held, and ends otherwise (`Matching.AfterPartialFill`); `Matching.PartialFillGoesOn`
  is an input on which it goes on.
* `max` of the pruning entrypoint does not bound the work (`contracts/settlement/src/lib.rs:1452`): it
  bounds the removals, and the entries visited exactly when the side is no longer than `max` or begins
  with that many expired entries (`Payouts.MaxBoundsVisits`). A side of 64 live entries is visited whole
  for `max` one (`Payouts.LiveSideIsVisitedWhole`).
* The sum of a taker's proceeds can overflow i128 although every amount fits. `Scenarios.OverflowIsReachable`
  is a history that leads there, and `Sweeps.OverflowIsExactlyQuote` the exact condition, which a caller
  can work out from the opposing side beforehand.
* Custody covers what was shielded (`contracts/settlement/src/lib.rs:723-724`), but two assets may be
  registered with one token, and then it need not cover the Stellar-only one
  (`Scenarios.SharedTokenRunsOut`). `Custody.TokensBackAssets` has the exact condition.
* A finished proof can be written again after a restart (`backend/src/prover.rs:80-82`), because a prover
  process may outlive the service that started it: `ProvingRuns.LateProverReplacesProof` is such a run,
  and `Proving.FinalUnlessStillProving` the exact condition under which a proof is final.
* A poll is not linearizable with another: one that has missed the disk may report a job as never started
  after another has reported it done. `ProvingRuns.OverlappingPollMisses` is the run,
  `Proving.DoneIffReadFound` says what each answer is true of, and `Proving.DoneStaysDone` covers every
  request that begins later.
* Recovery writes a Base-represented asset with the desk's own token text
  (`frontend/src/bookIndexer.ts:334`), while the asset's registration announces the contract's address:
  recovery that reaches back to that registration is refused unless the two are the same
  (`IndexRecovery.BaseAssetNeedsAddress`; the exact condition is in `IndexRecovery.RecoveryCompletes`).
* A missing `bookinit` is to be complained of once the history is exhausted (`frontend/src/bookIndexer.ts:729`),
  but the page's ledger is compared with the one that the same page has just stored, so the comparison always
  holds: a first page without events fails the index for good (`SyncStatus.EmptyFirstPageFails`), and
  `SyncStatus.PageStatus` has the exact condition.

## Model

| member | source | states |
|---|---|---|
| `Reachable.ReachableIsGood` | contracts/settlement/src/lib.rs:556-1551 | after any deployment and any sequence of calls, the whole invariant holds: books, accounting, orders, tree and notes, single-use rights |
| `Reachable.ValueIsConserved` | contracts/settlement/src/lib.rs:436-441 | per asset: notes minted minus notes spent plus what the books lock equals shielded plus bridged minus unshielded, for every run |
| `Custody.TokensBackAssets` | contracts/settlement/src/lib.rs:723-725 | for every token and every run: what the notes and locks of all assets sharing it are worth is the contract's balance with the token plus what was bridged into those assets; so the balance covers them exactly when nothing was bridged into any of them |
| `Custody.StellarTokensBack` | contracts/settlement/src/lib.rs:477-494 | a token that only Stellar-only assets use backs them one to one, in every run |
| `Custody.BalanceIsDeposits` | contracts/settlement/src/lib.rs:723-725 | the balance with a token contract is always the deposits less the withdrawals of all assets registered with that token |
| `Custody.WorthByKind` | contracts/settlement/src/lib.rs:477-494 | a Stellar-only asset is worth what was deposited for it less what was withdrawn for it; a Base-represented asset what was bridged, never deposited and never paid out |
| `Scenarios.SharedTokenRunsOut` | contracts/settlement/src/lib.rs:1125-1134 | two assets may share a token: a history after which a Stellar-only asset is fully deposited by its own ledger and outstanding, the token balance is zero, and withdrawing it fails |
| `Reachable.RightsAreSingleUse` | contracts/settlement/src/lib.rs:893-899 | no nullifier is spent twice and no Base deposit is minted twice, over every run |
| `Reachable.OrdersAreWhole` | contracts/settlement/src/lib.rs:1349-1387 | for every accepted order: traded away + refunded + still locked = offered; received is at least the limit price for what was given; an order that gave everything got at least its minimum |
| `Reachable.WholeOrdersAreFilled` | contracts/settlement/src/lib.rs:1350-1353 | in every reachable state an order accepted without partial fills has given everything it offered, got at least its minimum, was refunded nothing and locks nothing |
| `Acceptance.WholeSubmissionsFill` | contracts/settlement/src/lib.rs:1221-1393 | every successful submission without partial fills: all it offered is given, at least its minimum received, nothing refunded or locked, whatever is called afterwards |
| `Reachable.RestingTradesAreExact` | contracts/settlement/src/lib.rs:1801-1806 | every trade an order makes while resting is at exactly its own price ratio |
| `Reachable.RestingGivesWholeLots` | contracts/settlement/src/lib.rs:1354-1358 | what an order gives while resting is always a whole multiple of its own reduced lot, so what it holds keeps its residue |
| `Reachable.BooksAreSound` | contracts/settlement/src/lib.rs:1361-1375 | each side holds at most 64 entries in price order; every resting order id is spent, appears in one place only, locks between 1 and its offer, and allows partial fills |
| `Reachable.TreeIsFullTree` | contracts/settlement/src/lib.rs:2125-2162 | stored root, filled nodes, leaf count and accepted roots are those of the full padded depth-32 tree over exactly the leaves the event log announces, below 2^32 leaves |
| `BookInvariant.IdsNeverRepeat` | contracts/settlement/src/lib.rs:445 | one order id never rests in two places of any books |
| `Safety.ExecuteKeeps` | contracts/settlement/src/lib.rs:556-1551 | any single transaction, accepted or reverted, keeps the whole invariant |
| `Matching.PriceTimePriority` | contracts/settlement/src/lib.rs:1263-1330 | when a maker traded, every entry that stood ahead of it and is still there is expired or holds less than one of its lots |
| `Matching.OneMakerLeftWhole` | contracts/settlement/src/lib.rs:1297-1330 | at most one maker that traded keeps a whole lot, and it is the one at which the loop stopped |
| `Matching.NoMatchIsLost` | contracts/settlement/src/lib.rs:1263-1288 | with fills and funds to spare, an executable entry can only remain behind a live crossing maker, no worse in price, whose single lot the taker cannot pay |
| `Matching.MatchStops` | contracts/settlement/src/lib.rs:1263-1295 | the loop ends only when fills, funds or entries run out, or at a maker that does not cross or that the taker cannot pay one lot of |
| `Matching.MatchProgresses` | contracts/settlement/src/lib.rs:1259-1330 | wherever the loop stops, everything ahead is passed, everything behind is the untouched original tail, and only makers up to that point traded |
| `Matching.ProceedsAreDepthConsumed` | contracts/settlement/src/lib.rs:1297-1314 | what the taker receives in total is exactly what the opposing side lost |
| `Matching.AfterPartialFill` | contracts/settlement/src/lib.rs:1279-1328 | after a fill that leaves the maker something, the loop goes on to the next maker exactly when the taker could pay for more lots than the maker held, and ends otherwise |
| `Matching.PartialFillGoesOn` | contracts/settlement/src/lib.rs:1315-1328 | an input on which it goes on: a maker keeps one unit of three and the taker is filled by the next one too |
| `Sweeps.OverflowIsExactlyQuote` | contracts/settlement/src/lib.rs:1260-1313 | what a taker receives is a quote computed from the opposing side alone, entry by entry; the checked sum of proceeds overflows exactly when that quote is 2^127 or more |
| `Sweeps.SubmissionTrapsOnQuote` | contracts/settlement/src/lib.rs:1230-1313 | a submission aborts exactly when it passes its checks and the quote from the other side of its pair is 2^127 or more |
| `Scenarios.OverflowIsReachable` | contracts/settlement/src/lib.rs:1260-1313 | a deployment and seven calls to it after which a two-unit submission overflows its proceeds, although every amount fits |
| `Bounds.IntermediatesFit` | contracts/settlement/src/lib.rs:1774-1829 | at every iteration of a submission to any reachable contract, against every entry then stored: all cross products stay below 2^254 and all fill amounts and balances below 2^127 |
| `Ledger.DecidedTradeFits` | contracts/settlement/src/lib.rs:1297-1314 | a fill the loop decides on is positive and within both balances |
| `BookInvariant.MatchInduction` | contracts/settlement/src/lib.rs:1259-1330 | whatever every skip and every trade keeps, the loop keeps; the recursion terminates on fills left, then entries left |
| `BookInvariant.SlotSplitsSide` | contracts/settlement/src/lib.rs:1965-1977 | the sorted insertion goes behind everything at its price or better and ahead of everything worse |
| `BookInvariant.InsertKeepsSorted` | contracts/settlement/src/lib.rs:1965-1977 | sorted insertion keeps a side in price order |
| `Lots.BetterIsAStrictWeakOrder` | contracts/settlement/src/lib.rs:1943-1963 | both sides' tests are one relation and it is a strict weak order on positive terms |
| `Lots.BehindANonCrossing` | contracts/settlement/src/lib.rs:1269-1278 | on a sorted side, nothing behind a maker that does not cross crosses |
| `Lots.GcdI128` | contracts/settlement/src/lib.rs:1790-1799 | the loop computes Euclid's result |
| `Lots.GcdIsGreatest` | contracts/settlement/src/lib.rs:1790-1799 | Euclid's result is the greatest common divisor: a number divides both exactly when it divides the result |
| `Lots.ComputeLots` | contracts/settlement/src/lib.rs:1801-1829 | lot counts and lots in base and quote units, for either orientation |
| `Lots.ReducedLot` | contracts/settlement/src/lib.rs:1358 | the taker's own lot by the gcd loop |
| `Lots.LotsAreCoprime` | contracts/settlement/src/lib.rs:1801-1806 | an order's two lots have no common divisor |
| `Lots.FillAtExactPrice` | contracts/settlement/src/lib.rs:1801-1806 | any number of lots trades at exactly the maker's ratio |
| `Lots.LotsAreTheLargestExactTrade` | contracts/settlement/src/lib.rs:1826-1829 | the smaller lot count is the largest trade at exactly that price within both balances, and every other such trade is fewer of the same lots |
| `Lots.FillKeepsResidue` | contracts/settlement/src/lib.rs:1304-1311 | a fill leaves the maker's balance in the same residue class modulo its lot |
| `Inputs.ProofIsExact` | contracts/settlement/src/lib.rs:1556-1579 | a proof is taken for these words exactly when it has full length, its public inputs are their encoding byte for byte, and it verifies for that operation |
| `Inputs.OrderIsExact` | contracts/settlement/src/lib.rs:1979-2011 | the contract takes an order exactly when a lift proof carries its encoding under an accepted root and every field fits its machine type |
| `Submissions.SubmitsExactly` | contracts/settlement/src/lib.rs:1221-1353 | a submission succeeds exactly when a proof presents a live order of positive amounts over an unspent note, a pair trades its assets, its sweep of the opposing side stays below 2^127, and it fills the order if that may not rest |
| `Submissions.SubmissionDoes` | contracts/settlement/src/lib.rs:1230-1391 | what a submission leaves, from the order and the books alone: the opposing side swept, the order on its own side with its own id, terms, tags, leaf, expiry and flag and what is left of it, every event in order, one note spent, nothing else changed |
| `Submissions.CancelTakesBack` | contracts/settlement/src/lib.rs:1361-1443 | a cancel proof over the leaf and cancel tag of an order that came to rest takes back exactly what rested: the side is as before the submission and what was left goes to the return tag |
| `Sweeps.MatchIsSweep` | contracts/settlement/src/lib.rs:1256-1331 | the matching loop is one left-to-right pass over the opposing side, each maker filled at most once: amounts, side left behind and events agree |
| `Matching.DecisionIsExact` | contracts/settlement/src/lib.rs:1265-1297 | at one maker the loop ends, passes or trades exactly by expiry, price and what both can afford of one lot, and trades as many whole lots as both can |
| `Outcomes.ShieldsExactly` | contracts/settlement/src/lib.rs:701-741 | when a deposit succeeds, and the token balance, note and tag it leaves |
| `Outcomes.BridgesExactly` | contracts/settlement/src/lib.rs:796-899 | a bridged mint succeeds exactly when the journal carries a deposit to the configured bridge and chain, in a block whose attested hash is the journal's own, of a positive amount of an asset that lives on Base, not minted before |
| `Outcomes.BridgeDoes` | contracts/settlement/src/lib.rs:893-912 | then exactly one note is minted, to the journal's owner tag, and the deposit is used up |
| `Frames.BridgedNotesAreAttested` | contracts/settlement/src/lib.rs:743-899 | in every run: chain and bridge are those the administrator configured last, and the block hash is the one attested last for that block |
| `Frames.CallsAreConfined` | contracts/settlement/src/lib.rs:556-1551 | each kind of call changes only what it may: registry never, bridge and blocks by the administrator, tokens by deposits and withdrawals, books by the calls of the book; no nullifier is taken back |
| `Outcomes.WithdrawsExactly` | contracts/settlement/src/lib.rs:1079-1125 | a withdrawal succeeds exactly when its proof carries one under an accepted root, over an unspent note, of a positive amount, bound to the payee the caller names, in an asset whose token covers it |
| `Outcomes.WithdrawalDoes` | contracts/settlement/src/lib.rs:1127-1143 | then exactly that note is spent, exactly that token hands out the amount, and one event names asset, amount and nullifier |
| `Outcomes.JoinsExactly` | contracts/settlement/src/lib.rs:1160-1196 | a join succeeds exactly when its proof carries one under an accepted root with two distinct unspent notes and amounts in range |
| `Outcomes.JoinDoes` | contracts/settlement/src/lib.rs:1198-1210 | then the two notes are spent and the two bound notes made and announced in order, each with its own amount and tag, none for nothing |
| `Outcomes.SettlesExactly` | contracts/settlement/src/lib.rs:924-968 | two presented orders settle exactly when each asks for what the other offers, each offer is at least the other's minimum, and their notes differ and are unspent |
| `Outcomes.SettlementDoes` | contracts/settlement/src/lib.rs:964-992 | then each is paid all that the other offers, to its own output tag; two notes spent, two made, one event, nothing else |
| `Outcomes.SettleIsSymmetric` | contracts/settlement/src/lib.rs:924-992 | swapping the two sides does not change whether a settlement succeeds |
| `Outcomes.SettlesExactlyStrict` | contracts/settlement/src/lib.rs:995-1046 | the strict form succeeds exactly when moreover the offers equal the minima and a registered pair trades the two assets |
| `Outcomes.CancelsExactly` | contracts/settlement/src/lib.rs:1400-1447 | a cancellation succeeds exactly when its proof names the leaf and cancel tag of an entry of that side |
| `Outcomes.CancelDoes` | contracts/settlement/src/lib.rs:1423-1443 | then exactly the first such entry leaves, its lock goes to the return tag in one note, and the removal is announced as cancelled |
| `Deployment.DeploysExactly` | contracts/settlement/src/lib.rs:562-687 | a deployment succeeds exactly when each asset is listed once with a token where it lives on Stellar and each pair once over two listed assets; it then holds that registry and nothing else, and has announced it in order |
| `Refusals.ErrorsAreTrue` | contracts/settlement/src/lib.rs:556-1551 | no call ever fails for a reason that is not so: each error names a defect of the inputs or the state that is there |
| `Payouts.TradePays` | contracts/settlement/src/lib.rs:1300-1314 | a fill announces exactly two notes: the maker's asset to the taker's output tag, then the taker's asset to the maker's |
| `Payouts.RemainderPays` | contracts/settlement/src/lib.rs:1349-1387 | a remainder is refunded to the order's own tag exactly when it is below one own lot or the side is full; otherwise it rests in price order, or fails the call when it may not rest |
| `Payouts.SettlePays` | contracts/settlement/src/lib.rs:947-992 | a settlement spends two distinct fresh notes and pays each order all the other offered, at least its minimum, to its own tag |
| `Payouts.CancelPays` | contracts/settlement/src/lib.rs:1395-1448 | a proven cancellation succeeds exactly when the side holds an entry with that leaf and cancel tag, and pays all it locks to the return tag |
| `Payouts.CancelUndoesRest` | contracts/settlement/src/lib.rs:1395-1448 | cancelling a rested entry before any fill leaves every book as it was before it rested and returns its whole lock |
| `Payouts.PrunePays` | contracts/settlement/src/lib.rs:1450-1486 | pruning removes exactly the first max expired entries of the side and announces for each, in book order, a note over its lock to its own tag and its removal as expired; nothing else changes |
| `Payouts.MaxBoundsVisits` | contracts/settlement/src/lib.rs:1461-1479 | max bounds the removals always, and the entries visited exactly when the side is no longer than max or begins with max expired entries |
| `Payouts.LiveSideIsVisitedWhole` | contracts/settlement/src/lib.rs:1461-1479 | a side without expired entries is visited from end to end for every max above zero |
| `ThreeForms.ExactIsSettle` | contracts/settlement/src/lib.rs:995-1070 | settle_exact succeeds exactly when settle does, the orders mirror each other and their pair is registered; then both have the same effect |
| `ThreeForms.BookAgreesWithExact` | agents/src/prompts.ts:39-46 | two mirrored live orders that settle_exact accepts can instead be submitted one after the other to an empty pair: same spends, same notes up to order, books empty again |
| `ThreeForms.MirroredFill` | contracts/settlement/src/lib.rs:1270-1297 | a mirrored taker crosses a fresh maker and takes it whole in one fill |
| `Contract.DeployAndRun` | contracts/settlement/src/lib.rs:562-614 | constructing the object and invoking calls reaches exactly the modelled states, so every result about reachable states is one about its fields |
| `Contract.Settlement.constructor` | contracts/settlement/src/lib.rs:572-605 | the empty contract: empty tree, zero counters, bookinit as first event |
| `Contract.Settlement.Configure` | contracts/settlement/src/lib.rs:606-613 | assets, then pairs, stopping at the first refusal |
| `Contract.Settlement.RegisterAsset` | contracts/settlement/src/lib.rs:1619-1649 | one asset entry: duplicates and token/kind mismatches refused |
| `Contract.Settlement.RegisterPair` | contracts/settlement/src/lib.rs:1651-1704 | one pair: self pairs, unknown assets and either orientation of a known pair refused |
| `Contract.Settlement.TreeInit` | contracts/settlement/src/lib.rs:2102-2123 | the stored fields are those of the empty tree |
| `Contract.Settlement.TreeInsert` | contracts/settlement/src/lib.rs:2125-2162 | the level loop performs one incremental insertion |
| `Contract.Settlement.MintNote` | contracts/settlement/src/lib.rs:1854-1870 | inserts and announces a note; nothing for a zero amount |
| `Contract.Settlement.PairAndSide` | contracts/settlement/src/lib.rs:1735-1758 | scan of the pair registry for either orientation |
| `Contract.Settlement.SideAssets` | contracts/settlement/src/lib.rs:1839-1852 | assets locked and received on a pair side, or the registry errors |
| `Contract.Settlement.BookInsertSorted` | contracts/settlement/src/lib.rs:1965-1977 | the scan inserts before the first entry the new one is strictly ahead of |
| `Contract.Settlement.PublishUpserted` | contracts/settlement/src/lib.rs:1899-1922 | advances the running sequence and announces an upsert under it |
| `Contract.Settlement.PublishRemoved` | contracts/settlement/src/lib.rs:1924-1941 | advances the running sequence and announces a removal under it |
| `Contract.Settlement.Consider` | contracts/settlement/src/lib.rs:1264-1299 | the branches taken at one maker, and the fill in base and quote units |
| `Contract.Settlement.MoveFunds` | contracts/settlement/src/lib.rs:1298-1329 | one fill: both proceeds notes, then the maker shrinks in place or leaves |
| `Contract.Settlement.FillMaker` | contracts/settlement/src/lib.rs:1297-1329 | a fill together with the loop's running amounts |
| `Contract.Settlement.MatchBook` | contracts/settlement/src/lib.rs:1255-1331 | the whole matching loop on a loaded side, stored back afterwards; stops at once when the proceeds overflow |
| `Contract.Settlement.RestOrRefund` | contracts/settlement/src/lib.rs:1349-1390 | what is left of the taker rests, is refunded, or reverts the call; the sequence is stored |
| `Contract.Settlement.SubmitParsed` | contracts/settlement/src/lib.rs:1230-1393 | checks, nullifier lock, matching and disposal of a parsed order |
| `Contract.Settlement.SubmitOrder` | contracts/settlement/src/lib.rs:1221-1393 | the entrypoint: proof, parsing and the above |
| `Contract.Settlement.CancelOrder` | contracts/settlement/src/lib.rs:1395-1448 | the matching entry's lock goes to the proof's return tag and the entry leaves; the error cases |
| `Contract.Settlement.PruneSide` | contracts/settlement/src/lib.rs:1461-1479 | the pruning loop: which entries leave and are refunded, how many, and how many are visited |
| `Contract.Settlement.PruneExpired` | contracts/settlement/src/lib.rs:1450-1486 | the entrypoint and the removal count it returns |
| `Contract.Settlement.Settle` | contracts/settlement/src/lib.rs:915-993 | both proofs, compatibility, both nullifiers, both notes |
| `Contract.Settlement.SettleExact` | contracts/settlement/src/lib.rs:995-1070 | the strict form over registered pairs |
| `Contract.Settlement.Shield` | contracts/settlement/src/lib.rs:695-741 | checked deposit of a registered token and its note |
| `Contract.Settlement.ConfigureBaseBridge` | contracts/settlement/src/lib.rs:743-772 | admin-only bridge configuration |
| `Contract.Settlement.AttestBaseBlock` | contracts/settlement/src/lib.rs:774-787 | admin-only block attestation |
| `Contract.Settlement.ShieldFromBase` | contracts/settlement/src/lib.rs:789-913 | receipt, journal fields in order, configuration, bridge and block checks |
| `Contract.Settlement.Credit` | contracts/settlement/src/lib.rs:878-912 | amount, asset and replay checks, then one note per deposit |
| `Contract.Settlement.IsAddress` | contracts/settlement/src/lib.rs:856-868 | a word is the configured address exactly when its first twelve bytes are zero and the rest match |
| `Contract.Settlement.Unshield` | contracts/settlement/src/lib.rs:1072-1144 | withdrawal checks in order, nullifier, payout |
| `Contract.Settlement.Join` | contracts/settlement/src/lib.rs:1146-1211 | two distinct unspent notes into two bound outputs |
| `Contract.Settlement.VerifyProof` | contracts/settlement/src/lib.rs:1556-1579 | length checks before the verifier, and its verdict |
| `Contract.Settlement.ParseOrder` | contracts/settlement/src/lib.rs:1979-2011 | domain, root, flag and range checks in order, with the word loops |
| `Contract.Settlement.Invoke` | contracts/settlement/src/lib.rs:556-1551 | one transaction: commits, or puts every field back on an error or a counter overflow |
| `Codec.WordToU32` | contracts/settlement/src/lib.rs:2172-2182 | exactly the words below 2^32 |
| `Codec.WordToU64` | contracts/settlement/src/lib.rs:2184-2196 | exactly the words below 2^64 |
| `Codec.WordToI128` | contracts/settlement/src/lib.rs:2198-2214 | exactly the words below 2^127, the sign bit refused |
| `Codec.HighBytesZero` | contracts/settlement/src/lib.rs:2173-2180 | the byte loop decides whether a word fits its low bytes |
| `Codec.BigBytes` | contracts/settlement/src/lib.rs:2070-2079 | a value below 256^n survives the big-endian encoding |
| `Codec.BytesBig` | contracts/settlement/src/lib.rs:2070-2079 | a byte word is the encoding of its value |
| `Codec.ParseInvertsEncoding` | contracts/settlement/src/lib.rs:1982-2011 | parsing the encoding of any order returns it, exactly when its root is accepted and its fields fit |
| `NoteTree.InsertAgrees` | contracts/settlement/src/lib.rs:2125-2162 | one incremental insertion keeps the fields in agreement with the full padded tree |
| `NoteTree.InsertAllAgrees` | contracts/settlement/src/lib.rs:2125-2162 | any number of insertions within capacity: the fast form is the full tree |
| `NoteTree.EmptyAgrees` | contracts/settlement/src/lib.rs:2102-2123 | the initial fields are the full tree over no leaves, with no accepted root |
| `NoteTree.MembershipIsExact` | circuits/join/src/main.nr:48-73 | with a collision-free hash, the membership check accepts at each position exactly the stored leaf with exactly its sibling path |
| `IndexReplay.FullReplayAgrees` | frontend/src/bookIndexer.ts:398-527 | replaying the contract's whole log in contiguous, possibly overlapping pages is never refused, reaches the contract's sequence and displays exactly its books, entry for entry |
| `IndexAgreement.AnyDeliveryAgrees` | frontend/src/bookIndexer.ts:398-527 | whatever true events arrive in whatever pages, order, repetition or omission: at the contract's sequence of some moment the display is the books of that moment |
| `IndexSync.SyncedIsExact` | frontend/src/bookIndexer.ts:674-745 | over any run of syncs, with pages, recoveries, network failures and refused pages in any order: a sync that reports synced leaves a display of exactly the contract's books at a moment with the target sequence |
| `SyncStatus.PageStatus` | frontend/src/bookIndexer.ts:715-744 | a sync that takes a page is synced exactly when the release is verified and the page leaves the index initialized and at the target, and has failed exactly when it leaves it uninitialized or the release is not the desk's; what is stored in each case |
| `SyncStatus.OtherStatus` | frontend/src/bookIndexer.ts:674-713 | any other sync: no status of synced but by recovery, and failure exactly after an earlier one, a refused page, or a live read that contradicts the desk |
| `SyncStatus.TruePageStatus` | frontend/src/bookIndexer.ts:674-745 | over any run of true readings without a failure: an accepted page with a verified release is reported synced exactly when the index is then initialized and at the target |
| `SyncStatus.PacedStatus` | frontend/src/bookIndexer.ts:674-745 | a run that keeps pace with the log never fails, and reports synced exactly when it takes a page whose target is the sequence of the last order event delivered |
| `SyncStatus.CaughtUpIsSynced` | frontend/src/bookIndexer.ts:674-745 | an index that has read to the end of the log, with the contract's sequence as target, is reported synced and displays the contract's books |
| `SyncStatus.RecoveryStatus` | frontend/src/bookIndexer.ts:621-672 | a recovery that is served to the end of the log never fails, and is reported synced exactly when its registry agrees with the registrations delivered and no order event has come since the live read |
| `SyncStatus.EmptyFirstPageFails` | frontend/src/bookIndexer.ts:727-732 | a first page without events fails the index for good |
| `IndexRegistry.ReplayRegistry` | frontend/src/bookIndexer.ts:416-452 | a replay of the whole log leaves exactly the contract's registry: every asset with token and kind, every pair, the protocol |
| `IndexGuards.NothingIsContradicted` | frontend/src/bookIndexer.ts:411-516 | whatever events are sent, forged ones included: nothing stored before initialization, nothing registered ever contradicted, every row on a side and under a sequence number reached |
| `IndexGuards.NoSequenceIsSkipped` | frontend/src/bookIndexer.ts:457-465 | every sequence number the index moves past is that of a well-formed order event it was sent |
| `IndexGuards.RowsLeaveByRemoval` | frontend/src/bookIndexer.ts:486-510 | rows leave only by a removal of their own order, and keep their first sequence |
| `IndexSync.FailureStays` | frontend/src/bookIndexer.ts:674-745 | once a sync has reported failure, no later sync changes anything or reports otherwise |
| `IndexRecovery.RecoveryAgrees` | frontend/src/bookIndexer.ts:587-672 | the same after starting from a live read of the books at any moment |
| `IndexRecovery.RecoveryCatchesUp` | frontend/src/bookIndexer.ts:587-672 | after such a start, contiguous pages from the snapshot's place or any earlier one to the end are all accepted exactly when the recovered protocol and asset tokens are those of the registrations delivered, and then lead to the contract's books |
| `IndexRecovery.RecoveryCompletes` | frontend/src/bookIndexer.ts:621-672 | the recovery call as a whole: from a live read at any moment it completes exactly under that condition, and then displays exactly the contract's books |
| `IndexRecovery.BaseAssetNeedsAddress` | frontend/src/bookIndexer.ts:330-347 | recovery whose pages reach the registration of a Base-represented asset is refused unless that asset's row carries the contract's own address |
| `IndexRecovery.LiveSnapshotRep` | frontend/src/bookIndexer.ts:356-395 | rows numbered by position stand for the live books |
| `IndexAgreement.DisplayIsTheBook` | frontend/src/bookIndexer.ts:782-798 | sorting by price and then first-upsert sequence shows the contract's own order, whatever order the rows are listed in |
| `IndexAgreement.ReceiveAllTracks` | frontend/src/bookIndexer.ts:398-527 | at every moment the stored rows are the fold of the log's order events up to the stored sequence |
| `BookIndexer.CompareIsPriceThenPriority` | frontend/src/bookIndexer.ts:787-798 | the comparator is the contract's price test, then first-upsert sequence |
| `BookIndexer.CompareIsAPreorder` | frontend/src/bookIndexer.ts:787-798 | the comparator is a total preorder |
| `Stores.BookStore.ApplySequenced` | frontend/src/bookIndexer.ts:453-513 | one order event against the stores: stale, gap, side, reason and unknown-order cases |
| `Stores.BookStore.ApplyEvent` | frontend/src/bookIndexer.ts:411-516 | one delivered event of any kind, with its refusals |
| `Stores.BookStore.ApplyEvents` | frontend/src/bookIndexer.ts:411-517 | the event loop up to the first refusal |
| `Stores.BookStore.ApplyBookEventPage` | frontend/src/bookIndexer.ts:398-527 | one page in one transaction: committed with its cursor, or aborted without a trace |
| `Stores.BookStore.WriteLiveSnapshot` | frontend/src/bookIndexer.ts:587-619 | clears the stores and writes the rows of a live read, loop by loop |
| `Stores.BookStore.CatchUp` | frontend/src/bookIndexer.ts:662-670 | pages are applied while they come full, up to one that is refused |
| `Stores.BookStore.Recover` | frontend/src/bookIndexer.ts:621-672 | the live read is written and the pages after it are applied; the status is that of what is stored, or syncing |
| `Stores.BookStore.Sync` | frontend/src/bookIndexer.ts:674-745 | one sync: nothing after a failure, recovery where the ledgers are gone and no cursor is stored, otherwise one page, the target and the release check; what is stored and what is reported in each case |
| `Stores.SyncFromEmpty` | frontend/src/bookIndexer.ts:674-745 | any run of syncs on empty stores reaches exactly the modelled index, so every result about runs is one about these stores |
| `Sorting.StrictOrderIsUnique` | frontend/src/bookIndexer.ts:782-785 | two listings of the same rows in strict order are the same listing |
| `Amount.ParseIsExact` | packages/sdk/src/amount.ts:9-21 | the parser fails exactly on texts that are no decimal spelling or are finer than the asset, and otherwise returns the denoted rational times ten to the decimals |
| `Amount.ParseInvertsFormat` | packages/sdk/src/amount.ts:93-103 | parsing a printed amount returns it; a printed negative number is refused |
| `Amount.FormatIsCanonical` | packages/sdk/src/amount.ts:93-103 | two accepted spellings print alike exactly when they denote the same rational |
| `Amount.PrintsExactlyCanonical` | packages/sdk/src/amount.ts:93-103 | the printed texts are exactly those without redundant zeros or dots |
| `Text.TrimIsExact` | packages/sdk/src/amount.ts:10-11 | trimming takes away space at both ends and nothing else, and leaves none there |
| `Amount.AcceptedSpellings` | packages/sdk/src/amount.ts:12-15 | the accepted texts are digits with at most one dot and at least one digit |
| `Amount.RatioIsExact` | packages/sdk/src/amount.ts:28-36 | a parsed price is the denoted rational, or the text is no spelling |
| `Amount.MinOutIsWithinOneUnit` | packages/sdk/src/amount.ts:53-73 | a computed minimum is the exact value rounded down; the only failures are bad texts and a buy at price zero |
| `Amount.PricedOrdersMeet` | packages/sdk/src/amount.ts:53-73 | a sell at p and a buy at q with p <= q pass the contract's crossing test for all amounts and decimals |
| `DeskShare.ShareRoundTrip` | frontend/src/deskShare.ts:142-189 | parsing an encoded share returns it exactly when validation accepts it and leaves it unchanged |
| `ShareParsing.TakesExactly` | frontend/src/deskShare.ts:161-174 | the tokens taken are exactly those of this format whose twelve checksum digits, in either case, print the digest of the format and the body before them; the body's bytes come out |
| `ShareParsing.FieldsDecide` | frontend/src/deskShare.ts:162-174 | for any three fields: other formats, malformed checksums, wrong checksums and bodies that are not base64url are refused, in this order and each under its own error |
| `ShareParsing.TamperedIsRefused` | frontend/src/deskShare.ts:166-168 | a body that does not match the digits behind it is refused, whatever it decodes to |
| `ShareParsing.IncompleteExactly` | frontend/src/deskShare.ts:50-59 | a text is an incomplete block exactly when it carries a marker but no header before its first footer |
| `ShareParsing.BareTokenIsTaken` | frontend/src/deskShare.ts:50-59 | a token pasted without its block is the same token |
| `ShareParsing.LinesAre76` | frontend/src/deskShare.ts:45-48 | lines of 76 characters, the last shorter but not empty |
| `ShareParsing.PayloadExactly` | frontend/src/deskShare.ts:61-140 | the payloads taken are exactly the objects of version 1 with every text present, at least one asset and only valid ones, and only valid pairs; the desk returned is that one, symbols trimmed and in upper case |
| `DeskShare.PayloadSurvives` | frontend/src/deskShare.ts:155-171 | any non-empty payload survives encoding, checksum, wrapping and parsing |
| `DeskShare.NormalizeInvertsWrap` | frontend/src/deskShare.ts:45-59 | wrapping at 76 columns between the markers is undone for every token without white space |
| `DeskShare.FieldsSplit` | frontend/src/deskShare.ts:163-165 | three fields without dots are split back into those three |
| `DeskShare.PayloadReads` | frontend/src/deskShare.ts:118-140 | validation returns an encoded payload unchanged exactly when it is clean |
| `Base64Url.DecodeInvertsEncode` | frontend/src/deskShare.ts:23-39 | every non-empty byte string survives base64url (section 5 of RFC 4648); the empty one is refused |
| `Base64Url.DecodesExactly` | frontend/src/deskShare.ts:31-39 | a text is decoded exactly when it is a non-empty one of the URL alphabet of a possible length, and printing the bytes gives it back up to the spare bits of its last character |
| `Base64Url.EncodeIsUrlText` | frontend/src/deskShare.ts:28-32 | the encoding passes the parser's character check unless there is nothing to encode |
| `Base64Url.BytesToBase64Url` | frontend/src/deskShare.ts:23-29 | the chunk loop produces the encoding |
| `Base64Url.Base64UrlToBytes` | frontend/src/deskShare.ts:31-39 | character check, padding restored, byte loop |
| `Proving.OneTaskPerJob` | backend/src/prove_manager.rs:51-97 | under every interleaving a job has at most one task spawned or about to be, and the table shows it running exactly then |
| `Proving.OneProverAtATime` | backend/src/prove_manager.rs:67-78 | of two live prover processes, one at least was left behind by a panic or a restart |
| `Proving.FinalUnlessStillProving` | backend/src/prover.rs:80-103 | a proof on disk is never lost and no prover is started for its job again, across restarts; it is the same after everything that may follow exactly when no prover of the job is still at work |
| `Proving.FinalUnlessLeftBehind` | backend/src/prover.rs:80-103 | so a proof is final from the moment it is on disk as long as no panic or restart has left a prover of its job at work |
| `Proving.DoneStaysDone` | backend/src/prove_manager.rs:99-109 | once a job is reported done, every request that begins afterwards is answered done, and with the same proof unless a prover of the job was left behind |
| `Proving.DoneIffReadFound` | backend/src/prove_manager.rs:51-54 | in every run an answer is done exactly when the proof was on disk at the moment its request read the disk, and then with that proof |
| `Proving.StepKeeps` | backend/src/prove_manager.rs:51-109 | every step of requests, tasks, prover processes and restart keeps the protocol invariant |
| `ProvingRuns.OverlappingPollMisses` | backend/src/prove_manager.rs:99-109 | a request already past its disk read may still answer not started after another one reported done |
| `ProvingRuns.LateProverReplacesProof` | backend/src/prover.rs:117 | a run in which a prover outlives a restart, a second one runs beside it, and the late proof replaces one already reported done |
| `ProveService.ProveManager.Submit` | backend/src/prove_manager.rs:51-98 | uninterrupted: done from the disk alone, otherwise running; the table then shows the job running and a task is spawned exactly when it did not before; as a run of blocks |
| `ProveService.ProveManager.Status` | backend/src/prove_manager.rs:100-108 | uninterrupted: changes nothing, and reports the disk first and the table second |
| `ProveService.ProveManager.RunTask` | backend/src/prove_manager.rs:67-96 | uninterrupted: a job with a proof leaves the table without a prover; otherwise it leaves it exactly when a prover started, left a proof and exited well, and the table records why not in every other case; the permit is back |
| `ProveService.StartAndServe` | backend/src/prove_manager.rs:41-98 | the object driven through any interleaving of its blocks reaches exactly the modelled states, so every result about runs is one about its fields |
| `ProveBlocks.PanicIsRecorded` | backend/src/prove_manager.rs:91-95 | a task that panics leaves the table with its error and the permit back, and a prover it waited for behind |
| `ProveBlocks.RestartForgets` | backend/src/prove_manager.rs:12-15 | after a restart the permit is free, a poll knows only the disk, and a job without a proof there can be submitted again |

## Left out

- UltraHonk and Groth16 verification, Poseidon2, SHA-256 and address hashing: parameters of the model, with the premises named above.
- The hardcoded zero-subtree table: taken to be the recurrence it tabulates.
- Storage lifetimes and the heartbeat entrypoints: no effect on the logical state.
- Verification keys, protocol and bridge configuration views, and the admin's identity: an admin's consent is an input of the call.
- Token contracts: each keeps a balance for the contract that `shield` adds to and `unshield` takes from; a transfer aborts the call when the balance does not cover it or when an input says so. Tokens sent to the contract by other routes, fees and clawbacks are not modelled.
- Notes and their owners: spending rights belong to the circuits, so value is counted as flow and not as a set of spendable notes.
- The remote reads of the index and the release and desk checks behind them: their outcomes are inputs of a sync, a live read is taken at one contract state, and events carry the contract's own values.
- Indexes of several contracts in one database: the stores hold one scope.
- Amount.ParseIsExact: decimals are natural numbers, as every asset definition has them; a negative count would make the source throw.
- DeskShare.ShareRoundTrip: JSON is a value whose property names are an enumeration, and printing it yields bytes directly; numbers that are not integers are carried as text.
- Proving.FinalUnlessStillProving: a prover process leaves its proof at most once, the two artifact files appear at once and stay, and a failing disk read is an absent proof.
- Fairness of the permit and progress of tasks: only safety is proved.
- The quoting text helper `formatPrice`, `toRaw` and `computeMinOut` in the amount module: variants of what is proved.
- React views, wallets, HTTP and MCP servers, relayer, deployers and the bridge prover itself: interfaces and I/O.
