# AshCoin in Dafny

A model of the AshCoin node and proofs about it. AshCoin is a small UTXO blockchain: a node mines
blocks, keeps them in memory and in a binary chain file, exchanges chains with peers, and answers
questions about addresses. The project models the parts where these meet: the sync protocol as a
state machine over whole runs, the unspent-output scan and the address ledger, hash links and proof
of work, the chain file, payments and the money supply, retargeting, and base-58 addresses.

`dafny verify dfyconfig.toml` checks the whole project.

## How it is laid out

| file | what it holds |
|---|---|
| `Decimals.dfy`, `Transactions.dfy`, `Blocks.dfy` | the text of numbers; transactions and their ids; blocks, the hashed text, proof of work, the mutable block |
| `Chains.dfy`, `History.dfy` | chain validity; the tip hash fixes length, links, transactions and accounts |
| `Blockchains.dfy`, `Mining.dfy`, `Retarget.dfy` | the chain object, the mining loop, difficulty |
| `Sums.dfy`, `Unspent.dfy`, `UnspentSums.dfy`, `Spending.dfy` | the scan and its meaning; what inputs find and take out of it |
| `Ledger.dfy`, `LedgerEntries.dfy`, `Accounts.dfy` | the ledger and how it differs from the scan; what its entries say; the queries as loops |
| `Base58.dfy`, `Payments.dfy`, `Supply.dfy` | addresses, payments, conservation of the supply |
| `Codec.dfy`, `ChainFile.dfy`, `ChainDatabase.dfy` | the binary format, its round trip, the streams and the database object |
| `Syncing.dfy`, `Nodes.dfy`, `Convergence.dfy` | laying a pending chain over the local one; the node's events and runs; the exchange with a peer |
| `WorkRuns.dfy`, `Pools.dfy`, `SoloRuns.dfy`, `Genesis.dfy` | proof of work over whole runs; what every event does to the payments a node holds; runs without peers; the first start |
| `Breakages.dfy`, `Queries.dfy` | inputs that break a property, and exactly when; the account queries after a peer's block |
| `MinerApp.dfy` | the application object, whose operations do to the heap what the events do to the state machine |

Code of the source that changes things in place is a class or a loop here too, specified by a pure
function of the old state; the laws are proved about those functions.

## Main results

- **Every run keeps memory, file and pending chain in agreement** (`Nodes.RunKeepsInv`, `RunIsSafe`), with
  no assumption about hashes, under a condition per event that is exact (`StepKeepsInvIff`); without hash
  collisions and copied genesis hashes the condition always holds (`HonestRunIsRun`).
- **Every block of the local chain after genesis has its proof of work**, over every run with peers and
  restarts, if and only if chains that are taken whole bring theirs (`WorkRuns.RunKeepsWork`,
  `StepKeepsWorkIff`).
- **Sync adds up to the point of failure** and is safe if and only if the pending chain is not forged
  (`Syncing.SyncIsSafeIffNotForged`).
- **The exchange with a peer ends, and ends in agreement**, from the summary on, with the node idle or
  mining, and so does every account (`Convergence.ExchangeIsBounded`, `SummaryConverges`, `SyncConverges`,
  `History.AccountsConverge`), also with a remote that has grown since its summary (`ExchangeWithGrown`). It
  replaces no more than it must (`ExchangeAdoptsTail`). Of hashes only collision-freedom is assumed.
- **The tip hash fixes history** and with it every account: two chains with equal tip hashes agree if and
  only if they are equally long, and if not, one genesis block carries a copied hash
  (`Chains.TipFixesHistory`, `History.TipFixesAccounts`).
- **Two independent ways to compute a balance**: on every chain, the unspent outputs of an address are
  worth its balance and three errors of the ledger, each given without reference to either algorithm
  (`Ledger.BalanceLaw`). Over all addresses the wrong debits cancel, so with positive amounts all balances
  agree if and only if no error occurs (`BalancesAgreeIff`).
- **Every entry of a ledger** is a credit less the debits before the next one, under the block, id and time of
  the transaction that touched it last (`LedgerEntries.EveryEntry`).
- **Money is conserved** if and only if what is spent twice is worth nothing (`Supply.SupplyIsConserved`).
- **Payments over every run**, with peers and restarts: what a node holds of a payment and what it lost on
  the way is what it held and what came in (`Pools.RunPayments`), with the exact condition per event
  (`PaymentsAreKeptIff`); without peers none is lost or duplicated (`SoloRuns.SoloRunConserves`), and they enter
  the chain in the order in which they were submitted unless a block is given up (`SoloRunOrder`).
- **The chain file reads back**, block by block and as a whole, and a restart succeeds if and only if no
  later block carries an optional field (`ChainFile.ChainRoundTrip`, `Breakages.RestartIffPlain`).
- **Difficulty moves at most once per window** over whole locally mined chains; on any chain one retarget
  moves it by more than one in exactly two cases, of which locally mined chains have the first
  (`Retarget.DifficultyChangesAtBoundaries`, `MovesByAtMostOneIff`).
- **The account queries** are defined after a peer's block under a condition that is exact for each of them,
  whether or not they were before: a block can take an address's ledger away and the next one bring it back
  (`Queries.QueriesStayDefinedIff`, `LedgerComesBack`).

## What is assumed, and where

- A `Platform` record is passed around for what the node calls and does not define: SHA-256 (section
  6.2 of FIPS 180-4; 64 hexadecimal characters), the JSON text of a transaction list, the text and the
  bits of a double, the 64-bit hash that orders the unspent set, the number derived
  from a private key, and what a power of two from 2^64 on becomes when it is converted to a 64-bit
  word, which C++ leaves undefined. Nothing is assumed of them globally.
- `Sound` says, of a given set of blocks, that SHA-256 does not collide on the texts hashed for them
  and that the JSON text tells their transaction lists apart.
- `Anchored` is an assumption about peers, not about SHA-256: a genesis block among those blocks carries
  a 64-character hash that no later block hashes to. The hash of a genesis block is computed before its
  data is set and never compared with its contents, so a peer can copy any hash into one;
  `CopiedGenesisRun` shows what that does. `OwnGenesisAnchors` derives it for genesis blocks the node
  makes itself. `Trusted` is both. It is needed where the lengths of two chains are not known to be
  equal (`TrustedTipFixesHistory`, `HashesAreDistinct`, and what rests on them); the theorems for chains of
  equal length and for convergence need `Sound` and genesis hashes that are texts of the same length.
- Only theorems that mention `inPlay` use these. The invariant over all runs (`StepKeepsInv`,
  `RunKeepsInv`, `RunIsSafe`) and the safety of sync do not: they ask of each event what `Admissible` says,
  which is exact (`StepKeepsInvIff`; `RestartIffPlain` for restarts). `HonestRunIsRun` derives it from
  `Trusted`.
- `KeysTellApart` says the ordering hash of the unspent set is injective on the outputs of the chain
  at hand.
- Amounts are `real`. A double in the file is eight opaque bytes; `FitsTxOut` says they give it back.
- Each handler, each turn of the mining thread before and after the proof-of-work loop, and each sync
  is one atomic step. A block may be in mining while responses arrive and syncs happen.
- The mining loop is given the answers of the world as a list of ticks (abort flag, callback, clock);
  the run ends with the list, so every terminating run of the loop is covered.

## Where code and intention differ

Each has a lemma with an input that shows it and a theorem that says exactly when it happens.

| what fails | input | exactly when |
|---|---|---|
| Sync leaves a valid chain: the first block of a response is not compared with its hash, and rejected blocks are skipped rather than ending the sync. | `ForgedResponseBreaksNode` | `SyncIsSafeIffNotForged`, `ResponseKeepsInvIff` |
| A mined block lands where its index says: only its hash and link are checked, and a peer's genesis block may carry a copied hash. | `CopiedGenesisRun` | `AcceptedMinedBlock`, `FinishKeepsInvIff` |
| A node syncs with the chain of most cumulative difficulty, as the README of AshCoin says: a heavier chain that is not longer is asked for blocks it does not have, and while a chain that starts past genesis is pending every peer counts as unknown. | `HeavierIsNotAdopted`, `LongerIsNotAsked` | `HeavierIsAskedIff`, `ExchangeNeedsLonger` |
| A longer chain that is as heavy as ours is followed: its announcement leads to a request for its summary, and the summary to nothing. | `EqualIsNotFollowed` | `AnnouncementLeadsOnIff` |
| Every block after genesis has its proof of work: a chain that is taken whole is checked for links and hashes only. | `HugeChainIsTaken` | `StepKeepsWorkIff` |
| The hash of a block stands for its contents: its fields are hashed one behind the other with nothing between them. | `FieldsRunTogether` | `SamePreimageIff` |
| Cumulative difficulty is the work of the chain and grows with it: the sum is a 64-bit word, and the last block does not count. | `HeavyChainIsTaken` | `WorkFitsIff`, `CumDifficultyGrowsIff` |
| The supply is 57.00 per block: creating a payment does not look at the queue, so an output can be spent by two queued payments. | `TwiceInOneBlockInflates` | `SupplyIsConserved` |
| The ledger total of an address is the value of its unspent outputs: the ledger credits one output per transaction, debits outputs that are not there, and debits all inputs to the owner of the first. | `SecondOutputIsNotCredited`, `SharedSpendIsTaken` | `BalancesAgreeIff` |
| A restart loads the chain: an input's optional address and amount are hashed but not written. | `AnnotatedBlockBreaksRestart` | `RestartIffPlain` |
| The difficulty moves by at most one: from zero it wraps to the largest word, and from the largest word, which a peer's chain can carry since work is not part of chain validity, to zero. | `SlowChainWraps`, `HugeChainIsTaken` | `MovesByAtMostOneIff`, `UnminableIff` |
| The change of a payment is at most what was put in: the amount may be negative. | `NegativePaymentFromGenesis` | `ChangeIsCoveredIff` |
| A payment stays in the queue, the block being mined or the chain: blocks that are cut off are not queued again, a full replacement swaps the queue away, a rejected mined block is dropped, and a block mined while a chain is pending is always cut off. | `OtherTipDropsPayments`, `PendingCutsMinedBlock` | `PaymentsAreKeptIff` |
| The account queries are defined: transactions of a peer's block are not looked at. | `EmptyTransactionIsTaken`, `UnresolvedInputIsTaken`, `ForwardSpendIsTaken`, `LedgerComesBack` | `QueriesStayDefinedIff`; chains the node grows itself are in order (`GrownIsLedgerDefined`) |

The assert at `src/MinerApp.cpp:1038` also demands `tempStartIdx > 0`, which would stop a walk-back at
block 1; the model keeps the lookup guard `tempStartIdx < size` only.

## Model

| member | source | states |
|---|---|---|
| `Nodes.RunKeepsInv` | src/MinerApp.cpp:692-1057 | in every state of every run the chain is valid from genesis, the file is that chain, what is pending fits and the block being mined continues the chain it was made on; nothing is assumed about hashes |
| `Nodes.RunIsSafe` | src/MinerApp.cpp:692-1057 | in every state: index equals position, the file reads back as the chain, a pending chain is aligned and safe to sync |
| `Nodes.StepKeepsInv` | src/MinerApp.cpp:692-1057 | every admissible event keeps the invariant and none fails |
| `Nodes.StepKeepsInvIff` | src/MinerApp.cpp:692-1057 | but for restarts, an event keeps the invariant if and only if it is admissible: a cached response is not forged, an accepted block has the right index or is replaced at once |
| `Nodes.HonestRunIsRun` | src/MinerApp.cpp:692-1057 | among blocks without collisions and copied genesis hashes, responses whose first block matches its hash and mined blocks are always admissible |
| `Nodes.ResponseKeepsInvIff` | src/MinerApp.cpp:988-1057 | a response keeps the invariant if and only if it is not both cached and forged |
| `Nodes.AcceptedMinedBlock` | src/MinerApp.cpp:735-744 | an accepted mined block keeps the chain valid if and only if its unchecked index equals the length, which is so if and only if the chain has the length it had when the block was made |
| `Nodes.FinishKeepsInvIff` | src/MinerApp.cpp:735-756 | mining, appending, writing and syncing keep the invariant if and only if an accepted block has the right index or what is pending replaces it at once |
| `Nodes.MinedBlockHasRightIndex` | src/MinerApp.cpp:739-744 | among trusted blocks, a block accepted after the chain changed under it still has the right index |
| `Nodes.SyncKeepsInv` | src/MinerApp.cpp:775-829 | every branch of sync keeps chain, file and pending state in agreement |
| `Nodes.RestartKeepsChain` | src/ChainDatabase.cpp:189-202 | a restart loads exactly the chain in memory, keeps the invariant and does not throw, if the chain can be stored |
| `Nodes.PendingChainIsInReach` | src/MinerApp.cpp:789-823 | the branch for a chain too far ahead is unreachable and resizing never enlarges the chain |
| `Nodes.JobFields` | src/MinerApp.cpp:707-716 | what mining starts on: index, link, label and mark, the reward, and behind it the queue in its order with new ids, which is then empty |
| `Nodes.FoundBlockOutcome` | src/MinerApp.cpp:735-747 | a block that was found is appended in memory and in the file if and only if the tip still is what it was made on; if not, mining ends and everything else stays |
| `WorkRuns.RunKeepsWork` | src/MinerApp.cpp:692-1057 | over every run, with peers and restarts, in which chains sent whole bring their work, every block of the local chain after genesis begins with the zeros its difficulty asks for |
| `WorkRuns.StepKeepsWorkIff` | src/MinerApp.cpp:692-1057 | an admissible event keeps that if and only if it is no valid response from genesis on without its work |
| `WorkRuns.SyncKeepsWorkIff` | src/MinerApp.cpp:775-829 | a sync keeps it if and only if what is pending is no whole chain without its work |
| `Pools.RunPayments` | src/MinerApp.cpp:692-1057 | over every run, with peers and restarts: the copies of any payment a node holds and those it lost are those it held at the start and those that were submitted or learned |
| `Pools.PaymentLaw` | src/MinerApp.cpp:692-1057 | the same for one event, with what is lost and learned read off the state before it |
| `Pools.PaymentsAreKeptIff` | src/MinerApp.cpp:775-829 | an event loses no payment if and only if what a rejected block, the cut-off blocks, a replaced queue or a restart takes away comes back in the blocks that are adopted |
| `Pools.PendingCutsMinedBlock` | src/MinerApp.cpp:739-806 | a block mined while a chain is pending is cut off in the same turn: the chain is the one sync would have left without it |
| `Syncing.AddsUpToFailure` | src/MinerApp.cpp:793-801 | unless a later block can take the place of the first rejected one, the result is the blocks up to that one |
| `Syncing.SyncAddsWorkedBlocks` | src/MinerApp.cpp:789-817 | every block sync adds, other than by whole replacement, is pending, names the hash of the one before it, is hashed right and has the zeros its difficulty asks for |
| `Syncing.SyncKeepsChainValid` | src/MinerApp.cpp:781-817 | sync leaves the old prefix and the pending blocks up to the first rejected one, and that is a valid chain |
| `Syncing.ForgedChainCorrupts` | src/MinerApp.cpp:789-806 | a forged pending chain leaves an invalid chain |
| `Syncing.SyncIsSafeIffNotForged` | src/MinerApp.cpp:775-829 | sync leaves a valid chain if and only if the pending chain is not forged |
| `Syncing.HashedHeadIsNotForged` | src/MinerApp.cpp:789-806 | without collisions a pending chain whose first block matches its own hash is not forged |
| `Convergence.SummaryConverges` | src/MinerApp.cpp:936-1057 | a heavier remote with our first block is asked for what lies past our last one; if it has that, exchange and sync end in agreement with it, and if not, in no change |
| `Convergence.SyncConverges` | src/MinerApp.cpp:972-1057 | after the exchange with a worked remote that has the block first asked for, and the sync, the local chain agrees with it on every hash, link and transaction list; of hashes, only that they do not collide and that the genesis hashes have the same length is assumed |
| `Convergence.TrustedSyncConverges` | src/MinerApp.cpp:972-1057 | the same for a longer remote among trusted blocks, with nothing asked of the two genesis blocks |
| `Convergence.ExchangeAdoptsTail` | src/MinerApp.cpp:972-1057 | that chain is a beginning of ours followed by everything from there on of the remote one; they meet at the last place before the first request where both have the same hash, or at genesis |
| `Convergence.ExchangeEndsAligned` | src/MinerApp.cpp:988-1057 | against a valid remote the exchange of a node that is mining or has nothing pending ends with an aligned piece of its chain, pending or synced, and the walk back passes no place where the hashes agree |
| `Convergence.ExchangeWithGrown` | src/MinerApp.cpp:873-877 | with a remote that has mined on since its summary the exchange goes as with the chain the summary was about |
| `Convergence.ServeOfGrown` | src/MinerApp.cpp:859-879 | such a remote answers an older request as it would have then, or with nothing instead of an error |
| `Convergence.ExchangeIsBounded` | src/MinerApp.cpp:1013-1056 | whatever happens to both chains meanwhile, an exchange has at most one round per index walked back |
| `Convergence.ResponseMakesProgress` | src/MinerApp.cpp:1011-1057 | a response is cached if and only if it fits the local chain; else it is answered by a request that starts strictly earlier: at our tip after a gap, else one block back |
| `Convergence.ExchangeNeedsLonger` | src/MinerApp.cpp:862-871 | an exchange past our tip changes anything exactly when the remote is longer |
| `Convergence.SummaryAsksIff` | src/MinerApp.cpp:951-986 | after a summary: with other index, nonce, data or time of the first block, everything or nothing is asked for; with the same, what lies past our tip if and only if the remote has strictly more cumulative difficulty |
| `Convergence.AnnouncementLeadsOnIff` | src/MinerApp.cpp:882-986 | an announced block leads over the summary to a request for blocks if and only if the peer has our first block and strictly more difficulty, or another first block, at least as much and then a longer chain, and resetting is enabled |
| `Convergence.EqualIsNotFollowed` | src/MinerApp.cpp:893-981 | on every genesis block, a longer chain of the same cumulative difficulty whose announcement leads to its summary and no further |
| `Convergence.HeavierIsAskedIff` | src/MinerApp.cpp:951-981 | a heavier remote is asked for blocks it has if and only if it has our first block and is longer, or has another first block and resetting is enabled; ours is the pending chain if there is one |
| `Convergence.PendingHidesGenesis` | src/MinerApp.cpp:958-970 | while a chain that starts past genesis is pending, no remote is asked for what lies past our tip, however long and heavy |
| `Convergence.LongerIsNotAsked` | src/MinerApp.cpp:958-970 | on every genesis block, a node with one block pending that does not ask for a longer chain, which is heavier as long as its 64-bit total does not wrap |
| `Convergence.HeavierIsNotAdopted` | src/MinerApp.cpp:951-981 | on every genesis block, two branches of equal length of which the second, heavier as long as its 64-bit total does not wrap, is not adopted |
| `Convergence.ServeGrounded` | src/MinerApp.cpp:859-879 | a valid chain answers every request with what lies from the first index asked for to the last, or to its tip, and with an error exactly when it does not have the first |
| `Convergence.ServeChain` | src/MinerApp.cpp:843-881 | the loops compute that answer |
| `Chains.TipFixesHistory` | src/Blockchain.cpp:334-365 | two valid chains with equal last hashes have equal hashes, links and transactions after genesis if and only if they are equally long; if not, the genesis block of the shorter one carries the hash of a later block of the other |
| `Chains.TrustedTipFixesHistory` | src/Blockchain.cpp:334-365 | among trusted blocks equal last hashes also make them equally long |
| `Chains.HashesAreDistinctIff` | src/Blockchain.cpp:334-365 | no hash occurs twice in a valid chain if and only if that of its genesis block does not |
| `Chains.HashesAreDistinct` | src/Blockchain.cpp:334-365 | among trusted blocks no hash occurs twice in a valid chain |
| `Chains.IndexIsOffset` | src/Blockchain.cpp:344-346 | in a valid chain the index of a block is its distance from the first one |
| `History.TipFixesAccounts` | src/Blockchain.cpp:71-195 | equal length, tip hash and genesis transactions give every address the same unspent outputs, in order, the same ledger but for the times of blocks, and the same balance, or neither has one |
| `History.TrustedTipFixesAccounts` | src/Blockchain.cpp:71-195 | the same for chains of unknown length among trusted blocks |
| `History.AccountsConverge` | src/MinerApp.cpp:972-1057 | after exchange and sync with a remote on the same genesis block, a node answers every account query as the remote does |
| `Unspent.ScanFindsUnspent` | src/Blockchain.cpp:71-135 | the scan returns, in key order, exactly the wanted outputs that exist and that no non-coinbase transaction at or after their creation names |
| `Unspent.UnspentOfChain` | src/Blockchain.cpp:71-135 | on a chain with unique block indices the scan holds exactly the wanted unspent outputs |
| `Unspent.ScanOneIsScanAllFiltered` | src/Blockchain.cpp:90-104 | scanning for one address is scanning for all and keeping that address, order included |
| `UnspentSums.ScanFindsUnspentInChain` | src/Blockchain.cpp:71-135 | in terms of the chain alone: an output is returned if and only if it stands there, belongs to the address, and no transaction from its own on takes it, where one whose first input names place 0, output 0 unsigned takes nothing |
| `Spending.InputFindsIff` | src/Blockchain.cpp:113-127 | an input finds its output in the set of an address if and only if the output belongs to the address, was made, and was not taken since |
| `Spending.AvailableIffSpentOnce` | src/Blockchain.cpp:113-127 | where inputs name earlier outputs, all of them find theirs if and only if no output is spent twice |
| `Spending.ScanStepSum` | src/Blockchain.cpp:90-127 | what one transaction does to the value of the unspent set |
| `Ledger.BalancesAgreeIff` | src/Blockchain.cpp:71-195 | all balances equal the unspent values if and only if everybody has a ledger and its errors cancel; where inputs resolve and outputs are positive and addressed, if and only if every input finds its output, no transaction pays an address twice, and nobody is debited more for others than others for them |
| `Ledger.BalanceLaw` | src/Blockchain.cpp:71-195 | the unspent outputs of an address are worth its credits minus debits, what was spent of it without being there, what the ledger overlooked, and what it was debited for others |
| `Ledger.MisdebitsCancel` | src/Blockchain.cpp:165-179 | what is debited to the owner of the first input and belongs to others is missing at those others: over all addresses the wrong debits add up to nothing |
| `Ledger.SharedSpendIsMisdebited` | src/Blockchain.cpp:165-179 | one transaction with inputs of several owners leaves one of them debited for the others |
| `Ledger.SharedSpendDisagrees` | src/Blockchain.cpp:165-179 | and makes the balances disagree with the unspent outputs |
| `Queries.SharedSpendIsTaken` | src/Blockchain.cpp:165-179 | an idle node takes a block with such a transaction from a peer; on its chain the two then disagree |
| `Ledger.SingleOwnersSettle` | src/Blockchain.cpp:165-179 | where every transaction has one owner nobody is debited wrongly |
| `Ledger.AddedIsCreditedOrOverlooked` | src/Blockchain.cpp:149-158 | the outputs to an address are worth the one the ledger credits and all later ones |
| `Ledger.LedgerAddsUp` | src/Blockchain.cpp:144-180 | on any run of transactions the last entry is never taken from an empty ledger if and only if every debit has a credit before or with it, and then the ledger has one entry per credit and adds up to credits minus debits |
| `LedgerEntries.EveryEntry` | src/Blockchain.cpp:144-180 | one entry for every transaction that pays the address, in order: what its first such output pays less all debits before the next one, under the block, id and time of the last transaction that touched it |
| `LedgerEntries.CreditPlacesAreCredits` | src/Blockchain.cpp:149-158 | the transactions that start an entry are those with an output to the address |
| `Ledger.TraceableHasLedger` | src/Blockchain.cpp:165-179 | where inputs name earlier outputs every address has a ledger |
| `Ledger.OwnerWasCredited` | src/Blockchain.cpp:165-176 | whoever is debited for an output was credited when it was made |
| `Ledger.BalanceIsUnspentValue` | src/Blockchain.cpp:71-195 | on disciplined chains the balance from the ledger equals the value of the unspent outputs found by the scan |
| `Queries.SecondOutputIsNotCredited` | src/Blockchain.cpp:149-158 | a one-block chain with two outputs to one address on which the two disagree |
| `Accounts.GetUnspentTxOuts` | src/Blockchain.cpp:71-135 | the nested loops compute the scan, so on indexed chains exactly the outputs that stand in the chain and are not taken |
| `Accounts.GetBlockDetails` | src/Blockchain.cpp:275-303 | a copy of the block in which every input carries the address and amount of the output it names; what it names, its signature and all else are as before |
| `Accounts.GetAddressLedger` | src/Blockchain.cpp:137-184 | the loops compute the ledger, entry by entry as described, and its entries add up to credits minus debits |
| `Accounts.GetAddressBalance` | src/Blockchain.cpp:186-195 | the total of the ledger, which falls short of the unspent outputs by the gap of the balance law |
| `Supply.SupplyLaw` | src/Blockchain.cpp:438-454 | the unspent outputs are worth 57.00 per block plus exactly what was spent more than once |
| `Supply.SupplyIsConserved` | src/Transactions.cpp:186-193 | the supply is 57.00 per block if and only if what was spent a second time is worth nothing in total; of positive amounts, if and only if no output is spent twice |
| `Supply.DisciplineConserves` | src/Blockchain.cpp:186-254 | then every balance is also the value of its unspent outputs |
| `Supply.QueuedTwiceInflates` | src/Blockchain.cpp:445-451 | a payment that enters a block twice makes the supply exceed the rewards |
| `Supply.TwiceInOneBlockInflates` | src/Blockchain.cpp:438-454 | genesis and one block with a payment from its reward queued twice: two rewards, and more than 114 in unspent outputs |
| `Supply.NegativePaymentFromGenesis` | src/Blockchain.cpp:214-253 | paying -100 from a reward of 57 gives a change of 157 |
| `Supply.GrownIsLedgerDefined` | src/Blockchain.cpp:85-165 | on every chain the node grows all account queries are defined, for every address |
| `Payments.NeededIsShortest` | src/Blockchain.cpp:218-229 | the outputs taken are the shortest non-empty prefix of the list worth the amount; none exists when funds are insufficient |
| `Payments.PaymentOutcome` | src/Blockchain.cpp:197-254 | which result comes back, exactly when; a payment to oneself when the addresses are equally long and differ only in the case of letters; insufficient funds exactly when the total is below the amount |
| `Payments.OthersAreNotTheSender` | src/Blockchain.cpp:202-205 | a receiver that differs from the sender in a digit, or in a letter other than by case, never counts as the sender |
| `Payments.PaymentIsSound` | src/Blockchain.cpp:236-253 | success spends distinct unspent outputs of the sender, pays the receiver the amount and the sender the rest, and its outputs are worth exactly its inputs |
| `Payments.ChangeIsCoveredIff` | src/Blockchain.cpp:214-253 | the change is at most what the inputs are worth if and only if the amount is not negative |
| `Payments.TakeOutputs` | src/Blockchain.cpp:214-229 | the accumulation loop |
| `Payments.CreateTransaction` | src/Blockchain.cpp:197-254 | the whole operation computes the specified outcome |
| `SoloRuns.SoloRunConserves` | src/MinerApp.cpp:703-756 | over whole runs every submitted payment is in exactly one of queue, block being mined and chain, as often as it was submitted; the queue holds no reward |
| `SoloRuns.SoloRunOrder` | src/MinerApp.cpp:703-756 | over runs without peers in which no block is given up, chain, block being mined and queue hold the payments in the order of their submission |
| `SoloRuns.SoloStepOrder` | src/Blockchain.cpp:386-398 | giving a block up sends its payments behind the queue; every other event leaves the order alone |
| `SoloRuns.SoloRunSupply` | src/Blockchain.cpp:438-454 | the supply law and the balances hold for every chain such a run reaches |
| `SoloRuns.SoloRunDifficulty` | src/MinerApp.cpp:710-713 | so does the bound on the difficulty |
| `SoloRuns.PaymentIsNotCoinbase` | src/Transactions.h:263-271 | a created payment is never taken for a reward |
| `Retarget.DifficultyChangesAtBoundaries` | src/Blockchain.cpp:400-426 | between two positions of a locally mined chain the difficulty moves at most once per boundary crossed |
| `Retarget.DifficultyStep` | src/Blockchain.cpp:400-426 | it is constant inside a window and moves by at most one at its start |
| `Retarget.RetargetDirection` | src/Blockchain.cpp:410-425 | on locally mined chains, up by one if and only if the last window took less than 1000 ms times half the target, down by one if and only if at least 1000 ms times twice the target and one more |
| `Retarget.DirectionOf` | src/Blockchain.cpp:405-426 | the same at a boundary of any chain, with both wraps of the 64-bit word |
| `Retarget.BuildDirections` | src/Blockchain.h:15-21 | in numbers: below 30 s and from 121 s on over 10 blocks in debug builds, below 300 s and from 1201 s on over 25 blocks in release builds |
| `Retarget.MovesByAtMostOneIff` | src/Blockchain.cpp:405-426 | on any chain one retarget moves it by at most one if and only if it is not at a boundary after a slow window at difficulty zero, nor after a fast one at the largest word |
| `Retarget.LocallyMinedNeverOverflows` | src/Blockchain.cpp:416-419 | the second case does not come up on locally mined chains |
| `Retarget.UnminableIff` | src/Blockchain.cpp:416-423 | after a block that has its work, the next difficulty is beyond every hash if and only if it wraps or the last hash was all zeros and its window fast |
| `Retarget.SlowChainWraps` | src/Blockchain.cpp:400-426 | for every interval of at least two and all nonces that give the first window its work, a locally mined chain of two slow windows after which the difficulty is the largest word |
| `Retarget.BothBuildsWrap` | src/Blockchain.h:15-21 | so in both builds |
| `Retarget.BoundaryInRange` | src/Blockchain.cpp:405-410 | retargeting happens at multiples of the interval, and the lookup one interval back is in range |
| `Mining.SearchFindsFirst` | src/Miner.h:54-95 | the search returns the first nonce with enough work at the time hashed with it, if the flag is up until then and the callback did not end it at a multiple of 2^18 before; it is stopped only if no nonce it comes to works |
| `Mining.SearchStops` | src/Miner.h:62-76 | it is stopped where the flag is down, or the callback ends it at a multiple of 2^18, before the first nonce that works |
| `Mining.TimeIsLastRead` | src/Miner.h:70-86 | that time is the clock as read at the last multiple of 2^18 before the nonce |
| `Mining.FoundHasWork` | src/Miner.h:62-98 | what the search finds is a valid hash of the block it is written into |
| `Mining.MinedBlockIsAccepted` | src/MinerApp.cpp:710-744 | a block made on a chain and mined is accepted there and keeps it valid |
| `Mining.Miner.MineBlock` | src/Miner.h:45-99 | the loop is the search; success writes a valid hash into the block, anything else leaves the block unchanged |
| `Blockchains.AcceptedBlockKeepsChainValid` | src/Blockchain.cpp:317-332 | appending an accepted block keeps the chain valid if and only if its index continues the chain, which is not checked |
| `Blockchains.WorkFitsIff` | src/Blockchain.cpp:372-384 | the 64-bit sum is the work of the blocks if and only if the work is below 2^64 |
| `Blockchains.CumDifficultyGrowsIff` | src/Blockchain.cpp:367-384 | an extension counts as more work if and only if what it adds is not zero and does not wrap the sum, so always while the work fits; the last block does not count at all |
| `Blockchains.AddedIff` | src/Blockchain.cpp:312-332 | a block is appended if and only if its hash is that of its text, begins with as many zeros as its difficulty and is at least that long, and its link is the hash of the tip |
| `Blockchains.Blockchain.AddNewBlock` | src/Blockchain.cpp:312-332 | returns true exactly then, and appends the block exactly then |
| `Blockchains.UnminedBlockFields` | src/Blockchain.cpp:438-454 | a new block stands for the place after the tip: reward first, then the queue in its order, every transaction with the hash of what it spends and pays as its id |
| `Blockchains.Blockchain.CheckChain` | src/Blockchain.cpp:349-365 | the loop decides chain validity |
| `Blockchains.Blockchain.CumDifficulty` | src/Blockchain.cpp:367-384 | the loop sums two to the difficulty over all blocks but the last, in 64-bit words, which is their work if and only if that fits |
| `Blockchains.Blockchain.ReQueueTransactions` | src/Blockchain.cpp:386-398 | queues exactly the non-coinbase transactions of a block, in order, and counts them |
| `Blockchains.Blockchain.CreateUnminedBlock` | src/Blockchain.cpp:438-454 | empties the queue into a block for the next index, behind a reward |
| `Blocks.HasWork` | src/Block.cpp:51-56 | comparing with `difficulty` zeros holds exactly when the hash is that long and starts with that many zeros |
| `Blocks.PreimageLayout` | src/Block.cpp:72-106 | the hashed text is the digits of index, nonce and difficulty, the data, the digits of the time, the link and the digest of the transactions, each where the one before ends |
| `Blocks.OneFieldShows` | src/Block.cpp:81-88 | blocks that differ in exactly one of index, nonce, difficulty, data and time are hashed as different texts |
| `Blocks.SamePreimageIff` | src/Block.cpp:81-106 | two blocks with links of one length are hashed as the same text if and only if links and digests are the same and the other fields are when written one behind the other |
| `Blocks.FieldsRunTogether` | src/Block.cpp:81-88 | on any block, a digit moved from the difficulty to the nonce leaves text and hash the same |
| `Decimals.DecimalHasValue` | src/Block.cpp:81-88 | the printed digits stand for the number and have no superfluous zero in front |
| `Decimals.DecimalIsUnique` | src/Block.cpp:81-88 | and are the only such text |
| `Decimals.SignedDecimalHasValue` | src/Block.cpp:81-88 | a time before the epoch is a minus sign and the digits of its distance |
| `Transactions.IdTextOfInput` | src/Transactions.cpp:158-175 | in the text behind a transaction id, an input's block, transaction and output stand behind the inputs before it |
| `Transactions.IdTextOfOutput` | src/Transactions.cpp:158-175 | an output's address and amount stand behind all inputs and the outputs before it, the block index at the end |
| `Transactions.SameMoveSameId` | src/Transactions.cpp:158-184 | what spends and pays the same in the same block has the same id, whatever it is signed with |
| `Transactions.RewardIdsDiffer` | src/Transactions.cpp:186-193 | rewards to addresses of one length have the same id if and only if block and address are the same, unless SHA-256 collides |
| `Blocks.TailOfPreimage` | src/Block.cpp:81-106 | previous hash and transaction digest can be read off the end of the hashed text |
| `ChainFile.BlockRoundTrip` | src/ChainDatabase.cpp:55-154 | a written block reads back without the optional fields and leaves exactly the bytes behind it |
| `ChainFile.PrefixFree` | src/ChainDatabase.cpp:55-154 | no written block is a proper prefix of another |
| `ChainFile.ChainRoundTrip` | src/ChainDatabase.cpp:191-197 | the file of a chain reads back as that chain without the optional fields |
| `ChainFile.BareIsSame` | src/ChainDatabase.cpp:11-22 | a block survives the file unchanged exactly when its inputs carry no optional fields |
| `ChainFile.BareChainWritesTheSame` | src/ChainDatabase.cpp:11-78 | what is read back is written as the same file |
| `ChainFile.WriteBlocksAppend` | src/ChainDatabase.cpp:216-230 | appending pieces writes the same file as writing the whole chain |
| `Codec.LittleEndianWeighs` | src/ChainDatabase.h:27-31 | a number that fits is its bytes at their weights, the lowest first |
| `Codec.StringLayout` | src/ChainDatabase.h:38-43 | a text is written as its length in four such bytes and its characters |
| `Codec.ReadsList` | src/ChainDatabase.cpp:34-52 | counted lists read back element by element |
| `ChainDatabases.OutStream.PutBlock` | src/ChainDatabase.cpp:55-78 | appends the encoding of a block |
| `ChainDatabases.InStream.GetBlock` | src/ChainDatabase.cpp:128-154 | reads a block, with its counted loops, and advances the stream past it |
| `ChainDatabases.ChainDatabase.Initialize` | src/ChainDatabase.cpp:174-202 | writes a genesis block if there is no file, loads what the file holds, and refuses an invalid chain |
| `Base58.EncodingHasValue` | src/CryptoUtils.cpp:62-77 | the digits have the number as their base-58 value, without a leading '1' |
| `Base58.CanonicalTextIsEncoding` | src/CryptoUtils.cpp:62-77 | a number has exactly one such text |
| `Base58.EncodingIsInjective` | src/CryptoUtils.cpp:62-77 | no two numbers share an encoding |
| `Base58.Base58Encode` | src/CryptoUtils.cpp:64-77 | the loop computes that text |
| `Base58.AddressIsTextOf` | src/CryptoUtils.cpp:140-143 | a text is the address of a key if and only if it is a '1' and the base-58 digits of the number derived from it |
| `Base58.AddressFixesKeyNumber` | src/CryptoUtils.cpp:140-143 | addresses agree exactly when the numbers behind them do |
| `Genesis.CreateGenesis` | src/MinerApp.cpp:639-655 | the genesis block pays one reward, carries mark and data, and keeps the hash it had before its data was set |
| `Genesis.FirstNodeIsGood` | src/MinerApp.cpp:657-659 | the first start satisfies the invariants of all runs |
| `Genesis.OwnGenesisAnchors` | src/MinerApp.cpp:639-655 | no later block shares the hash of a genesis block the node made, unless SHA-256 collides |
| `Genesis.FirstBlockRun` | src/MinerApp.cpp:657-756 | a fresh node that mines its first block is a run that meets every hypothesis of the theorems about runs |
| `Breakages.ForgedResponseBreaksNode` | src/MinerApp.cpp:789-817 | it leaves an idle node with an invalid chain in memory and on disk, which it refuses to load |
| `Breakages.CopiedGenesisBreaks` | src/MinerApp.cpp:739-787 | a one-block response with a copied hash replaces the chain; a block mined on the old one is then accepted at the wrong position |
| `Breakages.CopiedGenesisRun` | src/MinerApp.cpp:707-787 | this happens in four events to every node in order with two blocks that is about to mine |
| `Breakages.NextBlockIsTaken` | src/MinerApp.cpp:808-817 | an idle node takes any block that names its tip, is numbered right and matches its hash, whatever transactions it holds |
| `Breakages.HugeChainIsTaken` | src/MinerApp.cpp:781-787 | an idle node takes a whole chain at the largest difficulty, and its next difficulty is zero |
| `Breakages.HeavyChainIsTaken` | src/Blockchain.cpp:367-384 | an idle node takes a whole chain with two blocks of difficulty 63, whose cumulative difficulty is zero and was larger a block earlier |
| `Breakages.OtherTipDropsPayments` | src/MinerApp.cpp:789-806 | an idle node that is sent another, empty last block takes it and loses the payments of its own |
| `Queries.EmptyTransactionIsTaken` | src/Blockchain.cpp:85-89 | after a block with an empty transaction no account query is defined |
| `Queries.UnresolvedInputIsTaken` | src/Blockchain.cpp:286-296 | after a block with an input that names no output the scan is defined and details, ledgers and balances are not |
| `Queries.ForwardSpendIsTaken` | src/Blockchain.cpp:165-176 | after a block whose first transaction spends an output of its second, scan and details are defined and the ledger of a new owner is not |
| `Queries.QueriesStayDefinedIff` | src/Blockchain.cpp:71-195 | after a peer's block: the scan is defined if and only if it was and every transaction has inputs and outputs; details, if and only if all inputs, also earlier ones, name an output that is there; ledger and balance, if and only if both hold and no transaction, also no earlier one, debits the address before it is paid; where details were defined before, if and only if the ledger was and the block is in order |
| `Queries.LedgerComesBack` | src/Blockchain.cpp:137-184 | two blocks of a peer of which the first takes the ledger of every address away and the second brings back all that were defined, but for the address it pays |
| `Breakages.AnnotatedBlockBreaksRestart` | src/ChainDatabase.cpp:189-202 | after one with an optional field the node works on and does not start again |
| `Breakages.RestartIffPlain` | src/ChainDatabase.cpp:189-202 | a restart succeeds if and only if no block after genesis has an input with optional fields |
| `MinerApps.MinerApp.Start` | src/MinerApp.cpp:657-675 | starting is the reload of the state machine, or a refusal |
| `MinerApps.MinerApp.SyncBlockchain` | src/MinerApp.cpp:775-829 | the swap, replace and append branches do to the objects what sync does to the state |
| `MinerApps.MinerApp.HandleChainResponse` | src/MinerApp.cpp:1011-1057 | caches or asks, as specified |
| `MinerApps.MinerApp.HandleChainMessage` | src/MinerApp.cpp:988-1008 | drops invalid responses, handles the others, and syncs when idle |
| `MinerApps.MinerApp.HandleNewBlock` | src/MinerApp.cpp:882-903 | a summary is asked for if the peer has more cumulative difficulty, or as much and a block past our tip |
| `MinerApps.MinerApp.HandleSummary` | src/MinerApp.cpp:936-1008 | what is requested after a summary |
| `MinerApps.MinerApp.SubmitPayment` | src/MinerApp.cpp:348-368 | queues a payment exactly when it could be created |
| `MinerApps.MinerApp.BeginBlock` | src/MinerApp.cpp:707-716 | sets the difficulty and builds the next block from the whole queue |
| `MinerApps.MinerApp.MineBlock` | src/MinerApp.cpp:722-756 | mines, then appends, writes and syncs, or requeues and syncs |

## Left out

- HTTP routes, pages, templates and the REST text format: user interface.
- Peers, reconnecting, web sockets and threads: a connection is a relation between requests and responses; malformed messages are not modelled.
- JSON conversion: the text of a transaction list is an abstract function, and messages are already decoded values.
- SHA-256, RIPEMD-160, elliptic-curve keys and key generation: library calls behind `Platform`.
- Signature checking: the source does not do it.
- LevelDB index, paths and directories: the chain file is a byte sequence or absent.
- Settings, logging, computer ids, the command line: configuration only.
- Floating-point rounding: amounts are reals.
- 64-bit wrap-around of block indices: they are unbounded here; a chain of 2^64 blocks cannot exist. Difficulty, nonce and cumulative difficulty do wrap.
- Finding a transaction by id, and the overload of `addNewBlock` that skips the link check: a plain search, and unused.
- The callback that stops mining when a pending chain reaches the block's index: its answers are arbitrary in the mining loop, which covers them.
- Whether cumulative difficulty can fall across a sync: the source compares it only when a summary arrives.
- Codec.ReadMany: a stream that ends inside a block is a failed read; the source goes on with indeterminate values.
- Ledger.BalancesAgreeIff: where outputs are zero or negative or name nobody, errors of the ledger can cancel, and it says no more than that they do.
- Blocks.HasWork: for a difficulty beyond the longest string the C++ library can hold, building the zeros to compare with throws in the source; here the answer is that the hash does not match. The wrapped difficulty of `SlowChainWraps` is such a value.
