# A verified model of the SophiaTX chain

This project models the deterministic core of SophiaTX, a delegated-proof-of-stake chain of the
Graphene and Steem family, and proves what its parts promise: the vote index over the proxy forest,
the ledger and its economic pools, the virtual-time witness scheduler, block slots, the fork database,
fork switching on an undo stack, irreversibility, the block log, authority checking, the undo stack
of the object database, and the bookkeeping of block synchronization.

`dafny verify dfyconfig.toml` checks everything.

## How it is built

Each part has a specification on values (functions that give the new state, `None` where the program
throws) and, where the program works by changing objects, a class whose methods are proved against it.

| part | modules |
|---|---|
| votes and proxies | `VoteTally`, `ProxyForest`, `ProxyChange`, `TallySteps`, `FromScratch`, `Sums` |
| ledger and pools | `Economics`, `Ledger`, `LedgerInvariants`, `LedgerSteps`, `LedgerRuns`, `Payments`, `EscrowLife`, `Interests`, `Withdrawals`, `Conditions` |
| both as an object updated in place | `Database` |
| witness schedule | `Election`, `Schedule`, `WitnessSchedule`, `Slots` |
| blocks and forks | `BlockIds`, `ForkDatabase`, `ForkSwitch`, `Irreversible`, `LogRuns`, `IrreversibleLog`, `BlockLog`, `Chainbase` |
| signatures | `Authority` |
| peer-to-peer synchronization | `Sync` |
| inputs at which a promise fails | `Failures` |

The main results:

* In every state that a run can reach from genesis, the proxy graph is a forest, every proxied amount is the
  total of the accounts exactly that many hops below, every witness's votes are the summed weight of its
  direct voters, the supply is what accounts and escrows hold, no pool is negative, the promotion pool
  covers its locked part, and supply, pools and burned coins add up to the same total
  (`LedgerRuns.RunConserves`, `LedgerSteps.StepConserves`, `LedgerRuns.GenesisGood`).
* Votes equal a count from scratch: each account counts for the witnesses that the root of its proxy chain
  votes for, if that root is at most four hops away (`FromScratch.VotesAreCounted`).
* The two recursions that maintain the votes are one another, run once per depth
  (`VoteTally.AdjustAllIsOneByOne`).
* Exactly when each operation succeeds in a good state, and what it leaves: payments, votes and proxies, witnesses,
  and every step of an escrow (`Conditions.ReleaseIff`, `Conditions.ApproveIff`, `ProxyChange.ProxyAcceptedIff`).
* Every escrow settles to exactly what it locked, whatever the run (`EscrowLife.EscrowSettles`).
* Withdrawals convert whole parts, and in all exactly their amount (`Withdrawals.PartsAddUp`,
  `Withdrawals.RunKeepsUnderway`).
* The witnesses with the most votes are elected, the next in virtual time run, and a round's rewards are one block
  reward per block on average (`Election.ElectedAreTop`, `Election.RunnersAreNext`, `Conditions.RoundWeights`).
* Interest is proportional to the holding, and holdings of at most the accumulated supply together earn at most
  the period's share (`Economics.InterestIsProportional`, `Interests.BatchEarnsAtMostDue`).
* A block becomes irreversible exactly when three quarters of the scheduled witnesses have confirmed it or a later
  one (`Irreversible.QuorumDecides`).
* How every fork switch ends, and the exact condition under which it is all-or-nothing, for every undo history
  and every fork database, which are popped, trimmed and searched as the code does it
  (`ForkSwitch.Database.PushBlock`, `ForkSwitch.AllOrNothingIff`, `ForkSwitch.Overtaken`).
* What becomes of every block of every run, with forks and switches, as far as the block log and the fork database
  go: a node refines a specification on values, which also says exactly on which blocks it gives up. Until
  then the log is the branch of the head up to the highest number that was ever irreversible
  (`IrreversibleLog.Finality.PushBlock`, `IrreversibleLog.Finality.PushBlocks`, `LogRuns.LoggedIsHighest`).
* The undo stack restores the start of every session through any changes, merges and commits
  (`Chainbase.Index`).
* In every interleaving of network handlers no block is outstanding at two peers (`Sync.AlwaysOk`).

## What the code does not do

Where a promise fails, the code is modelled as it is, the exact condition is proved, and `Failures` has an input; for
the log with one block and for squashing, the contract itself states the input.

* The fourth assertion of the run-time check of invariants compares supply and pools with the total supply.
  It holds if and only if genesis lost nothing to rounding and the null account never burned anything,
  because burned coins leave the supply and enter no pool (`LedgerRuns.CheckHoldsIff`, `Failures.BurnFailsCheck`).
* Recalculating all votes gives right witness votes, but right proxied amounts if and only if these were
  zero before, because they are not cleared (`FromScratch.RecalculatedSlotsExactIff`, `Failures.RecalculationDoubles`).
* Paying interest throws if and only if an account whose turn it is has a considered holding that is negative or
  above the accumulated supply (`Interests.ProcessInterestsThrowsIff`). A deposit in the block of the account's
  own turn is not considered, but taking it out again is (`Interests.DepositInTurnLosesHolding`). So from every
  good state a deposit in an account's turn that outweighs its considered holding, taken out one block later, makes
  its next turn throw, unless something else touches the account (`Interests.DepositInTurnThrows`); a run from
  genesis leads there for every period and delay (`Failures.InterestThrows`).
* Rebuilding the index of a log with one block yields an empty index; opening a log restores its index
  from a whole-entry prefix unless there is one block and the prefix is empty (`BlockLog.Log.Open`).
* A block gives up undo states when something becomes irreversible, before its last steps, and these can still
  throw. So a fork switch is not all-or-nothing if it branches off below the undo history, or if a block of
  the new branch, applied or throwing, has made something above the common ancestor irreversible; and a block that
  throws after making itself irreversible stays half-applied (`ForkSwitch.AllOrNothingIff`,
  `Failures.BranchBelowHistory`, `Failures.ThrowingBlockCommits`, `Failures.AppliedBlockCommits`,
  `Failures.HalfAppliedBlockStays`). The fork database accepts a block with the number of the last irreversible
  block on its parent, so a branch from below can be offered.
* The fork database cannot be popped to an ancestor that it does not hold. So a switch from genesis whose last block
  throws leaves the chain on the block before, with nothing irreversible (`ForkSwitch.Overtaken`,
  `Failures.GenesisForkSticks`).
* A switch moves the fork database's head to the oldest block of the new branch and leaves it there while the branch
  is applied. Above it, numbers that both branches have are not found. So a switch that leaves more than one block
  throws if and only if the new branch makes more irreversible than its first block; blocks of the new branch have
  then been written to the log (`LogRuns.Fate`, `IrreversibleLog.Finality.PushBlock`,
  `IrreversibleLog.SwitchFinds`, `Failures.SwitchMissesBlock`).
* The first block keeps the schedule of later slots if and only if its offset in the block interval lies on
  the same side of the genesis time's offset as theirs (`Slots.FirstBlockShiftsIff`, `Failures.FirstBlockShifts`).
* A block that a peer reports as missing stays in the table of active requests, at no peer, in every
  continuation, and so is never asked for again (`Sync.LostForever`, `Sync.LostIff`, `Failures.ReportedMissingIsLost`).
* Squashing the only open session drops its undo state without lowering the revision (`Chainbase.Index.Squash`).

## What is assumed

* Public net, hardfork 1_1 active; one coin symbol, vesting shares at par with it.
* Amounts are unbounded integers: `share_type` throws on overflow. Virtual time, the position on a lap, the
  locked promotion amount and the shuffle are modelled with their wrap-around. 32-bit times and block numbers,
  and the 32-bit sum of authority weights, do not overflow.
* In runs of the ledger a step that throws changes nothing, because the session around it is undone. The one
  exception is the half-applied block above, which is no state of these runs.
* Hashes have no collisions, so a block id stands for the block's contents and ancestry. Applying a block is
  deterministic in the state.
* Ordered indexes iterate in the order of their keys; account and witness ids are given out in sequence.
* The codec of blocks is exact and self-delimiting; `BlockLog.ExactCodecExists` shows that this can be met.
* Nobody signs for the null account, so it neither votes nor sets a proxy; `withdraw_vesting` amounts are
  not negative.
* Stored references are sound: a proxy, a voted witness and the parties of an escrow exist.
* `SOPHIATX_INTEREST_BLOCKS` is at most `SOPHIATX_INTEREST_FEES_TIME`, pool percentages add up to at most
  100%, `max_voted_witnesses` is at most `SOPHIATX_MAX_WITNESSES`, which is below 256.

## Model

| member | source | states |
|---|---|---|
| `VoteTally.AdjustVoteFuses` | libraries/chain/database.cpp:1021-1040 | two changes of a witness's votes at one virtual time leave every field as their sum does |
| `VoteTally.AdjustVotesFuse` | libraries/chain/database.cpp:1010-1019 | the same for all witnesses an account votes for |
| `VoteTally.AdjustAllIsOneByOne` | libraries/chain/database.cpp:956-1008 | for every proxy graph and delta array, the array form changes slots and witnesses exactly as the scalar form with delta[i] started at depth i, for all i |
| `ProxyForest.AdjustOneSlots` | libraries/chain/database.cpp:987-1008 | an amount started at a depth reaches slot k of exactly the account that many hops up |
| `ProxyForest.AdjustOneGap` | libraries/chain/database.cpp:987-1019 | the scalar form raises a witness's votes in step with the weights of its voters |
| `ProxyForest.CreditKeepsExact` | libraries/chain/database.cpp:2289-2317 | a change of balance or vesting, sent up the chain, keeps slots and votes equal to their definitions |
| `ProxyForest.RewriteKeepsExact` | libraries/chain/database.cpp:941-954 | a change that keeps an account's total, and any change of the null account, keeps them without sending anything |
| `ProxyChange.LinkKeepsAcyclic` | libraries/chain/sophiatx_evaluator.cpp:641-658 | a link accepted by the loop check keeps the proxy graph acyclic |
| `ProxyChange.CutKeepsAcyclic` | libraries/chain/sophiatx_evaluator.cpp:664-668 | so does removing a link |
| `ProxyChange.ChainOkIff` | libraries/chain/sophiatx_evaluator.cpp:640-651 | in a forest the loop check accepts a chain if and only if it does not lead to the account and ends in time |
| `ProxyChange.ProxyAcceptedIff` | libraries/chain/sophiatx_evaluator.cpp:626-669 | a proxy is accepted if and only if it changes something, exists, does not lead back to the account, and ends at most two hops further up; clearing one always |
| `ProxyChange.ProxyLeaves` | libraries/chain/sophiatx_evaluator.cpp:626-669 | changes the one link, removes exactly the account's own vote records, and leaves all amounts alone |
| `ProxyChange.AdjustAllSlots` | libraries/chain/database.cpp:956-985 | what the array form adds to each slot |
| `ProxyChange.DetachKeepsExact` | libraries/chain/sophiatx_evaluator.cpp:632-637 | taking an account with its subtree off its chain leaves exact slots and votes |
| `ProxyChange.AttachKeepsExact` | libraries/chain/sophiatx_evaluator.cpp:653-663 | putting it on a checked chain does too |
| `ProxyChange.SetProxyKeepsExact` | libraries/chain/sophiatx_evaluator.cpp:626-669 | setting or clearing a proxy keeps the forest, exact slots and exact votes |
| `TallySteps.VoteKeepsExact` | libraries/chain/sophiatx_evaluator.cpp:672-709 | voting for or against a witness keeps them |
| `TallySteps.VoteAcceptedIff` | libraries/chain/sophiatx_evaluator.cpp:672-709 | a vote is accepted if and only if the account has no proxy, the witness exists, the record changes and the account has votes left |
| `TallySteps.VoteLeaves` | libraries/chain/sophiatx_evaluator.cpp:672-709 | changes the one record and the one count, and moves the account's weight to or from the one witness |
| `TallySteps.VoteKeepsCounts` | libraries/chain/sophiatx_evaluator.cpp:672-709 | and keeps each account's count of votes equal to the number of its vote records |
| `TallySteps.NewAccountKeepsExact` | libraries/chain/sophiatx_evaluator.cpp:241-302 | a new account without funds keeps them |
| `TallySteps.WitnessesKeepExact` | libraries/chain/sophiatx_evaluator.cpp:31-98 | new witnesses, new keys and new scheduling fields keep them |
| `FromScratch.VotesAreCounted` | libraries/chain/database.cpp:956-1019 | in every exact tally a witness's votes are the total of all accounts whose proxy chain of at most four hops ends at a voter for it |
| `FromScratch.VotesAreBounded` | libraries/chain/database.cpp:2489-2492 | votes lie between zero and the total of all accounts, if no account is negative |
| `FromScratch.RecalculationCountsVotes` | libraries/chain/database.cpp:2454-2470 | recalculation gives every witness its count from scratch |
| `FromScratch.RecalculatedSlotsExactIff` | libraries/chain/database.cpp:2454-2466 | the recalculated slots are exact if and only if they were zero before |
| `Database.Database.AdjustWitnessVote` | libraries/chain/database.cpp:1021-1040 | field by field update of one witness, as the specification of a vote change |
| `Database.Database.AdjustWitnessVotes` | libraries/chain/database.cpp:1010-1019 | the loop over vote records adjusts exactly the witnesses the account votes for |
| `Database.Database.AdjustProxiedVotes` | libraries/chain/database.cpp:987-1008 | the recursion does what the scalar form specifies |
| `Database.Database.AdjustAllProxiedVotes` | libraries/chain/database.cpp:956-985 | the recursion with its descending loops does what the array form specifies |
| `Database.DownIsUp` | libraries/chain/database.cpp:968-974 | filling the slots in descending order is filling them in ascending order |
| `Database.Database.ClearWitnessVotes` | libraries/chain/database.cpp:1042-1057 | removes exactly the account's vote records and resets its count |
| `Database.Database.CheckProxyChain` | libraries/chain/sophiatx_evaluator.cpp:640-651 | the loop over the growing set of proxies answers as the loop check |
| `Database.Database.AdjustBalance` | libraries/chain/database.cpp:2302-2329 | throws exactly on a missing account or a negative balance; otherwise balance, considered holding and votes change |
| `Database.Database.CreateVesting` | libraries/chain/database.cpp:2289-2299 | the same for new vesting shares |
| `Database.Database.Vest` | libraries/chain/database.cpp:941-954 | turns balance into shares and raises the total |
| `Database.Database.AdjustSupply` | libraries/chain/database.cpp:2336-2352 | throws exactly if the supply would become negative |
| `Database.Database.PayFee` | libraries/chain/database.cpp:433-448 | balance, supply and pools after a fee, and every way it can throw |
| `Database.Database.TransferToVesting` | libraries/chain/sophiatx_evaluator.cpp:562-578 | with both receivers, oneself and another |
| `Database.Database.PayInterest` | libraries/chain/database.cpp:1836-1858 | one account's interest, votes and new considered holding |
| `Database.Database.ProcessInterests` | libraries/chain/database.cpp:1828-1862 | the loop over every interest_blocks-th account pays what the recursive specification pays, and raises the supply by the sum |
| `Database.Database.ClearNullAccountBalance` | libraries/chain/database.cpp:1059-1092 | balances, shares and supply after the burn |
| `Database.Database.ProcessFunds` | libraries/chain/database.cpp:1176-1211 | the producer's reward, by role |
| `Database.Database.RefundEscrow` | libraries/chain/database.cpp:1261-1264 | everything back to the sender, and the escrow is gone |
| `Database.Database.EscrowApprove` | libraries/chain/sophiatx_evaluator.cpp:421-477 | approval, rejection and ratification with every check |
| `Database.Database.EscrowRelease` | libraries/chain/sophiatx_evaluator.cpp:501-552 | release with the rules on who may release to whom |
| `Economics.AddFeeConserves` | libraries/chain/economics.cpp:83-93 | a fee enters the pools as a whole; none becomes negative, the promotion pool does not fall |
| `Economics.WithdrawMiningConserves` | libraries/chain/economics.cpp:29-46 | a mining reward leaves the pools as a whole and keeps them non-negative |
| `Economics.WithdrawInterestsConserves` | libraries/chain/economics.cpp:64-81 | interest leaves the pools as a whole and keeps them non-negative |
| `Economics.InterestIsProportional` | libraries/chain/economics.cpp:64-81 | a holding earns, rounded down, its part of the accumulated supply of what the schedule makes available for the period, as far as the pool has it, and of the fees' part for the period |
| `Economics.FeeIsSplit` | libraries/chain/economics.cpp:83-93 | a fee is split by the percentages, rounded down: burned, then mining and promotion of the rest, and what is left to interest |
| `Economics.GenesisIsSplit` | libraries/chain/economics.cpp:9-18 | the genesis pools are the percentages of the coins not issued, rounded down, and the block reward spreads the mining pool over the coinbase blocks |
| `Economics.MiningRewardIs` | libraries/chain/economics.cpp:29-46 | after the delay the reward is the weight's part of the block reward and of one block's part of a week of mining fees, each as far as the pool has it; throws exactly on a zero denominator |
| `Economics.InitialPools` | libraries/chain/economics.cpp:9-18 | the pools at genesis are non-negative and at most the coins not issued |
| `Economics.LockedShrinks` | libraries/chain/economics.cpp:95-98 | the locked amount never grows with the block number |
| `Economics.LockedFollowsSchedule` | libraries/chain/economics.cpp:95-98 | the fixed-point locked amount is at most the linear schedule and below it by less than blocks left / 2^18 + 1 |
| `Economics.PromotionStaysLocked` | libraries/chain/economics.cpp:95-109 | the assertion holds, a payment is at most what is asked, and the pool never falls below the locked amount; it throws exactly if nothing is asked or free |
| `Economics.RingHolds` | libraries/chain/economics.cpp:48-53 | each slot of the ring holds the supply of the last block that maps to it |
| `Economics.AccumulatedIsWindow` | libraries/chain/economics.cpp:48-58 | the accumulated supply is the sum over the last interest_blocks blocks |
| `Economics.EconomicModel.constructor` | libraries/chain/economics.cpp:9-18 | genesis pools |
| `Economics.EconomicModel.PayIn` | libraries/chain/economics.cpp:83-93 | the pools as an object: a fee raises their sum by the fee |
| `Economics.EconomicModel.TakeMiningReward` | libraries/chain/economics.cpp:29-46 | the reward lowers their sum by the reward; fails only on a zero denominator |
| `Economics.EconomicModel.TakeInterests` | libraries/chain/economics.cpp:64-81 | the interest lowers their sum by the interest; fails exactly if the holding is negative or above the accumulated supply |
| `Economics.EconomicModel.TakePromotion` | libraries/chain/economics.cpp:103-109 | the pool stays at or above the locked amount |
| `Economics.EconomicModel.RecordSupply` | libraries/chain/economics.cpp:48-58 | the ring and the accumulated supply after a block |
| `LedgerInvariants.EscrowPut` | libraries/chain/database.cpp:2500-2510 | how the sum over escrows changes when one is put or replaced |
| `LedgerInvariants.CreditShifts` | libraries/chain/database.cpp:2302-2317 | a credit keeps all tally invariants and shifts the sums of funds and shares by the amount |
| `LedgerInvariants.DepositSucceeds` | libraries/chain/database.cpp:2302-2317 | a deposit into an existing account cannot throw |
| `LedgerSteps.PayFeeConserves` | libraries/chain/database.cpp:433-448 | fees keep every invariant and the total of supply and pools |
| `LedgerSteps.TransferConserves` | libraries/chain/sophiatx_evaluator.cpp:554-560 | transfers do |
| `LedgerSteps.TransferToVestingConserves` | libraries/chain/sophiatx_evaluator.cpp:562-578 | vesting does |
| `LedgerSteps.WithdrawVestingConserves` | libraries/chain/sophiatx_evaluator.cpp:580-623 | starting, changing or stopping a withdrawal does |
| `LedgerSteps.CreateAccountConserves` | libraries/chain/sophiatx_evaluator.cpp:241-302 | creating an account does |
| `LedgerSteps.UpdateWitnessConserves` | libraries/chain/sophiatx_evaluator.cpp:31-98 | registering a witness or changing its key does |
| `LedgerSteps.VoteConserves` | libraries/chain/sophiatx_evaluator.cpp:672-709 | votes do |
| `LedgerSteps.ProxyConserves` | libraries/chain/sophiatx_evaluator.cpp:626-669 | proxies do |
| `LedgerSteps.EscrowTransferConserves` | libraries/chain/sophiatx_evaluator.cpp:385-419 | opening an escrow does |
| `LedgerSteps.ApproveConserves` | libraries/chain/sophiatx_evaluator.cpp:421-477 | approving or rejecting one does |
| `LedgerSteps.DisputeConserves` | libraries/chain/sophiatx_evaluator.cpp:479-499 | disputing one does |
| `LedgerSteps.ReleaseConserves` | libraries/chain/sophiatx_evaluator.cpp:501-552 | releasing from one does |
| `LedgerSteps.PromotionConserves` | libraries/chain/sophiatx_evaluator.cpp:1088-1105 | promotion payments do |
| `LedgerSteps.ProcessInterestsConserves` | libraries/chain/database.cpp:1828-1862 | interest does |
| `LedgerSteps.ClearNullConserves` | libraries/chain/database.cpp:1059-1092 | clearing the null account keeps the invariants and lowers the total by exactly what it held |
| `LedgerSteps.PayProducerConserves` | libraries/chain/database.cpp:1176-1211 | producer rewards keep the invariants and the total |
| `LedgerSteps.ConvertConserves` | libraries/chain/database.cpp:1111-1163 | conversions of vesting shares do |
| `LedgerSteps.RescheduleConserves` | libraries/chain/witness_schedule.cpp:68-271 | scheduling rounds do |
| `LedgerSteps.NextBlockConserves` | libraries/chain/economics.cpp:48-58 | the next block does |
| `LedgerSteps.StepConserves` | libraries/chain/database.cpp:2476-2525 | every step from a good state leads to a good state; supply and pools change only by what is burned |
| `LedgerRuns.GenesisGood` | libraries/chain/database.cpp:1333-1490 | genesis is a good state and holds at most the total supply |
| `LedgerRuns.GenesisIs` | libraries/chain/database.cpp:1340-1490 | the state at genesis: the supply is what the founders have, one witness, no escrow, and the pools of the coins not issued |
| `LedgerRuns.FoundedAre` | libraries/chain/database.cpp:1385-1435 | every founder has its balance, twice of it as considered holding, no proxy, and its place as id |
| `LedgerRuns.RunConserves` | libraries/chain/database.cpp:2494-2521 | after every run from a good state all invariants hold, and supply, pools and burned coins add up to the same total |
| `LedgerRuns.GoodVotes` | libraries/chain/database.cpp:2489-2492 | no witness has negative votes or more votes than the supply |
| `LedgerRuns.CheckHoldsIff` | libraries/chain/database.cpp:2476-2525 | after every run from genesis the first three assertions hold; the fourth if and only if nothing was lost to rounding at genesis or burned since |
| `LedgerRuns.StepTime` | libraries/chain/witness_schedule.cpp:93-140 | no step lowers the virtual time except a round that overflowed, which sets it to zero |
| `Payments.TransferMoves` | libraries/chain/sophiatx_evaluator.cpp:554-560 | exactly the sender loses and the receiver gains the amount |
| `Payments.TransferToVestingMoves` | libraries/chain/sophiatx_evaluator.cpp:562-578 | exactly the sender loses coins and the receiver gains as many shares |
| `Payments.PayFeeMoves` | libraries/chain/database.cpp:433-448 | exactly the payer loses the fee; supply and pools change by it |
| `Payments.CreateAccountMoves` | libraries/chain/sophiatx_evaluator.cpp:241-302 | the creator pays the whole fee; the excess over the required fee is the new account's balance |
| `Payments.PayPromotionMoves` | libraries/chain/sophiatx_evaluator.cpp:1088-1105 | the receiver alone gains the lesser of the amount and what is not locked |
| `Payments.PayProducerMoves` | libraries/chain/database.cpp:1176-1211 | the producer alone gains shares, as many as leave the pools |
| `Payments.ConvertVestingMoves` | libraries/chain/database.cpp:1129-1156 | shares of one account become as many coins of it |
| `Payments.ClearNullMoves` | libraries/chain/database.cpp:1059-1092 | the null account alone is emptied, and no pool receives it |
| `Conditions.FeePaidIff` | libraries/chain/database.cpp:433-448 | in a good state a fee can be paid if and only if it is not negative and the payer has it |
| `Conditions.TransferIff` | libraries/chain/sophiatx_evaluator.cpp:554-560 | a transfer succeeds if and only if the amount is positive, both accounts exist and the sender has it |
| `Conditions.VestIff` | libraries/chain/sophiatx_evaluator.cpp:562-578 | the same for vesting |
| `Conditions.CreateIff` | libraries/chain/sophiatx_evaluator.cpp:241-302 | an account can be created if and only if the name is new and the creator has the offered fee, which covers the required one |
| `Conditions.ClearIff` | libraries/chain/database.cpp:1059-1092 | clearing the null account never throws if it exists |
| `Conditions.PromotionIff` | libraries/chain/economics.cpp:95-109 | a promotion payment is made if and only if something is asked for and something is not locked |
| `Conditions.SharesAreConsidered` | libraries/chain/database.cpp:2289-2299 | new shares are considered for interest to the next turn, shares made of balance not again |
| `Conditions.WitnessIff` | libraries/chain/sophiatx_evaluator.cpp:31-98 | registering or changing a witness: when, and all it leaves |
| `Conditions.StopLeaves` | libraries/chain/sophiatx_evaluator.cpp:19-29 | a witness that stops keeps everything but its key |
| `Conditions.VoteStepIff` | libraries/chain/sophiatx_evaluator.cpp:672-709 | when a vote succeeds in a good state |
| `Conditions.ProxyStepIff` | libraries/chain/sophiatx_evaluator.cpp:626-669 | when a proxy is set in a good state |
| `Conditions.RewardIs` | libraries/chain/database.cpp:1176-1211 | the producer's weight by role, and that the reward fails only without any scheduled witness |
| `Conditions.RoundWeights` | libraries/chain/witness_schedule.cpp:236-248 | the weights of a round's witnesses add up to one block reward per block on average |
| `Conditions.BlockIff` | libraries/chain/database.cpp:1733-1741 | time moves forward, and the supply at the last block is recorded |
| `Withdrawals.WithdrawIff` | libraries/chain/sophiatx_evaluator.cpp:580-625 | when a withdrawal starts, changes or stops; its rate is the 27th part rounded down, at least one, and it is first due a day later |
| `Withdrawals.ConvertsOnePart` | libraries/chain/database.cpp:1111-1163 | a due conversion turns exactly one part, or what is left, into balance; when the next is due |
| `Withdrawals.PartsAddUp` | libraries/chain/database.cpp:1111-1163 | after n conversions n parts are converted, or all of the amount, and then it ends |
| `Withdrawals.RunKeepsUnderway` | libraries/chain/database.cpp:1111-1163 | so in every run withdrawals under way have converted whole parts only |
| `EscrowLife.EscrowOpens` | libraries/chain/sophiatx_evaluator.cpp:385-419 | opening takes amount and fee from the sender alone; nobody has approved |
| `Conditions.OpenIff` | libraries/chain/sophiatx_evaluator.cpp:381-412 | when an escrow can be opened |
| `Conditions.ApproveIff` | libraries/chain/sophiatx_evaluator.cpp:421-477 | receiver and agent may each approve once, or reject before they have approved, up to the deadline; nobody else |
| `Conditions.ApproveLeaves` | libraries/chain/sophiatx_evaluator.cpp:421-477 | exactly the approver's flag; the second approval pays the agent; a rejection refunds |
| `Conditions.DisputeIff` | libraries/chain/sophiatx_evaluator.cpp:479-499 | either party, once, if ratified and not expired; only the dispute is noted |
| `Conditions.ReleaseIff` | libraries/chain/sophiatx_evaluator.cpp:501-552 | who may release to whom: the agent to either party while disputed; else each party to the other before expiry, and to either after it |
| `Conditions.ReleaseLeaves` | libraries/chain/sophiatx_evaluator.cpp:501-552 | the receiver gets the amount; the escrow keeps the rest or is gone |
| `Conditions.ExpireIff` | libraries/chain/database.cpp:1251-1266 | an escrow goes back if and only if its deadline is reached unratified |
| `EscrowLife.StepPays` | libraries/chain/sophiatx_evaluator.cpp:421-552 | an unratified escrow can only idle, be ratified or be refunded; a ratified one can only idle or release to a party |
| `EscrowLife.OtherSteps` | libraries/chain/sophiatx_evaluator.cpp:385-552 | every other step leaves an open escrow alone |
| `EscrowLife.NothingAfterRemoval` | libraries/chain/sophiatx_evaluator.cpp:421-552 | steps on a removed escrow throw |
| `EscrowLife.EscrowSettles` | libraries/chain/sophiatx_evaluator.cpp:385-552 | over every run: never ratified means nothing paid while open and all back to the sender at the end; ratified means the fee once to the agent and the amount, less what is still held, only to the parties |
| `Election.ElectedAreTop` | libraries/chain/witness_schedule.cpp:74-91 | every elected witness has more votes than any keyed one that is not elected, or as many and the smaller name |
| `Election.ElectedAreRanked` | libraries/chain/witness_schedule.cpp:74-91 | as many are elected as may be or as have a key, in the order of votes and names |
| `Election.RunnersAreNext` | libraries/chain/witness_schedule.cpp:93-117 | every runner has a key, is not elected, and comes in virtual time before every keyed witness left out |
| `Election.RoundIsDistinct` | libraries/chain/witness_schedule.cpp:74-117 | the round is a list of distinct witnesses with keys |
| `Election.SizeAssertionHolds` | libraries/chain/witness_schedule.cpp:142-146 | the assertion on the number of active witnesses holds for every witness table |
| `Schedule.AdjustOneInTime` | libraries/chain/database.cpp:1021-1040 | vote changes keep lastUpdate <= now <= scheduled for every witness, with 128-bit wrap-around |
| `Schedule.AdjustAllInTime` | libraries/chain/database.cpp:956-985 | so do proxy changes |
| `Schedule.LapIs` | libraries/chain/witness_schedule.cpp:121-133 | a lap lasts as long as a runner with one more than the votes per unit of time needs for it, rounded down |
| `Schedule.NewLapIs` | libraries/chain/witness_schedule.cpp:121-140 | a new lap starts at the round's time and ends a lap later; it wraps exactly if that is beyond 128 bits |
| `Schedule.LapAfterVotes` | libraries/chain/database.cpp:1021-1040 | a change of votes moves a witness on its lap by its old votes for the time passed; it is due when the rest is done at the new votes, or at the end of time |
| `Schedule.RoundExamines` | libraries/chain/witness_schedule.cpp:94-117 | a round looks at exactly the witnesses up to its last runner in virtual time, or at all if it cannot be filled; its time is when the last of them was due |
| `Schedule.RoundLeaves` | libraries/chain/witness_schedule.cpp:74-141 | each witness after a round: role, lap and due time, and the start over for all if a lap would wrap |
| `Schedule.RoundKeepsInTime` | libraries/chain/witness_schedule.cpp:93-140 | a round keeps it too; the time does not fall unless a lap wrapped, and then it is zero |
| `Schedule.RoundKeepsVotes` | libraries/chain/witness_schedule.cpp:119-140 | a round changes no votes |
| `Schedule.ShuffledPermutes` | libraries/chain/witness_schedule.cpp:247-263 | the shuffle is a permutation for every time and list |
| `Schedule.Shuffle` | libraries/chain/witness_schedule.cpp:247-263 | the in-place loop of swaps computes it |
| `Schedule.PartnerIs` | libraries/chain/witness_schedule.cpp:243-262 | the position exchanged with is the one whose distance is the remainder of the number drawn |
| `Schedule.FirstDraws` | libraries/chain/witness_schedule.cpp:243-262 | numbers drawn for some head times and positions |
| `WitnessSchedule.Scheduler.Elect` | libraries/chain/witness_schedule.cpp:74-91 | marks and returns the elected |
| `WitnessSchedule.Scheduler.Run` | libraries/chain/witness_schedule.cpp:93-117 | marks and returns the runners, all witnesses looked at, the time of the last one and the number without keys |
| `WitnessSchedule.Scheduler.Advance` | libraries/chain/witness_schedule.cpp:119-135 | gives new laps to those looked at, or reports that one wrapped |
| `WitnessSchedule.Scheduler.ResetTime` | libraries/chain/witness_schedule.cpp:11-29 | every witness starts a lap at time zero |
| `WitnessSchedule.Scheduler.Update` | libraries/chain/witness_schedule.cpp:68-271 | a whole round against its specification; the size assertion never fires |
| `Slots.SlotBrackets` | libraries/chain/database.cpp:902-933 | a slot's start and the next one's enclose every point in time |
| `Slots.SlotRoundTrip` | libraries/chain/database.cpp:902-933 | the slot of a slot's start is that slot |
| `Slots.SlotIsDifference` | libraries/chain/database.cpp:917-932 | after the first block a slot is a difference of whole intervals |
| `Slots.ScheduledIs` | libraries/chain/database.cpp:893-900 | the witness at position i is due exactly in the absolute slots that leave i as remainder |
| `Slots.SlotsInStep` | libraries/chain/database.cpp:2123-2163 | over every run of blocks the absolute slot advances with the whole intervals of head time |
| `Slots.ScheduleIsStable` | libraries/chain/database.cpp:893-900 | the witness of any later slot is unchanged by blocks applied before it, however many slots they miss |
| `Slots.FirstBlockShiftsIff` | libraries/chain/database.cpp:910-915 | for the first block this holds if and only if both times lie on one side of the genesis offset |
| `Slots.RecordedIs` | libraries/chain/database.cpp:2117-2162 | the record of filled slots moves by the missed slots and one, of which the block counts as the oldest |
| `Slots.DynamicData.Update` | libraries/chain/database.cpp:2117-2163 | the clock, the record of filled slots, the count of misses per witness and lost keys; participation stays the number of filled slots in the window |
| `ForkDatabase.SharedBlockIsArgument` | libraries/chain/fork_database.cpp:169-211 | found branches share at most one block, which is then the whole of one branch |
| `ForkDatabase.AncestorIsShared` | libraries/chain/fork_database.cpp:169-211 | if one argument is an ancestor of the other, they share exactly it |
| `ForkDatabase.ForkDb.PushBlock` | libraries/chain/fork_database.cpp:35-71 | refuses exactly blocks that are too old or unlinked; otherwise stores the block and returns the highest |
| `ForkDatabase.ForkDb.PopBlock` | libraries/chain/fork_database.cpp:16-22 | moves to the parent; fails exactly if it is gone |
| `ForkDatabase.ForkDb.SetHead` | libraries/chain/fork_database.cpp:234-237 | the head moves and the database stays well formed |
| `ForkDatabase.ForkDb.Remove` | libraries/chain/fork_database.cpp:239-242 | removes exactly the block with the id |
| `ForkDatabase.ForkDb.SetMaxSize` | libraries/chain/fork_database.cpp:94-110 | forgets exactly the blocks that lie too far behind the head |
| `ForkDatabase.ForkDb.FetchBlockByNumber` | libraries/chain/fork_database.cpp:149-167 | all stored blocks of a number, each once |
| `ForkDatabase.ForkDb.FetchBranchFrom` | libraries/chain/fork_database.cpp:169-211 | succeeds if and only if retained ancestors have a common parent; returns the shortest such parent-linked branches |
| `ForkDatabase.ForkDb.WalkMainBranchToNum` | libraries/chain/fork_database.cpp:213-222 | the head's ancestor of that number, or null exactly if it is not retained |
| `ForkSwitch.CommitAgain` | libraries/chainbase/include/chainbase/chainbase.hpp:483-492 | committing in steps gives up the same states as committing at the end |
| `ForkSwitch.MeetIsFork` | libraries/chain/database.cpp:591-596 | the branches the fork database finds are a fork in the sense of the switch |
| `ForkSwitch.Database.PopBlock` | libraries/chain/database.cpp:862-880 | fails exactly if the fork database's head has no live parent; otherwise undoes the head block, or without undo history only moves the fork database |
| `ForkSwitch.Database.PopTo` | libraries/chain/database.cpp:594-595 | reaches the ancestor exactly if undo history and fork database reach it; the fork database's head goes back as far |
| `Irreversible.CandidateIsHighestBacked` | libraries/chain/database.cpp:2218-2239 | the candidate is the highest block number confirmed by the threshold share, rounded up, of the scheduled witnesses |
| `Irreversible.BlockRaises` | libraries/chain/database.cpp:2200-2248 | a block never lowers the last irreversible number and never moves it past the head; before votes decide it is the head less the maximal number of witnesses |
| `Irreversible.QuorumDecides` | libraries/chain/database.cpp:2218-2248 | once votes decide, a number is irreversible after a block if and only if it was before or three quarters of the scheduled witnesses have confirmed it or a later one |
| `Irreversible.ChainRaises` | libraries/chain/database.cpp:2200-2248 | along every chain of blocks it never falls nor passes the head |
| `BlockLog.DigitsRoundTrip` | libraries/chain/block_log.cpp:217-218 | positions survive being written as bytes |
| `BlockLog.ReadsBlock` | libraries/chain/block_log.cpp:252-265 | at the start of the k-th block one reads that block, its position and the start of the next |
| `BlockLog.ReadsIndex` | libraries/chain/block_log.cpp:302-316 | entry k of the index is the position of block k |
| `BlockLog.ChainedVisitsAll` | libraries/chain/block_log.cpp:240-265 | chained reading from any block on visits all later blocks in order |
| `BlockLog.PrefixKept` | libraries/chain/block_log.cpp:152-169 | among the whole-entry prefixes of the index only the full one ends with the last position |
| `BlockLog.Log.Append` | libraries/chain/block_log.cpp:197-225 | extends log and index by the block that comes next; any other number throws and changes nothing |
| `BlockLog.Log.ReadBlockByNum` | libraries/chain/block_log.cpp:267-288 | the n-th appended block for every n that exists, nothing otherwise |
| `BlockLog.Log.ReadHead` | libraries/chain/block_log.cpp:318-337 | the last appended block |
| `BlockLog.Log.ConstructIndex` | libraries/chain/block_log.cpp:351-379 | rebuilds the full index, except for a log of one block, where it comes out empty |
| `BlockLog.Log.Open` | libraries/chain/block_log.cpp:104-185 | what becomes of any index file; the full index from every whole-entry prefix, unless there is one block and no entry |
| `Chainbase.ModifyKeeps` | libraries/chainbase/include/chainbase/chainbase.hpp:512-525 | recording a modification keeps what undoing restores |
| `Chainbase.RemoveKeeps` | libraries/chainbase/include/chainbase/chainbase.hpp:527-547 | so does recording a removal |
| `Chainbase.CreateKeeps` | libraries/chainbase/include/chainbase/chainbase.hpp:549-554 | so does recording a creation |
| `Chainbase.MergeComposes` | libraries/chainbase/include/chainbase/chainbase.hpp:381-481 | undoing the merged record is undoing the later and then the earlier record |
| `Chainbase.Index.Emplace` | libraries/chainbase/include/chainbase/chainbase.hpp:243-261 | the new object and id; all session starts stay |
| `Chainbase.Index.Modify` | libraries/chainbase/include/chainbase/chainbase.hpp:263-268 | the new value; all session starts stay |
| `Chainbase.Index.Remove` | libraries/chainbase/include/chainbase/chainbase.hpp:270-273 | the object is gone; all session starts stay |
| `Chainbase.Index.StartUndoSession` | libraries/chainbase/include/chainbase/chainbase.hpp:332-338 | the present state becomes the newest session start |
| `Chainbase.Index.Undo` | libraries/chainbase/include/chainbase/chainbase.hpp:348-373 | restores exactly the objects and next id of the newest session start |
| `Chainbase.Index.Squash` | libraries/chainbase/include/chainbase/chainbase.hpp:381-481 | forgets the newest session start and no other; a single session keeps the revision |
| `Chainbase.Index.Commit` | libraries/chainbase/include/chainbase/chainbase.hpp:486-492 | forgets exactly the oldest sessions up to the revision; the later can still be undone |
| `Authority.Accepts` | libraries/protocol/sign_state.cpp:26-61 | whatever has been approved before, the check accepts what the depth-bounded check without memory accepts |
| `Authority.CheckJustified` | libraries/protocol/sign_state.cpp:26-61 | if the check accepts, a finite approval tree exists, and for every approved account too |
| `Authority.AnswersBetween` | libraries/protocol/sign_state.cpp:19-61 | in every sequence of checks each answer lies between these two |
| `Authority.AtBoundIff` | libraries/protocol/sign_state.cpp:27-61 | at the depth bound an authority is met if and only if its signing keys and already approved accounts reach the threshold |
| `Authority.ReplayAgrees` | libraries/protocol/sign_state.cpp:6-61 | any keys that include all used ones give the same answers and the same approved accounts |
| `Authority.UsedKeysSuffice` | libraries/protocol/sign_state.cpp:63-73 | so removing unused signatures changes no outcome |
| `Authority.SignState.constructor` | libraries/protocol/sign_state.cpp:75-84 | no key used and only the temporary account approved |
| `Authority.SignState.SignedBy` | libraries/protocol/sign_state.cpp:6-17 | true exactly for keys that signed or can sign, which then count as used |
| `Authority.SignState.CheckAuthority` | libraries/protocol/sign_state.cpp:26-61 | the recursion with its early returns does what the specification says |
| `Authority.SignState.CheckAccount` | libraries/protocol/sign_state.cpp:19-24 | the check of an account by name |
| `Authority.SignState.RemoveUnusedSignatures` | libraries/protocol/sign_state.cpp:63-73 | keeps exactly the used signatures and tells whether there were others |
| `Sync.FetchedOk` | libraries/net/node.cpp:970-1012 | an iteration of the fetch loop keeps the invariant |
| `Sync.PickedIs` | libraries/net/node.cpp:970-1012 | the blocks picked for a peer are the first of its list that are not excluded, as many as allowed or all |
| `Sync.FetchedServes` | libraries/net/node.cpp:962-1012 | after an iteration every peer that is connected, idle, not inhibited and offers needed blocks was asked for some, unless all are asked for or received; no other peer was asked |
| `Sync.SplicedIs` | libraries/net/node.cpp:2504-2587 | what a peer's list becomes, in each case |
| `Sync.AnswerFitsIff` | libraries/net/node.cpp:2397-2468 | a valid answer is consecutive and starts in the synopsis, or at block 1 |
| `Sync.HeardIs` | libraries/net/node.cpp:2387-2675 | when a peer is dropped, when synchronization with it ends, and otherwise its new list |
| `Sync.ReceivedIs` | libraries/net/node.cpp:3496-3510 | a block that was asked for moves from the peer's requests to the received ones; any other costs the connection |
| `Sync.MissingIs` | libraries/net/node.cpp:2777-2791 | a peer without the block is inhibited or dropped |
| `Sync.ProcessedIs` | libraries/net/node.cpp:3214-3284 | a block that is next at some peers leaves their lists |
| `Sync.HandledIs` | libraries/net/node.cpp:3054-3180 | nobody waits for a handled block; who is inhibited or dropped |
| `Sync.LeavesTableIff` | libraries/net/node.cpp:2971-3510 | a block leaves the table of requests if and only if it arrives from a peer asked for it or such a peer closes |
| `Sync.EntersTableOnly` | libraries/net/node.cpp:962-3284 | a block enters the table only by a fetch, and leaves the received ones if and only if it is next at a peer and not seen |
| `Sync.SplicedConsecutive` | libraries/net/node.cpp:2504-2587 | splicing an offered list keeps a peer's list consecutive, also when the peer changed forks |
| `Sync.HeardOk` | libraries/net/node.cpp:2387-2675 | an inventory message keeps the invariant, valid or not |
| `Sync.ReceivedOk` | libraries/net/node.cpp:3496-3510 | a received block keeps it |
| `Sync.ClosedOk` | libraries/net/node.cpp:2971-2976 | a closed connection keeps it |
| `Sync.ProcessedOk` | libraries/net/node.cpp:3214-3284 | processing the backlog keeps it |
| `Sync.EventKeepsOk` | libraries/net/node.cpp:2387-3555 | every handler keeps lists consecutive and each outstanding block at one peer and in the table of requests |
| `Sync.AlwaysOk` | libraries/net/node.cpp:2387-3555 | so in every interleaving |
| `Sync.LostIff` | libraries/net/node.cpp:2777-2791 | a request becomes lost exactly when the peer that has it reports the block missing |
| `Sync.LostForever` | libraries/net/node.cpp:988-1003 | a lost request is never made again, in any continuation |
| `Sync.Node.FetchSyncItems` | libraries/net/node.cpp:962-1012 | choosing for all peers first and asking afterwards is asking peer by peer |
| `Sync.Node.RequestFrom` | libraries/net/node.cpp:948-960 | the items enter the table and the peer's set |
| `Sync.Node.OnInventory` | libraries/net/node.cpp:2387-2589 | the loops compute the specified list, or drop the peer |
| `Sync.Node.CheckAnswer` | libraries/net/node.cpp:2397-2468 | accepts exactly consecutive lists that start in the synopsis, or at block 1 for an empty one |
| `Sync.Node.Splice` | libraries/net/node.cpp:2504-2587 | the popping loops compute the spliced list |
| `Sync.Node.OnClosed` | libraries/net/node.cpp:2971-2976 | gives up all requests of the peer |
| `Sync.CreateSynopsis` | libraries/net/node.cpp:2335-2354 | goes on from the base with offered blocks in ascending order at half the distance each time, from the first number the halving walk reaches on the list to the last offered block, if it starts no higher than that |
| `Database.Database.AccountWitnessProxy` | libraries/chain/sophiatx_evaluator.cpp:626-669 | throws exactly where the specification has no result, and otherwise leaves its tally; keeps every ledger invariant |
| `Database.Database.AccountWitnessVote` | libraries/chain/sophiatx_evaluator.cpp:672-709 | the same for a vote |
| `Database.Database.ExpireEscrowRatification` | libraries/chain/database.cpp:1251-1266 | returns all overdue escrows in some order and none is left; from a good state it never throws, and conserves |
| `LedgerSteps.StopWitnessConserves` | libraries/chain/database.cpp:2130-2145 | a witness that loses its key, by its own operation or for missed blocks, keeps the invariants and the total |
| `LedgerSteps.RequirementConserves` | libraries/chain/database.cpp:2164-2175 | so does a change of the vesting required of witnesses |
| `Interests.InterestFromThrowsIff` | libraries/chain/database.cpp:1836-1858 | the loop over a batch throws exactly if an account of it has a considered holding out of range |
| `Interests.ProcessInterestsThrowsIff` | libraries/chain/database.cpp:1828-1862 | paying interest throws exactly if an account whose turn it is has a considered holding that is negative or above the accumulated supply |
| `Interests.NegativeHoldingThrows` | libraries/chain/economics.cpp:64-66 | once an account has a negative considered holding, interest throws at each of its turns |
| `Interests.TurnsLeftIs` | libraries/chain/include/sophiatx/chain/account_object.hpp:42-54 | the number of blocks a deposit is considered for is the one below a period after which it is the account's turn |
| `Interests.InterestPays` | libraries/chain/database.cpp:1836-1858 | what one account gets, and that its considered holding becomes its funds times the period |
| `Interests.BatchEarns` | libraries/chain/economics.cpp:64-81 | the accounts of a batch together earn at most their part of what is due for the period, of schedule and of fees |
| `Interests.BatchEarnsAtMostDue` | libraries/chain/economics.cpp:64-81 | so considered holdings of at most the accumulated supply earn at most the period's share |
| `Interests.DepositInTurnLosesHolding` | libraries/chain/include/sophiatx/chain/account_object.hpp:42-54 | a deposit in the block of an account's own turn, taken out one block later, lowers its considered holding by the amount times the period less one |
| `Interests.DepositInTurnThrows` | libraries/chain/database.cpp:1828-1862 | for every good state, period and account: a deposit in the account's turn that outweighs its considered holding, taken out one block later, makes its next turn throw, whatever happens in between that does not touch the account |
| `Interests.UninvolvedKeepsHolding` | libraries/chain/include/sophiatx/chain/account_object.hpp:42-54 | every step of the ledger that neither pays to or from an account nor is its turn leaves its considered holding alone |
| `Interests.HoldingStays` | libraries/chain/include/sophiatx/chain/account_object.hpp:42-54 | so does every run of such steps, with others in between that throw |
| `Interests.NegativeHoldingWaits` | libraries/chain/economics.cpp:64-66 | so a negative considered holding is still negative at the account's next turn, and interest throws there |
| `Failures.BurnFailsCheck` | libraries/chain/database.cpp:1089-1090 | from a genesis the chain can have, one transfer to the null account and its clearing make the fourth assertion fail |
| `Failures.RecalculationDoubles` | libraries/chain/database.cpp:2464-2466 | an exact tally with one proxied account, whose proxy is credited twice by recalculation |
| `Failures.FirstBlockShifts` | libraries/chain/database.cpp:910-915 | a first block that moves a later time to another absolute slot |
| `Failures.ReportedMissingIsLost` | libraries/net/node.cpp:2777-2791 | a sequence of five events from an empty node that loses a request |
| `Failures.BranchBelowHistory` | libraries/chain/database.cpp:593-595 | two blocks of which the second makes the first irreversible, and a branch of three blocks from genesis: with every fork database that offers these, the chain ends at the oldest undo state, that after the first block |
| `Failures.ThrowingBlockCommits` | libraries/chain/database.cpp:1712-1721 | three new blocks against two, and the third throws after making the first irreversible: with every such fork database the chain ends on the first new block |
| `Failures.GenesisForkSticks` | libraries/chain/fork_database.cpp:16-22 | two new blocks against one, from genesis, and the second throws: nothing is irreversible, but the fork database cannot be popped below block 1, and the chain ends on the first new block |
| `Failures.AppliedBlockCommits` | libraries/chain/database.cpp:2241-2250 | the same with the second block, which applied, making the first irreversible |
| `Failures.HalfAppliedBlockStays` | libraries/chain/database.cpp:641-652 | a block that throws after making itself irreversible stays half-applied |
| `Failures.InterestThrows` | libraries/chain/database.cpp:1828-1862 | for every period of at least two blocks and every delay, a run from a genesis with interest processed in every round: five coins sent to an account right after its last turn without interest, and back one block later, make its next turn throw |
| `Failures.SwitchMissesBlock` | libraries/chain/database.cpp:2261-2273 | from every block in the voting phase: a run of two old and two new blocks by two witnesses that the node takes, after which it gives up on the third new block for a missing one |
| `WitnessSchedule.Scheduler.constructor` | libraries/chain/database.cpp:1402-1490 | the table at genesis, with one elected witness |
| `WitnessSchedule.Scheduler.Schedule` | libraries/chain/witness_schedule.cpp:221-263 | stores the round, padded with empty names, as a permutation |
| `WitnessSchedule.Scheduler.UpdateWitnessSchedule` | libraries/chain/witness_schedule.cpp:277-283 | a round takes place exactly at multiples of the maximal number of witnesses |
| `ForkDatabase.RetainedOnMain` | libraries/chain/fork_database.cpp:224-232 | an ancestor of the head that is in the index is what the lookup by number finds, with one candidate or several |
| `ForkDatabase.ForkDb.FetchBlockOnMainBranchByNumber` | libraries/chain/fork_database.cpp:224-232 | the lone candidate, on whatever branch; none if there is no candidate; among several the head's ancestor; so the head's ancestor whenever it is retained |
| `ForkSwitch.ReplayRestores` | libraries/chain/database.cpp:665-671 | applying undone blocks again leads to the same state |
| `ForkSwitch.TrailReplays` | libraries/chain/database.cpp:597-608 | the states passed on the way along a branch are the replays of its parts |
| `ForkSwitch.AwayFrom` | libraries/chain/database.cpp:621-623 | after a failed switch the ancestor is among the undo states exactly if the way back is open; otherwise popping ends at a replay of a part of the new branch |
| `ForkSwitch.AllOrNothingIff` | libraries/chain/database.cpp:572-655 | a switch ends with the new branch or the old state if and only if its condition holds: how far undo history and fork database can be popped, before and after, and what became irreversible, also by the block that threw |
| `ForkSwitch.SettlesIff` | libraries/chain/database.cpp:609-633 | for a new branch one block longer the condition is: the branch applies, or what its throwing block leaves has made nothing above the ancestor irreversible and the last block is not the throwing one or the ancestor is held; or nothing can be popped at all |
| `ForkSwitch.Overtaken` | libraries/chain/database.cpp:609-633 | for every fork database and branches found in it, the new one a block longer, all-or-nothing holds exactly under that condition; what the applied blocks trim does not matter |
| `ForkSwitch.OldDepth` | libraries/chain/fork_database.cpp:16-22 | after a failed switch the fork database can be popped from the old head along the old branch, and further exactly if the ancestor is held and not trimmed |
| `ForkSwitch.FloorLow` | libraries/chain/fork_database.cpp:94-123 | while the fork database's head is at most the first block of the branch, applying the branch trims nothing at or above the last irreversible number |
| `ForkSwitch.FoundOnce` | libraries/chain/fork_database.cpp:169-211 | there is at most one pair of nearest branches |
| `ForkSwitch.Database.ApplyBlock` | libraries/chain/database.cpp:641-646 | applies in a session; states that became irreversible are given up even if the block then throws, and with the session itself the half-applied block stays; exactly the blocks below the bound leave the fork database |
| `ForkSwitch.Database.ApplyBranch` | libraries/chain/database.cpp:597-608 | applies up to the first block that throws, with what that block gave up, how many blocks are left and what the fork database still holds |
| `ForkSwitch.Database.SwitchForks` | libraries/chain/database.cpp:591-635 | ends as specified by the rules, the undo history and the fork database: the new branch, the old state, the last state reached, a part of the new branch, or the half-applied block |
| `ForkSwitch.Database.Recover` | libraries/chain/database.cpp:615-633 | the way back, as far as the fork database can be popped from the old head after removals and trimming |
| `ForkSwitch.Database.PushBlock` | libraries/chain/database.cpp:572-655 | refused exactly if the fork database refuses; otherwise what the fork database then holds, and by its head: extended, stored, thrown for want of branches exactly if there are none, or switched along the nearest ones, with both directions of all-or-nothing |
| `ForkSwitch.Database.FollowHead` | libraries/chain/database.cpp:579-652 | the same, for any fork database with any head; and what the fork database holds afterwards, unless a switch failed |
| `Irreversible.StateRaises` | libraries/chain/database.cpp:2200-2248 | the last irreversible number of a block is at least that of each of its ancestors |
| `IrreversibleLog.RetainedIsFound` | libraries/chain/fork_database.cpp:224-232 | for a retained number the fork database finds the head's ancestor |
| `IrreversibleLog.WrittenOnBranch` | libraries/chain/database.cpp:2261-2273 | with the head in the index nothing is missing, and what is written is the branch of the head |
| `IrreversibleLog.SwitchFinds` | libraries/chain/fork_database.cpp:224-232 | while the node switches forks, exactly the numbers above the fork database's head that both branches have are not found; all others are found on the new branch |
| `IrreversibleLog.SwitchWritten` | libraries/chain/database.cpp:2261-2273 | writing the log in a switch throws exactly if the last irreversible number passes the fork database's head and the old branch has more than one block; what is written is the new branch, up to that number or to that head |
| `IrreversibleLog.CommonMeets` | libraries/chain/fork_database.cpp:169-211 | blocks with a common ancestor at or above the end of the log are found to meet |
| `IrreversibleLog.Finality.WriteLog` | libraries/chain/database.cpp:2252-2272 | appends what the fork database finds for each number, and throws exactly at the first it does not find |
| `IrreversibleLog.Finality.UpdateLastIrreversibleBlock` | libraries/chain/database.cpp:2200-2276 | the new number, which once votes decide is the highest that three quarters of the scheduled witnesses have confirmed, or the old one; the log up to it or to the missing block; and the trimmed fork database |
| `IrreversibleLog.Finality.Store` | libraries/chain/fork_database.cpp:51-71 | refuses exactly as specified; otherwise the block is among those held, and the head is the higher one |
| `IrreversibleLog.Finality.Extend` | libraries/chain/database.cpp:637-646 | a block on the head never throws for want of a block; afterwards the log is the branch of the new head, as long as before or up to the new last irreversible block, and the fork database is trimmed as specified |
| `IrreversibleLog.Finality.Switch` | libraries/chain/database.cpp:591-608 | with n blocks to leave: unreachable exactly if the ancestor is older than the log, otherwise missing exactly if n > 1 and the new last irreversible number is above the new branch's first block; and in each case the log, when switched the whole new state |
| `IrreversibleLog.Finality.PushBlock` | libraries/chain/database.cpp:572-655 | for every node and block the outcome is exactly the specified one of six, and the new state the specified one unless the node gives up; the log stays on the branch of the head |
| `IrreversibleLog.Finality.PushBlocks` | libraries/chain/database.cpp:572-655 | a run of blocks leads to the specified state, and stops exactly at the first block on which the specified node gives up |
| `LogRuns.LoggedIsHighest` | libraries/chain/database.cpp:2252-2272 | after every block the log ends at the highest number that was irreversible at any head of the chain |
| `LogRuns.HeldAfterExtension` | libraries/chain/fork_database.cpp:51-123 | after a block on the head the fork database holds what it held from one below the last irreversible number on, and refuses exactly blocks below that number and orphans |
| `LogRuns.LeavesToNearest` | libraries/chain/fork_database.cpp:169-211 | the blocks that a switch leaves are those above the nearest common ancestor |
| `LogRuns.LeavesIs` | libraries/chain/fork_database.cpp:169-211 | whose distance is the only one with this property |
| `BlockLog.Log.ReadBlock` | libraries/chain/block_log.cpp:240-265 | at the start of the k-th block: that block and the start of the next; throws exactly where nothing can be unpacked |
| `BlockLog.Log.GetBlockPos` | libraries/chain/block_log.cpp:302-316 | the start of block n in the log, npos for numbers without a block; throws exactly if the index is too short |

## Left out

- Network sockets, handshakes, timers, bandwidth and firewall checks, and the transaction inventory of `node.cpp`; plugins, wallet, RPC, cryptography, asset parsing: input and output or libraries.
- Signature recovery and who must sign which operation: authority checking starts from the set of keys.
- Custom messages, applications, account recovery and update, feeds and fee sponsoring: apart from the fee, which is a step of its own, they touch no balance, share, vote, proxy, escrow, pool or witness.
- Hardfork voting and median properties inside the scheduling round, and the running of hardforks other than the recalculation of votes.
- Private nets, where there are no fees, pools or votes.
- Uniqueness constraints on secondary indexes of the object database: restoring objects is modelled by id only.
- The order in which due vesting withdrawals are processed inside one block: each conversion is a step of its own, in any order.
- ForkSwitch.Database.PushBlock: what the fork database holds after a switch has failed is not stated, only what decides where the chain ends.
- ForkSwitch.Database.PopBlock: the lookup of the head block before it is undone, which fails only if neither the fork database nor the log has it, is not modelled.
- ForkDatabase.ForkDb.PushBlock: the cache of unlinked blocks and the `invalid` flag are not modelled, because nothing ever fills the one or sets the other.
- Irreversible.Candidate: `nth_element` is modelled by its result, the element at that place of the ascending order, not by its partial rearrangement.
- IrreversibleLog.Finality.PushBlocks: ends at the first block on which the node gives up. The log and the fork database after the way back from a failed switch are not covered, nor are blocks that throw for reasons other than the log.
- BlockLog.Log: stream modes, locks and the deletion of files are not modelled.
- Sync.Node.FetchSyncItems: the requests of one iteration are one step; a task switch while they are sent is not modelled.
- Sync.CreateSynopsis: a synopsis that starts above the peer's last offered block is excluded, because the source then reads beyond its list.
- LedgerSteps.WithdrawVestingConserves: amounts are non-negative; the evaluator accepts negative ones, and these would make a conversion take from the balance.
