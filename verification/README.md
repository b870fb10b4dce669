# Brain-Storm contracts, verified

A Dafny model of the stateful core of the Brain-Storm Soroban contracts: the
constant-product liquidity pool, proposal voting, royalty distribution, course
NFTs with their credential links, reputation, progress analytics and the
buyback reserve.

Every contract has the same three parts.

* A *machine*: storage as a datatype, and each entry point as a function from
  storage and arguments to the next storage and the answer, or `None` when the
  invocation panics. The host rolls a panic back, so `Step` then keeps the
  storage; `Run` folds any sequence of calls, rejected ones included.
* A *safety* module: the invariants and theorems, stated over every run, and
  for each call when it goes through and what it leaves, in figures.
* A *contract* class with the storage slots as fields. Its methods write slot
  by slot, with the source's loops, and are proved to commit exactly what the
  machine says or to change nothing (`Panics.Commits`). Entry points that only
  check, overwrite or delete one slot are there too, with the same contract and no row
  of their own in the table below.

The machine integers are explicit. `Cargo.toml` turns overflow checks on in
every profile, so each `+`, `-` and `*` whose exact result leaves its type is a
panic (`Integers.Checked`), saturating operations saturate, and `/` truncates
toward zero. Proofs treat the i128 range as large but unspecified; its figures
are proved in `Integers.RangeInFigures`. A stored list keyed by consecutive indexes and a counter (swap
history, payments, purchases, recipients, reputation history) is a sequence;
appending past the range of the counter panics.

Check the whole project with `dafny verify dfyconfig.toml`.

| file | contents |
|---|---|
| Common.dfy | panics, machine integers, sums over maps and sequences, index lists |
| SquareRoot.dfy | both Newton loops and the laws of the integer root |
| LiquidityPool.dfy | the pool |
| PoolEffects.dfy | what each call of the pool does, in figures |
| PoolHolders.dfy | what a run of the pool leaves to the holders of its shares |
| Voting.dfy | proposals and votes |
| Royalty.dfy | royalty splits and balances |
| Nft.dfy, Linkage.dfy | NFTs, and the credentials linked to them |
| Reputation.dfy | scores, decay and the leaderboard |
| Analytics.dfy | progress, indexes and milestones |
| Buyback.dfy | the buyback reserve |

## Where the code and its documentation part

* `integer_sqrt` is commented as safe for all non-negative i128 values
  (voting.rs:487). Its first addition overflows for the largest one, and only
  for that one; the pool's loop has the same single exception.
* The fee constant of the swap is documented as 3/1000 (swap.rs:9-10). The code
  books the other 997 parts as the fee and trades on the 3 parts
  (`BookedFeeIsThreePerMilleOnlyForOneUnit`).
* The pool accepts deposits and removals that its accounting cannot carry: a
  first deposit below the minimum liquidity, an unbalanced later deposit, a
  removal beyond the supply, a removal of a negative amount
  (`SmallFirstDepositRun`, `UnbalancedDepositRun`, `ExcessRemovalRun`,
  `NegativeRemovalRun`, all from initialisation). The model keeps the code's
  behaviour. `Sound` is the condition under which neither reserve falls behind
  TotalLiquidity, and `SoundExactly` and `SoundRunExactly` prove that it is the
  exact one.
* A removal is not compared with the balance of its caller, so a sound run can
  take another holder's shares (`ForeignRemovalRun`), and a drain zeroes the
  supply but not the balances (`DrainedRun`). `Rightful` adds both conditions;
  it is exact (`RightfulExactly`, `RightfulRunExactly`), and under it a holder
  that does nothing keeps its shares, and the product of the reserves behind
  them does not fall (`IdleHolderKept`).
* Collecting fees is meant to reset them. The stored zero is an i32, so every
  later swap and collection panics on reading it (`CollectionStopsSwaps`). It
  is stored exactly when the collected fees are positive (`CollectionExactly`,
  `UntypedExactly`), so from initialisation exactly when a collection follows
  an accepted swap of two units or more (`InitialUntyped`); `CollectionRun` is
  such a run.
* A stored decay leaves the stored level as it was, so the level in a record
  can disagree with its score (`StaleLevelRun`, and exactly when in
  `StaleLevelExactly`); and the leaderboard ranks stored scores, which can
  disagree with the current ones (`OvertakenRun`, `LeaderboardCurrentExactly`).
* The royalty tests speak of rounding dust that is lost. The code gives it to
  the platform (`SharesAddUp`); what can be lost is the contributor share of a
  course with one recipient (`OneRecipientRun`, and exactly when in
  `WholePaymentAllocatedExactly`).
* The buyback document lists a non-negative reserve (INV-4) and a consistent
  spend total (INV-6) without conditions. Both fail on runs from initialisation
  (`NegativeFloorRun`, `OverflowingSpendRun`). The first holds exactly when a
  manual purchase is within the reserve, and an automatic one has a
  non-negative floor or a cap within the reserve (`PurchaseExact`); the second,
  for spends that are not negative, when their sum is within i128
  (`ReportedSpentExact`).

## Model

| member | source | states |
|---|---|---|
| SquareRoot.NewtonStep | contracts/governance/src/voting.rs:497-499 | from any positive estimate one Newton step lands at or above the floor root, and stops going down only at or below it |
| SquareRoot.PoolSqrt | contracts/liquidity_pool/src/pool.rs:158-167 | terminates with the exact floor root for every non-negative input but the largest i128, with every stored value and sum inside i128; panics only on the largest i128; returns a negative input unchanged |
| SquareRoot.IntegerSqrt | contracts/governance/src/voting.rs:486-503 | terminates with the same exact floor root, zero for negative inputs, no intermediate outside i128; panics exactly on the largest i128, which the comment at line 487 calls safe |
| SquareRoot.RootMonotone | contracts/governance/src/voting.rs:475-503 | a larger balance never has a smaller quadratic weight |
| SquareRoot.RootAtMostArgument | contracts/governance/src/voting.rs:475-503 | the quadratic weight never exceeds the weighted one and equals it only for balances 0 and 1 |
| SquareRoot.RootSubadditive | contracts/governance/src/voting.rs:475-503 | splitting a balance in two never loses quadratic weight |
| SquareRoot.RootScales | contracts/governance/src/voting.rs:475-503 | multiplying a balance by c² multiplies its weight by c, up to c-1 |
| SquareRoot.SplittingBounds | contracts/governance/src/voting.rs:25-27 | split over any number of accounts, a balance carries at least its unsplit quadratic weight, and at most what an even split gives: the squared total is at most the number of accounts times the balance |
| PoolSafety.ReservesPositive | contracts/liquidity_pool/src/pool.rs:70-75 | in a solvent pool with shares both reserves are positive |
| PoolSafety.DivisionsDefined | contracts/liquidity_pool/src/pool.rs:73-110 | in a solvent pool with shares a quote, a later mint and both payouts of a removal fail only when a product leaves i128, never on a zero divisor |
| PoolSafety.PriceDefined | contracts/liquidity_pool/src/swap.rs:37-41 | for a positive traded part and reserves that are not negative, in either direction and with or without shares, the divisor of the price is positive and the price fails only when the scaled divisor or the product leaves i128 |
| PoolSafety.TradedPart | contracts/liquidity_pool/src/swap.rs:33-35 | the traded part is 3/1000 of the input rounded up and never zero |
| PoolSafety.BookedFeeIsThreePerMilleOnlyForOneUnit | contracts/liquidity_pool/src/swap.rs:9-11 | the booked fee is the 3/1000 that the comment promises exactly when the input is one unit |
| PoolSafety.SwapKeepsProduct | contracts/liquidity_pool/src/swap.rs:33-81 | no accepted swap lowers the product of the reserves; the payout is within the paying reserve and empties a positive one exactly when the receiving reserve was empty |
| PoolSafety.TradesNeverProfit | contracts/liquidity_pool/src/swap.rs:13-94 | over any sequence of swaps in both directions, if one reserve ends at or below its start the other ends at or above its start, and both stay positive |
| PoolArithmetic.SwapProduct | contracts/liquidity_pool/src/swap.rs:37-41 | the product inequality for any traded part between 0 and 1000 times the input, so also for the usual fee formula |
| PoolSafety.BalancedDepositIsSound | contracts/liquidity_pool/src/pool.rs:72-76 | a deposit in at least the ratio of the reserves meets the soundness condition |
| PoolSafety.DepositDilutesExactlyWhenUnsound | contracts/liquidity_pool/src/pool.rs:70-86 | a later deposit into any solvent pool never lowers the A behind a share, and keeps A and B behind a share if and only if minted * ReserveB <= b * TotalLiquidity |
| PoolSafety.FirstDepositExact | contracts/liquidity_pool/src/pool.rs:70-71 | an accepted first deposit leaves the pool solvent if and only if its product is at least MINIMUM_LIQUIDITY², and then the backing is strict |
| PoolSafety.RemovalExact | contracts/liquidity_pool/src/pool.rs:100-132 | for every i128: an accepted removal keeps both reserves in step with a non-negative supply if and only if it is within the supply, or negative with both products divisible by the supply; a non-negative one leaves the pool solvent on the same condition, and one of the whole supply pays out the reserves |
| PoolSafety.SoundStep | contracts/liquidity_pool/src/pool.rs:46-132 | each sound call of any kind keeps the pool solvent, the backing strict and the value behind a share from falling |
| PoolSafety.SoundExactly | contracts/liquidity_pool/src/pool.rs:46-132 | on every solvent pool a call is sound if and only if it leaves a solvent pool (a first deposit) or no less of either asset per unit of TotalLiquidity (a later deposit or a removal, negative ones included); whose shares a removal takes is not part of this |
| PoolSafety.SoundRunExactly | contracts/liquidity_pool/src/pool.rs:46-132 | a run is sound if and only if each of its calls leaves that |
| PoolSafety.SoundRun | contracts/liquidity_pool/src/pool.rs:46-132 | over every run of sound deposits, removals, swaps, collections and drains TotalLiquidity² <= ReserveA * ReserveB, strictly so while shares exist if it was, and ReserveA * ReserveB / TotalLiquidity² never falls while shares exist |
| PoolSafety.InitialSolvent | contracts/liquidity_pool/src/pool.rs:14-44 | so every run of sound calls from initialisation is solvent, and TotalLiquidity² < ReserveA * ReserveB whenever shares exist |
| PoolSafety.SmallFirstDepositRun | contracts/liquidity_pool/src/pool.rs:71 | from initialisation, a first deposit of one unit each mints a supply of -999 |
| PoolSafety.UnbalancedDepositRun | contracts/liquidity_pool/src/pool.rs:72-76 | from initialisation, two accepted deposits after which the shares are not backed |
| PoolSafety.ExcessRemovalRun | contracts/liquidity_pool/src/pool.rs:107-120 | from initialisation, an accepted removal beyond the supply, after which the pool is not solvent |
| PoolSafety.NegativeRemovalRun | contracts/liquidity_pool/src/pool.rs:109-120 | from initialisation, an accepted negative removal after which the shares are not backed |
| PoolSafety.WithdrawalKeepsUp | contracts/liquidity_pool/src/pool.rs:100-132 | after any series of removals each reserve is at least its proportional share of what it was |
| PoolSafety.WithdrawingInPartsPaysNoMore | contracts/liquidity_pool/src/pool.rs:109-120 | taking out L shares in any number of parts pays no more of either asset than the floor of L * reserve / supply; parts that make up the whole supply pay exactly both reserves |
| PoolSafety.DepositThenRemove | contracts/liquidity_pool/src/pool.rs:46-132 | removing the shares just minted returns at most the A put in; at most the B put in if and only if minted * B < b * T + T + minted, so always for sound deposits; and restores supply and balance |
| PoolSafety.QuotedDepositReturns | contracts/liquidity_pool/src/pool.rs:72-76 | a deposit of at least the quote of the contract, rounded down and so not always sound, followed by removing its shares returns at most what was put in of both assets |
| PoolSafety.BookStepBalanced | contracts/liquidity_pool/src/fees.rs:9-45 | each call, accepted or not, keeps the two sums below |
| PoolSafety.BooksBalance | contracts/liquidity_pool/src/fees.rs:9-45 | over every run, unconditionally: user balances sum to TotalLiquidity plus the supply voided by drains, and AccumulatedFees is the sum of the fee fields recorded since the last collection |
| PoolSafety.BalancesAreSupply | contracts/liquidity_pool/src/pool.rs:84-129 | without a drain the user balances sum to TotalLiquidity itself |
| PoolSafety.InitialBooks | contracts/liquidity_pool/src/pool.rs:14-44 | both sums from initialisation on, and balances equal to TotalLiquidity without a drain |
| PoolSafety.CollectionExactly | contracts/liquidity_pool/src/fees.rs:12-27 | a collection leaves the untyped zero if and only if the accumulated fees are positive, or it was there before |
| PoolSafety.UntypedExactly | contracts/liquidity_pool/src/fees.rs:12-27 | a run leaves it if and only if it was there before, or some collection of the run meets positive fees |
| PoolSafety.BookedFeePositive | contracts/liquidity_pool/src/swap.rs:33-35 | an accepted swap raises the accumulated fees if and only if it trades at least two units |
| PoolSafety.UntypedFromNoFees | contracts/liquidity_pool/src/fees.rs:9-28 | from a pool without fees, a run leaves it if and only if an accepted swap of at least two units is followed by a collection |
| PoolSafety.InitialUntyped | contracts/liquidity_pool/src/fees.rs:9-28 | the same from initialisation |
| PoolSafety.CollectionRun | contracts/liquidity_pool/src/fees.rs:26 | from initialisation: a deposit, a swap of 1000 units and a collection, after which every swap is refused |
| PoolSafety.CollectionStopsSwaps | contracts/liquidity_pool/src/fees.rs:26 | once the slot holds the untyped zero no run changes it or the history again, so no swap goes through |
| PoolHolders.RemovalWithinBalanceExactly | contracts/liquidity_pool/src/pool.rs:122-129 | when no balance is negative, an accepted removal keeps it so if and only if it is within the balance of its caller, which the source does not check |
| PoolHolders.OwnRemovalAccepted | contracts/liquidity_pool/src/pool.rs:107-131 | a removal within the balance of its caller is sound, and is accepted if and only if its two products are in range |
| PoolHolders.RightfulExactly | contracts/liquidity_pool/src/pool.rs:46-132 | on a solvent pool whose balances are non-negative and sum to the supply, a call keeps all of this and each asset per unit of supply if and only if a deposit is sound, a removal within the balance (a negative one sound), and a drain meets no shares |
| PoolHolders.RightfulRunExactly | contracts/liquidity_pool/src/pool.rs:46-132 | the same equivalence over runs |
| PoolHolders.RightfulRun | contracts/liquidity_pool/src/pool.rs:46-132 | over every rightful run the pool is solvent, the balances are non-negative and sum to the supply, and so each is at most the supply |
| PoolHolders.InitialHeld | contracts/liquidity_pool/src/pool.rs:14-44 | so it is from initialisation |
| PoolHolders.IdleHolderKept | contracts/liquidity_pool/src/pool.rs:46-132 | over every rightful run of others a holder that neither deposits nor removes keeps its shares, the pool keeps shares throughout, and ReserveA * ReserveB / TotalLiquidity² does not fall |
| PoolHolders.ForeignRemovalRun | contracts/liquidity_pool/src/pool.rs:122-129 | from initialisation, a sound run in which an address without shares takes out the only deposit |
| PoolHolders.DrainedRun | contracts/liquidity_pool/src/fees.rs:40-44 | from initialisation, a drain after which the earlier depositor takes out the deposit of a later one within its own balance |
| PoolEffects.SwapExact | contracts/liquidity_pool/src/swap.rs:33-91 | between non-negative reserves an accepted swap of x trades w, 3/1000 of x rounded up, and answers the out with out * (1000 * rin + w) <= w * rout < (out + 1) * (1000 * rin + w) and out at least the minimum asked for; it moves both reserves, records itself and books x - w as the fee |
| PoolEffects.SwapAcceptedExactly | contracts/liquidity_pool/src/swap.rs:21-91 | which swaps go through, as one condition in figures on the arguments and the storage |
| PoolEffects.FirstDepositMints | contracts/liquidity_pool/src/pool.rs:70-95 | a first deposit goes through exactly in range, and mints the floor root of its product less 1000 to its provider alone |
| PoolEffects.LaterDepositMints | contracts/liquidity_pool/src/pool.rs:72-95 | a later deposit into any pool with a supply has a quote of at least the minimum asked for, and mints a * TotalLiquidity / ReserveA, rounded toward zero and bounded from both sides, to its provider alone |
| PoolEffects.LaterDepositAcceptedExactly | contracts/liquidity_pool/src/pool.rs:72-95 | which later deposits go through, as one condition in figures |
| PoolEffects.RemovalAcceptedExactly | contracts/liquidity_pool/src/pool.rs:107-131 | which removals go through, from any pool |
| PoolEffects.RemovalPays | contracts/liquidity_pool/src/pool.rs:107-131 | an accepted removal of any i128 pays its part of each reserve, rounded toward zero, and moves the balance of its caller alone |
| PoolEffects.CollectAndDrainExact | contracts/liquidity_pool/src/fees.rs:9-45 | a collection touches the fee slot alone; a drain clears both reserves and the supply, marks the pool and leaves the rest |
| PoolEffects.FigureRun | contracts/liquidity_pool/src/swap.rs:33-41 | from initialisation: a deposit of 10^9 each mints 999999000, and a swap of 10^9 in either direction then pays 2999 |
| LiquidityPoolContract.MintFirst | contracts/liquidity_pool/src/pool.rs:70-71 | the first mint through the Newton loop is the floor root minus MINIMUM_LIQUIDITY, panics included |
| LiquidityPoolContract.LiquidityPool.Mint | contracts/liquidity_pool/src/pool.rs:68-76 | the minted shares of a first or a later deposit, panics included |
| LiquidityPoolContract.LiquidityPool.PriceSwap | contracts/liquidity_pool/src/swap.rs:21-43 | every check and price of a swap, with the fee and payout of one that is let through |
| LiquidityPoolContract.LiquidityPool.AddLiquidity | contracts/liquidity_pool/src/pool.rs:46-98 | updates the storage slots to exactly the specified next state with the specified answer, or panics and leaves every slot alone |
| LiquidityPoolContract.LiquidityPool.RemoveLiquidity | contracts/liquidity_pool/src/pool.rs:100-132 | updates the storage slots to exactly the specified next state with the specified answer, or panics and leaves every slot alone |
| LiquidityPoolContract.LiquidityPool.Swap | contracts/liquidity_pool/src/swap.rs:13-94 | updates the storage slots to exactly the specified next state with the specified answer, or panics and leaves every slot alone |
| LiquidityPoolContract.LiquidityPool.CollectFees | contracts/liquidity_pool/src/fees.rs:9-28 | updates the storage slots to exactly the specified next state with the specified answer, or panics and leaves every slot alone |
| LiquidityPoolContract.LiquidityPool.GetSwapHistory | contracts/liquidity_pool/src/swap.rs:96-119 | returns exactly the page of the history from start, at most limit long |
| VotingSafety.WeightLaws | contracts/governance/src/voting.rs:475-484 | a weighted vote weighs its balance, a quadratic one the floor root of it, a flat one 1 for a positive balance and 0 for none; under every strategy the weight is monotone in the balance and at most the weighted one; it is undefined exactly for the quadratic strategy at the largest i128 |
| VotingSafety.TallyOfNewRecord | contracts/governance/src/voting.rs:274-303 | a new vote record adds its weight to its own side of its own proposal only |
| VotingSafety.PendingCannotPass | contracts/governance/src/voting.rs:345-346 | a pending proposal, having no votes, cannot succeed whatever the quorum |
| VotingSafety.StepKeepsConsistent | contracts/governance/src/voting.rs:130-415 | every call keeps: tallies equal the sums of the stored votes, votes lie in their windows, succeeded or executed proposals met quorum and strict majority |
| VotingSafety.RunKeepsConsistent | contracts/governance/src/voting.rs:130-415 | so does every run of calls |
| VotingSafety.ReachableConsistent | contracts/governance/src/voting.rs:130-415 | in every state reachable from the empty contract |
| VotingSafety.OnlyVotesCount | contracts/governance/src/voting.rs:322-415 | no call but a vote changes anything of a stored proposal except its state, or any record |
| VotingSafety.StepMovesForward | contracts/governance/src/voting.rs:225-415 | one call moves a proposal only along the lifecycle edges (never from Pending to Succeeded), never touches its terms or a vote already cast, and never the tallies of a closed proposal |
| VotingSafety.RunMovesForward | contracts/governance/src/voting.rs:225-415 | the same over every run |
| VotingSafety.WindowClosesTallies | contracts/governance/src/voting.rs:243-254 | once the ledger has reached the end of the window no run changes tallies or votes, finalised or not |
| VotingSafety.ExecutedAtMostOnce | contracts/governance/src/voting.rs:368-391 | over every run a proposal is executed at most once, at a ledger no earlier than its timelock and its voting end, with quorum and majority met by the final tallies |
| VotingSafety.CreateExact | contracts/governance/src/voting.rs:130-211 | which proposals are accepted, and what a new one holds: a window that opens after the delay, capped at the largest u32, the quorum as its hundredths of the supply rounded toward zero, and no votes |
| VotingSafety.NoVoteBeforeDelay | contracts/governance/src/voting.rs:157-254 | whatever happens after a proposal was created, each of its votes was cast after the delay had passed and before its end |
| VotingSafety.CastExact | contracts/governance/src/voting.rs:225-306 | which votes are accepted, and that one adds its weight to its own side, stores one record and makes the proposal active |
| VotingSafety.FinaliseDecides | contracts/governance/src/voting.rs:322-365 | a finalisation is accepted exactly for an open proposal past its end whose stored votes add up within i128; it answers true and stores Succeeded if and only if the stored votes reach the quorum and those in favour outweigh those against, and Defeated otherwise |
| VotingSafety.InitialFinalise | contracts/governance/src/voting.rs:345-348 | the same decision in every state reachable from the empty contract |
| VotingSafety.StoredOutcome | contracts/governance/src/voting.rs:345-391 | in every such state a succeeded or executed proposal has stored votes that reach the quorum with a strict majority in favour, and a defeated one has not |
| VotingSafety.CloseExact | contracts/governance/src/voting.rs:368-415 | when an execution and a cancellation go through, and that they change one state alone |
| VotingSafety.CarriedIsExecuted | contracts/governance/src/voting.rs:322-391 | a proposal carried at its finalisation can be executed from its timelock on; one that is not stays defeated over every later run |
| VotingSafety.QuorumInRange | contracts/governance/src/lib.rs:165-171 | over every run the quorum percentage stays between 1 and 100 |
| VotingSafety.SettingsExact | contracts/governance/src/lib.rs:151-178 | each setting is what its setter was last given, and no setter touches a proposal |
| VotingSafety.DefaultQuorumRun | contracts/governance/src/voting.rs:157-175 | under the defaults one vote of weight 1 is short of the quorum of 2 * 10^14, and the proposal is defeated |
| VotingSafety.AcceptedPairSwaps | contracts/governance/src/voting.rs:256-306 | two accepted ballots are accepted in the other order with the same storage, overflow checks included |
| VotingSafety.BallotOrderIrrelevant | contracts/governance/src/voting.rs:225-365 | two lists of ballots that agree as multisets of voter, side and balance, each cast at any ledgers inside the window, are accepted together; they leave the same proposals and the same votes up to the ledger each was cast at, and finalising then gives the same acceptance and answer at every ledger |
| VotingSafety.RunsAgreeOnBallots | contracts/governance/src/voting.rs:225-365 | the same for runs of the contract from any consistent state, so from any reachable one |
| VotingSafety.ReorderedBallotsAgree | contracts/governance/src/voting.rs:225-315 | a permutation that keeps each ballot at its ledger leaves identical storage, or is rejected as well |
| VotingContract.ComputeWeight | contracts/governance/src/voting.rs:475-484 | the weight computed through the Newton loop is the specified one |
| VotingContract.Voting.CreateProposal | contracts/governance/src/voting.rs:130-211 | commits exactly the specified next storage and answer, or panics and changes nothing |
| VotingContract.Voting.CastVote | contracts/governance/src/voting.rs:225-315 | commits exactly the specified next storage and answer, or panics and changes nothing |
| VotingContract.Voting.FinaliseProposal | contracts/governance/src/voting.rs:322-365 | commits exactly the specified next storage and answer, or panics and changes nothing |
| VotingContract.Voting.ExecuteProposal | contracts/governance/src/voting.rs:368-391 | commits exactly the specified next storage and answer, or panics and changes nothing |
| RoyaltySafety.SharesAddUp | contracts/royalty_distribution/src/lib.rs:126-131 | the three shares are non-negative and add up to the payment; the platform gets its floored percentage plus at most two, exactly the remainders of the other two floors |
| RoyaltySafety.CreditsAreEarnings | contracts/royalty_distribution/src/lib.rs:133-187 | whichever slots name the same address, each address is credited with the sum of its slots' shares |
| RoyaltySafety.CreditsMoveSum | contracts/royalty_distribution/src/lib.rs:133-187 | the balances together rise by the three shares, less the contributor share when there is one recipient |
| RoyaltySafety.WholePaymentAllocatedExactly | contracts/royalty_distribution/src/lib.rs:149-187 | a distribution allocates the whole payment if and only if there are two recipients or the contributor share rounds to zero |
| RoyaltySafety.BookStepConserves | contracts/royalty_distribution/src/lib.rs:55-234 | every call keeps the conservation equation and non-negative balances |
| RoyaltySafety.MoneyConserved | contracts/royalty_distribution/src/lib.rs:55-234 | over every run, unconditionally: balances + withdrawals + contributor shares of one-recipient payments = payments |
| RoyaltySafety.NothingLostWithTwoRecipients | contracts/royalty_distribution/src/lib.rs:111-234 | with at least two recipients on each distributing course, balances + withdrawals = payments |
| RoyaltySafety.InitialConserved | contracts/royalty_distribution/src/lib.rs:46-53 | the conservation equation on every run from initialisation |
| RoyaltySafety.InitialNothingLost | contracts/royalty_distribution/src/lib.rs:46-53 | from initialisation with two recipients, nothing is lost |
| RoyaltySafety.OneRecipientRun | contracts/royalty_distribution/src/lib.rs:133-187 | from initialisation, a payment of 100 to a course with one recipient of which 50 reach nobody |
| RoyaltySafety.EachAddressConserved | contracts/royalty_distribution/src/lib.rs:111-234 | for each address on its own, balance + withdrawals = what its slots earned |
| RoyaltySafety.SlotsInCallOrder | contracts/royalty_distribution/src/lib.rs:88-109 | over every run the recipients of a course are its earlier ones followed by those of the accepted calls, in call order |
| RoyaltySafety.SplitsInForce | contracts/royalty_distribution/src/lib.rs:55-86 | over every run the split of a course is the last one set whose percentages make 100 |
| RoyaltySafety.SettingsExact | contracts/royalty_distribution/src/lib.rs:55-109 | when a split and a recipient are accepted, and that each changes one course |
| RoyaltySafety.DistributionExact | contracts/royalty_distribution/src/lib.rs:111-214 | an accepted payment credits the first recipient with the creator floor, the second with the contributor floor and the last with what these leave, and is recorded |
| RoyaltySafety.DistributionAcceptedExactly | contracts/royalty_distribution/src/lib.rs:111-214 | which payments go through when no balance is negative, as one condition in figures |
| RoyaltySafety.PaymentAfterRun | contracts/royalty_distribution/src/lib.rs:88-214 | from initialisation: after any run, the first recipient added earns the creator share of the split in force, the second the contributor share and the last the platform share |
| RoyaltySafety.WithdrawExact | contracts/royalty_distribution/src/lib.rs:216-234 | a withdrawal goes through exactly for a positive balance, pays all of it and moves no other |
| RoyaltySafety.ThreeRecipientsRun | contracts/royalty_distribution/src/lib.rs:88-234 | from initialisation, a split of 70, 20 and 10 of 1000 in which the first added recipient withdraws 700 |
| RoyaltySafety.CourseTotalIsPaid | contracts/royalty_distribution/src/lib.rs:262-284 | over every run the queried total of a course is what its accepted payments brought |
| RoyaltyContract.RoyaltyDistribution.AddRoyaltyRecipient | contracts/royalty_distribution/src/lib.rs:88-109 | commits exactly the specified next storage and answer, or panics and changes nothing |
| RoyaltyContract.RoyaltyDistribution.DistributeRoyalties | contracts/royalty_distribution/src/lib.rs:111-214 | commits exactly the specified next storage and answer, or panics and changes nothing |
| RoyaltyContract.RoyaltyDistribution.WithdrawRoyalties | contracts/royalty_distribution/src/lib.rs:216-234 | commits exactly the specified next storage and answer, or panics and changes nothing |
| RoyaltyContract.RoyaltyDistribution.CreditSlots | contracts/royalty_distribution/src/lib.rs:133-187 | the slot-by-slot credits reach the specified balances, or panic |
| RoyaltyContract.RoyaltyDistribution.GetTotalDistributed | contracts/royalty_distribution/src/lib.rs:262-284 | the scan returns the sum of the course's payments; for positive payments it panics exactly when that sum is out of range |
| NftSafety.MintKeepsIndexed | contracts/nft/src/lib.rs:78-145 | a mint keeps the index exact and its id was never live nor burned |
| NftSafety.TransferKeepsIndexed | contracts/nft/src/lib.rs:147-197 | a transfer, to oneself included, keeps the index exact |
| NftSafety.BurnKeepsIndexed | contracts/nft/src/lib.rs:304-337 | a burn keeps the index exact |
| NftSafety.BuyKeepsIndexed | contracts/nft/src/lib.rs:387-415 | a sale keeps the index exact |
| NftSafety.RunKeepsIndexed | contracts/nft/src/lib.rs:78-415 | over every run each live id is in its owner's list exactly once and in no other, metadata owner equals the owner map, only live ids are listed for sale, and the ids below the counter are partitioned into live and burned |
| NftSafety.InitialIndexed | contracts/nft/src/lib.rs:63-71 | in every state reachable from initialisation |
| NftSafety.MintsCountUp | contracts/nft/src/lib.rs:93-122 | the ids handed out over a run are consecutive from the counter |
| NftSafety.NeverReissued | contracts/nft/src/lib.rs:78-337 | no run reissues an id, and a burned id stays without owner, metadata, listing and list entry |
| NftSafety.SaleExact | contracts/nft/src/lib.rs:387-415 | a listed id is sold if and only if the seller owns it at that moment and the royalty product is in range; the royalty is the floor of the price times the basis over 10000, and royalty and seller amount add up to the price |
| NftSafety.MintExact | contracts/nft/src/lib.rs:78-145 | which mints are accepted, and that one stores its terms under the next id and puts that last on its owner's list |
| NftSafety.TransferExact | contracts/nft/src/lib.rs:147-197 | a transfer goes through exactly for the owner, takes the id out of the old list in its order and puts it last on the new one |
| NftSafety.BurnExact | contracts/nft/src/lib.rs:304-337 | a burn goes through exactly for the owner and removes the id from every place |
| NftSafety.ListingExact | contracts/nft/src/lib.rs:343-385 | when listing and delisting go through, and that each changes one listing |
| NftSafety.BuyIsTransfer | contracts/nft/src/lib.rs:387-400 | a sale is the transfer from the lister with the listing gone |
| NftSafety.MintTermsKept | contracts/nft/src/lib.rs:78-415 | over every run a live id keeps the course, name, date and royalty basis of its mint |
| NftContracts.NftContract.MintCourseNft | contracts/nft/src/lib.rs:78-145 | commits exactly the specified next storage and answer, or panics and changes nothing |
| NftContracts.NftContract.TransferNft | contracts/nft/src/lib.rs:147-197 | commits exactly the specified next storage and answer, or panics and changes nothing |
| NftContracts.NftContract.BurnNft | contracts/nft/src/lib.rs:304-337 | commits exactly the specified next storage and answer, or panics and changes nothing |
| NftContracts.NftContract.BuyNft | contracts/nft/src/lib.rs:387-415 | commits exactly the specified next storage and answer, or panics and changes nothing |
| LinkageSafety.StepKeepsLinked | contracts/credential_metadata/src/linkage.rs:72-137 | issuing, unlinking and any NFT call keep both link maps telling the same pairs |
| LinkageSafety.LookupsInverse | contracts/credential_metadata/src/linkage.rs:141-149 | over every run of issues, unlinks and NFT calls, a credential looks up an NFT if and only if the NFT looks up the credential |
| LinkageSafety.InitialLookups | contracts/credential_metadata/src/linkage.rs:141-149 | from the empty contracts on |
| LinkageSafety.UnlinkUndoesIssue | contracts/credential_metadata/src/linkage.rs:72-137 | issue then unlink restores both link maps and leaves the minted NFT in place |
| LinkageSafety.IssueExact | contracts/credential_metadata/src/linkage.rs:72-122 | when an issue goes through, and that it is the mint and one link made then |
| LinkageSafety.UnlinkExact | contracts/credential_metadata/src/linkage.rs:125-137 | an unlinking goes through exactly for a linked credential and changes no other lookup and no NFT |
| LinkageContract.CredentialLinkage.IssueAndMintNft | contracts/credential_metadata/src/linkage.rs:72-122 | commits in both contracts, or in neither |
| LinkageContract.CredentialLinkage.Unlink | contracts/credential_metadata/src/linkage.rs:125-137 | removes the two links, or panics without one |
| ReputationSafety.LevelFormula | contracts/reputation/src/reputation.rs:16-96 | the level is 1 + min(4, floor root of score/100) for every non-negative score |
| ReputationSafety.LazyIsEager | contracts/reputation/src/lib.rs:154-208 | the lazily read score equals what an accepted eager decay stores at that ledger, for any configuration, and reading again changes nothing |
| ReputationSafety.DecayIsLinear | contracts/reputation/src/reputation.rs:113-119 | with a non-positive rate saturation never shows: the score drops by the rate per whole interval, down to zero |
| ReputationSafety.OneDecayBetween | contracts/reputation/src/reputation.rs:100-120 | one decay in between never lowers the final score and raises it by at most one interval's worth |
| ReputationSafety.EagerDecaysNeverCost | contracts/reputation/src/lib.rs:172-208 | any eager decays at any earlier ledgers never lower the final score and raise it by at most one interval's worth each |
| ReputationSafety.RunKeepsRecords | contracts/reputation/src/lib.rs:99-208 | under non-positive rates records stand under their users, scores stay non-negative and a stored level is never below the level of the stored score |
| ReputationSafety.LevelOfLastGiven | contracts/reputation/src/lib.rs:99-208 | over every run and under any configuration a stored level is the level of the score last given by an update or a slash |
| ReputationSafety.StaleLevelExactly | contracts/reputation/src/lib.rs:172-208 | so it disagrees with the stored score if and only if an upper threshold lies between that score and the one last given |
| ReputationSafety.ScoreBelowLastGiven | contracts/reputation/src/lib.rs:172-208 | under non-positive rates the stored score is at most the one last given |
| ReputationSafety.StaleLevelRun | contracts/reputation/src/lib.rs:181-185 | from initialisation, a stored decay that leaves a score of 99 with level 2 |
| ReputationSafety.UpdateExact | contracts/reputation/src/lib.rs:99-152 | which updates are accepted, and that the score that can be read at that ledger becomes the one that could be read before plus the change, no lower than zero, so the decay due is taken off first; one more update and one more entry of that user, and no other record |
| ReputationSafety.ApplyDecayExact | contracts/reputation/src/lib.rs:172-208 | a decay stores the score that can be read, the ledger and an entry with the difference, or nothing when there is none |
| ReputationSafety.SlashExact | contracts/reputation/src/reputation.rs:57-85 | a slash takes its amount off the stored score, between zero and the largest i128, and neither records an entry nor moves the total |
| ReputationSafety.DecayClampsOnce | contracts/reputation/src/reputation.rs:100-120 | at any rate the decayed score is the exact one clamped once between zero and the largest i128, and only score and ledger change |
| ReputationSafety.DecayOffExact | contracts/reputation/src/reputation.rs:110-115 | a disabled decay changes nothing, and one with a zero interval panics |
| ReputationSafety.ConfigExact | contracts/reputation/src/lib.rs:210-213 | the decay configuration is the one last set, and setting it changes nothing else |
| ReputationSafety.TotalIsRecorded | contracts/reputation/src/lib.rs:129-204 | over every run the stored total is the sum of all recorded changes of all users |
| ReputationSafety.InitialTotal | contracts/reputation/src/lib.rs:129-204 | so it is from initialisation |
| ReputationSafety.DecayedUpdateRun | contracts/reputation/src/lib.rs:110-127 | from initialisation, a score of 200 that an update of 10 after 100 intervals turns into 110 |
| ReputationSafety.BoardIsUpdatedUsers | contracts/reputation/src/lib.rs:293-301 | over every run the board holds each user of an accepted update exactly once, and nobody else |
| ReputationSafety.CollectedIsComplete | contracts/reputation/src/lib.rs:261-266 | the leaderboard starts from one record per board user |
| ReputationSafety.LeaderboardCurrentExactly | contracts/reputation/src/lib.rs:154-291 | the leaderboard, which ranks stored scores, is in the order of the scores that `get_reputation` answers if and only if nobody is overtaken: no record below leads in unstored decay by more than it trails in stored score, with a positive score left |
| ReputationSafety.OvertakenRun | contracts/reputation/src/lib.rs:154-291 | from initialisation, two updates after which the first of the board has the lower current score |
| Ranking.SwapNeighbours | contracts/reputation/src/lib.rs:274-279 | a swap of unequal neighbours keeps the order within every score |
| Ranking.SortByScore | contracts/reputation/src/lib.rs:268-284 | the in-place insertion sort ends in the stable descending order of its input |
| Ranking.StableDescendingUnique | contracts/reputation/src/lib.rs:268-284 | that order is unique, so the result of the sort is determined |
| Ranking.NothingOmittedBeats | contracts/reputation/src/lib.rs:286-290 | no record below the limit has a higher score than one above it |
| ReputationContract.LevelOf | contracts/reputation/src/reputation.rs:89-96 | the reverse scan of the threshold table finds the level |
| ReputationContract.ReputationStore.UpdateReputation | contracts/reputation/src/lib.rs:99-152 | commits exactly the specified next storage, or panics and changes nothing |
| ReputationContract.ReputationStore.ScoredRecord | contracts/reputation/src/lib.rs:110-127 | the record after the decay due and the change, with its level and counters, or a panic |
| ReputationContract.ReputationStore.ApplyDecay | contracts/reputation/src/lib.rs:172-208 | commits exactly the specified next storage, or panics and changes nothing |
| ReputationContract.ReputationStore.Slash | contracts/reputation/src/reputation.rs:57-85 | commits exactly the specified next storage, or panics and changes nothing |
| ReputationContract.ReputationStore.DecayRecord | contracts/reputation/src/reputation.rs:100-120 | the decay of a record, with the panic for a zero interval |
| ReputationContract.ReputationStore.GetReputation | contracts/reputation/src/lib.rs:154-162 | the decayed score, zero for an unknown user |
| ReputationContract.ReputationStore.GetLeaderboard | contracts/reputation/src/lib.rs:256-291 | the first min(limit, n) records of the stable descending order of the board's records |
| AnalyticsSafety.RecordKeepsIndexed | contracts/analytics/src/lib.rs:196-232 | recording keeps the forward index exact and the reverse index duplicate-free and covering |
| AnalyticsSafety.ResetKeepsIndexed | contracts/analytics/src/lib.rs:251-273 | so does a reset, which leaves the reverse index stale |
| AnalyticsSafety.RunKeepsIndexed | contracts/analytics/src/lib.rs:168-273 | over every run of records and resets |
| AnalyticsSafety.CourseProgressExact | contracts/analytics/src/lib.rs:486-499 | a course query returns each existing record of the course exactly once despite stale entries |
| AnalyticsSafety.AllProgressExact | contracts/analytics/src/lib.rs:290-313 | a student query returns each of the student's records exactly once and skips nothing |
| AnalyticsSafety.AchieveIsReached | contracts/analytics/src/lib.rs:328-348 | milestones up to an earlier best, after a new progress, are those up to the larger of the two |
| AnalyticsSafety.ReachedIsPrefix | contracts/analytics/src/lib.rs:320 | these are the prefix of [25, 50, 75, 100] up to the best |
| AnalyticsSafety.HistoryRemembered | contracts/analytics/src/lib.rs:168-354 | over every run, across resets, achieved milestones are those up to the largest progress ever recorded, and the reverse index holds exactly the students that ever had a progress in the course |
| AnalyticsSafety.InitialHistory | contracts/analytics/src/lib.rs:168-354 | from the empty contract on |
| AnalyticsSafety.RunKeepsTimes | contracts/analytics/src/lib.rs:329-338 | a milestone has a time if and only if it is achieved, and no run overwrites a time |
| AnalyticsSafety.RecordIsLatest | contracts/analytics/src/lib.rs:168-273 | over every run a record holds the percentage and the time of the last accepted record since the last reset |
| AnalyticsSafety.InitialRecord | contracts/analytics/src/lib.rs:168-273 | from the empty contract on there is a record exactly when there was one since the last reset, complete if and only if its percentage is 100 |
| AnalyticsSafety.RecordExact | contracts/analytics/src/lib.rs:186-235 | a record is refused exactly above 100 percent; a new course and a new student come last on their lists, and nothing of another student or course changes |
| AnalyticsSafety.ResetExact | contracts/analytics/src/lib.rs:251-273 | a reset removes the record and takes the course out of the student's list in its order, and leaves the rest |
| AnalyticsSafety.TimeIsFirst | contracts/analytics/src/lib.rs:328-348 | over every run the time of a milestone is that of the first accepted record that reached it |
| AnalyticsSafety.InitialTimes | contracts/analytics/src/lib.rs:328-348 | so it is from the empty contract, for 25, 50, 75 and 100 |
| AnalyticsContract.AnalyticsStore.RecordProgress | contracts/analytics/src/lib.rs:168-248 | commits exactly the specified next storage, or panics and changes nothing |
| AnalyticsContract.AnalyticsStore.ResetProgress | contracts/analytics/src/lib.rs:251-273 | commits exactly the specified next storage, or panics and changes nothing |
| AnalyticsContract.AnalyticsStore.CheckMilestones | contracts/analytics/src/lib.rs:319-354 | the loop over the milestones reaches the specified list and times |
| AnalyticsContract.AnalyticsStore.GetCourseProgress | contracts/analytics/src/lib.rs:486-499 | the loop returns the specified records |
| AnalyticsContract.AnalyticsStore.GetAllProgress | contracts/analytics/src/lib.rs:290-313 | the loop returns the specified records |
| AnalyticsContract.AnalyticsStore.GetCourseAverageProgress | contracts/analytics/src/lib.rs:514-524 | the floored average, at most 100, and 100 if and only if every record is completed |
| BuybackSafety.BstMonotone | contracts/buyback/src/invariant_tests.rs:35-39 | INV-5 for every i128 amount, negative ones included: more XLM never buys less at a non-negative price; at a negative one the order turns |
| BuybackSafety.ExecuteIsFair | contracts/buyback/src/lib.rs:399-459 | a purchase appends one record, moves reserve and total by its fields, buys no more than its price allows, and at a nonzero price its scaled spend fits an i128 |
| BuybackSafety.PurchaseRespectsFloor | contracts/buyback/src/lib.rs:180-253 | INV-4 strengthened: a purchase of either kind leaves the reserve at or above the floor, and an automatic one waits out the interval |
| BuybackSafety.PurchaseExact | contracts/buyback/src/lib.rs:206-253 | INV-4 exactly: a manual purchase leaves the reserve non-negative if and only if it asks for no more than the reserve, an automatic one if and only if the floor is non-negative or the cap is within the reserve |
| BuybackSafety.NegativeFloorRun | contracts/buyback/src/invariant_tests.rs:29-33 | from initialisation, two accepted calls that leave a reserve of -100: INV-4 is not unconditional |
| BuybackSafety.StepAccounts | contracts/buyback/src/lib.rs:180-459 | each call keeps the two sums below |
| BuybackSafety.TreasuryConserved | contracts/buyback/src/invariant_tests.rs:8-21 | INV-1 and INV-2 over every run, unconditionally: deposits = reserve + recorded spends, and the BST total = recorded purchases |
| BuybackSafety.InitialTreasury | contracts/buyback/src/invariant_tests.rs:8-21 | from initialisation, deposits = reserve + recorded spends |
| BuybackSafety.ReserveNeverNegative | contracts/buyback/src/invariant_tests.rs:29-33 | INV-4 over every run with non-negative floors |
| BuybackSafety.ReportedSpentExact | contracts/buyback/src/lib.rs:309-321 | INV-6 for any spends: the running total is the sum all along if and only if every prefix sum is in range; when no spend is negative, the reported total is the sum if and only if the sum is in range |
| BuybackSafety.OverflowingSpendRun | contracts/buyback/src/invariant_tests.rs:41-46 | from initialisation, two purchases whose spends the report does not add up: INV-6 is not unconditional |
| BuybackSafety.NoSpendSkipped | contracts/buyback/src/lib.rs:309-331 | when the reported total and every recorded spend can be scaled within i128, no addition was skipped and the report is the sum |
| BuybackSafety.BoughtAtLeastAt | contracts/buyback/src/lib.rs:376-381 | what was bought at prices of at least a minimum is worth no more at that minimum than was spent |
| BuybackSafety.AverageNotBelowSmallestPrice | contracts/buyback/src/lib.rs:327-331 | when any BST was bought, at positive prices for spends that are not negative, an analytics call that answers reports the exact sum of the spends and an average price no lower than the smallest recorded one |
| BuybackSafety.AverageOverRuns | contracts/buyback/src/lib.rs:327-331 | the same over every run from initialisation |
| BuybackSafety.PurchaseFigures | contracts/buyback/src/lib.rs:206-459 | every purchase: a manual one spends what was asked, an automatic one what is above the floor up to the cap; for a non-negative spend at a positive price it buys the cap, or the q with q * price <= spent * 1000000 < (q + 1) * price when that is less; and all that it changes |
| BuybackSafety.OnePricedAmount | contracts/buyback/src/lib.rs:376-381 | there is just one such amount |
| BuybackSafety.CheckBuysExactly | contracts/buyback/src/lib.rs:180-229 | when an automatic purchase is made, and when the call panics, in figures |
| BuybackSafety.ManualBuysExactly | contracts/buyback/src/lib.rs:231-253 | when a manual purchase is made, of a negative amount or at a negative price too, and that the call panics otherwise |
| BuybackSafety.OtherCallsExact | contracts/buyback/src/lib.rs:135-274 | a deposit adds its positive amount, a setting is what it was last given, and nothing else moves outside purchases |
| BuybackSafety.ReportExact | contracts/buyback/src/lib.rs:287-340 | the report counts the purchases, gives their latest time, and an average that is the floor of the reported spend times 1000000 over the BST bought |
| BuybackSafety.DefaultsRun | contracts/buyback/src/lib.rs:94-133 | under the defaults: no purchase before ledger 1000 or at a price of 1000, 99900 BST for the first 100 above the floor of 10^10 at a price of 1001, and no more than 10^14 at once |
| BuybackContract.BuybackStore.CheckAndExecuteBuyback | contracts/buyback/src/lib.rs:180-229 | commits exactly the specified next storage, or panics and changes nothing |
| BuybackContract.BuybackStore.ManualBuyback | contracts/buyback/src/lib.rs:231-253 | commits exactly the specified next storage, or panics and changes nothing |
| BuybackContract.BuybackStore.ExecuteBuyback | contracts/buyback/src/lib.rs:399-459 | commits exactly the specified next storage, or panics and changes nothing |
| BuybackContract.BuybackStore.GetBuybackAnalytics | contracts/buyback/src/lib.rs:287-340 | the history scan returns the specified report, skipping additions that would overflow |

## Left out

- Authorisation: `require_auth`, admin and authorised-caller checks are taken as met by the caller; the calls of a run are the authorised ones.
- Host plumbing: events, time-to-live, storage key encoding, and the uninitialised state before `initialize`.
- Token transfers, the oracle and the DEX: a voter's balance and the BST price are arguments, as are ledger numbers and timestamps.
- Titles and descriptions of proposals, token and contract addresses in configurations, and the pool id of the DEX: stored and never read by the modelled code.
- PoolSafety.SoundExactly: for later deposits and removals the equivalence is about the assets per unit of TotalLiquidity. An unsound deposit or negative removal in a pool with more than enough backing may still leave TotalLiquidity² <= ReserveA * ReserveB; the runs above show that it need not.
- Delegation, checkpoints, `get_voting_power` and the legacy proposals of the governance contract: they do not affect the tallies of the modelled proposals.
- Access rights of NFTs: a flag that is set and removed and that nothing else reads.
- `TotalReputation` as a sum of scores: the contract neither clamps it nor updates it when slashing. It is proved to be the sum of the recorded changes.
- Getters that only read one slot, paging helpers, `get_pool_stats`, `update_aggregates`, and the filters over a student's records.
- The other contracts (market, escrow, badges, certificate, grants, dispute, scholarship fund, registry, token, shared multisig) and the TypeScript applications.
