# Canopy: consensus, cross-chain exchange and token ledger

This project models three connected parts of a Canopy blockchain node and proves what holds of them over every
run.

**Consensus.** NestBFT is a leader-driven protocol: replicas vote for a proposal, lock on it once a two-thirds
certificate for it exists, and commit on a second certificate. `bft.dfy` gives one replica, as a class whose
methods are the phases and as the function the class is proved equal to; `agreement.dfy` builds runs of a whole
committee out of that function, with a Byzantine minority that signs anything and messages that are lost,
reordered and repeated; `fork.dfy` shows what follows when more is sent than the checks are meant to let through; `votes.dfy`,
`pacemaker.dfy` and `evidence.dfy` are the leader's bookkeeping of votes, the pacemaker's reading of the view messages,
and the conviction of double signers.

**Exchange.** Two chains exchange locked batches of orders, withdrawals and deposits. Each executes the other's
batch, replays its own from the receipts, and keeps a shadow of the other's reserve. `points.dfy` and `amm.dfy` are
the arithmetic of liquidity points and reserves, `pipeline.dfy` is a chain's step of the protocol, `twochain.dfy`
the runs of two chains in which any batch ever shown may be delivered again, `dex.dfy` and `dexhandlers.dfy` the
handlers over a ledger, `payees.dfy` who is paid what by them and when they go through, `escrow.dfy` what they keep
of the ledger, and `twoledgers.dfy` carries the two-chain theorems down to two chains with real ledgers.

**Ledger.** `ledger.dfy` holds accounts, numbered pools, stakes and the supply record that is kept beside them;
`machine.dfy` is the state machine object; `tokens.dfy`, `swap.dfy`, `slashing.dfy`, `rewards.dfy` and
`emission.dfy` are the handlers that move, escrow, burn and mint; `genesis.dfy` loads the first state from a file;
`blocks.dfy` is the application of a list of transactions; and `solvency.dfy` interleaves every kind of token
movement in one run.

Handlers that change state are methods on the state machine, proved equal to a function of the state; the theorems
are about those functions and about runs built from them. Unsigned 64-bit arithmetic is written out: guarded sums
fail, unguarded ones are taken modulo 2^64.

## Main results

- **Agreement, exactly.** All committees with a Byzantine minority agree in all runs if and only if none of six
  things is ever sent, each of which the coded checks let through and each of which has its run of disagreement: a
  PROPOSE that shares exactly one of its two hashes (block, results) with its `HighQc` (the comment at bft/bft.go:691
  asks for both, line 692 rejects only when both differ); a `HighQc` that no quorum signed (line 701 believes its
  round, and bft/msg.go does not check it); a PRECOMMIT justified by a certificate of another round, or by an election
  certificate, whose signatures cover no hashes (bft/msg.go:97 and 133-144 compare neither round nor phase, and
  bft/bft.go:444 locks on it); a block beside the certificate that a vote reports (bft/vote.go:139-140 stores it); and
  a second leader's block for a replica that has already hashed one in the round (bft/bft.go:871-876 keeps the hash
  until the next round).
- **Validity.** In every run in which none of the six is sent, whatever a quorum voted for, and whatever is committed, was
  found valid by some correct replica; and each phase votes, locks, proposes and commits exactly when its tests say so.
- **Mirroring.** In every run of the two-chain pipeline, and of two chains with real ledgers, a chain that acts on a
  batch acts on the one its counter chain has locked now, cannot fail to settle its own batch, and then holds a
  shadow equal to the counter chain's real pool and the same holders, points and total.
- **Exactly once, and nothing lost.** No batch is executed or settled twice; redelivery is a no-op; and the operations
  admitted on one chain are, in order, those executed on the other, those locked and those being collected.
- **Who is paid what.** Every receipt of a batch is the one output the fee formula allows at the reserves when its order is
  reached; for every address, the settlement and the execution of a batch, a liveness refund, a user's operation, a run of
  the order books and a reward payout change its account, points, offers and stake by exactly what its own orders,
  requests, deposits, trades and stubs come to; and withdrawals, deposits and whole batches go through exactly when
  stated conditions on the amounts hold.
- **Solvency.** Over every interleaving of transfers, fees, subsidies, grants, staking, edits, unstaking, slashing,
  orders, exchange steps, certificates, payouts, block rewards and block boundaries, from every genesis file that
  passes a test of its own lines, tokens sum to the recorded supply, only validators have stake, and every escrow is
  backed, as long as the starting supply, the emission schedule and the explicit grants fit 64 bits.
- **Slash bound.** Over all the slashes of a block, by any committees and at any percents, a committee's tracked
  percent and what it burned stay within the cap, it burned no less than its cuts were due, and a validator that is
  left has reached the cap of one of its committees exactly when it is out of it.
- **Replays, rewards, emission.** A block built by filtering replays without a failure to the same store, and is built
  exactly when no checked transaction is listed twice (and, for a block that may not be over size, all of them fit);
  percents, payouts and emission keep to their bounds.

Where the code falls short of what one would expect, a lemma gives the exact condition: `Fork.AgreementExactly` (the
six things above), `PacemakerRound.PeersRoundIsHonest` (line 568 of bft/bft.go calls the threshold safe, which it is unless
the power leaves a remainder of one when divided by three), `Transfers.MintExact` (the mint is unguarded),
`Transfers.FaucetExact` (a top-up suffices only for a balance that covers what is vesting),
`Genesis.GenesisConserved` (a key listed twice, as in `Genesis.DuplicateAccountLoses`, is counted twice), and
`Blocks.TrackerExact` (an oversize transaction stays in the slash tracker, as in
`Blocks.OversizeLeaksIntoTracker`). Two conditions the code relies on are shown to be exactly what is needed: that
the root chain is handed no empty batch (`TwoChain.PolicyExactly`), and that an order id is fresh
(`Swaps.CreateBacked`; fsm/transaction.go:320-323 makes it the transaction's hash).

Two more comments differ from the code, which the model follows: fsm/dex.go:342 leaves out the 1% fee that line 852
charges, and bft/bft.go:547 speaks of two thirds where line 569 asks for half of the two-thirds power.

## Assumptions

- Consensus: one height, one root height, one committee. What bft/msg.go does not check is a parameter of the runs, the
  admission: beside the six things named there, a certificate counts only if a quorum signed it, a reported
  certificate has passed `CheckHighQC` (lib/certificate.go:191-221), and a block is committed only on a PRECOMMIT-VOTE
  certificate of its payload, of whatever round, whether from the leader or from a peer (controller/block.go:554-579).
  An honest leader's messages are those it sent. A block is identified with its hash. Leader election yields some
  sender. Root-chain resets keep locks and restart rounds, and a restarted replica forgets its lock, which is only in
  memory; neither is part of a run.
- Exchange: batch hashes are collision-free; the order in which the hash keys sort a batch is an arbitrary
  permutation; a message's percentage is between 1 and 100 and a delivered batch has passed its basic check; the
  points taken over by a liveness refund are those of a sound pool. The liveness refund is an event of one chain's
  runs, not of the two-chain runs, where only what it does to two chains waiting for each other is shown.
- Ledger: chain ids are ordinary (at most 16383, and not 0 for a counter chain); order ids are fresh, as transaction
  hashes are; what a vesting schedule still locks is an input; events, logging and metrics never fail.

## Model

| member | source | states |
|---|---|---|
| Quorum.QuorumsShareAThird | lib/consensus.go:66-68 | two sets that each reach the two-thirds threshold share more than a third of the power |
| Quorum.QuorumsShareAnHonest | lib/consensus.go:66-68 | so a minority of under a third cannot be all they share |
| Bft.ViewProgress | bft/bft.go:161-199 | a phase timeout moves (round, phase) strictly forward unless the replica stays in the commit it reached; only the two vote phases sign |
| Bft.SafeNodeAccepts | bft/bft.go:687-706 | the coded predicate accepts what protects the lock and, beyond that, exactly the proposals half-matching their certificate |
| Bft.VotesExactly | bft/bft.go:335-391 | a PROPOSE-VOTE is cast if and only if there is a proposal, the controller found it valid, it was built no earlier than the last root height, and the lock, if there is one, accepts it; otherwise the round is interrupted |
| Bft.PrecommitsExactly | bft/bft.go:430-458 | a PRECOMMIT-VOTE is cast, and the lock taken, if and only if the justification is the round's proposer's and its certificate is for the block hashed and the results stored |
| Bft.CommitsExactly | bft/bft.go:498-525 | a commit happens if and only if that holds of the COMMIT and the controller accepts it with the stored content |
| Bft.ProposesExactly | bft/bft.go:288-327 | what a leader with its majority proposes, and when; one without proposes nothing |
| Bft.RoundAdvances | bft/bft.go:548-579 | the pacemaker moves to the next round or to the peers' round, whichever is later, with nothing of the old one but the lock |
| Bft.KeepsLater | bft/vote.go:137-142 | of its own certificate and a reported one a replica keeps that of the later view, with what belongs to it |
| Bft.ProposerOfRound | bft/bft.go:335-391 | an election and a new round forget the proposer, and only a proposal names one |
| Bft.BFT.StartProposePhase | bft/bft.go:288-327 | a leader with its majority sends the block and results kept with its lock, or what it produced, and hashes the block |
| Bft.BFT.StartProposeVotePhase | bft/bft.go:335-391 | the vote is signed only past the lock test, the root height test and validation, for the round's block hash and the offered results; otherwise the round is interrupted |
| Bft.BFT.StartLeaderPhase | bft/bft.go:399-423 | a leader without its majority interrupts the round |
| Bft.BFT.StartPrecommitVotePhase | bft/bft.go:430-458 | the replica locks on the certificate it precommits to, if it is for its proposal and from its leader |
| Bft.BFT.StartCommitProcessPhase | bft/bft.go:498-525 | the proposal is committed only on a certificate for it from its leader, which the controller accepts together with the stored block and results |
| Bft.BFT.CheckProposerAndProposal | bft/bft.go:606-619 | interrupts unless sender, block hash and results hash are the expected ones |
| Bft.BFT.GetBlockHash | bft/bft.go:871-876 | the hash computed first in the round, or that of the stored block |
| Bft.BFT.ReceiveMessage | bft/msg.go:299-302 | any message has the stored block hashed |
| Bft.StaysCoherent | bft/bft.go:871-876 | a replica never offered a second block in a round keeps hash, stored block and lock in agreement, votes for what it is offered, and proposes exactly its lock |
| Bft.BFT.RoundInterrupt | bft/bft.go:530-544 | only the phase changes, to ROUND-INTERRUPT |
| Bft.BFT.StartPacemaker | bft/bft.go:548-579 | the round becomes the larger of the next one and the one the peers reached; proposal, its hash and leader are cleared, the lock kept |
| Bft.BFT.SetTimerForNextPhase | bft/bft.go:709-720 | the next phase, wrapping after the pacemaker, standing still at a commit |
| Bft.BFT.HandlePhaseTimeout | bft/bft.go:161-199 | the phase loop's step equals the function the committee's runs are made of |
| Bft.BFT.ReceiveHighQC | bft/vote.go:137-142 | a reported certificate of a later view replaces the lock and the stored proposal, but not its hash |
| Agreement.OneVotePerView | bft/bft.go:430-458 | over every run a correct replica signs at most one payload per round and phase, whatever is sent; and its lock is never of an earlier round than its latest PRECOMMIT vote, unless a PRECOMMIT may carry a certificate of another round |
| Agreement.RunKeepsInv | bft/bft.go:335-458 | over every run correct votes lie in the past and in increasing views and commits have a quorum; and if nothing of the six is admitted, PRECOMMIT votes and locks are certified in their round, later votes no earlier than them, and every proposal of an honest leader is new or its lock |
| Agreement.AcceptedIsCertified | bft/bft.go:345-349 | if nothing of the six is admitted, what a locked replica votes for was certified no earlier than anything it precommitted to |
| Agreement.ChosenIsFinal | bft/bft.go:687-706 | in a log whose votes were so guarded, once a quorum precommitted p in round r, every PROPOSE-VOTE certificate of round r or later is for p |
| Agreement.Finality | bft/bft.go:430-458 | the same of runs in which nothing of the six is admitted, for both kinds of certificate |
| Agreement.AgreementHolds | bft/bft.go:498-511 | no two correct replicas commit different blocks or results in any run in which nothing of the six is admitted |
| Agreement.CertifiedIsValid | bft/bft.go:369-373 | external validity: in every run in which nothing of the six is admitted, a payload with a PROPOSE-VOTE quorum was offered to some correct replica whose controller found it valid |
| Agreement.CommittedIsValid | bft/bft.go:369-373 | and so was every payload a correct replica commits |
| Fork.HalfJustifiedForks | bft/bft.go:691-694 | any half-matching pair a leader may send gives a legal run of three replicas in which the two correct ones commit different payloads |
| Fork.UnbackedForks | bft/bft.go:700-703 | so does a HighQc no quorum signed, for any two payloads |
| Fork.StaleForks | bft/msg.go:133-144 | so does a PRECOMMIT justified by a genuine certificate of another round |
| Fork.UncertifiedForks | lib/certificate.go:224-232 | so does one justified by an election certificate, though every leader's HighQc is genuine or its own lock |
| Fork.CarriedForks | bft/vote.go:137-142 | so does a block carried beside a reported certificate, for payloads that share their results |
| Fork.RivalForks | bft/bft.go:871-876 | so does a second leader's block for a replica that has hashed its own |
| Fork.AgreementExactly | bft/bft.go:687-706 | agreement in all runs of all committees if and only if none of the six is admitted: no half-match, no unbacked HighQc, no stale and no uncertified PRECOMMIT, no carried block, no rival block |
| Votes.VoteBook.GetVoteSet | bft/vote.go:67-90 | filling the nested maps changes no tally |
| Votes.VoteBook.AddVote | bft/vote.go:51-111 | which error is returned when, nobody counted twice, other tallies untouched; tallies stay exact unless the multi-key refuses a signer already counted |
| Votes.VoteBook.GetMajorityVote | bft/vote.go:27-38 | a tally with the majority if there is one, in whatever order the map is read |
| Votes.TwoMajoritiesDoubleSign | bft/vote.go:27-38 | two ballots of one round and phase with majorities have common signers worth over a third |
| Votes.OneMajority | bft/vote.go:27-38 | so with under a third signing twice the majority is unique |
| PacemakerRound.PeersRound | bft/bft.go:551-573 | the greatest round that validators holding the threshold reported reaching or passing, or 0 |
| PacemakerRound.PeersRoundIsUnique | bft/bft.go:551-573 | the same for any order of the message map |
| PacemakerRound.PeersRoundIsHonest | bft/bft.go:567-569 | a round believed of the peers was reported by an honest one, in every committee of a given power, if and only if that power does not leave a remainder of one when divided by three |
| Evidence.GetDoubleSigners | lib/consensus.go:308-348 | exactly the committee members who signed both |
| Evidence.Convict | bft/evidence.go:114-127 | one entry per signer, one mention per height |
| Evidence.ProcessDSE | bft/evidence.go:68-134 | fails exactly when a piece fails its tests; otherwise lists exactly the supported (signer, height) pairs |
| Evidence.ValidateByzantineEvidence | bft/evidence.go:17-51 | a proposal's slashes are accepted exactly when there are none or all evidence is sound and justifies each |
| Evidence.HonestNeverConvicted | bft/evidence.go:68-134 | no evidence put together from the signatures of a run convicts a replica that obeyed the protocol |
| Points.Pool.GetPointsFor | fsm/account.go:911-922 | the first entry of the address, or none |
| Points.Pool.AddPoints | fsm/account.go:926-961 | equals the pure update, and leaves the pool alone on an error |
| Points.Pool.RemovePoints | fsm/account.go:964-988 | equals the pure update with its unguarded subtractions, eviction at zero and error on an empty pool |
| Points.AddKeepsSound | fsm/account.go:926-961 | holders stay distinct and sum to the total; one holder is credited and nobody else |
| Points.AddSucceedsExactly | fsm/account.go:926-961 | adding fails exactly when the total would not fit 64 bits or a newcomer finds the list full |
| Points.RemoveKeepsSound | fsm/account.go:964-988 | removing what a holder has cannot wrap, debits that holder alone, and fails exactly when nothing would be left |
| Amm.SwapKeepsProduct | fsm/dex.go:846-866 | the output is below the reserve and the product of reserves does not fall |
| Amm.SwapExact | fsm/dex.go:846-866 | the output is the one d with d * (1000x + 990dX) <= 990 * dX * y < (d + 1) * (1000x + 990dX) |
| Amm.ExecSound | fsm/dex.go:324-387 | for every permutation: product not falling, paying reserve positive, no non-zero receipt below its request, reserves moved by exactly the receipts and their sales |
| Amm.ReceiptsAreFair | fsm/dex.go:324-387 | every receipt is that output at the reserves when its order is reached in the shuffled sequence, or 0 when that is below the request, and the reserves end where the receipts take them |
| Amm.ExecSucceedsExactly | fsm/dex.go:324-387 | there is one such list of receipts, and a batch succeeds exactly when neither reserve is empty and the one paid into, as those receipts leave it, fits 64 bits |
| Amm.ReceiptsMirrorExecution | fsm/dex.go:279-317 | the owner's replay of the receipts in batch order ends in the executing chain's reserves and meets no debit error |
| Amm.WithdrawSolvent | fsm/dex.go:396-486 | for any list of requests, also repeated holders: debits cannot underflow, reserves stay positive, points remain, reserve per point does not fall on either side |
| Amm.DepositFair | fsm/dex.go:490-585 | points sum to the total with distinct holders, dust is not negative, and (L + dL) * isqrt(x*y) <= L * isqrt((x + D) * y) |
| Amm.WithdrawGenerous | fsm/dex.go:396-486 | when no holder asks twice, exactly the claimed points are burned and each side pays its pro-rata part less at most a token per payment and one more |
| Amm.DepositDust | fsm/dex.go:541-582 | the dust for the dead address is at most one point per deposit |
| Payees.WithdrawPaysEach | fsm/dex.go:396-486 | for every address and any list of requests: its account gains on this side exactly what its own requests come to, each the floor of its part of the points left by the earlier ones and then the floor of its part of the batch's total, and it keeps the rest of its points |
| Payees.HoldersRedeemed | fsm/dex.go:396-486 | when no holder asks twice: points burned, batch total and payment are each given by their floors; whoever does not ask keeps points and account |
| Payees.WithdrawSucceedsExactly | fsm/dex.go:396-486 | a list of withdrawals goes through if and only if it claims nothing, or what fits 64 bits and leaves somebody a point |
| Payees.DepositCreditsEach | fsm/dex.go:543-582 | for every address: the floors of its deposits' parts of the new points, and nothing for anybody else but the dead address, which has what the floors leave and a first liquidity |
| Payees.GrowthExact | fsm/dex.go:525-542 | the new points are the floor of the points times the growth of the root of the product, unless that exceeds 64 bits |
| Payees.DepositSucceedsExactly | fsm/dex.go:490-585 | deposits go through if and only if they have no effect, or the reserve and the points they lead to fit 64 bits and the list has room for those who become holders |
| Payees.ExecutesExactly | fsm/dex.go:255-276 | when a whole batch goes through: the conditions of its orders, withdrawals and deposits, one after the other |
| Payees.OwnPaysEach | fsm/dex.go:209-252 | settling our own batch gives each address back its orders without a receipt and what its withdrawals come to, and nothing else |
| Payees.TheirsPayEach | fsm/dex.go:255-276 | executing the counter chain's gives each address its fair receipts and what its withdrawals come to on this side, and nothing else |
| Payees.FallbackRefunds | fsm/dex.go:681-714 | the liveness refund gives each address what it had put into the locked batch, and takes over the points it is given |
| Payees.SubmitCharges | fsm/message.go:501-604 | when an operation is admitted; the user is charged what it sells or provides, nobody else anything, and it goes to the end of its list |
| Pipeline.ReplayMirrorsExecution | fsm/dex.go:209-276 | replaying a whole batch from its receipts ends in the reserves and points that executing it gave |
| Pipeline.IncludeFills | fsm/dex.go:624-678 | a batch locked in this block is filled from the next one in order, as far as that reaches or the caps allow, and one locked earlier does not change |
| Pipeline.SameBlockJoins | fsm/dex.go:591-678 | an operation admitted in the block in which a batch is locked is at the end of its list in that batch when there is room |
| TwoChain.Mirroring | fsm/dex.go:164-206 | a chain that does not wait acts on the batch its counter chain has locked, settles its own without error, and then its shadow is the counter chain's pool and the points agree |
| TwoChain.ActsExactly | fsm/dex.go:164-206 | and it goes through with that batch if and only if it can be executed from the counter chain's pool, its own as settled, and the shared points |
| TwoChain.ExactlyOnce | fsm/dex.go:209-252 | no batch is executed or settled twice; each chain settles in the order the other executed, at most one batch behind |
| TwoChain.RedeliveryIsHarmless | fsm/dex.go:215-229 | delivering an executed batch again changes nothing |
| TwoChain.NothingLost | fsm/dex.go:591-678 | what users got admitted is, in order, what the counter chain executed, what is locked and what is being collected |
| TwoChain.IncludeKeepsOrder | fsm/dex.go:624-678 | moving same-block operations keeps locked-then-next in order |
| TwoChain.CapsOverRuns | fsm/message.go:501-604 | over every run no batch collected, locked or shown is longer than its caps |
| TwoChain.StuckUntilRefund | fsm/dex.go:215-229 | two chains that both locked against an empty batch execute nothing in any run without a liveness refund |
| TwoChain.RefundUnsticks | fsm/dex.go:681-714 | the refund of one of them ends that: it acts on the other's batch, and the two are in turn again |
| TwoChain.StuckReachable | fsm/dex.go:591-621 | why the root chain must not be handed an empty batch: with one, two triggers lead there from every start with liquidity |
| TwoChain.PolicyExactly | controller/result.go:298-307 | without a refund that state is reachable if and only if the root chain may be handed an empty batch |
| TwoChain.PolicyNeverStuck | controller/result.go:298-307 | it is never reached when the root chain is handed no empty batch |
| DexHandlers.HandleOrderReceipts | fsm/dex.go:279-317 | escrow to the pool on success, back to the seller on failure, reserves advanced, errors in order |
| DexHandlers.HandleDexBatchOrders | fsm/dex.go:324-387 | shuffled execution, then payment in batch order |
| DexHandlers.HandleBatchWithdraw | fsm/dex.go:396-486 | the two passes over the requests, crediting the local share and writing the pool back |
| DexHandlers.HandleBatchDeposit | fsm/dex.go:490-585 | seeding, sizing, pro-rata distribution with the holder cap, dust, and the pool written back |
| DexHandlers.HandleReceiptsForOurLockedBatch | fsm/dex.go:209-252 | waits on a mismatch, else settles our batch, lifts the lock and advances the shadow |
| DexHandlers.HandleRemoteChainLockedBatch | fsm/dex.go:255-276 | executes the counter chain's batch and returns the receipts |
| DexHandlers.RotateDexBatches | fsm/dex.go:591-621 | locks the next batch with pool snapshot, hash, height and receipts, unless one is still locked |
| DexHandlers.HandleDexBatch | fsm/dex.go:62-206 | one trigger on the stored state; other counter chains untouched |
| DexHandlers.HandleLivenessFallback | fsm/dex.go:681-714 | refunds our locked batch, drops it and takes over the given points |
| DexHandlers.IncludeSameBlockDex | fsm/dex.go:624-678 | every counter chain's locked batch of this block takes in what its caps allow, in whatever order they are stored |
| DexHandlers.HandleMessageDexLimitOrder | fsm/message.go:501-532 | the guards in order, then account to holding pool and the order appended |
| DexHandlers.HandleMessageDexLiquidityDeposit | fsm/message.go:535-570 | the same for a deposit, with the holder cap |
| DexHandlers.HandleMessageDexLiquidityWithdraw | fsm/message.go:573-604 | the same for a withdrawal, which must come from a holder |
| Escrow.ReceiptsLedger | fsm/dex.go:279-317 | on a ledger with the escrow intact the receipts succeed exactly when they do on the reserves, keep every token, and release exactly the batch's sales |
| Escrow.OrdersLedger | fsm/dex.go:324-387 | the stored pool falls by exactly the receipts; payment cannot fail |
| Escrow.WithdrawLedger | fsm/dex.go:396-486 | crediting before the debit cannot overflow; the stored pool ends at the local reserve |
| Escrow.DepositLedger | fsm/dex.go:490-585 | deposits leave the holding pool for the liquidity pool exactly when they are effective |
| Escrow.OwnLedger | fsm/dex.go:209-252 | after settling, the holding pool owes just the next batch, but for our deposits when the counter reserve was reported empty |
| Escrow.TriggerRefines | fsm/dex.go:164-206 | on a safe ledger a trigger succeeds exactly when the pipeline's does, gives its chain, keeps every token and the escrow |
| Escrow.SubmitSafe | fsm/message.go:501-604 | a submitted operation is owed in full |
| Escrow.FallbackSafe | fsm/dex.go:681-714 | the refund always succeeds and returns all the locked batch had escrowed |
| Escrow.EscrowOverRuns | fsm/dex.go:591-714 | over every run of one chain the holding pool equals the orders and deposits of its next and locked batches, and no token is lost |
| TwoLedgers.RunRefines | fsm/dex.go:62-206 | every run of two chains with ledgers is a run of the two-chain pipeline |
| TwoLedgers.LedgersMirror | fsm/dex.go:48-59 | mirroring stated of the stored pools and points of both chains |
| TwoLedgers.LedgersDeliverOnce | fsm/dex.go:209-252 | exactly-once delivery, nothing lost, and the escrow of both chains, on the ledgers |
| Ledgers.AccountAddTokens | fsm/account.go:194-212 | a credit takes full effect or fails, and cannot fail while all tokens fit 64 bits |
| Ledgers.PoolAddTokens | fsm/account.go:477-485 | the unguarded credit is exact while all tokens fit 64 bits |
| Ledgers.PoolSubTokens | fsm/account.go:488-502 | a debit removes exactly the amount and touches no other pool |
| Machine.StateMachine.GetDexBatch | fsm/dex.go:728-762 | an absent batch reads as empty with the present pool size |
| Machine.StateMachine.AccountAdd | fsm/account.go:194-212 | the guarded credit; an error leaves the ledger alone |
| Machine.StateMachine.AccountSub | fsm/account.go:261-279 | only the spendable part may be taken |
| Machine.StateMachine.PoolAdd | fsm/account.go:477-485 | the credit, modulo 2^64 |
| Machine.StateMachine.PoolSub | fsm/account.go:488-502 | the guarded debit |
| Transfers.MintExact | fsm/account.go:452-459 | a mint is exact and keeps the supply record right if and only if the total stays within 64 bits |
| Transfers.SendMoves | fsm/message.go:56-73 | when a send succeeds; the sender loses and the recipient gains exactly the amount, every other balance, pool and stake is as it was |
| Transfers.FeeMoves | fsm/account.go:184-191 | a fee or subsidy goes through exactly when it can be paid (and the committee is not retired); it leaves the payer's account and the named pool grows by it; no other balance changes |
| Transfers.DaoMoves | fsm/message.go:317-334 | when a transfer succeeds; the recipient gains exactly the amount, and a minting one creates exactly what it hands out |
| Transfers.StakeMoves | fsm/message.go:76-153 | when a stake goes through; the signer's account loses what the new validator's stake becomes; no other account or stake changes |
| Transfers.EditStakeMoves | fsm/message.go:156-206 | when an edit goes through; the stake becomes the larger of what it was and what is asked, and the signer pays the difference |
| Transfers.UnstakeMoves | fsm/validator.go:319-354 | the end of unstaking cannot fail for a validator that exists; the output address gains the whole stake, which becomes 0 |
| Transfers.FaucetExact | fsm/account.go:283-309 | only the configured faucet is topped up, by just what it lacks, and it can then pay if and only if its balance covered what is vesting |
| Transfers.HandleMessageSend | fsm/message.go:56-73 | vesting verdict, debit, credit, in that order |
| Transfers.AccountDeductFees | fsm/account.go:184-191 | debit the account, credit this chain's pool |
| Transfers.HandleMessageSubsidy | fsm/message.go:378-394 | refused for a retired committee; otherwise debit the account, credit the committee's pool |
| Transfers.HandleMessageDAOTransfer | fsm/message.go:317-334 | refused without approval; otherwise the optional mint, then the grant |
| Transfers.FaucetTopUp | fsm/account.go:283-309 | the configured faucet, and nobody else, is minted what it lacks |
| Transfers.HandleMessageStake | fsm/message.go:76-153 | only a new validator with the minimum stake, from the signer's account; its committees are recorded |
| Transfers.HandleMessageEditStake | fsm/message.go:156-206 | a known validator and an authorised signer; only the difference is taken and added; its committees are replaced |
| Transfers.DeleteFinishedUnstaking | fsm/validator.go:319-354 | the stake goes to the output address and the validator is gone |
| Genesis.NewStateFromGenesis | fsm/genesis.go:73-105 | the lines are loaded in order with guarded supply; accounts, pools with their points, and validators overwrite, orders are stored and add to their escrow |
| Genesis.GenesisConserved | fsm/account.go:166-181 | the loaded state is conserved if and only if no account, pool or validator line follows a line that put a positive amount under its key, an order counting for its escrow pool |
| Genesis.LinesLoaded | fsm/genesis.go:73-160 | every line that no later one overwrites is in the loaded state |
| Genesis.GenesisPoints | fsm/genesis.go:73-105 | a chain's liquidity points are those of the last line for its pool, or none |
| Genesis.DistinctKeysConserve | fsm/genesis.go:73-105 | so a file that lists no key twice is conserved |
| Genesis.DuplicateAccountLoses | fsm/genesis.go:107-160 | an account listed twice with one token is accepted, and the supply says 2 where there is 1 |
| Genesis.GenesisSane | fsm/swap.go:367-400 | such a file that leaves the escrows to its orders and whose pools' points add up loads with every order book backed, holding pools empty, points that add up, and stake for validators only |
| Swaps.HandleMessageCreateOrder | fsm/message.go:397-425 | minimum size, account to escrow, order stored |
| Swaps.HandleMessageEditOrder | fsm/message.go:428-478 | an open order is repriced and the escrow topped up or refunded |
| Swaps.HandleMessageDeleteOrder | fsm/message.go:481-498 | an open order is refunded and removed |
| Swaps.LockSellOrder | fsm/swap.go:242-262 | an open order gets its buyer and deadline |
| Swaps.ResetSellOrder | fsm/swap.go:265-279 | buyer and deadline are cleared |
| Swaps.CloseSellOrder | fsm/swap.go:282-322 | preflight, escrow to buyer, order removed |
| Swaps.HandleCommitteeSwaps | fsm/swap.go:19-59 | locks, then resets that are not also closed, then closes, errors swallowed |
| Swaps.CreateBacked | fsm/message.go:397-425 | a new order keeps the escrow exact if and only if its id was free or had nothing for sale |
| Swaps.CloseIsAtomic | fsm/swap.go:282-322 | either the buyer is paid and the order is gone or nothing changed, with no rollback |
| Swaps.MessagesSucceedExactly | fsm/message.go:397-498 | when creating, editing and deleting an order go through, while the books are exact |
| Swaps.LocksLock | fsm/swap.go:242-262 | an open order is locked by the first lock that names it, with that lock's addresses and deadline, and stays open without one |
| Swaps.ResetOpens | fsm/swap.go:19-59 | an order that is reset and not also closed is open afterwards on the same offer, even if the same instructions locked it |
| Swaps.MessagesOffer | fsm/message.go:397-498 | a created or edited order stands open on the terms asked for, a deleted one is gone, and no other order is touched |
| Swaps.WealthOverRuns | fsm/swap.go:19-59 | over any run with fresh ids, for every address: account plus offers is what it was, less what its orders sold for, plus what it was paid as the buyer an order was locked for |
| Swaps.EscrowOverRuns | fsm/swap.go:19-59 | over any run with fresh ids every committee's escrow pool equals what its orders have for sale |
| Swaps.LockedOrderIsFixed | fsm/swap.go:242-322 | a locked order is untouched until an instruction set resets it, on the same terms, or closes it |
| Slashing.SlashBound | fsm/byzantine.go:302-387 | over all slashes of a block, any lists, committees and percents: they cannot fail; for each validator and committee the tracked percent is within the cap; a validator that is gone has no stake; one that is left has reached the cap of a committee it was in exactly when it is out of it; what that committee burned is within the cap's share of the first stake plus less than a token per slash, and at least its cuts of the stakes as they were, slash by slash |
| Slashing.SlashesConserve | fsm/byzantine.go:284-299 | slashing a list cannot fail and burns stake and supply alike |
| Slashing.SlashExact | fsm/byzantine.go:302-387 | when one slash takes effect, and then 100 * after <= stake * (100 - cut) < 100 * (after + 1), the cut being the percent clipped to what the cap still allows; supply, tracker, committees and deletion alike |
| Slashing.Eject | fsm/byzantine.go:326-334 | the committee's first mention is cut out of the list |
| Slashing.SlashValidator | fsm/byzantine.go:302-387 | cap, ejection, tracker, floored burn, deletion at zero |
| Slashing.SlashValidators | fsm/byzantine.go:284-299 | unknown validators are skipped, repeated ones slashed again |
| Rewards.CalculateRewardRecipients | controller/result.go:74-129 | on the root and on this chain, and nowhere else, every winner has its cut if enough was left for it and the proposer the rest; the percents sum to exactly 100, one entry per address and chain |
| Rewards.AddRewardRecipient | controller/result.go:132-148 | a cut is refused exactly when there is no winner or it exceeds what is left to the proposer; otherwise what is left falls by it and the winner's percent grows by it on both chains |
| Rewards.AddPaymentPercentFor | controller/result.go:162-183 | this address has that much more on this chain, and nobody else on any |
| Rewards.CheckBasic | lib/certificate.go:411-456 | accepts exactly lists of 1 to 100 entries with real chain ids and at most 100 percent a chain |
| Rewards.CombineNormal | lib/certificate.go:1113-1145 | stored percents never sum to more than 100 times the samples |
| Rewards.CombineAddsEach | lib/certificate.go:1113-1174 | a certificate adds to each address the signed part, rounded down, of its percents on this chain, and counts one sample |
| Rewards.CombineSucceedsExactly | lib/certificate.go:1113-1174 | while there is room for another 100 percent a checked certificate is refused exactly when the samples cannot be counted any more |
| Rewards.CombineInto | lib/certificate.go:1113-1174 | this chain's percents are accumulated by address, one more sample |
| Rewards.DistributionExact | fsm/committee.go:128-191 | a payout cannot fail, stays within the pool, and payouts plus what is burned off the supply are exactly the pool |
| Rewards.DistributionPaysEach | fsm/committee.go:128-228 | for every address: its account gains the penalised floors of the stubs it stands behind, and a compounding validator's stake the full floors of its own; nobody else gains or loses |
| Rewards.StubExact | fsm/committee.go:194-214 | a stub gets the exact floor of its part, and an early withdrawal the exact floor of what the penalty leaves |
| Rewards.DistributeCommitteeReward | fsm/committee.go:194-228 | compounding validators get the full reward, others the penalised one |
| Rewards.DistributeCommitteeRewards | fsm/committee.go:128-191 | pays the stubs, burns the rest, empties the pool, clears the percents |
| Emission.BlockWithinReward | fsm/committee.go:39-82 | DAO cut and committee mints stay within the block's reward |
| Emission.RewardHalves | fsm/committee.go:39-82 | the reward starts at the configured one and is half of what it was after every period |
| Emission.SplitExact | fsm/committee.go:39-82 | the DAO has what the committees' percentage, rounded down, leaves of the reward, and every committee the same floored part of that |
| Emission.FundsEach | fsm/committee.go:16-36 | each pool's balance after funding: the cut for the DAO's, a part per listing for a committee's, nothing for others |
| Emission.FundExact | fsm/committee.go:16-36 | funding mints that much exactly, into reward pools and the DAO pool only |
| Emission.EmissionCap | fsm/committee.go:54-56 | over any number of blocks at most 2 * InitialTokensPerBlock * BlocksPerHalvening |
| Emission.FundCommitteeRewardPools | fsm/committee.go:16-36 | the DAO first, then every subsidised committee |
| Blocks.StateMachine.ApplyTransactions | fsm/state.go:205-322 | checks against the first store, duplicates and size abort, failures and the oversize section rolled back |
| Blocks.KeptReplays | fsm/state.go:205-322 | the kept transactions replay without failure to the same store, results, indexes and size, and to the same slash tracker unless the run went over size |
| Blocks.CompletesExactly | fsm/state.go:263-265 | a mempool run completes if and only if no transaction that passes its check is listed twice |
| Blocks.StrictCompletesExactly | fsm/state.go:255-282 | a block is accepted if and only if that holds and no transaction exceeds the room left by those kept before it |
| Blocks.BlockIsSound | fsm/state.go:205-322 | the kept transactions are distinct, each passed its check, and fit; what is not kept has failed or was over size |
| Blocks.FoldIsKept | fsm/state.go:205-322 | transactions that pass, fit and apply one after the other are all kept |
| Blocks.OverflowRunsOnBlock | fsm/state.go:269-313 | what does not fit is run on top of the finished block, from the first transaction that does not fit onwards |
| Blocks.TrackerExact | fsm/state.go:269-300 | for every step and every tracker the replay ends in the same slash tracker, if and only if the transactions that pass their checks fit into the block |
| Blocks.MempoolStoreIsFold | fsm/state.go:284-313 | failed and oversize transactions leave no trace in the store |
| Blocks.OversizeLeaksIntoTracker | fsm/state.go:280-281 | a run in which an oversize transaction stays counted in the slash tracker |
| Solvency.AlwaysSolvent | fsm/account.go:452-502 | over every run of every token movement and block boundary: tokens sum to the supply, supply within schedule and grants, stake for validators only, every escrow backed |
| Solvency.SolventFromGenesis | fsm/genesis.go:73-105 | and so from every genesis file without clashes that leaves the escrows to its orders and whose pools' points add up |
| Solvency.StepSolvent | fsm/account.go:452-485 | every single movement keeps all of that and creates at most what it may |
| Lib.MulDivBound | lib/util.go:993-1005 | the rounded quotient, even truncated to 64 bits, never exceeds the exact one |
| Amm.SqrtMono | lib/util.go:979-986 | the integer root of the product grows with a reserve |

## Left out

- PacemakerRound.PeersRound: the threshold `maj23 * 50 / 100` is taken over unbounded integers; the 64-bit product in lib/util.go can wrap for powers above 2^64 / 50.
- Bft.BFT.ReceiveHighQC: the header and signature checks of bft/vote.go:117-135 are the runs' hypothesis that a reported certificate is a genuine PROPOSE-VOTE one.
- DexHandlers.RotateDexBatches: the informational counter-pool size of a batch is not modelled.
- Transfers.StakeMoves: the separate counters of staked, delegated and per-committee supply are not modelled, so neither is a failure of their guards.
- Transfers.HandleMessageStake: key and address checks and the index of committee members are not modelled; which minimum applies (validator or delegate) is an input.
- Transfers.HandleMessageEditStake: whether the signer may make the edit, and the validator is not unstaking, is an input.
- Transfers.HandleMessageSend: the recipient's vesting record is not kept, only the verdict on it.
- Transfers.DeleteFinishedUnstaking: which entries are due is an input; the keys of the unstaking queue are not modelled.
- Slashing.SlashBound: protocol version 1, which neither tracks nor caps slashes, is modelled but has no bound.
- Slashing.SlashValidator: being forced to unstake below the minimum stake and the counters of staked supply are not modelled.
- Genesis.NewStateFromGenesis: parameters, retired committees and the counters of staked supply are not modelled; the lines may come in any order, the file's sections being one.
- Blocks.StateMachine.ApplyTransactions: account and parameter caches are taken to be coherent with the store; events are part of a transaction's result; an interrupt of the run is not modelled.
- Rewards.DistributeCommitteeRewards: one committee of the outer loop; the list of committee data around it is not modelled.
- DexHandlers.HandleDexBatch: which batch a nested chain is handed (cache, certificate, root height) is an input, the liveness refund is a separate call before it, the hash leaves out the committee id, and the shuffle is an input in place of the previous block's hash.
- Pipeline.ReplayMirrorsExecution: a liquidity pool that reached zero would lose its points with its record, which the theorems show cannot happen to a pool with points.
- Root-chain resets (`NewHeight`), VDF, leader election, message routing and signature checks of NestBFT.
- Message classification in bft/msg.go: a stored message is an input of the phase that reads it.
- Governance proposals and polls, including the reset of a committee's locked batch at fsm/gov.go:145.
- Parsing of lock and close orders out of transaction memos, and order-book pagination.
- Subsidies addressed to a liquidity, holding or escrow pool id.
- Nil entries in withdrawal lists: the basic check of a batch refuses them.
- Plugins, RPC, the indexer, P2P, HTTP servers and the like-post counter, which hold no property of the three parts.
- The staking, pausing and unstaking queues beyond the tokens they move and the validators they delete.
