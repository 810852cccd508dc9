# Verified models of the proxyd core, signature compaction and the peer index

This project models, in Dafny, the parts of the repository whose correctness is hardest to see by
reading, and proves what they promise.

- **Consensus poller** (`BackendStates`, `HashAgreement`, `ConsensusPollers`, `PublishedHeads`). Backends
  are polled, banned and unbanned; a round filters candidates, folds their heights, walks back block by
  block until all of them agree on a hash, and publishes three heights and a serving group. Backend
  answers are a fixed oracle per round. The orders in which the round ranges over the candidate map, one
  for the fold and one for each step of the walk-back, are a parameter, so a lemma over all orders is a
  statement about all iteration orders of the Go map.
- **Tag rewriter** (`Rewriter`, `RewriterMeaning`, `RewriterMethods`). A request that names a block by tag is rewritten to
  the number the consensus agreed on. A block reference denotes a block under a view of the chain heads,
  and rewriting is proved to preserve that denotation, to be idempotent and to check ranges exactly, each
  under the exact condition on the heads for which it is true.
- **Batch pipeline** (`Overrides`, `BatchForward`, `BatchGroups`, `BatchLog`, `BatchPipeline`,
  `PipelineMeaning`). A client batch is grouped, checked
  against the cache, cut into minibatches, rewritten, partly answered on the spot, forwarded, sorted,
  spliced and scattered. Slot `i` of a normal return answers request `i`, whatever the IDs, the cache
  hits, the iteration order and the order of the backend's responses. Every forward is entered into a
  ghost log with the list that was sent and what came of it, and slots and early returns are stated in
  terms of the logged forwards.
- **Leader protocol** (`LeaderProtocol`). Any number of proxies, one expiring Redis lock, every
  interleaving of their Redis calls, with errors that may or may not have taken effect.
- **Multicall** (`Multicall`), **rate limiter** (`RateLimiter`), **sliding window** (`SlidingWindow`),
  **signature compaction** (`CompactSignature`) and **peer index** (`PeerIndex`).

In the state machines (`LeaderProtocol`, `Multicall`, the interleavings of `RateLimiter`) an action that
is not enabled changes nothing, so every list of actions is a run and a lemma over all lists is a
statement about all runs.

Some properties one would expect turn out to need a condition. Each is stated as an equivalence:

| expected | holds exactly when | lemma |
|---|---|---|
| the hash walk-back always ends | some step of the wrapping counter agrees | `HashAgreement.HaltsInEveryOrderIff` |
| the walk-back from one start ends at the same block in all orders | no step before the first agreeing one has an open hash and a block answered with a hash by some and a blank by others | `HashAgreement.OneEndIff` |
| a round publishes the same latest block in all orders (heights set) | that holds for every hash recorded with the lowest block, and these hashes all pass or all fail there (or no other block at all is agreed on) | `PublishedHeads.OnePublishedIff` |
| a round publishes safe <= latest (hashes never blank) | the candidates agree on some block between the two folded heads (or on none at or below the lowest latest) | `PublishedHeads.SafeBelowLatestIff` |
| the fold over heights yields the minimum in every order | all heights are set, or none is | `ConsensusPollers.MinimumInEveryOrderIff` |
| rewriting preserves meaning | all three heads are below 2^63 | `RewriterMeaning.MeaningPreservedIff` |
| the string and the object form of a block agree | no head is one of the four largest 64-bit words | `RewriterMeaning.PathsAgreeIff` |
| rewriting is idempotent | latest is below 2^63 and safe and finalized do not exceed it | `RewriterMeaning.IdempotentIff` |
| the wrapping range check is exact | latest is below 2^63 and limit plus greatest bound is below 2^64 | `RewriterMeaning.RangeCheckExactIff` |
| a polled node stays in the peer index | no other node claims, gives up or expires with its ID | `PeerIndex.IndexedIffUndisturbed` |
| the compact form holds R and the lowered S | both are non-negative and fit 32 bytes | `CompactSignature.ConvertToCompactSignature` |

Where comments in the source and its code disagree, the model follows the code: duplicate request IDs
do not lead to batches of size one (proxyd/server.go:397), since all first occurrences share a group, all
second ones another, and so on; and a forced candidate is in the consensus group whatever the conditions
listed above `FilterCandidates` say (proxyd/consensus_poller.go:730-739), apart from lag.

`dafny verify dfyconfig.toml` checks the whole project.

## Model

| member | source | states |
|---|---|---|
| `BackendStates.ReachableHeightsInOrder` | proxyd/consensus_poller.go:306-434 | in every run of polls, bans, unbans and resets, a non-forced backend's heights are all zero, or all set with finalized <= safe <= latest |
| `BackendStates.HeightsDropOnlyOnBanOrReset` | proxyd/consensus_poller.go:402-419 | one step lowers safe or finalized only if it bans the backend or resets the table |
| `BackendStates.HeightsMonotoneBetweenBans` | proxyd/consensus_poller.go:422-434 | along any run without a ban of the backend or a reset, safe and finalized never decrease |
| `BackendStates.PollExact` | proxyd/consensus_poller.go:306-434 | a poll of an unbanned backend, from the observation and the old state alone: unhealthy bans, incomplete changes nothing, complete bans iff safe or finalized fell behind the stored ones or the tags are out of order, and is otherwise stored exactly as observed; forced ones are never banned |
| `BackendStates.NeverBannedIffAdvancing` | proxyd/consensus_poller.go:306-434 | over every run in which a healthy backend is only polled: it is never banned iff each complete reading is in order and does not fall behind the one before, and then its state holds the last reading |
| `BackendStates.EventFrame` | proxyd/consensus_poller.go:306-312 | a banned backend is not polled, and no event touches another backend |
| `BackendStates.BanUnbanReset` | proxyd/consensus_poller.go:579-608 | a ban clears the heights for the whole period unless forced, an unban lifts it and keeps the rest, a reset zeroes everything |
| `BackendStates.BanLasts` | proxyd/consensus_poller.go:579-593 | whatever a banned backend answers, it keeps no heights and stays banned until the ban ends, is lifted or the table is reset |
| `BackendStates.ForcedNeverBanned` | proxyd/consensus_poller.go:579-582 | in every run with a forward-moving clock, a forced candidate is never banned |
| `HashAgreement.VerdictFixed` | proxyd/consensus_poller.go:479-502 | with a proposed hash, one probe passes iff every answer is exactly that block and hash |
| `HashAgreement.VerdictIsAgreement` | proxyd/consensus_poller.go:476-503 | a probe in any order passes on agreement, and otherwise only when the hash is open and blank hashes are mixed with named ones |
| `HashAgreement.OrderMattersIffMixed` | proxyd/consensus_poller.go:479-487 | two orders of one probe without a proposed hash can reach different verdicts iff blank and non-blank hashes are mixed |
| `HashAgreement.Probe` | proxyd/consensus_poller.go:478-502 | the inner loop passes iff nothing it visits mismatches, and reports a break iff the first mismatching answer has a number at or below the served block |
| `HashAgreement.MismatchMeaning` | proxyd/consensus_poller.go:485-500 | a mismatch is the answer of a candidate met after only matching ones, with another number or another hash than proposed |
| `HashAgreement.WalkBack` | proxyd/consensus_poller.go:475-512 | over wrapping 64-bit blocks, the loop needs only that some step passes, ends at the first step that does, and reports a break iff a step before it broke |
| `HashAgreement.HaltsInEveryOrderIff` | proxyd/consensus_poller.go:475-512 | the loop is sure to end, in all orders within some number of steps, iff some step of the wrapping counter agrees |
| `HashAgreement.HaltsInSomeOrderIff` | proxyd/consensus_poller.go:475-512 | the loop can end in some orders iff some step agrees or, with no hash proposed, mixes blanks with hashes |
| `HashAgreement.OneEndIff` | proxyd/consensus_poller.go:475-512 | all choices of orders end, and at one block, iff no step before the first agreeing one is openly mixed |
| `HashAgreement.EndsBelowStart` | proxyd/consensus_poller.go:503-509 | with an agreed block at or below the start the counter never wraps |
| `HashAgreement.WalkFindsGreatest` | proxyd/consensus_poller.go:464-512 | with hashes never blank, the walk ends at the greatest block at or below the start on which all answering candidates agree (on the recorded hash at the start) |
| `HashAgreement.ResultsBelowStartCoincide` | proxyd/consensus_poller.go:464-512 | whichever recorded hash the fold picked, walks that leave the start end at the same block |
| `HashAgreement.BrokenIsForcedRollback` | proxyd/consensus_poller.go:490-498 | when backends answer the number asked, a break is reported iff disagreement pushed the result below both the start and the served block |
| `ConsensusPollers.CandidatesWithinLag` | proxyd/consensus_poller.go:772-795 | any two candidates differ by at most the lag limit, and there are none only if no backend is eligible |
| `ConsensusPollers.MinimumInEveryOrderIff` | proxyd/consensus_poller.go:447-462 | the fold is the true minimum in every order iff all heights are set or none is |
| `ConsensusPollers.FoldedInOrder` | proxyd/consensus_poller.go:447-462 | candidates with ordered heights fold to ordered heights in every order, unset ones included |
| `ConsensusPollers.FoldHeights` | proxyd/consensus_poller.go:447-462 | the loop over the candidates in one order computes the folds of safe and finalized and the lowest latest block with the hash recorded beside it |
| `ConsensusPollers.TipIsRecorded` | proxyd/consensus_poller.go:447-455 | the block and hash the fold keeps were recorded together by one candidate |
| `ConsensusPollers.FoldMeaning` | proxyd/consensus_poller.go:443-462 | in every order: finalized <= safe <= latest for ordered candidates, and true minima wherever every candidate has the height set |
| `ConsensusPollers.ResolveHeights` | proxyd/consensus_poller.go:443-512 | fold and walk-back: safe and finalized are the folds, latest is where the walk from the folded tip ends, broken iff a step before broke; needs only that the walk ends |
| `ConsensusPollers.RoundMeaning` | proxyd/consensus_poller.go:437-528 | what a round means in any orders: finalized <= safe <= lowest latest, true minima of set heights, and given an agreed block at or below the lowest: latest <= lowest, the greatest agreed block, broken exactly on a forced rollback |
| `ConsensusPollers.ConsensusPoller.constructor` | proxyd/consensus_poller.go:269-304 | a new poller knows every backend with zero state and serves zero heights |
| `ConsensusPollers.ConsensusPoller.BanBackend` | proxyd/consensus_poller.go:579-593 | bans any but a forced candidate and clears its heights; the state stays valid |
| `ConsensusPollers.ConsensusPoller.UnbanBackend` | proxyd/consensus_poller.go:596-601 | lifts the ban into the past; heights are untouched |
| `ConsensusPollers.ConsensusPoller.ResetBackends` | proxyd/consensus_poller.go:604-608 | every backend returns to its zero state |
| `ConsensusPollers.ConsensusPoller.UpdateBackend` | proxyd/consensus_poller.go:306-419 | one poll, early returns included, is exactly one poll step of the backend table and keeps the invariant |
| `ConsensusPollers.ConsensusPoller.StoreAndCheck` | proxyd/consensus_poller.go:384-419 | a complete poll is stored, then banned if its tags went back or are out of order, unless forced |
| `ConsensusPollers.ConsensusPoller.Fallbacks` | proxyd/backend.go:744-752 | the fallbacks, in configuration order |
| `ConsensusPollers.ConsensusPoller.Primaries` | proxyd/backend.go:754-763 | the primaries, in configuration order |
| `ConsensusPollers.ConsensusPoller.FilterCandidates` | proxyd/consensus_poller.go:740-798 | exactly the eligible backends of the list that keep up with the highest eligible one |
| `ConsensusPollers.ConsensusPoller.DropLagging` | proxyd/consensus_poller.go:771-797 | exactly those within the lag limit of the highest remain; the unsigned subtraction never wraps |
| `ConsensusPollers.ConsensusPoller.GetConsensusCandidates` | proxyd/consensus_poller.go:716-728 | primaries if any qualifies, and fallbacks only when no primary is eligible |
| `ConsensusPollers.ConsensusPoller.CandidatesNotBanned` | proxyd/consensus_poller.go:746-754 | no candidate, forced or not, is banned, and non-forced candidates have ordered heights |
| `ConsensusPollers.ConsensusPoller.WhoServes` | proxyd/consensus_poller.go:718-798 | who is in the serving group, from configuration and state fields: the primaries that are fit and within the lag of every fit primary, or such fallbacks if no primary is fit |
| `ConsensusPollers.ConsensusPoller.GenesisHalts` | proxyd/consensus_poller.go:475-512 | a genesis block the group agrees on ends every round, in any orders |
| `ConsensusPollers.ConsensusPoller.BuildGroup` | proxyd/consensus_poller.go:530-542 | the group is the configuration-order subsequence of the candidates |
| `ConsensusPollers.ConsensusPoller.ResolveRound` | proxyd/consensus_poller.go:437-546 | one round over its own candidates: heights and break flag as resolved, and a group of all primaries or all fallbacks, in configuration order, nobody banned |
| `ConsensusPollers.ConsensusPoller.UpdateBackendGroupConsensus` | proxyd/consensus_poller.go:437-560 | the round is published as resolved, listeners fire exactly when it is broken, and backend state is unchanged |
| `PublishedHeads.OnePublishedIff` | proxyd/consensus_poller.go:447-512 | with heights set, all orders of fold and walk-back publish one latest block iff each hash recorded with the lowest block has a clean walk and they get the same verdict there (or nothing else is agreed on) |
| `PublishedHeads.RecordedHashDecides` | proxyd/consensus_poller.go:452-455 | two candidates at one block with different hashes, one silent: no hash is blank, and yet the published block depends on which the fold meets first |
| `PublishedHeads.SafeBelowLatestIff` | proxyd/consensus_poller.go:526-528 | published safe <= published latest iff the candidates agree on some block between the two folded heads (or on none at or below the lowest latest) |
| `PublishedHeads.PublishedHeadsSettleIff` | proxyd/backend.go:1484-1490 | rewriting under the heads a round publishes is idempotent on every request iff that holds and latest is below 2^63 |
| `Rewriter.RPCReq.RewriteTags` | proxyd/rewriter.go:40-86 | verdict and parameters after rewriting in place are those of the rewriting function, for every method and every parameter shape |
| `Rewriter.RPCReq.RewriteParam` | proxyd/rewriter.go:88-147 | the single-parameter form: defaulting, both block forms, refusals, and untouched parameters when nothing is replaced |
| `Rewriter.RPCReq.RewriteRange` | proxyd/rewriter.go:149-200 | the filter form: defaulting, both bounds, the range check, and the panic on an empty parameter list |
| `Rewriter.RewriteTagMap` | proxyd/rewriter.go:217-237 | one bound of a filter is replaced, kept or refused, and no other field changes |
| `RewriterMeaning.RewriteValueKeepsMeaning` | proxyd/rewriter.go:254-310 | on every backend, a kept or replaced value names the block the original names under the consensus view |
| `RewriterMeaning.PathsAgreeIff` | proxyd/rewriter.go:254-310 | the string path and the EIP-1898 path agree on every reference iff no head is one of the four largest words |
| `RewriterMeaning.RequestKeepsMeaning` | proxyd/rewriter.go:40-200 | every accepted request names, for every backend, the blocks the original (defaults filled in) names for the consensus; all other parameters and fields are unchanged |
| `RewriterMeaning.MeaningPreservedIff` | proxyd/rewriter.go:40-310 | this holds for all requests and all backends iff the heads are below 2^63 |
| `RewriterMeaning.TooHighHeadLosesMeaning` | proxyd/rewriter.go:269-274 | a head at or above 2^63 is written as a number no backend accepts |
| `RewriterMeaning.UnboundedFilterUntouched` | proxyd/rewriter.go:156-199 | a filter naming neither bound passes through untouched |
| `RewriterMeaning.RequestSettles` | proxyd/rewriter.go:63-200 | with ordered heads, rewriting an accepted request again changes nothing, in all three forms |
| `RewriterMeaning.IdempotentIff` | proxyd/rewriter.go:63-200 | rewriting is idempotent on all requests iff latest is below 2^63 and the other heads do not exceed it |
| `RewriterMeaning.TagDoesNotSettle` | proxyd/rewriter.go:269-279 | a tag whose head lies above latest is rewritten to a number the second pass refuses |
| `RewriterMeaning.FilterAcceptedIffInRange` | proxyd/rewriter.go:175-187 | with latest below 2^63, a filter naming a bound is accepted iff from <= to <= from + limit, pending counting as latest + 1, although the check is one wrapping subtraction |
| `RewriterMeaning.ReversedFilterSlipsThrough` | proxyd/rewriter.go:184-186 | when limit plus greatest bound reaches 2^64, a reversed filter wraps to a small difference and is accepted |
| `RewriterMeaning.HighLatestRefusesHeights` | proxyd/rewriter.go:275-279 | a latest block at or above 2^63 turns negative, and a plain height in range is refused |
| `RewriterMeaning.RangeCheckExactIff` | proxyd/rewriter.go:175-215 | with a positive limit, the check is exact on every filter iff latest is below 2^63 and limit plus greatest bound is below 2^64; in particular for heads and limits below 2^63 |
| `RewriterMethods.TextNames` | proxyd/rewriter.go:239-252 | what each tag, number and hash names under a view of the heads |
| `RewriterMethods.ObjectNames` | proxyd/rewriter.go:239-252 | an EIP-1898 object names what its number or its hash names, and nothing if it has both |
| `RewriterMethods.AcceptedParam` | proxyd/rewriter.go:63-147 | method by method with its block position: an accepted request names there, on every backend, what it named for the consensus, the consensus latest if the block was left out and may be, and all other parameters are unchanged |
| `RewriterMethods.AcceptedFilter` | proxyd/rewriter.go:149-200 | an accepted filter that names a bound has both bounds pinned on every backend, a missing one to the consensus latest; everything else in it is unchanged |
| `RewriterMethods.OtherMethods` | proxyd/rewriter.go:51-86 | methods outside the list pass untouched, and the block number is answered with the consensus latest |
| `RewriterMethods.RefusedParam` | proxyd/rewriter.go:88-147 | at a block position exactly heights above the head are out of range, and exactly what is no block reference there is a parse error |
| `RewriterMethods.RefusedFilter` | proxyd/rewriter.go:149-187 | with a limit: accepted iff both bounds are heights in order and in reach, refused for the range iff they are heights but not so, out of range iff a bound is above the head |
| `RewriterMethods.FilterWithoutLimit` | proxyd/rewriter.go:156-175 | without a limit a filter is accepted iff neither bound is malformed or above the head |
| `Overrides.RewritingKeepsIds` | proxyd/backend.go:1492-1520 | overrides and forwarded requests carry the ID of their request |
| `Overrides.OverwriteConsensusResponses` | proxyd/backend.go:1484-1522 | the split: forwarded requests in order at their rank, overrides in order with their indexes, nothing lost; a panic iff some rewrite panics |
| `Overrides.OverrideResponses` | proxyd/backend.go:1472-1482 | the splice is the inverse of the split: original length, every insertion in bounds, position i holds the override or the response of that request |
| `BatchForward.SortBatchRPCResponse` | proxyd/backend.go:712-728 | responses are permuted into the order of their request positions, in place; a panic iff request IDs repeat |
| `BatchForward.SortedIsAligned` | proxyd/backend.go:722-727 | one response per distinct ID, sorted, is aligned with the requests |
| `BatchForward.HonestAligned` | proxyd/backend.go:644-673 | whatever order an honest backend answers in, sorting puts each answer at its request |
| `BatchForward.DoForward` | proxyd/backend.go:485-676 | one attempt: the exact error, the duplicate-ID panic iff IDs repeat, or the reply permuted into request order |
| `BatchForward.AttemptExact` | proxyd/backend.go:485-497 | one attempt succeeds, fails with which error, and moves on to the next backend, spelled out from the reply |
| `BatchForward.ForwardRequestToBackendGroup` | proxyd/backend.go:1394-1468 | served by backend k iff k gave one response per request and every earlier one failed with something other than the four final errors; failed with one of those iff the first backend not failing otherwise gave it, and with no backends iff all failed otherwise |
| `BatchForward.OneService` | proxyd/backend.go:1394-1468 | a list is served by one backend or fails with one error, never both |
| `BatchForward.ForwardedDistinct` | proxyd/backend.go:1492-1520 | the forwarded part of requests with distinct IDs has distinct IDs |
| `BatchForward.Forward` | proxyd/backend.go:766-816 | exactly which outcome: a panic iff a rewrite panics, an error iff nobody serves the forwarded part, otherwise overrides and the sorted reply, each in its own place |
| `BatchForward.HonestCallAnswers` | proxyd/backend.go:766-816 | if the backend that served the call was honest, each request gets its override or an answer to its rewritten form, at its own position |
| `BatchForward.DistinctNeverPanics` | proxyd/backend.go:714-720 | a forward of requests with distinct IDs never runs into the duplicate-ID panic |
| `BatchGroups.DoorGuarantees` | proxyd/server.go:407-487 | a request passes iff well-formed, mapped, unlimited and not about accounts; every well-formed request is answered under its own ID, and only accounts get a result |
| `BatchGroups.BatchDistinct` | proxyd/server.go:489-494 | no group, that is the n-th occurrences of IDs within one backend group, holds an ID twice |
| `BatchGroups.DistinctIdsOneGroup` | proxyd/server.go:489-494 | a request whose ID has not occurred before is in the first group of its backend group |
| `BatchGroups.RepeatedIdNextGroup` | proxyd/server.go:489-494 | a repeated ID goes to the group after that of its previous occurrence |
| `BatchPipeline.GroupRequests` | proxyd/server.go:403-495 | door answers are in their slots, and the map holds exactly the groups: each forwarded request under its occurrence count and backend group, in order |
| `BatchGroups.MissesDistinct` | proxyd/server.go:500-510 | the cache misses of a group still have distinct IDs |
| `BatchPipeline.ServeFromCache` | proxyd/server.go:500-510 | hits fill their slots with the cached body under the requester's ID, misses are kept in order |
| `BatchPipeline.MinibatchBounds` | proxyd/server.go:513-526 | each minibatch is a non-empty slice within the limit, starting where the one before ended |
| `BatchPipeline.NumBatches` | proxyd/server.go:513-513 | as many minibatches as it takes, and no more |
| `BatchGroups.MinibatchesCover` | proxyd/server.go:512-527 | minibatches are non-empty, all but the last full, free of duplicate IDs, and concatenate to exactly the misses |
| `BatchPipeline.ResponsesFor` | proxyd/server.go:529-546 | the response or error response for each request of a forward, unless its outcome ends the batch |
| `BatchPipeline.Scatter` | proxyd/server.go:548-562 | the slot of request k holds response k, and no other slot changes |
| `BatchPipeline.ServeSlice` | proxyd/server.go:527-562 | one forward is logged with its list and outcome, its slots are filled from that outcome, or the batch ends on it |
| `BatchPipeline.ForwardMisses` | proxyd/server.go:512-563 | the lists logged for the group are exactly its minibatches in order (a prefix if the batch ends), and all their slots are filled |
| `BatchPipeline.ServeGroup` | proxyd/server.go:499-563 | one group: every slot of it filled by the cache or from its logged minibatches |
| `BatchPipeline.HandleBatchRPC` | proxyd/server.go:391-574 | a normal return has one response per request: the door's, the cache's, or the one of the logged forward of that request; each group had exactly its minibatches forwarded, no request twice; any other return is the deadline before the next forward or the outcome of the last, never the duplicate-ID panic |
| `BatchLog.SlotMeaning` | proxyd/server.go:527-562 | a forwarded miss stands in exactly one logged list, sent to the group its method is mapped to; its slot holds the override or an answer if that call was served honestly, or an error with which no backend could serve that very list |
| `BatchLog.StopMeaning` | proxyd/server.go:529-534 | an abort or a crash lies in the list forwarded last: nobody served it, with that error, or a rewrite of one of its requests panics |
| `PipelineMeaning.SentStandsFor` | proxyd/backend.go:1484-1522 | every request a backend of a consensus-aware group receives stands for a client request the rewriter accepted: same ID and method, and parameters that mean for every backend view what the client's meant for the consensus |
| `PipelineMeaning.AcceptedIsSent` | proxyd/backend.go:1517-1518 | every accepted client request is sent |
| `PipelineMeaning.RefusedIsNotSent` | proxyd/backend.go:1495-1518 | a request the rewriter did not accept reaches no backend |
| `PipelineMeaning.PlainGroupSendsAll` | proxyd/backend.go:771-781 | a group that is not consensus aware is asked exactly what the client asked |
| `PipelineMeaning.ServedCall` | proxyd/backend.go:766-816 | in a served call a refused request has its matching error in its place, the block number the consensus latest, and every other, from an honest backend, an answer to a request that stands for it |
| `PipelineMeaning.SlotEndToEnd` | proxyd/server.go:391-574 | the same for the slot of a forwarded miss as the handler fills it |
| `PipelineMeaning.BlockNumberIsHead` | proxyd/rewriter.go:51-59 | the block number is answered with the consensus latest without asking a backend |
| `PipelineMeaning.BeyondHeadIsRefused` | proxyd/backend.go:1495-1503 | a height above the head, at the block position of every method that has one, is answered with block out of range |
| `PipelineMeaning.TooWideIsRefused` | proxyd/backend.go:1495-1507 | a filter whose bounds are out of order or too far apart is answered with range too large |
| `LeaderProtocol.TokensOnlyGrow` | proxyd/consensus_tracker.go:273-291 | an action never takes a token from its acquirer, and a new lock value is new |
| `LeaderProtocol.InvHolds` | proxyd/consensus_tracker.go:189-293 | in every run, each proxy works only under tokens it acquired, also when it extends a lock and posts under the value it read before |
| `LeaderProtocol.OnlyAcquirerWrites` | proxyd/consensus_tracker.go:323-356 | in every run, state and leader name under a token are written only by the proxy that acquired it, however late |
| `LeaderProtocol.TokensExclusive` | proxyd/consensus_tracker.go:282-291 | in every run, no two proxies hold the same token |
| `LeaderProtocol.TokenNeverReturns` | proxyd/consensus_tracker.go:189-293 | in every run, a token that has left the lock never returns to it |
| `LeaderProtocol.ServedWasComputed` | proxyd/consensus_tracker.go:189-293 | in every run, every height any proxy serves was computed earlier by the poller of one of the run's proxies for that component, or is zero |
| `LeaderProtocol.ServedExactly` | proxyd/consensus_tracker.go:189-293 | in every run, what a proxy serves is zero until and since a restart, its own local heights of the moment it last published, or, as a follower, the heights that stood under the lock's token when it read them, which the token's acquirer had marshalled from its own local state |
| `LeaderProtocol.PostedWasMarshalled` | proxyd/consensus_tracker.go:323-338 | in every run, what stands under a token was marshalled by the proxy that acquired it, from its own local heights |
| `LeaderProtocol.PostedStays` | proxyd/consensus_tracker.go:323-338 | in every run, what a proxy posted stands under its token until the key expires or the same proxy writes again |
| `LeaderProtocol.NameIsAcquirer` | proxyd/consensus_tracker.go:339-346 | in every run, the leader name under a token is that of the proxy that acquired it |
| `LeaderProtocol.FollowerHeartbeat` | proxyd/consensus_tracker.go:226-256 | an uninterrupted follower heartbeat takes over state and leader name under the lock's token, if they are there |
| `LeaderProtocol.ElectionHeartbeat` | proxyd/consensus_tracker.go:263-292 | without a lock, a proxy with valid heights not behind valid served ones takes the lock, posts and serves its heights |
| `LeaderProtocol.LeaderHeartbeat` | proxyd/consensus_tracker.go:209-225 | a leader that still holds the lock posts under it again and serves its heights |
| `LeaderProtocol.NotReadyHeartbeat` | proxyd/consensus_tracker.go:264-271 | without a lock, a proxy whose heights are not valid, or behind, does nothing |
| `LeaderProtocol.ReleasingHeartbeat` | proxyd/consensus_tracker.go:194-226 | a leader that cannot read the lock releases it; one that has lost it cannot, and keeps its flag |
| `LeaderProtocol.FailedCallEndsLead` | proxyd/consensus_tracker.go:282-346 | a proxy that fails to acquire or to write is no leader |
| `LeaderProtocol.LockCalls` | proxyd/consensus_tracker.go:189-293 | what lock and unlock calls do to the lock, whether or not their answer arrives |
| `LeaderProtocol.PublishNeverRegresses` | proxyd/consensus_tracker.go:264-271 | while local pollers only advance, a proxy that publishes never takes back a height it validly served |
| `Multicall.InvHolds` | proxyd/backend.go:834-955 | in every interleaving, wait group, channel, arrivals and receiver agree with each other |
| `Multicall.NoPanicNoBlock` | proxyd/backend.go:844-900 | in every interleaving, nothing is sent on the closed channel and no sender ever waits |
| `Multicall.AcceptableIsEarliest` | proxyd/backend.go:906-955 | an acceptable result is the earliest acceptable arrival |
| `Multicall.UnacceptableIsLast` | proxyd/backend.go:909-945 | an unacceptable result means all backends answered, all unacceptably, and it arrived last |
| `Multicall.EmptyOnlyWithoutBackends` | proxyd/backend.go:910-924 | only a group without backends goes without a response |
| `Multicall.ReturnedMeaning` | proxyd/backend.go:905-955 | a returned response is the first to arrive that neither failed nor, if these are checked, carries an RPC error; or the last of all, if every one did |
| `Multicall.ArrivedWasSent` | proxyd/backend.go:862-884 | whatever arrives was sent by that backend, as it was sent |
| `Multicall.EveryActionCounts` | proxyd/backend.go:834-955 | every action that changes anything leaves less to do |
| `Multicall.NeverStuck` | proxyd/backend.go:834-955 | as long as the receiver waits some action is possible, so the call comes to an end |
| `SlidingWindow.RoundMonotone` | proxyd/pkg/avg-sliding-window/sliding.go:96-100 | rounding to a bucket respects the order of time |
| `SlidingWindow.RoundIsNearest` | proxyd/pkg/avg-sliding-window/sliding.go:120-120 | a key is the multiple of the bucket size nearest to the point, the later one half way between |
| `SlidingWindow.InsertTotals` | proxyd/pkg/avg-sliding-window/sliding.go:124-142 | a point adds exactly its value and one to the totals, in a new bucket or an old one |
| `SlidingWindow.EvictKeepsAfter` | proxyd/pkg/avg-sliding-window/sliding.go:145-167 | eviction removes nothing that a later window could still contain |
| `SlidingWindow.AvgSlidingWindow.constructor` | proxyd/pkg/avg-sliding-window/sliding.go:59-75 | an empty window with the default sizes where none are given |
| `SlidingWindow.AvgSlidingWindow.EvictUntil` | proxyd/pkg/avg-sliding-window/sliding.go:150-166 | the oldest insertions up to the first live one go, the totals stay those of the remaining buckets |
| `SlidingWindow.AvgSlidingWindow.Advance` | proxyd/pkg/avg-sliding-window/sliding.go:144-167 | eviction up to the start of the current window |
| `SlidingWindow.AvgSlidingWindow.UpdateBucket` | proxyd/pkg/avg-sliding-window/sliding.go:124-142 | one bucket and the totals change together |
| `SlidingWindow.AvgSlidingWindow.AddWithTime` | proxyd/pkg/avg-sliding-window/sliding.go:114-143 | for any time, in or out of order, the totals remain the sums over the live buckets |
| `SlidingWindow.AvgSlidingWindow.AdvanceMirrors` | proxyd/pkg/avg-sliding-window/sliding.go:144-167 | moving the clock forward keeps the buckets equal to the log within the window |
| `SlidingWindow.AvgSlidingWindow.Add` | proxyd/pkg/avg-sliding-window/sliding.go:103-106 | with a non-decreasing clock, the window stays faithful to the full log of points |
| `SlidingWindow.AvgSlidingWindow.Sum` | proxyd/pkg/avg-sliding-window/sliding.go:179-182 | the sum of all logged points whose rounded time lies in the window |
| `SlidingWindow.AvgSlidingWindow.Count` | proxyd/pkg/avg-sliding-window/sliding.go:185-188 | the number of all logged points whose rounded time lies in the window |
| `SlidingWindow.AvgSlidingWindow.Avg` | proxyd/pkg/avg-sliding-window/sliding.go:170-176 | the mean of those points, or zero if there are none |
| `RateLimiter.LimitedKeys.Take` | proxyd/frontend_rate_limiter.go:39-49 | every take counts once, and is granted iff the count was below the limit |
| `RateLimiter.MemoryFrontendRateLimiter.PickGeneration` | proxyd/frontend_rate_limiter.go:74-87 | the first critical section is the picking step of the interleaving model: a new empty generation iff the last has another timestamp |
| `RateLimiter.MemoryFrontendRateLimiter.Take` | proxyd/frontend_rate_limiter.go:73-90 | an uninterrupted take picks a generation and counts in it, granted iff the count was below the limit |
| `RateLimiter.BothSections` | proxyd/frontend_rate_limiter.go:73-90 | an uninterrupted take is the two actions of the interleaving model one after the other |
| `RateLimiter.TruncationMonotone` | proxyd/frontend_rate_limiter.go:136-140 | truncated timestamps respect the order of time |
| `RateLimiter.SameTimestampIff` | proxyd/frontend_rate_limiter.go:136-140 | for durations of whole seconds, two instants share a timestamp iff they lie in the same window |
| `RateLimiter.OneGenerationPerTimestamp` | proxyd/frontend_rate_limiter.go:73-90 | in every interleaving, no timestamp has two generations |
| `RateLimiter.ExactGrants` | proxyd/frontend_rate_limiter.go:39-90 | in every interleaving, m completed takes of a key at a timestamp give exactly min(m, limit) grants |
| `RateLimiter.ExactGrantsPerWindow` | proxyd/frontend_rate_limiter.go:39-90 | in every interleaving, of m takes of a key that began in one window exactly min(m, limit) are granted |
| `RateLimiter.FallbackBounded` | proxyd/frontend_rate_limiter.go:158-164 | in every interleaving, the grants told to callers and those lost to failures are together exactly those of the two limiters, so a key gets at most the sum of the limits |
| `CompactSignature.LowSIsMinimum` | op-signer/service/provider/cloudkms.go:149-153 | lowering picks the smaller of S and N - S, in the lower half of the order, and lowering again changes nothing |
| `CompactSignature.CopyEndingAt` | op-signer/service/provider/cloudkms.go:155-159 | a copy that ends at a position leaves all other bytes as they were |
| `CompactSignature.ConvertToCompactSignature` | op-signer/service/provider/cloudkms.go:140-162 | 64 bytes whose halves decode to R and the lowered S iff both fit a word; the exact inputs on which slicing panics |
| `CompactSignature.CompactSignatureMalleabilityCheck` | op-signer/service/provider/cloudkms.go:191-203 | passes iff the first byte of S is below 0x80 |
| `CompactSignature.TopBitClear` | op-signer/service/provider/cloudkms.go:191-203 | a word in the lower half has a clear top bit |
| `CompactSignature.CompactAndCheck` | op-signer/service/provider/cloudkms.go:109-121 | for all R and S of a real signature, the halves decode to R and min(S, N - S) and the check cannot fail |
| `PeerIndex.SoundOverRuns` | peer-mgmt-service/pkg/pms/poll.go:38-116 | in every run, each index entry points to a live node that reports that ID, whatever IDs nodes report |
| `PeerIndex.SoundIsInjective` | peer-mgmt-service/pkg/pms/poll.go:96-116 | such an index lists no node twice |
| `PeerIndex.StepNodes` | peer-mgmt-service/pkg/pms/poll.go:38-116 | an answer replaces what was known of a node, an expiry removes it, and no other node is touched |
| `PeerIndex.IndexedIffUndisturbed` | peer-mgmt-service/pkg/pms/poll.go:96-116 | a node is still indexed, any number of events later, iff no other node claimed, gave up or expired with its ID |
| `PeerIndex.BijectionWhenDistinct` | peer-mgmt-service/pkg/pms/poll.go:96-116 | in a run whose nodes always report distinct IDs, every live node is indexed |
| `PeerIndex.PastClashLosesEntry` | peer-mgmt-service/pkg/pms/poll.go:102-115 | distinct IDs now are not enough: a past clash leaves a live node out |
| `PeerIndex.HealthyMeaning` | peer-mgmt-service/pkg/pms/poll.go:158-172 | a healthy peer of a node is another live node that currently reports the ID and to which the node is connected |
| `PeerIndex.HealthyBound` | peer-mgmt-service/pkg/pms/poll.go:146-228 | N members never show more than N * (N - 1) healthy peers |
| `PeerIndex.Network.Cleanup` | peer-mgmt-service/pkg/pms/poll.go:38-51 | exactly the silent nodes go, by a run of expiries, and the index stays sound |
| `PeerIndex.Network.PollNode` | peer-mgmt-service/pkg/pms/poll.go:59-116 | an answer is one poll step, a failure changes nothing, and the index stays sound |
| `PeerIndex.Network.KnownPeers` | peer-mgmt-service/pkg/pms/poll.go:119-129 | the known peers of a node are exactly the owners of the IDs it reports, each once, never itself |
| `PeerIndex.Network.UpdateGraph` | peer-mgmt-service/pkg/pms/poll.go:118-136 | every node's known peers are refreshed and nothing else changes |
| `PeerIndex.Network.CountHealthy` | peer-mgmt-service/pkg/pms/poll.go:158-172 | counts the connected known peers of one node |
| `PeerIndex.Network.ReportMetrics` | peer-mgmt-service/pkg/pms/poll.go:146-228 | counts all healthy peers; the ratio lies in [0, 1] for two or more members and is not a number otherwise |

## Left out

- HTTP, WebSocket, TLS, headers, metrics, logging and sleeps between retries: a forward is an oracle that returns responses or an error, with the retries of one backend folded into its reply.
- Byte-level JSON, hex and the parsing inside go-ethereum: parameters and block references are datatypes classified by what that parsing makes of them.
- The translation of consensus_getReceipts for single requests: it rewrites the request in place, so a later attempt no longer sees the original method.
- The instant between storing a poll and banning the backend, and readers that see only some of the three tracker setters: a poll and a publication are one step each.
- Exclusivity of the leader flag and liveness of leader election: the code guarantees neither; what is exclusive is the token.
- LeaderProtocol, Multicall and the interleavings of RateLimiter are state machines on values rather than classes: their subject is the interleaving of several threads, and aliasing between threads is not modelled beyond the shared fields.
- proxyd/cache.go and proxyd/methods.go: the cache is an oracle that answers under the requester's ID; puts into it, and the flags saying who served and whether anything was cached, are not modelled.
- The single limits (base, per method, per sender) are one oracle per request; the Redis limiter and the no-op limiter are not modelled.
- The multicall branch inside a group's forward is modelled in Multicall only, not inside the batch pipeline.
- ConsensusPollers.ConsensusPoller.UpdateBackendGroupConsensus: requires that the walk-back ends in the given orders, because otherwise the loop in the source does not end either.
- ConsensusPollers.ConsensusPoller.ResolveRound: requires the same, for the same reason.
- PublishedHeads.OnePublishedIff: is about candidates whose latest heights are all set; with unset ones in between even the start of the walk-back depends on the order, as ConsensusPollers.MinimumInEveryOrderIff says.
- PublishedHeads.PublishedHeadsSettleIff: is about candidates that never answer with a blank hash, for the reason given on the next line.
- PublishedHeads.SafeBelowLatestIff: is about candidates that never answer with a blank hash; with blank ones the published latest block depends on the orders.
- BackendStates.NeverBannedIffAdvancing: is about a positive ban period, since a ban that lasts no time is no ban.
- RateLimiter.ExactGrantsPerWindow: is about durations of whole seconds; a timestamp counts seconds, so shorter windows share one, as RateLimiter.ExactGrants counts them.
- BatchPipeline.HandleBatchRPC: requires a positive upstream batch size; the source replaces an unset size by its default before any batch is handled.
- SlidingWindow.AvgSlidingWindow.Add: sums are exact rather than float64, so rounding drift of the running total is not captured.
- AvgSlidingWindow.Clear: it zeroes the totals but keeps the buckets, so it is not part of the refinement.
- Sorting responses is modelled as an insertion sort; the library sort used by the source is not modelled beyond its result.
- How proxyd configuration decides which backends are fallbacks, and the resetting of listeners; listeners are counted, not called.
- KMS calls, curve operations, signature verification, recovery IDs, PEM and ASN.1 in op-signer.
- resolveState and connectPeer of the peer manager: remote calls decided by an easy fold.
- op-nat, op-ufm, op-txproxy, op-conductor-mon, op-conductor-ops, cci-stats and ops/tag-service: clients, command lines, configuration and metrics with only easy folds.
