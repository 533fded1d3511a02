# BarriosGovernor in Dafny

A model of the BarriosGovernor contract of ComuniDAO, a small neighbourhood
governance contract. An owner (the deployer) authorizes participants and
drives each voting cycle through three phases: Closed (0), Proposals (1)
and Voting (2). During Proposals, authorized participants submit proposals
with ids 1, 2, 3, ... for 120 seconds. During Voting, each participant casts
at most one vote. `closeVotingPeriod(tieBreakerId)` picks the proposal with
the most votes. When proposals tie, the owner's tie-breaker id decides. The
winner is archived with the closing time, proposals and vote flags are
cleared, and the contract returns to Closed. The archive of winners is
permanent.

The contract's Solidity source is not part of this model. Its behaviour is
taken from the contract's test suite, `test/BarriosGovernor.test.ts`: the
revert strings, the phase numbers, the 120-second window, the sequential
ids, the tie-break and the archive fields. Where the tests are silent, the
model makes a documented choice (see "Left out").

Layout, one module per concern:

- `types.dfy` (`Types`): addresses, phases, proposals, winner records, errors, `Result`.
- `tally.dfy` (`Tally`): the highest count, the leaders, the tie-break rule
  (`SelectWinner`), and `ComputeWinner`, a loop implementation of it.
- `governor.dfy` (`BarriosGovernor`): the contract state and one pure
  transition per external call, `(state, caller, now, args) -> Result`.
- `invariants.dfy` (`Invariants`): the invariant of reachable states and the
  facts about single calls that rely on it.
- `calls.dfy` (`Calls`): transactions, `Step` (a reverted call keeps the
  state), `Run`, and lemmas over call sequences.
- `views.dfy` (`Views`): what the getters (`owner()`, `isAuthorized`,
  `currentPhase()`, `hasVoted`, `getProposals()`, `getWinningProposals()`)
  report, stated against the calls that change them.
- `scenarios.dfy` (`Scenarios`): the test cases replayed on the model.

Time is the parameter `now` (the block timestamp). Addresses are opaque
numbers. The `PhaseChanged` event is modelled as the `events` log in the
state, which holds the new phase of each transition.

## Model

| member | source | states |
|---|---|---|
| BarriosGovernor.Deploy | test/BarriosGovernor.test.ts:7-23 | the deployer becomes the owner; the contract starts Closed with nobody authorized, no proposals and an empty archive |
| BarriosGovernor.AuthorizeParticipant | test/BarriosGovernor.test.ts:25-30 | only the owner may call; afterwards `isAuthorized(who)` equals the flag, every other address reads as before, nothing else changes |
| BarriosGovernor.OpenVotingPeriod | test/BarriosGovernor.test.ts:51-55 | owner only, from Closed only; moves to Proposals (1), starts its clock at `now`, logs `PhaseChanged(Proposals)`, nothing else changes |
| BarriosGovernor.StartVotingPhase | test/BarriosGovernor.test.ts:228-234 | owner only, from Proposals only; rejected with "Aun no termina el periodo de propuestas" before 120 s have elapsed and accepted from then on; moves to Voting (2) |
| BarriosGovernor.SubmitProposal | test/BarriosGovernor.test.ts:32-49 | rejected with "No estas habilitado", "No estamos en fase de propuestas" or "Ya paso el tiempo de propuestas" exactly in those cases; otherwise appends one proposal with id count+1, the caller, the description and 0 votes, and returns that id |
| BarriosGovernor.VoteOnProposal | test/BarriosGovernor.test.ts:106-129 | rejected outside Voting ("No estamos en fase de votacion"), on a second vote ("Ya votaste"), when unauthorized or the id names no proposal; otherwise adds one vote to that proposal only and marks the caller as voted |
| BarriosGovernor.CloseVotingPeriod | test/BarriosGovernor.test.ts:166-194 | owner only, from Voting only; afterwards the phase is Closed (0), the proposal list is empty, nobody has voted, and the archive gained one record of a proposal with the highest count, closed at `now`, or none when there was no proposal |
| Tally.MaxVotes | test/BarriosGovernor.test.ts:268-280 | the highest vote count: no proposal exceeds it and, when there is a proposal, one reaches it |
| Tally.SelectWinner | test/BarriosGovernor.test.ts:70-104 | no proposal means no winner; any winner is one of the proposals and has the highest count; a rejection is always `InvalidTieBreaker` |
| Tally.UniqueMaxWins | test/BarriosGovernor.test.ts:268-280 | when one proposal strictly leads, it wins whatever the tie-breaker |
| Tally.TieBreakerPicksNamedLeader | test/BarriosGovernor.test.ts:84-94 | when two proposals tie at the top and ids are distinct, the tie-breaker naming one of them makes it the winner |
| Tally.RejectionMeansUnbrokenTie | test/BarriosGovernor.test.ts:93-94 | a rejected close always means a tie at the top where no leader has the tie-breaker's id |
| Tally.UnbrokenTieIsRejected | test/BarriosGovernor.test.ts:93-94 | such a tie is always rejected, so rejections happen exactly in that case |
| Tally.ComputeWinner | test/BarriosGovernor.test.ts:268-280 | a scan in passes (highest count, then the leaders, then the named one when they tie) gives exactly the winner `SelectWinner` defines |
| Invariants.SubmitPreservesValid | test/BarriosGovernor.test.ts:76-91 | a submission keeps ids sequential from 1 in submission order and the vote total unchanged |
| Invariants.VotePreservesValid | test/BarriosGovernor.test.ts:84-91 | a vote keeps the total of all vote counters equal to the number of voters in the cycle |
| Invariants.ClosePreservesValid | test/BarriosGovernor.test.ts:183-193 | a close leaves a valid Closed state whose archived winner has a real (non-zero) id |
| Invariants.OpenPreservesValid | test/BarriosGovernor.test.ts:131-150 | opening keeps the phase log in cycle order |
| Invariants.StartVotingPreservesValid | test/BarriosGovernor.test.ts:57-63 | starting the vote keeps the phase log in cycle order and the state valid |
| Invariants.VoteCountsForNamedProposal | test/BarriosGovernor.test.ts:177-181 | on a valid state a vote adds one to exactly the proposal with the named id, and changes no id, proposer or description |
| Invariants.NoVotesOutsideVoting | test/BarriosGovernor.test.ts:166-181 | on a valid state outside Voting every proposal holds zero votes: counts start at 0 and only voting adds to them |
| Invariants.VotesBoundedByVoters | test/BarriosGovernor.test.ts:114-129 | no proposal holds more votes than there are distinct voters in the cycle |
| Invariants.SecondVoteRejected | test/BarriosGovernor.test.ts:125-128 | right after a successful vote, a second vote by the same participant is rejected with "Ya votaste" |
| Invariants.CloseArchivesUniqueLeader | test/BarriosGovernor.test.ts:271-281 | closing with a strict leader archives that proposal's id, proposer, description, votes and the closing time, for any tie-breaker, and clears the proposals and the vote flags |
| Invariants.CloseArchivesNamedTiedLeader | test/BarriosGovernor.test.ts:93-94 | closing a tie with the id of a tied proposal archives that proposal |
| Invariants.CloseRejectsForeignTieBreaker | test/BarriosGovernor.test.ts:93-94 | closing a tie with an id that names none of the leaders is rejected |
| Calls.StepFacts | test/BarriosGovernor.test.ts:51-68 | one transaction keeps the phase or moves it to the next one (Closed, Proposals, Voting, Closed) and logs exactly that phase; only the owner moves it; the archive only grows, and only by a close |
| Calls.ReachableIsValid | test/BarriosGovernor.test.ts:51-68 | every state reachable from deployment is valid, and its phase log is Proposals, Voting, Closed, Proposals, ... ending in the current phase |
| Calls.RunAppendOnly | test/BarriosGovernor.test.ts:245-282 | over any call sequence the owner never changes, and earlier archive records and phase-log entries are never altered or removed |
| Calls.VotedUntilClose | test/BarriosGovernor.test.ts:114-129 | once a participant has voted, the flag survives every call except a successful close (a reverted close keeps it), so every further vote of theirs is rejected, with "Ya votaste" while they are authorized and the vote is open |
| Calls.ArchiveGrowthBounded | test/BarriosGovernor.test.ts:245-282 | the archive gains at most one record per transaction |
| Views.OwnerIsDeployer | test/BarriosGovernor.test.ts:19-23 | `owner()` reads the deployer after any sequence of transactions |
| Views.IsAuthorizedReadsLastGrant | test/BarriosGovernor.test.ts:25-30 | `isAuthorized(a)` reads the flag of the owner's last `authorizeParticipant(a, flag)`, or the starting value if there was none; other senders' attempts change nothing |
| Views.NeverNamedIsUnauthorized | test/BarriosGovernor.test.ts:32-37 | from deployment, an address no transaction ever named reads as not authorized |
| Types.PhaseCodes | test/BarriosGovernor.test.ts:54-67 | `currentPhase()` reports Closed, Proposals and Voting as 0, 1 and 2, and no two phases share a number |
| Views.CurrentPhaseCountsTransitions | test/BarriosGovernor.test.ts:51-68 | from deployment, `currentPhase()` is the number of phase transitions so far modulo 3 |
| Views.HasVotedReads | test/BarriosGovernor.test.ts:177-193 | a successful vote turns `hasVoted` true for the voter, who had not voted, and for nobody else; after a successful close it reads false for everyone |
| Views.GetProposalsReads | test/BarriosGovernor.test.ts:45-48 | after a submission `getProposals()` is the old list plus one entry at the end with id count+1, the caller, the description and 0 votes; after a close it is empty |
| Views.StepArchiveDate | test/BarriosGovernor.test.ts:272-281 | a transaction that adds to the archive is a successful close by the owner, and the new record carries that transaction's timestamp |
| Views.ArchiveRecordsComeFromCloses | test/BarriosGovernor.test.ts:274-281 | every record `getWinningProposals()` gained over a call sequence comes from a close the owner sent in it, dated with that close's timestamp |
| Views.ArchiveReadsCloses | test/BarriosGovernor.test.ts:274-280 | from deployment, every archived record has a real id (at least 1) and the date of one of the owner's closes |
| Views.ClockedStep | test/BarriosGovernor.test.ts:58-65 | a transaction no earlier than the clock keeps the phase start at or before the clock, a Voting phase started at least 120 s after time 0, and every archived date between 120 s and the clock, in order |
| Views.ArchiveDatesPositiveAndOrdered | test/BarriosGovernor.test.ts:274-281 | when block timestamps never decrease, every record `getWinningProposals()` returns from deployment is dated at least 120 s after time 0, so its date is positive, and the archive is in chronological order |
| Scenarios.OwnerAuthorizes | test/BarriosGovernor.test.ts:19-30 | the deployer is the owner; its authorization is readable; a non-owner's is rejected |
| Scenarios.PhaseCycle | test/BarriosGovernor.test.ts:51-68 | phases read 1; starting the vote is rejected 1 s after opening and accepted 121 s after it, reading 2; a close with tie-breaker 0 and no proposal reads 0 |
| Scenarios.ProposalGates | test/BarriosGovernor.test.ts:32-49 | the unauthorized, wrong-phase and late (121 s after opening) submissions are rejected with their reasons; authorized before opening, the accepted one gets id 1 |
| Scenarios.TwoProposalsOpen | test/BarriosGovernor.test.ts:250-265 | the shared opening of the multi-participant tests, call by call: two authorizations, opening, proposals with ids 1 and 2 and 0 votes, and Voting after 120 s |
| Scenarios.FullFlowArchivesWinner | test/BarriosGovernor.test.ts:267-282 | two votes for proposal 1 then a close with tie-breaker 0 leave exactly the record {1, user1, "Propuesta de user1", 2, closing time}, no proposals and no vote flags |
| Scenarios.TieBrokenByOwner | test/BarriosGovernor.test.ts:84-104 | the tie test: one vote each, a second vote is rejected, and closing with 2 archives proposal 2 and clears the list |
| Scenarios.SilentTieNeedsTieBreaker | test/BarriosGovernor.test.ts:84-94 | two proposals with no votes tie: closing with 0 is rejected, closing with 1 archives proposal 1 with 0 votes |

## Left out

- The contract's own Solidity source is not part of this model. Behaviour the tests do not exercise is a choice of this model: a non-owner calling an owner-only transition, a transition from the wrong phase, and a vote for an unknown proposal id. Their revert strings are unknown, so they are named errors (`NotOwner`, `WrongPhase`, `ProposalNotFound`).
- An unauthorized voter: the tests observe "No estas habilitado" only for `submitProposal` (test/BarriosGovernor.test.ts:37). Reusing that error (`NotAuthorized`) for `voteOnProposal` is a choice.
- Where no test fixes it, the order of the checks is a choice. `submitProposal` checks authorization, then phase, then the deadline. `voteOnProposal` checks authorization, phase, the previous vote, then the id.
- Tie-breaker naming none of the tied leaders: the tests never do this. The model rejects the close with `InvalidTieBreaker` (a choice). This also covers a cycle in which nobody voted: two or more proposals all at 0 votes tie, so closing with tie-breaker 0 is rejected and the owner has to name one of them (`Scenarios.SilentTieNeedsTieBreaker`).
- Closing with no proposals succeeds (test/BarriosGovernor.test.ts:65) and the model appends no winner record. The archive is not inspected in that test, so this is a choice: the archive holds one record per close that had at least one proposal.
- After a close the tests only check that every remaining `getProposals()` entry is zeroed. The model empties the list, which satisfies that check; ids restart at 1.
- `PhaseChanged` is logged on every transition. The tests only check it on opening. Topic encoding, gas and receipts are not modelled.
- Integer widths: the getters return ids, vote counts and dates as wide unsigned integers (bigint). The model takes them as unbounded `nat`s, since no realistic count or timestamp reaches the bound.
- The 120-second boundary: a submission is accepted exactly while `now < start + 120`, and the vote can start exactly when `now >= start + 120`. The tests probe about 1 s after opening (test/BarriosGovernor.test.ts:230-233) and about 1 s after the 120 s have elapsed (test/BarriosGovernor.test.ts:58-61, 158-163), so whether 120 s itself is inside or outside is a choice.
- `authorizeParticipant` is accepted in every phase, and the owner is not authorized at deployment. The tests exercise neither, so both are choices.
- Views.ArchiveReadsCloses: a call sequence may carry any timestamps, including decreasing ones, so over arbitrary sequences an archived date can be 0. Positive, ordered dates are proved only for sequences whose timestamps never decrease (`Views.ArchiveDatesPositiveAndOrdered`), as on a chain.
- The phase start at deployment is set to 0. It is never read before the first opening.
- The 10–500 character description limit is form validation in the frontend, not a contract rule.
- The frontend (React pages, wallet sessions, the RPC service wrapper, viem clients), `scripts/deploy.ts` and `utils/verify.ts` are I/O around the contract and are not modelled.
- Concurrency: the chain runs one call at a time, so each call is one atomic transition (`Calls.Step`).
