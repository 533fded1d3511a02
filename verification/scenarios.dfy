/**
  The contract's test cases, replayed on the model. Three accounts: the
  deployer (owner) and two participants; times are block timestamps in
  seconds. Each flow is a chain of calls in which any revert aborts the
  whole flow, as it aborts the test.
 */
module Scenarios {
  import opened Types
  import opened BarriosGovernor
  import Tally

  const OWNER: Address := 10
  const USER1: Address := 11
  const USER2: Address := 12

  /** Deployment makes the deployer the owner; the owner's authorization is readable. */
  lemma OwnerAuthorizes()
    ensures Owner(Deploy(OWNER)) == OWNER
    ensures var r := AuthorizeParticipant(Deploy(OWNER), OWNER, USER1, true);
            r.Ok? && IsAuthorized(r.value, USER1)
    ensures AuthorizeParticipant(Deploy(OWNER), USER1, USER1, true) == Err(NotOwner)
  {
  }

  /**
    Phases advance Proposals (1); Voting (2) is refused one second after
    opening and accepted one block after the 120 s have elapsed; a close
    with no proposal returns to Closed (0).
   */
  lemma PhaseCycle()
    ensures var s1 := OpenVotingPeriod(Deploy(OWNER), OWNER, 100);
            && s1.Ok? && CurrentPhase(s1.value).Code() == 1 && s1.value.events == [Proposals]
            && StartVotingPhase(s1.value, OWNER, 101) == Err(ProposalPeriodNotOver)
            && var s2 := StartVotingPhase(s1.value, OWNER, 221);
               && s2.Ok? && CurrentPhase(s2.value).Code() == 2
               && var s3 := CloseVotingPeriod(s2.value, OWNER, 222, 0);
                  && s3.Ok? && CurrentPhase(s3.value).Code() == 0
                  && GetWinningProposals(s3.value) == []
  {
  }

  /**
    An unauthorized participant cannot propose; an authorized one cannot
    before the Proposals phase nor one block after its 120 s, and can in it.
   */
  lemma ProposalGates()
    ensures var s := OpenVotingPeriod(Deploy(OWNER), OWNER, 100).value;
            SubmitProposal(s, USER1, 101, "Mi propuesta") == Err(NotAuthorized)
    ensures var a := AuthorizeParticipant(Deploy(OWNER), OWNER, USER1, true).value;
            && SubmitProposal(a, USER1, 100, "Propuesta") == Err(NotInProposalPhase)
            && VoteOnProposal(a, USER1, 1) == Err(NotInVotingPhase)
            && var o := OpenVotingPeriod(a, OWNER, 100).value;
               && SubmitProposal(o, USER1, 221, "Propuesta tardia") == Err(ProposalPeriodOver)
               && var r := SubmitProposal(o, USER1, 101, "Mi propuesta");
                  && r.Ok? && r.value.id == 1
                  && GetProposals(r.value.state) == [Proposal(1, USER1, "Mi propuesta", 0)]
  {
  }

  /** The contract once both participants are authorized. */
  function Authorized(): (s: State)
  {
    Deploy(OWNER).(authorized := map[USER1 := true, USER2 := true])
  }

  /** The contract in Proposals, opened at time 3, holding the given proposals. */
  function Proposing(ps: seq<Proposal>): (s: State)
  {
    Authorized().(phase := Proposals, phaseStart := 3, proposals := ps, events := [Proposals])
  }

  /** The contract in Voting, opened at time 125, with the given proposals and voters. */
  function Balloting(ps: seq<Proposal>, voted: set<Address>): (s: State)
  {
    Authorized().(phase := Voting, phaseStart := 125, proposals := ps, voted := voted, events := [Proposals, Voting])
  }

  /**
    The opening of both multi-participant tests, one call at a time: two
    authorizations, the Proposals phase, one proposal each, and the Voting
    phase 120 s after opening.
   */
  lemma TwoProposalsOpen(d1: string, d2: string)
    ensures var a1 := Deploy(OWNER).(authorized := map[USER1 := true]);
            && AuthorizeParticipant(Deploy(OWNER), OWNER, USER1, true) == Ok(a1)
            && AuthorizeParticipant(a1, OWNER, USER2, true) == Ok(Authorized())
    ensures OpenVotingPeriod(Authorized(), OWNER, 3) == Ok(Proposing([]))
    ensures SubmitProposal(Proposing([]), USER1, 4, d1) ==
              Ok(Submitted(Proposing([Proposal(1, USER1, d1, 0)]), 1))
    ensures SubmitProposal(Proposing([Proposal(1, USER1, d1, 0)]), USER2, 5, d2) ==
              Ok(Submitted(Proposing([Proposal(1, USER1, d1, 0), Proposal(2, USER2, d2, 0)]), 2))
    ensures StartVotingPhase(Proposing([Proposal(1, USER1, d1, 0), Proposal(2, USER2, d2, 0)]), OWNER, 125) ==
              Ok(Balloting([Proposal(1, USER1, d1, 0), Proposal(2, USER2, d2, 0)], {}))
  {
    var p1 := Proposal(1, USER1, d1, 0);
    var p2 := Proposal(2, USER2, d2, 0);
    assert OpenVotingPeriod(Authorized(), OWNER, 3).value.events == [Proposals];
    assert SubmitProposal(Proposing([]), USER1, 4, d1).value.state.proposals == [p1];
    assert SubmitProposal(Proposing([p1]), USER2, 5, d2).value.state.proposals == [p1, p2];
    assert StartVotingPhase(Proposing([p1, p2]), OWNER, 125).value.events == [Proposals, Voting];
  }

  /**
    The winner-archive test: both participants vote for proposal 1 and the
    owner closes with tie-breaker 0; the archive then holds proposal 1 with
    both votes and the closing time, and the cycle is cleared.
   */
  lemma FullFlowArchivesWinner()
    ensures var p1 := Proposal(1, USER1, "Propuesta de user1", 0);
            var p2 := Proposal(2, USER2, "Propuesta de user2", 0);
            && VoteOnProposal(Balloting([p1, p2], {}), USER1, 1) == Ok(Balloting([p1.(votes := 1), p2], {USER1}))
            && VoteOnProposal(Balloting([p1.(votes := 1), p2], {USER1}), USER2, 1)
                 == Ok(Balloting([p1.(votes := 2), p2], {USER1, USER2}))
            && var c := CloseVotingPeriod(Balloting([p1.(votes := 2), p2], {USER1, USER2}), OWNER, 128, 0);
               && c.Ok?
               && GetWinningProposals(c.value) == [WinnerRecord(1, USER1, "Propuesta de user1", 2, 128)]
               && GetProposals(c.value) == []
               && CurrentPhase(c.value) == Closed
               && !HasVoted(c.value, USER1) && !HasVoted(c.value, USER2)
  {
    var p1 := Proposal(1, USER1, "Propuesta de user1", 0);
    var p2 := Proposal(2, USER2, "Propuesta de user2", 0);
    assert VoteOnProposal(Balloting([p1, p2], {}), USER1, 1).value.proposals == [p1.(votes := 1), p2];
    assert {} + {USER1} == {USER1} && {USER1} + {USER2} == {USER1, USER2};
    assert VoteOnProposal(Balloting([p1.(votes := 1), p2], {USER1}), USER2, 1).value.proposals
             == [p1.(votes := 2), p2];
    Tally.UniqueMaxWins([p1.(votes := 2), p2], 0, 0);
  }

  /**
    The tie test: one vote each; a repeated vote is refused; the owner
    closes with 2 and proposal 2 is archived.
   */
  lemma TieBrokenByOwner()
    ensures var p1 := Proposal(1, USER1, "Propuesta 1", 0);
            var p2 := Proposal(2, USER2, "Propuesta 2", 0);
            var tied := Balloting([p1.(votes := 1), p2.(votes := 1)], {USER1, USER2});
            && VoteOnProposal(Balloting([p1, p2], {}), USER1, 1) == Ok(Balloting([p1.(votes := 1), p2], {USER1}))
            && VoteOnProposal(Balloting([p1.(votes := 1), p2], {USER1}), USER2, 2) == Ok(tied)
            && VoteOnProposal(tied, USER1, 1) == Err(AlreadyVoted)
            && var c := CloseVotingPeriod(tied, OWNER, 128, 2);
               && c.Ok?
               && GetWinningProposals(c.value) == [WinnerRecord(2, USER2, "Propuesta 2", 1, 128)]
               && GetProposals(c.value) == []
  {
    var p1 := Proposal(1, USER1, "Propuesta 1", 0);
    var p2 := Proposal(2, USER2, "Propuesta 2", 0);
    assert VoteOnProposal(Balloting([p1, p2], {}), USER1, 1).value.proposals == [p1.(votes := 1), p2];
    assert {} + {USER1} == {USER1} && {USER1} + {USER2} == {USER1, USER2};
    assert VoteOnProposal(Balloting([p1.(votes := 1), p2], {USER1}), USER2, 2).value.proposals
             == [p1.(votes := 1), p2.(votes := 1)];
    Tally.TieBreakerPicksNamedLeader([p1.(votes := 1), p2.(votes := 1)], 1, 0);
  }

  /**
    A cycle in which nobody voted: both proposals tie at zero votes, so a
    close with tie-breaker 0 is rejected, and naming either proposal archives it.
   */
  lemma SilentTieNeedsTieBreaker()
    ensures var p1 := Proposal(1, USER1, "Propuesta 1", 0);
            var p2 := Proposal(2, USER2, "Propuesta 2", 0);
            && CloseVotingPeriod(Balloting([p1, p2], {}), OWNER, 200, 0) == Err(InvalidTieBreaker)
            && var c := CloseVotingPeriod(Balloting([p1, p2], {}), OWNER, 200, 1);
               && c.Ok? && GetWinningProposals(c.value) == [WinnerRecord(1, USER1, "Propuesta 1", 0, 200)]
  {
    var p1 := Proposal(1, USER1, "Propuesta 1", 0);
    var p2 := Proposal(2, USER2, "Propuesta 2", 0);
    assert Tally.Tied([p1, p2], 0, 1);
    Tally.UnbrokenTieIsRejected([p1, p2], 0);
    Tally.TieBreakerPicksNamedLeader([p1, p2], 0, 1);
  }
}
