/**
  What holds of every state the contract can reach, and the facts about
  single calls that rely on it.
 */
module Invariants {
  import opened Types
  import Tally
  import opened BarriosGovernor

  /** The sum of the vote counters of `ps`. */
  function TotalVotes(ps: seq<Proposal>): (n: nat)
  {
    if |ps| == 0 then 0 else TotalVotes(ps[..|ps| - 1]) + ps[|ps| - 1].votes
  }

  /** Proposal ids are 1, 2, 3, ... in submission order. */
  predicate SequentialIds(ps: seq<Proposal>)
  {
    forall i :: 0 <= i < |ps| ==> ps[i].id == i + 1
  }

  /** The `PhaseChanged` log lists Proposals, Voting, Closed, Proposals, ... and ends in the current phase. */
  predicate PhaseLog(s: State)
  {
    && s.phase == PhaseAfter(|s.events|)
    && forall i :: 0 <= i < |s.events| ==> s.events[i] == PhaseAfter(i + 1)
  }

  /**
    The reachable states: sequential ids; no proposal while Closed; no voter
    outside Voting; one counted vote per voter; every archived winner a real
    proposal; the phase log in cycle order.
   */
  predicate Valid(s: State)
  {
    && SequentialIds(s.proposals)
    && (s.phase == Closed ==> s.proposals == [])
    && (s.phase != Voting ==> s.voted == {})
    && TotalVotes(s.proposals) == |s.voted|
    && (forall k :: 0 <= k < |s.winners| ==> s.winners[k].id >= 1)
    && PhaseLog(s)
  }

  lemma TotalVotesAppend(ps: seq<Proposal>, p: Proposal)
    ensures TotalVotes(ps + [p]) == TotalVotes(ps) + p.votes
  {
    assert (ps + [p])[..|ps|] == ps;
  }

  /** One more vote on one proposal adds one to the total. */
  lemma {:induction false} TotalVotesIncrement(ps: seq<Proposal>, i: nat)
    requires i < |ps|
    ensures TotalVotes(ps[i := ps[i].(votes := ps[i].votes + 1)]) == TotalVotes(ps) + 1
  {
    var qs := ps[i := ps[i].(votes := ps[i].votes + 1)];
    var n := |ps| - 1;
    if i == n {
      assert qs[..n] == ps[..n];
    } else {
      assert qs[..n] == ps[..n][i := ps[i].(votes := ps[i].votes + 1)];
      TotalVotesIncrement(ps[..n], i);
    }
  }

  /** No proposal holds more votes than the total. */
  lemma {:induction false} VotesBoundedByTotal(ps: seq<Proposal>, i: nat)
    requires i < |ps|
    ensures ps[i].votes <= TotalVotes(ps)
  {
    var n := |ps| - 1;
    if i < n {
      VotesBoundedByTotal(ps[..n], i);
      assert ps[..n][i] == ps[i];
    }
  }

  lemma SequentialIdsDistinct(ps: seq<Proposal>)
    requires SequentialIds(ps)
    ensures Tally.DistinctIds(ps)
  {
  }

  /** A transition to the next phase that logs that phase keeps the log in cycle order. */
  lemma PhaseLogAdvance(s: State, t: State)
    requires PhaseLog(s)
    requires t.phase == s.phase.Next()
    requires t.events == s.events + [t.phase]
    ensures PhaseLog(t)
  {
    PhaseAfterNext(|s.events|);
    forall i | 0 <= i < |t.events|
      ensures t.events[i] == PhaseAfter(i + 1)
    {
      if i < |s.events| {
        assert t.events[i] == s.events[i];
      }
    }
  }

  // The deployed contract is valid, and every successful call keeps it so.

  lemma DeployValid(deployer: Address)
    ensures Valid(Deploy(deployer))
  {
  }

  lemma AuthorizePreservesValid(s: State, caller: Address, who: Address, flag: bool)
    requires Valid(s)
    ensures AuthorizeParticipant(s, caller, who, flag).Ok? ==> Valid(AuthorizeParticipant(s, caller, who, flag).value)
  {
  }

  lemma OpenPreservesValid(s: State, caller: Address, now: nat)
    requires Valid(s)
    ensures OpenVotingPeriod(s, caller, now).Ok? ==> Valid(OpenVotingPeriod(s, caller, now).value)
  {
    var r := OpenVotingPeriod(s, caller, now);
    if r.Ok? {
      PhaseLogAdvance(s, r.value);
    }
  }

  lemma StartVotingPreservesValid(s: State, caller: Address, now: nat)
    requires Valid(s)
    ensures StartVotingPhase(s, caller, now).Ok? ==> Valid(StartVotingPhase(s, caller, now).value)
  {
    var r := StartVotingPhase(s, caller, now);
    if r.Ok? {
      PhaseLogAdvance(s, r.value);
    }
  }

  lemma SubmitPreservesValid(s: State, caller: Address, now: nat, description: string)
    requires Valid(s)
    ensures SubmitProposal(s, caller, now, description).Ok? ==>
              Valid(SubmitProposal(s, caller, now, description).value.state)
  {
    var r := SubmitProposal(s, caller, now, description);
    if r.Ok? {
      TotalVotesAppend(s.proposals, Proposal(r.value.id, caller, description, 0));
    }
  }

  lemma VotePreservesValid(s: State, caller: Address, id: nat)
    requires Valid(s)
    ensures VoteOnProposal(s, caller, id).Ok? ==> Valid(VoteOnProposal(s, caller, id).value)
  {
    var r := VoteOnProposal(s, caller, id);
    if r.Ok? {
      TotalVotesIncrement(s.proposals, id - 1);
      assert r.value.proposals == s.proposals[id - 1 := s.proposals[id - 1].(votes := s.proposals[id - 1].votes + 1)];
    }
  }

  lemma ClosePreservesValid(s: State, caller: Address, now: nat, tieBreakerId: nat)
    requires Valid(s)
    ensures CloseVotingPeriod(s, caller, now, tieBreakerId).Ok? ==>
              Valid(CloseVotingPeriod(s, caller, now, tieBreakerId).value)
  {
    var r := CloseVotingPeriod(s, caller, now, tieBreakerId);
    if r.Ok? {
      var t := r.value;
      PhaseLogAdvance(s, t);
      assert t.proposals == [] && t.voted == {};
      if s.proposals != [] {
        var i :| 0 <= i < |s.proposals| && t.winners == s.winners + [Archived(s.proposals[i], now)];
        assert s.proposals[i].id == i + 1;
      }
    }
  }

  // Facts about single calls on valid states.

  /**
    A vote adds one to exactly the proposal whose id was named, and to no
    other; ids, proposers and descriptions are untouched.
   */
  lemma VoteCountsForNamedProposal(s: State, caller: Address, id: nat)
    requires Valid(s)
    requires VoteOnProposal(s, caller, id).Ok?
    ensures var t := VoteOnProposal(s, caller, id).value;
            && HasVoted(t, caller)
            && |t.proposals| == |s.proposals|
            && (exists i :: 0 <= i < |s.proposals| && s.proposals[i].id == id)
            && forall i :: 0 <= i < |s.proposals| ==>
                 && t.proposals[i].votes == s.proposals[i].votes + (if s.proposals[i].id == id then 1 else 0)
                 && t.proposals[i].(votes := 0) == s.proposals[i].(votes := 0)
  {
    assert s.proposals[id - 1].id == id;
  }

  /** No proposal can hold more votes than there are voters in the cycle. */
  lemma VotesBoundedByVoters(s: State, i: nat)
    requires Valid(s)
    requires i < |s.proposals|
    ensures s.proposals[i].votes <= |s.voted|
  {
    VotesBoundedByTotal(s.proposals, i);
  }

  /** Outside Voting nobody has voted, so every proposal holds zero votes. */
  lemma NoVotesOutsideVoting(s: State, i: nat)
    requires Valid(s)
    requires s.phase != Voting
    requires i < |s.proposals|
    ensures s.proposals[i].votes == 0
  {
    VotesBoundedByTotal(s.proposals, i);
  }

  /** A participant who voted is turned away with `AlreadyVoted` for the rest of the cycle. */
  lemma SecondVoteRejected(s: State, caller: Address, id: nat, secondId: nat)
    requires VoteOnProposal(s, caller, id).Ok?
    ensures VoteOnProposal(VoteOnProposal(s, caller, id).value, caller, secondId) == Err(AlreadyVoted)
  {
  }

  /**
    Closing with a unique leader archives that leader, whatever the
    tie-breaker, and clears the cycle.
   */
  lemma CloseArchivesUniqueLeader(s: State, now: nat, i: nat, tieBreakerId: nat)
    requires s.phase == Voting
    requires Tally.UniqueMax(s.proposals, i)
    ensures CloseVotingPeriod(s, s.owner, now, tieBreakerId).Ok?
    ensures CloseVotingPeriod(s, s.owner, now, tieBreakerId).value.winners
              == s.winners + [Archived(s.proposals[i], now)]
    ensures CloseVotingPeriod(s, s.owner, now, tieBreakerId).value.proposals == []
    ensures CloseVotingPeriod(s, s.owner, now, tieBreakerId).value.voted == {}
  {
    Tally.UniqueMaxWins(s.proposals, i, tieBreakerId);
  }

  /** In a tie, closing with the id of one of the tied proposals archives that proposal. */
  lemma CloseArchivesNamedTiedLeader(s: State, now: nat, i: nat, j: nat)
    requires Valid(s)
    requires s.phase == Voting
    requires Tally.Tied(s.proposals, i, j)
    ensures CloseVotingPeriod(s, s.owner, now, i + 1).Ok?
    ensures CloseVotingPeriod(s, s.owner, now, i + 1).value.winners
              == s.winners + [Archived(s.proposals[i], now)]
  {
    SequentialIdsDistinct(s.proposals);
    Tally.TieBreakerPicksNamedLeader(s.proposals, i, j);
    assert s.proposals[i].id == i + 1;
    assert Tally.SelectWinner(s.proposals, i + 1) == Ok(Some(s.proposals[i]));
  }

  /** In a tie, a tie-breaker that names none of the tied proposals is rejected. */
  lemma CloseRejectsForeignTieBreaker(s: State, now: nat, tieBreakerId: nat)
    requires s.phase == Voting
    requires Tally.UnbrokenTie(s.proposals, tieBreakerId)
    ensures CloseVotingPeriod(s, s.owner, now, tieBreakerId) == Err(InvalidTieBreaker)
  {
    Tally.UnbrokenTieIsRejected(s.proposals, tieBreakerId);
  }
}
