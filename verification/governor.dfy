/**
  The BarriosGovernor contract as a state record and one pure transition
  function per external call. A call that reverts yields `Err` and leaves
  the caller holding the unchanged state; `now` is the block timestamp.
 */
module BarriosGovernor {
  import opened Types
  import Tally

  /**
    The whole contract storage: the fixed owner, the authorization map, the
    phase and the moment it began, the current cycle's proposals, who has
    voted in this cycle, the archive of winners and the `PhaseChanged` log
    (the new phase of every transition, oldest first).
   */
  datatype State = State(
    owner: Address,
    authorized: map<Address, bool>,
    phase: Phase,
    phaseStart: nat,
    proposals: seq<Proposal>,
    voted: set<Address>,
    winners: seq<WinnerRecord>,
    events: seq<Phase>)

  /** A successful `submitProposal`: the new state and the id it assigned. */
  datatype Submitted = Submitted(state: State, id: nat)

  /** Deployment: the deployer owns the contract, which starts Closed and empty. */
  function Deploy(deployer: Address): (s: State)
    ensures Owner(s) == deployer
    ensures CurrentPhase(s) == Closed
    ensures forall a :: !IsAuthorized(s, a) && !HasVoted(s, a)
    ensures GetProposals(s) == [] && GetWinningProposals(s) == []
  {
    State(deployer, map[], Closed, 0, [], {}, [], [])
  }

  // Read-only views.

  function Owner(s: State): (owner: Address)
  {
    s.owner
  }

  /** An address never authorized reads as not authorized. */
  function IsAuthorized(s: State, a: Address): (b: bool)
  {
    a in s.authorized && s.authorized[a]
  }

  function CurrentPhase(s: State): (p: Phase)
  {
    s.phase
  }

  function HasVoted(s: State, a: Address): (b: bool)
  {
    a in s.voted
  }

  function GetProposals(s: State): (ps: seq<Proposal>)
  {
    s.proposals
  }

  function GetWinningProposals(s: State): (ws: seq<WinnerRecord>)
  {
    s.winners
  }

  /** The end of the proposal window: the Proposals phase start plus the period. */
  function Deadline(s: State): (t: nat)
  {
    s.phaseStart + PROPOSAL_PERIOD
  }

  /** The archive entry for proposal `p` closed at time `now`. */
  function Archived(p: Proposal, now: nat): (w: WinnerRecord)
  {
    WinnerRecord(p.id, p.proposer, p.description, p.votes, now)
  }

  // Transitions.

  /** `authorizeParticipant(who, flag)`: the owner grants or revokes participation, in any phase. */
  function AuthorizeParticipant(s: State, caller: Address, who: Address, flag: bool): (r: Result<State>)
    ensures r.Err? <==> caller != s.owner
    ensures r.Err? ==> r.error == NotOwner
    ensures r.Ok? ==> IsAuthorized(r.value, who) == flag
    ensures r.Ok? ==> forall a :: a != who ==> IsAuthorized(r.value, a) == IsAuthorized(s, a)
    ensures r.Ok? ==> r.value.(authorized := s.authorized) == s
  {
    if caller != s.owner then Err(NotOwner)
    else Ok(s.(authorized := s.authorized[who := flag]))
  }

  /** `openVotingPeriod()`: the owner opens the Proposals phase of a new cycle. */
  function OpenVotingPeriod(s: State, caller: Address, now: nat): (r: Result<State>)
    ensures caller != s.owner ==> r == Err(NotOwner)
    ensures caller == s.owner && s.phase != Closed ==> r == Err(WrongPhase)
    ensures r.Ok? <==> caller == s.owner && s.phase == Closed
    ensures r.Ok? ==> r.value.phase == Proposals && r.value.phaseStart == now
    ensures r.Ok? ==> r.value.events == s.events + [Proposals]
    ensures r.Ok? ==> r.value.(phase := s.phase, phaseStart := s.phaseStart, events := s.events) == s
  {
    if caller != s.owner then Err(NotOwner)
    else if s.phase != Closed then Err(WrongPhase)
    else Ok(s.(phase := Proposals, phaseStart := now, events := s.events + [Proposals]))
  }

  /** `startVotingPhase()`: the owner moves to Voting once the proposal window has elapsed. */
  function StartVotingPhase(s: State, caller: Address, now: nat): (r: Result<State>)
    ensures caller != s.owner ==> r == Err(NotOwner)
    ensures caller == s.owner && s.phase != Proposals ==> r == Err(WrongPhase)
    ensures caller == s.owner && s.phase == Proposals && now < Deadline(s) ==> r == Err(ProposalPeriodNotOver)
    ensures r.Ok? <==> caller == s.owner && s.phase == Proposals && now >= Deadline(s)
    ensures r.Ok? ==> r.value.phase == Voting && r.value.phaseStart == now
    ensures r.Ok? ==> r.value.events == s.events + [Voting]
    ensures r.Ok? ==> r.value.(phase := s.phase, phaseStart := s.phaseStart, events := s.events) == s
  {
    if caller != s.owner then Err(NotOwner)
    else if s.phase != Proposals then Err(WrongPhase)
    else if now < Deadline(s) then Err(ProposalPeriodNotOver)
    else Ok(s.(phase := Voting, phaseStart := now, events := s.events + [Voting]))
  }

  /** `submitProposal(description)`: an authorized participant adds a proposal within the window. */
  function SubmitProposal(s: State, caller: Address, now: nat, description: string): (r: Result<Submitted>)
    ensures !IsAuthorized(s, caller) ==> r == Err(NotAuthorized)
    ensures IsAuthorized(s, caller) && s.phase != Proposals ==> r == Err(NotInProposalPhase)
    ensures IsAuthorized(s, caller) && s.phase == Proposals && now >= Deadline(s) ==> r == Err(ProposalPeriodOver)
    ensures r.Ok? <==> IsAuthorized(s, caller) && s.phase == Proposals && now < Deadline(s)
    ensures r.Ok? ==> r.value.id == |s.proposals| + 1
    ensures r.Ok? ==> r.value.state.proposals == s.proposals + [Proposal(r.value.id, caller, description, 0)]
    ensures r.Ok? ==> r.value.state.(proposals := s.proposals) == s
  {
    if !IsAuthorized(s, caller) then Err(NotAuthorized)
    else if s.phase != Proposals then Err(NotInProposalPhase)
    else if now >= Deadline(s) then Err(ProposalPeriodOver)
    else
      var id := |s.proposals| + 1;
      Ok(Submitted(s.(proposals := s.proposals + [Proposal(id, caller, description, 0)]), id))
  }

  /** `voteOnProposal(id)`: an authorized participant casts this cycle's single vote. */
  function VoteOnProposal(s: State, caller: Address, id: nat): (r: Result<State>)
    ensures !IsAuthorized(s, caller) ==> r == Err(NotAuthorized)
    ensures IsAuthorized(s, caller) && s.phase != Voting ==> r == Err(NotInVotingPhase)
    ensures IsAuthorized(s, caller) && s.phase == Voting && HasVoted(s, caller) ==> r == Err(AlreadyVoted)
    ensures (IsAuthorized(s, caller) && s.phase == Voting && !HasVoted(s, caller) && !(1 <= id <= |s.proposals|))
              ==> r == Err(ProposalNotFound)
    ensures r.Ok? <==>
              IsAuthorized(s, caller) && s.phase == Voting && !HasVoted(s, caller) && 1 <= id <= |s.proposals|
    ensures r.Ok? ==> r.value.voted == s.voted + {caller}
    ensures r.Ok? ==> |r.value.proposals| == |s.proposals|
    ensures r.Ok? ==> forall i :: 0 <= i < |s.proposals| ==>
              r.value.proposals[i] == if i == id - 1 then s.proposals[i].(votes := s.proposals[i].votes + 1)
                                      else s.proposals[i]
    ensures r.Ok? ==> r.value.(proposals := s.proposals, voted := s.voted) == s
  {
    if !IsAuthorized(s, caller) then Err(NotAuthorized)
    else if s.phase != Voting then Err(NotInVotingPhase)
    else if HasVoted(s, caller) then Err(AlreadyVoted)
    else if !(1 <= id <= |s.proposals|) then Err(ProposalNotFound)
    else
      var p := s.proposals[id - 1];
      Ok(s.(proposals := s.proposals[id - 1 := p.(votes := p.votes + 1)], voted := s.voted + {caller}))
  }

  /**
    `closeVotingPeriod(tieBreakerId)`: the owner ends the cycle. The winner,
    if there is a proposal, is archived with the closing time; the proposals
    and the vote flags are cleared and the contract is Closed again.
   */
  function CloseVotingPeriod(s: State, caller: Address, now: nat, tieBreakerId: nat): (r: Result<State>)
    ensures caller != s.owner ==> r == Err(NotOwner)
    ensures caller == s.owner && s.phase != Voting ==> r == Err(WrongPhase)
    ensures caller == s.owner && s.phase == Voting ==>
              (r.Err? <==> Tally.SelectWinner(s.proposals, tieBreakerId).Err?)
    ensures r.Err? ==> r.error in {NotOwner, WrongPhase, InvalidTieBreaker}
    ensures r.Ok? ==> r.value.phase == Closed && r.value.phaseStart == now
    ensures r.Ok? ==> r.value.proposals == [] && r.value.voted == {}
    ensures r.Ok? ==> r.value.events == s.events + [Closed]
    ensures r.Ok? && s.proposals == [] ==> r.value.winners == s.winners
    ensures r.Ok? && s.proposals != [] ==>
              exists i :: 0 <= i < |s.proposals|
                && r.value.winners == s.winners + [Archived(s.proposals[i], now)]
                && forall j :: 0 <= j < |s.proposals| ==> s.proposals[j].votes <= s.proposals[i].votes
    ensures r.Ok? ==> r.value.owner == s.owner && r.value.authorized == s.authorized
  {
    if caller != s.owner then Err(NotOwner)
    else if s.phase != Voting then Err(WrongPhase)
    else match Tally.SelectWinner(s.proposals, tieBreakerId)
      case Err(e) => Err(e)
      case Ok(w) =>
        var winners := if w.Some? then s.winners + [Archived(w.value, now)] else s.winners;
        Ok(s.(phase := Closed, phaseStart := now, proposals := [], voted := {},
              winners := winners, events := s.events + [Closed]))
  }
}
