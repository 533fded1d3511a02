/**
  The entities of the BarriosGovernor contract: participants (addresses),
  the three phases of a voting cycle, proposals, winner records and the
  reasons a call is rejected.
 */
module Types {

  /** An account identity. Addresses are opaque: only equality matters. */
  type Address = nat

  /** Length of the proposal window, in seconds. */
  const PROPOSAL_PERIOD: nat := 120

  /** The contract's phase. The contract reports it as a uint8 (the `PhaseChanged(uint8 newPhase)` event, test/BarriosGovernor.test.ts:141). */
  datatype Phase = Closed | Proposals | Voting {

    /** The numeric value reported by `currentPhase()`. */
    function Code(): (c: nat)
      ensures c < 3
    {
      match this
      case Closed => 0
      case Proposals => 1
      case Voting => 2
    }

    /** The only phase an administrator transition can lead to from this one. */
    function Next(): (p: Phase)
      ensures p != this
      ensures p.Code() == (Code() + 1) % 3
    {
      match this
      case Closed => Proposals
      case Proposals => Voting
      case Voting => Closed
    }
  }

  /** `currentPhase()` reports Closed, Proposals, Voting as 0, 1, 2, and no two phases share a number. */
  lemma PhaseCodes()
    ensures Closed.Code() == 0 && Proposals.Code() == 1 && Voting.Code() == 2
    ensures forall p: Phase, q: Phase :: p.Code() == q.Code() ==> p == q
  {
  }

  /** The phase the contract is in after `n` transitions from deployment. */
  function PhaseAfter(n: nat): (p: Phase)
    ensures p.Code() == n % 3
  {
    if n % 3 == 0 then Closed
    else if n % 3 == 1 then Proposals
    else Voting
  }

  lemma PhaseAfterNext(n: nat)
    ensures PhaseAfter(n).Next() == PhaseAfter(n + 1)
  {
  }

  /** An entry of the current cycle's proposal list. */
  datatype Proposal = Proposal(id: nat, proposer: Address, description: string, votes: nat)

  /** An entry of the permanent archive of winners; `date` is the closing time. */
  datatype WinnerRecord = WinnerRecord(id: nat, proposer: Address, description: string, votes: nat, date: nat)

  /** Why a call reverts. Where a test observes the revert string, it is given. */
  datatype Error =
    | NotOwner              // an owner-only call made by someone else
    | WrongPhase            // an owner transition made from the wrong phase
    | NotAuthorized         // "No estas habilitado" (observed on submission; reused for voting)
    | NotInProposalPhase    // "No estamos en fase de propuestas"
    | ProposalPeriodOver    // "Ya paso el tiempo de propuestas"
    | ProposalPeriodNotOver // "Aun no termina el periodo de propuestas"
    | NotInVotingPhase      // "No estamos en fase de votacion"
    | AlreadyVoted          // "Ya votaste"
    | ProposalNotFound      // the voted id names no current proposal
    | InvalidTieBreaker     // a tie, and the tie-breaker names none of the leaders

  /** The outcome of a state-changing call: the new value, or the revert reason. */
  datatype Result<+T> = Ok(value: T) | Err(error: Error)

  datatype Option<+T> = None | Some(value: T)
}
