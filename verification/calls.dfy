/**
  Sequences of transactions. The chain runs one call at a time; a call that
  reverts leaves the contract as it was.
 */
module Calls {
  import opened Types
  import opened BarriosGovernor
  import opened Invariants

  /** The state-changing entry points of the contract. */
  datatype Call =
    | Authorize(who: Address, flag: bool)
    | Open
    | StartVoting
    | Submit(description: string)
    | Vote(id: nat)
    | Close(tieBreakerId: nat)

  /** One transaction: who sends it, the block timestamp, and the call. */
  datatype Tx = Tx(caller: Address, now: nat, call: Call)

  function Apply(s: State, tx: Tx): (r: Result<State>)
  {
    match tx.call
    case Authorize(who, flag) => AuthorizeParticipant(s, tx.caller, who, flag)
    case Open => OpenVotingPeriod(s, tx.caller, tx.now)
    case StartVoting => StartVotingPhase(s, tx.caller, tx.now)
    case Submit(d) =>
      (match SubmitProposal(s, tx.caller, tx.now, d)
       case Ok(sub) => Ok(sub.state)
       case Err(e) => Err(e))
    case Vote(id) => VoteOnProposal(s, tx.caller, id)
    case Close(tb) => CloseVotingPeriod(s, tx.caller, tx.now, tb)
  }

  /** The state after one transaction: the new state, or the old one when the call reverts. */
  function Step(s: State, tx: Tx): (t: State)
  {
    match Apply(s, tx)
    case Ok(t) => t
    case Err(_) => s
  }

  /** The state after a sequence of transactions, oldest first. */
  function Run(s: State, txs: seq<Tx>): (t: State)
    decreases |txs|
  {
    if |txs| == 0 then s else Run(Step(s, txs[0]), txs[1..])
  }

  /**
    One transaction either keeps the phase, or moves it to the next phase
    and logs exactly that phase; only the owner can make it move. The
    owner never changes and the archive grows by at most one record, and
    only by a successful close.
   */
  lemma StepFacts(s: State, tx: Tx)
    ensures var t := Step(s, tx);
            && t.owner == s.owner
            && (t.phase == s.phase || (t.phase == s.phase.Next() && tx.caller == s.owner))
            && (t.phase == s.phase ==> t.events == s.events)
            && (t.phase != s.phase ==> t.events == s.events + [t.phase])
            && (t.winners == s.winners || (tx.call.Close? && |t.winners| == |s.winners| + 1))
            && s.winners <= t.winners
  {
  }

  lemma StepPreservesValid(s: State, tx: Tx)
    requires Valid(s)
    ensures Valid(Step(s, tx))
  {
    match tx.call
    case Authorize(who, flag) => AuthorizePreservesValid(s, tx.caller, who, flag);
    case Open => OpenPreservesValid(s, tx.caller, tx.now);
    case StartVoting => StartVotingPreservesValid(s, tx.caller, tx.now);
    case Submit(d) => SubmitPreservesValid(s, tx.caller, tx.now, d);
    case Vote(id) => VotePreservesValid(s, tx.caller, id);
    case Close(tb) => ClosePreservesValid(s, tx.caller, tx.now, tb);
  }

  lemma {:induction false} RunPreservesValid(s: State, txs: seq<Tx>)
    requires Valid(s)
    ensures Valid(Run(s, txs))
    decreases |txs|
  {
    if |txs| > 0 {
      StepPreservesValid(s, txs[0]);
      RunPreservesValid(Step(s, txs[0]), txs[1..]);
    }
  }

  /**
    Every state reachable from deployment is valid: in particular the phase
    has only ever followed Closed, Proposals, Voting, Closed, ...
   */
  lemma ReachableIsValid(deployer: Address, txs: seq<Tx>)
    ensures Valid(Run(Deploy(deployer), txs))
    ensures var s := Run(Deploy(deployer), txs);
            && s.phase == PhaseAfter(|s.events|)
            && forall i :: 0 <= i < |s.events| ==> s.events[i] == PhaseAfter(i + 1)
  {
    DeployValid(deployer);
    RunPreservesValid(Deploy(deployer), txs);
  }

  /**
    Over any sequence of transactions the owner is fixed, and the winner
    archive and the phase log only grow: earlier entries are never changed
    or removed.
   */
  lemma {:induction false} RunAppendOnly(s: State, txs: seq<Tx>)
    ensures Run(s, txs).owner == s.owner
    ensures s.winners <= Run(s, txs).winners
    ensures s.events <= Run(s, txs).events
    decreases |txs|
  {
    if |txs| > 0 {
      var t := Step(s, txs[0]);
      StepFacts(s, txs[0]);
      RunAppendOnly(t, txs[1..]);
    }
  }

  /**
    Once a participant has voted, every vote they attempt is rejected until
    a close succeeds: the vote flag survives every other call, including a
    close that reverts (sent by someone else, or with a tie-breaker naming
    none of the tied leaders). While they are authorized and the vote is
    open, the rejection is `AlreadyVoted`.
   */
  lemma {:induction false} VotedUntilClose(s: State, txs: seq<Tx>, voter: Address)
    requires voter in s.voted
    requires forall k :: 0 <= k < |txs| ==> !(txs[k].call.Close? && Apply(Run(s, txs[..k]), txs[k]).Ok?)
    ensures voter in Run(s, txs).voted
    ensures forall id :: VoteOnProposal(Run(s, txs), voter, id).Err?
    ensures forall id :: IsAuthorized(Run(s, txs), voter) && Run(s, txs).phase == Voting ==>
              VoteOnProposal(Run(s, txs), voter, id) == Err(AlreadyVoted)
    decreases |txs|
  {
    if |txs| > 0 {
      var u := Step(s, txs[0]);
      assert txs[..0] == [];
      assert voter in u.voted;
      forall k | 0 <= k < |txs[1..]|
        ensures !(txs[1..][k].call.Close? && Apply(Run(u, txs[1..][..k]), txs[1..][k]).Ok?)
      {
        assert txs[..k + 1][0] == txs[0] && txs[..k + 1][1..] == txs[1..][..k];
        assert Run(s, txs[..k + 1]) == Run(u, txs[1..][..k]);
        assert txs[1..][k] == txs[k + 1];
      }
      VotedUntilClose(u, txs[1..], voter);
    }
  }

  /** The archive gains at most one record per transaction. */
  lemma {:induction false} ArchiveGrowthBounded(s: State, txs: seq<Tx>)
    ensures |Run(s, txs).winners| <= |s.winners| + |txs|
    decreases |txs|
  {
    if |txs| > 0 {
      StepFacts(s, txs[0]);
      ArchiveGrowthBounded(Step(s, txs[0]), txs[1..]);
    }
  }
}
