/**
  What the contract's getters report: `owner()`, `isAuthorized(a)`,
  `currentPhase()`, `hasVoted(a)`, `getProposals()` and
  `getWinningProposals()`, stated against the calls that change them.
 */
module Views {
  import opened Types
  import opened BarriosGovernor
  import opened Calls

  /** `owner()` reads the deployer after any sequence of transactions. */
  lemma OwnerIsDeployer(deployer: Address, txs: seq<Tx>)
    ensures Owner(Run(Deploy(deployer), txs)) == deployer
  {
    RunAppendOnly(Deploy(deployer), txs);
  }

  /**
    The flag `a` holds after `txs`, starting from `init`: the flag of the
    last `authorizeParticipant(a, flag)` sent by `owner`, or `init` if none.
   */
  function LastGrant(owner: Address, txs: seq<Tx>, a: Address, init: bool): (b: bool)
    decreases |txs|
  {
    if |txs| == 0 then init
    else
      var tx := txs[0];
      var next := if tx.caller == owner && tx.call.Authorize? && tx.call.who == a then tx.call.flag else init;
      LastGrant(owner, txs[1..], a, next)
  }

  /** `isAuthorized(a)` reads the flag of the owner's last authorization of `a`. */
  lemma {:induction false} IsAuthorizedReadsLastGrant(s: State, txs: seq<Tx>, a: Address)
    ensures IsAuthorized(Run(s, txs), a) == LastGrant(s.owner, txs, a, IsAuthorized(s, a))
    decreases |txs|
  {
    if |txs| > 0 {
      StepFacts(s, txs[0]);
      IsAuthorizedReadsLastGrant(Step(s, txs[0]), txs[1..], a);
    }
  }

  lemma {:induction false} LastGrantUnnamed(owner: Address, txs: seq<Tx>, a: Address, init: bool)
    requires forall k :: 0 <= k < |txs| ==> !(txs[k].call.Authorize? && txs[k].call.who == a)
    ensures LastGrant(owner, txs, a, init) == init
    decreases |txs|
  {
    if |txs| > 0 {
      LastGrantUnnamed(owner, txs[1..], a, init);
    }
  }

  /** An address no transaction ever named reads as not authorized. */
  lemma NeverNamedIsUnauthorized(deployer: Address, txs: seq<Tx>, a: Address)
    requires forall k :: 0 <= k < |txs| ==> !(txs[k].call.Authorize? && txs[k].call.who == a)
    ensures !IsAuthorized(Run(Deploy(deployer), txs), a)
  {
    IsAuthorizedReadsLastGrant(Deploy(deployer), txs, a);
    LastGrantUnnamed(deployer, txs, a, false);
  }

  /** `currentPhase()` counts the transitions so far, modulo 3: 1, 2, 0, 1, ... */
  lemma CurrentPhaseCountsTransitions(deployer: Address, txs: seq<Tx>)
    ensures var s := Run(Deploy(deployer), txs);
            CurrentPhase(s).Code() == |s.events| % 3
  {
    ReachableIsValid(deployer, txs);
  }

  /**
    `hasVoted(a)` becomes true for the voter alone on a successful vote, and
    false for everyone on a successful close.
   */
  lemma HasVotedReads(s: State, caller: Address, id: nat, now: nat, tieBreakerId: nat)
    ensures VoteOnProposal(s, caller, id).Ok? ==>
              && !HasVoted(s, caller)
              && HasVoted(VoteOnProposal(s, caller, id).value, caller)
              && forall a :: a != caller ==> HasVoted(VoteOnProposal(s, caller, id).value, a) == HasVoted(s, a)
    ensures CloseVotingPeriod(s, caller, now, tieBreakerId).Ok? ==>
              forall a :: !HasVoted(CloseVotingPeriod(s, caller, now, tieBreakerId).value, a)
  {
  }

  /**
    `getProposals()` shows a submitted proposal at the end of the list, with
    its id, proposer, description and no votes; after a close it is empty.
   */
  lemma GetProposalsReads(s: State, caller: Address, now: nat, description: string, tieBreakerId: nat)
    ensures SubmitProposal(s, caller, now, description).Ok? ==>
              var ps := GetProposals(SubmitProposal(s, caller, now, description).value.state);
              && |ps| == |GetProposals(s)| + 1
              && ps[..|GetProposals(s)|] == GetProposals(s)
              && ps[|GetProposals(s)|] == Proposal(|GetProposals(s)| + 1, caller, description, 0)
    ensures CloseVotingPeriod(s, caller, now, tieBreakerId).Ok? ==>
              GetProposals(CloseVotingPeriod(s, caller, now, tieBreakerId).value) == []
  {
  }

  /**
    A record the archive gained in one transaction is the owner's successful
    close of that transaction, dated with its timestamp.
   */
  lemma StepArchiveDate(s: State, tx: Tx)
    ensures |Step(s, tx).winners| > |s.winners| ==>
              && tx.call.Close? && tx.caller == s.owner
              && Step(s, tx).winners[|s.winners|].date == tx.now
  {
    StepFacts(s, tx);
    if |Step(s, tx).winners| > |s.winners| {
      var r := CloseVotingPeriod(s, tx.caller, tx.now, tx.call.tieBreakerId);
      assert r.Ok? && s.proposals != [];
      var i :| 0 <= i < |s.proposals| && r.value.winners == s.winners + [Archived(s.proposals[i], tx.now)];
    }
  }

  /**
    Every record `getWinningProposals()` gained over `txs` was archived by a
    successful close the owner sent in `txs`, and carries that close's time.
   */
  lemma {:induction false} ArchiveRecordsComeFromCloses(s: State, txs: seq<Tx>)
    ensures var t := Run(s, txs);
            forall k :: |s.winners| <= k < |t.winners| ==>
              exists j :: 0 <= j < |txs| && txs[j].call.Close? && txs[j].caller == s.owner
                          && txs[j].now == t.winners[k].date
    decreases |txs|
  {
    if |txs| > 0 {
      var u := Step(s, txs[0]);
      var t := Run(s, txs);
      assert t == Run(u, txs[1..]);
      StepFacts(s, txs[0]);
      StepArchiveDate(s, txs[0]);
      RunAppendOnly(u, txs[1..]);
      ArchiveRecordsComeFromCloses(u, txs[1..]);
      forall k | |s.winners| <= k < |t.winners|
        ensures exists j :: 0 <= j < |txs| && txs[j].call.Close? && txs[j].caller == s.owner
                            && txs[j].now == t.winners[k].date
      {
        if k < |u.winners| {
          assert k == |s.winners|;
          assert t.winners[k] == u.winners[k];
          assert txs[0].call.Close? && txs[0].caller == s.owner && txs[0].now == t.winners[k].date;
        } else {
          assert exists j :: 0 <= j < |txs[1..]| && txs[1..][j].call.Close? && txs[1..][j].caller == u.owner
                   && txs[1..][j].now == t.winners[k].date;
          var j :| 0 <= j < |txs[1..]| && txs[1..][j].call.Close? && txs[1..][j].caller == u.owner
                   && txs[1..][j].now == t.winners[k].date;
          assert txs[j + 1] == txs[1..][j];
          assert txs[j + 1].call.Close? && txs[j + 1].caller == s.owner && txs[j + 1].now == t.winners[k].date;
        }
      }
    }
  }

  /** From deployment, every archived record comes from the owner's close at its date, and names a real proposal. */
  lemma ArchiveReadsCloses(deployer: Address, txs: seq<Tx>)
    ensures var ws := GetWinningProposals(Run(Deploy(deployer), txs));
            forall k :: 0 <= k < |ws| ==>
              && ws[k].id >= 1
              && exists j :: 0 <= j < |txs| && txs[j].call.Close? && txs[j].caller == deployer && txs[j].now == ws[k].date
  {
    var s := Run(Deploy(deployer), txs);
    ReachableIsValid(deployer, txs);
    ArchiveRecordsComeFromCloses(Deploy(deployer), txs);
    forall k | 0 <= k < |s.winners|
      ensures s.winners[k].id >= 1
      ensures exists j :: 0 <= j < |txs| && txs[j].call.Close? && txs[j].caller == deployer && txs[j].now == s.winners[k].date
    {
      assert |Deploy(deployer).winners| <= k;
    }
  }

  /** The block timestamps of `txs` never decrease. */
  predicate Chronological(txs: seq<Tx>)
  {
    forall k, l :: 0 <= k < l < |txs| ==> txs[k].now <= txs[l].now
  }

  /** The archive's dates are in non-decreasing order. */
  predicate DatesSorted(ws: seq<WinnerRecord>)
  {
    forall k, l :: 0 <= k < l < |ws| ==> ws[k].date <= ws[l].date
  }

  /**
    What the clock guarantees once it reads `c`: the phase started no later
    than `c`; a Voting phase started at least one proposal window after
    time 0; every archived date lies between that window and `c`, in order.
   */
  predicate Clocked(s: State, c: nat)
  {
    && s.phaseStart <= c
    && (s.phase == Voting ==> s.phaseStart >= PROPOSAL_PERIOD)
    && (forall k :: 0 <= k < |s.winners| ==> PROPOSAL_PERIOD <= s.winners[k].date <= c)
    && DatesSorted(s.winners)
  }

  /** The timestamp of the last transaction of `txs`, or `c` when there is none. */
  function LastTime(c: nat, txs: seq<Tx>): (t: nat)
  {
    if |txs| == 0 then c else txs[|txs| - 1].now
  }

  /** A transaction no earlier than the clock keeps the clock's guarantees, with the clock moved to its time. */
  lemma ClockedStep(s: State, c: nat, tx: Tx)
    requires Clocked(s, c)
    requires c <= tx.now
    ensures Clocked(Step(s, tx), tx.now)
  {
    var t := Step(s, tx);
    StepFacts(s, tx);
    if tx.call.Close? && |t.winners| > |s.winners| {
      var r := CloseVotingPeriod(s, tx.caller, tx.now, tx.call.tieBreakerId);
      assert r.Ok? && s.phase == Voting && s.proposals != [];
      var i :| 0 <= i < |s.proposals| && r.value.winners == s.winners + [Archived(s.proposals[i], tx.now)];
      assert t.winners == s.winners + [Archived(s.proposals[i], tx.now)];
      assert t.winners[|s.winners|].date == tx.now;
      forall k | 0 <= k < |t.winners|
        ensures PROPOSAL_PERIOD <= t.winners[k].date <= tx.now
      {
        if k < |s.winners| {
          assert t.winners[k] == s.winners[k];
        }
      }
      forall k, l | 0 <= k < l < |t.winners|
        ensures t.winners[k].date <= t.winners[l].date
      {
        assert t.winners[k] == s.winners[k];
        if l < |s.winners| {
          assert t.winners[l] == s.winners[l];
        }
      }
    }
  }

  lemma {:induction false} ClockedRun(s: State, c: nat, txs: seq<Tx>)
    requires Clocked(s, c)
    requires Chronological(txs)
    requires forall k :: 0 <= k < |txs| ==> c <= txs[k].now
    ensures Clocked(Run(s, txs), LastTime(c, txs))
    decreases |txs|
  {
    if |txs| > 0 {
      ClockedStep(s, c, txs[0]);
      var rest := txs[1..];
      assert forall k :: 0 <= k < |rest| ==> rest[k] == txs[k + 1];
      ClockedRun(Step(s, txs[0]), txs[0].now, rest);
      assert LastTime(txs[0].now, rest) == LastTime(c, txs);
    }
  }

  /**
    With block timestamps that never decrease, every record of
    `getWinningProposals()` is dated at least one proposal window after
    time 0, so its date is positive, and the archive is in chronological order.
   */
  lemma ArchiveDatesPositiveAndOrdered(deployer: Address, txs: seq<Tx>)
    requires Chronological(txs)
    ensures var ws := GetWinningProposals(Run(Deploy(deployer), txs));
            && (forall k :: 0 <= k < |ws| ==> ws[k].date >= PROPOSAL_PERIOD && ws[k].date > 0)
            && DatesSorted(ws)
  {
    ClockedRun(Deploy(deployer), 0, txs);
  }
}
