/**
  Choosing the winner when a voting cycle closes: the highest vote count,
  the proposals that reach it, and the administrator's tie-breaker.
 */
module Tally {
  import opened Types

  /** The highest vote count among `ps`, or 0 when there is no proposal. */
  function MaxVotes(ps: seq<Proposal>): (m: nat)
    ensures forall i :: 0 <= i < |ps| ==> ps[i].votes <= m
    ensures |ps| > 0 ==> exists i :: 0 <= i < |ps| && ps[i].votes == m
    ensures |ps| == 0 ==> m == 0
  {
    if |ps| == 0 then 0
    else
      var m := MaxVotes(ps[..|ps| - 1]);
      if ps[|ps| - 1].votes > m then ps[|ps| - 1].votes else m
  }

  /** The positions, in increasing order, of the proposals with exactly `v` votes. */
  function IndicesWith(ps: seq<Proposal>, v: nat): (ls: seq<nat>)
    ensures forall k :: 0 <= k < |ls| ==> ls[k] < |ps| && ps[ls[k]].votes == v
  {
    if |ps| == 0 then []
    else
      var ls := IndicesWith(ps[..|ps| - 1], v);
      if ps[|ps| - 1].votes == v then ls + [|ps| - 1] else ls
  }

  /** Every proposal with `v` votes is listed. */
  lemma {:induction false} IndicesWithComplete(ps: seq<Proposal>, v: nat, i: nat)
    requires i < |ps| && ps[i].votes == v
    ensures i in IndicesWith(ps, v)
  {
    if i < |ps| - 1 {
      IndicesWithComplete(ps[..|ps| - 1], v, i);
    }
  }

  /** The listed positions are strictly increasing, so none is listed twice. */
  lemma {:induction false} IndicesWithIncreasing(ps: seq<Proposal>, v: nat)
    ensures forall k, l :: 0 <= k < l < |IndicesWith(ps, v)| ==> IndicesWith(ps, v)[k] < IndicesWith(ps, v)[l]
  {
    if |ps| > 0 {
      IndicesWithIncreasing(ps[..|ps| - 1], v);
    }
  }

  /** The positions of the proposals that share the highest vote count. */
  function Leaders(ps: seq<Proposal>): (ls: seq<nat>)
  {
    IndicesWith(ps, MaxVotes(ps))
  }

  /** The first of the positions `ls` whose proposal carries id `id`. */
  function FirstWithId(ps: seq<Proposal>, ls: seq<nat>, id: nat): (r: Option<nat>)
    requires forall k :: 0 <= k < |ls| ==> ls[k] < |ps|
    ensures r.Some? ==> r.value in ls && ps[r.value].id == id
    ensures r.None? <==> forall k :: 0 <= k < |ls| ==> ps[ls[k]].id != id
  {
    if |ls| == 0 then None
    else if ps[ls[0]].id == id then Some(ls[0])
    else FirstWithId(ps, ls[1..], id)
  }

  /**
    The winner of a cycle: nobody when there is no proposal; the sole leader
    when one proposal has strictly the most votes, whatever the tie-breaker;
    otherwise the tied leader whose id is `tieBreakerId`, and a rejection when
    no tied leader has that id.
   */
  function SelectWinner(ps: seq<Proposal>, tieBreakerId: nat): (r: Result<Option<Proposal>>)
    ensures |ps| == 0 <==> r == Ok(None)
    ensures r.Ok? && r.value.Some? ==>
              r.value.value in ps && forall i :: 0 <= i < |ps| ==> ps[i].votes <= r.value.value.votes
    ensures r.Err? ==> r.error == InvalidTieBreaker
  {
    if |ps| == 0 then Ok(None)
    else
      var ls := Leaders(ps);
      if |ls| == 1 then Ok(Some(ps[ls[0]]))
      else match FirstWithId(ps, ls, tieBreakerId)
        case Some(i) => Ok(Some(ps[i]))
        case None => Err(InvalidTieBreaker)
  }

  /** Proposal `i` has strictly more votes than every other one. */
  predicate UniqueMax(ps: seq<Proposal>, i: nat)
  {
    i < |ps| && forall j :: 0 <= j < |ps| && j != i ==> ps[j].votes < ps[i].votes
  }

  /** Proposals `i` and `j` are distinct and both hold the highest vote count. */
  predicate Tied(ps: seq<Proposal>, i: nat, j: nat)
  {
    && i < |ps| && j < |ps| && i != j
    && ps[i].votes == ps[j].votes
    && forall k :: 0 <= k < |ps| ==> ps[k].votes <= ps[i].votes
  }

  /** No two proposals share an id. */
  predicate DistinctIds(ps: seq<Proposal>)
  {
    forall i, j :: 0 <= i < j < |ps| ==> ps[i].id != ps[j].id
  }

  lemma LeadersOfUniqueMax(ps: seq<Proposal>, i: nat)
    requires UniqueMax(ps, i)
    ensures MaxVotes(ps) == ps[i].votes
    ensures Leaders(ps) == [i]
  {
    OnlyOneWith(ps, ps[i].votes, i);
  }

  /** When exactly one proposal has `v` votes, it is the only position listed. */
  lemma {:induction false} OnlyOneWith(ps: seq<Proposal>, v: nat, i: nat)
    requires i < |ps| && ps[i].votes == v
    requires forall j :: 0 <= j < |ps| && j != i ==> ps[j].votes != v
    ensures IndicesWith(ps, v) == [i]
  {
    var n := |ps| - 1;
    if i == n {
      NoneWith(ps[..n], v);
    } else {
      OnlyOneWith(ps[..n], v, i);
    }
  }

  /** When no proposal has `v` votes, no position is listed. */
  lemma NoneWith(ps: seq<Proposal>, v: nat)
    requires forall j :: 0 <= j < |ps| ==> ps[j].votes != v
    ensures IndicesWith(ps, v) == []
  {
  }

  /** With a unique maximum, that proposal wins and the tie-breaker is ignored. */
  lemma UniqueMaxWins(ps: seq<Proposal>, i: nat, tieBreakerId: nat)
    requires UniqueMax(ps, i)
    ensures SelectWinner(ps, tieBreakerId) == Ok(Some(ps[i]))
  {
    LeadersOfUniqueMax(ps, i);
  }

  /** Two tied leaders put both of their positions among the leaders. */
  lemma TiedAreLeaders(ps: seq<Proposal>, i: nat, j: nat)
    requires Tied(ps, i, j)
    ensures MaxVotes(ps) == ps[i].votes
    ensures i in Leaders(ps) && j in Leaders(ps) && |Leaders(ps)| > 1
  {
    var m := MaxVotes(ps);
    var w :| 0 <= w < |ps| && ps[w].votes == m;
    assert ps[w].votes <= ps[i].votes;
    var ls := Leaders(ps);
    IndicesWithComplete(ps, m, i);
    IndicesWithComplete(ps, m, j);
    var ki :| 0 <= ki < |ls| && ls[ki] == i;
    var kj :| 0 <= kj < |ls| && ls[kj] == j;
    assert ki != kj;
  }

  /** In a tie, the leader the administrator names wins. */
  lemma TieBreakerPicksNamedLeader(ps: seq<Proposal>, i: nat, j: nat)
    requires DistinctIds(ps)
    requires Tied(ps, i, j)
    ensures SelectWinner(ps, ps[i].id) == Ok(Some(ps[i]))
  {
    TiedAreLeaders(ps, i, j);
    var ls := Leaders(ps);
    var f := FirstWithId(ps, ls, ps[i].id);
    var k :| 0 <= k < |ls| && ls[k] == i;
    assert ps[ls[k]].id == ps[i].id;
    assert f.Some?;
    SameIdSamePosition(ps, f.value, i);
  }

  /** With distinct ids, an id determines the position. */
  lemma SameIdSamePosition(ps: seq<Proposal>, a: nat, b: nat)
    requires DistinctIds(ps)
    requires a < |ps| && b < |ps| && ps[a].id == ps[b].id
    ensures a == b
  {
  }

  /** The reason for an unbroken tie: the leaders are not alone and none carries the tie-breaker's id. */
  predicate UnbrokenTie(ps: seq<Proposal>, tieBreakerId: nat)
  {
    && (exists i, j :: 0 <= i < |ps| && 0 <= j < |ps| && Tied(ps, i, j))
    && forall k :: 0 <= k < |ps| && ps[k].votes == MaxVotes(ps) ==> ps[k].id != tieBreakerId
  }

  /** A rejected close always stems from a tie the tie-breaker does not resolve. */
  lemma RejectionMeansUnbrokenTie(ps: seq<Proposal>, tieBreakerId: nat)
    requires SelectWinner(ps, tieBreakerId).Err?
    ensures UnbrokenTie(ps, tieBreakerId)
  {
    var ls := Leaders(ps);
    var m := MaxVotes(ps);
    var w :| 0 <= w < |ps| && ps[w].votes == m;
    IndicesWithComplete(ps, m, w);
    assert |ls| > 1;
    IndicesWithIncreasing(ps, m);
    assert Tied(ps, ls[0], ls[1]);
    assert FirstWithId(ps, ls, tieBreakerId).None?;
    forall k | 0 <= k < |ps| && ps[k].votes == m
      ensures ps[k].id != tieBreakerId
    {
      IndicesWithComplete(ps, m, k);
    }
  }

  /** A tie the tie-breaker does not resolve is always rejected. */
  lemma UnbrokenTieIsRejected(ps: seq<Proposal>, tieBreakerId: nat)
    requires UnbrokenTie(ps, tieBreakerId)
    ensures SelectWinner(ps, tieBreakerId) == Err(InvalidTieBreaker)
  {
    var i, j :| Tied(ps, i, j);
    TiedAreLeaders(ps, i, j);
    var ls := Leaders(ps);
    forall k | 0 <= k < |ls|
      ensures ps[ls[k]].id != tieBreakerId
    {
    }
  }

  /**
    An executable computation of `SelectWinner` in passes over the list:
    the first finds the highest count, the second counts the leaders, and
    only when they tie a third looks for the one the tie-breaker names.
   */
  method ComputeWinner(ps: seq<Proposal>, tieBreakerId: nat) returns (r: Result<Option<Proposal>>)
    ensures r == SelectWinner(ps, tieBreakerId)
  {
    if |ps| == 0 {
      return Ok(None);
    }
    var best := HighestCount(ps);
    var count, first := CountLeaders(ps, best);
    if count == 1 {
      r := Ok(Some(ps[first]));
    } else {
      var named := FindNamedLeader(ps, best, tieBreakerId);
      if named.Some? {
        r := Ok(Some(ps[named.value]));
      } else {
        r := Err(InvalidTieBreaker);
      }
    }
  }

  /** First pass: the highest vote count. */
  method HighestCount(ps: seq<Proposal>) returns (best: nat)
    ensures best == MaxVotes(ps)
  {
    best := 0;
    var i := 0;
    while i < |ps|
      invariant 0 <= i <= |ps|
      invariant best == MaxVotes(ps[..i])
    {
      assert ps[..i + 1][..i] == ps[..i];
      if ps[i].votes > best {
        best := ps[i].votes;
      }
      i := i + 1;
    }
    assert ps[..|ps|] == ps;
  }

  /** Second pass: how many proposals have `best` votes, and the position of the first of them. */
  method CountLeaders(ps: seq<Proposal>, best: nat) returns (count: nat, first: nat)
    ensures count == |IndicesWith(ps, best)|
    ensures count > 0 ==> first == IndicesWith(ps, best)[0]
  {
    count, first := 0, 0;
    var i := 0;
    ghost var ls: seq<nat> := [];
    while i < |ps|
      invariant 0 <= i <= |ps|
      invariant ls == IndicesWith(ps[..i], best)
      invariant forall k :: 0 <= k < |ls| ==> ls[k] < i
      invariant count == |ls|
      invariant count > 0 ==> first == ls[0]
    {
      IndicesWithStep(ps, i, best);
      if ps[i].votes == best {
        assert (ls + [i])[0] == if count == 0 then i else ls[0];
        first := if count == 0 then i else first;
        count := count + 1;
        ls := ls + [i];
      }
      i := i + 1;
    }
    assert ps[..|ps|] == ps;
  }

  /** Third pass: the position of the first proposal with `best` votes whose id is `tieBreakerId`. */
  method FindNamedLeader(ps: seq<Proposal>, best: nat, tieBreakerId: nat) returns (named: Option<nat>)
    ensures named == FirstWithId(ps, IndicesWith(ps, best), tieBreakerId)
  {
    named := None;
    var i := 0;
    while i < |ps|
      invariant 0 <= i <= |ps|
      invariant named == FirstWithId(ps, IndicesWith(ps[..i], best), tieBreakerId)
    {
      ScanStep(ps, i, best, tieBreakerId, IndicesWith(ps[..i], best));
      if ps[i].votes == best {
        named := if named.None? && ps[i].id == tieBreakerId then Some(i) else named;
      }
      i := i + 1;
    }
    assert ps[..|ps|] == ps;
  }

  /** One step of the third pass: how the leader list and the named leader grow with position `i`. */
  lemma ScanStep(ps: seq<Proposal>, i: nat, best: nat, id: nat, ls: seq<nat>)
    requires i < |ps|
    requires ls == IndicesWith(ps[..i], best)
    ensures ps[i].votes != best ==> IndicesWith(ps[..i + 1], best) == ls
    ensures ps[i].votes == best ==> IndicesWith(ps[..i + 1], best) == ls + [i]
    ensures ps[i].votes == best ==>
              FirstWithId(ps, ls + [i], id) ==
                if FirstWithId(ps, ls, id).None? && ps[i].id == id then Some(i) else FirstWithId(ps, ls, id)
  {
    IndicesWithStep(ps, i, best);
    if ps[i].votes == best {
      FirstWithIdAppend(ps, ls, i, id);
    }
  }

  /** Extending the scanned prefix by one proposal lists its position when it has `v` votes. */
  lemma IndicesWithStep(ps: seq<Proposal>, i: nat, v: nat)
    requires i < |ps|
    ensures ps[i].votes == v ==> IndicesWith(ps[..i + 1], v) == IndicesWith(ps[..i], v) + [i]
    ensures ps[i].votes != v ==> IndicesWith(ps[..i + 1], v) == IndicesWith(ps[..i], v)
  {
    assert ps[..i + 1][..i] == ps[..i];
  }

  /** Searching a list extended at the end finds the old match first, else the new position. */
  lemma {:induction false} FirstWithIdAppend(ps: seq<Proposal>, ls: seq<nat>, i: nat, id: nat)
    requires forall k :: 0 <= k < |ls| ==> ls[k] < |ps|
    requires i < |ps|
    ensures FirstWithId(ps, ls + [i], id) ==
              match FirstWithId(ps, ls, id)
              case Some(x) => Some(x)
              case None => if ps[i].id == id then Some(i) else None
  {
    if |ls| == 0 {
      assert ls + [i] == [i];
      assert [i][1..] == [];
    } else {
      assert (ls + [i])[1..] == ls[1..] + [i];
      FirstWithIdAppend(ps, ls[1..], i, id);
    }
  }
}
