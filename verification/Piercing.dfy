/**
 Greedy piercing of intervals with two points: the algorithm of the radio placement
 without its arithmetic. Points are positive; 0 stands for a point not in use.
 */
module Piercing {
  datatype Interval = Interval(left: int, right: int)

  datatype Points = Points(first: int, second: int, failed: bool)

  /** The first interval that no point reaches from the left gets a point at its right end. */
  function Pierce(p: Points, v: Interval): Points {
    if p.failed then p
    else if p.first == 0 then p.(first := v.right)
    else if v.left <= p.first then p
    else if p.second == 0 then p.(second := v.right)
    else if v.left <= p.second then p
    else p.(failed := true)
  }

  function PierceAll(t: seq<Interval>): Points {
    if t == [] then Points(0, 0, false) else Pierce(PierceAll(t[..|t| - 1]), t[|t| - 1])
  }

  predicate Positive(t: seq<Interval>) {
    forall i :: 0 <= i < |t| ==> t[i].right > 0
  }

  predicate ByRight(t: seq<Interval>) {
    forall i, j :: 0 <= i < j < |t| ==> t[i].right <= t[j].right
  }

  /** Interval `j` starts beyond the end of interval `i`, which comes first. */
  predicate Apart(t: seq<Interval>, i: int, j: int) {
    0 <= i < j < |t| && t[j].left > t[i].right
  }

  /** The second point is the end of interval `j`, the first out of reach of the first
      point, and the piercing has failed if a later interval is out of reach of both. */
  ghost predicate Second(p: Points, t: seq<Interval>, j: int) {
    && Apart(t, 0, j)
    && t[j].right == p.second
    && (forall i :: 0 <= i < j ==> !Apart(t, 0, i))
    && (p.failed <==> exists k :: Apart(t, 0, k) && Apart(t, j, k))
  }

  /** Where the points are after any intervals, empty ones included. */
  ghost predicate Stands(p: Points, t: seq<Interval>) {
    if t == [] then p == Points(0, 0, false)
    else
      && p.first == t[0].right
      && (p.second == 0 ==> !p.failed && forall i :: !Apart(t, 0, i))
      && (p.second != 0 ==> exists j :: Second(p, t, j))
  }

  lemma {:induction false} AllStand(t: seq<Interval>)
    requires Positive(t)
    ensures Stands(PierceAll(t), t)
  {
    if t != [] {
      AllStand(t[..|t| - 1]);
      StandsOneMore(PierceAll(t[..|t| - 1]), t);
    }
  }

  lemma StandsOneMore(p: Points, t: seq<Interval>)
    requires t != [] && Positive(t) && Stands(p, t[..|t| - 1])
    ensures Stands(Pierce(p, t[|t| - 1]), t)
  {
    var before, n := t[..|t| - 1], |t| - 1;
    var q := Pierce(p, t[n]);
    assert forall i, j :: j < n ==> (Apart(t, i, j) <==> Apart(before, i, j));
    if p.second != 0 {
      var j :| Second(p, before, j);
      SecondOneMore(p, t, j);
    } else if q.second != 0 {
      assert Second(q, t, n);
    }
  }

  lemma SecondOneMore(p: Points, t: seq<Interval>, j: int)
    requires t != [] && Second(p, t[..|t| - 1], j) && p.second != 0 && p.first == t[0].right && p.first > 0
    ensures Second(Pierce(p, t[|t| - 1]), t, j)
  {
    var before, n := t[..|t| - 1], |t| - 1;
    var q := Pierce(p, t[n]);
    assert forall i, k :: k < n ==> (Apart(t, i, k) <==> Apart(before, i, k));
    if p.failed {
      var k :| Apart(before, 0, k) && Apart(before, j, k);
      assert Apart(t, 0, k) && Apart(t, j, k);
    } else if q.failed {
      assert Apart(t, 0, n) && Apart(t, j, n);
    }
  }

  /** Three intervals, each starting beyond the end of the one before. */
  ghost predicate ThreeApart(t: seq<Interval>) {
    exists i, j, k :: Apart(t, i, j) && Apart(t, j, k)
  }

  /** The piercing fails exactly when there are three such intervals. */
  lemma FailsIff(t: seq<Interval>)
    requires Positive(t) && ByRight(t)
    ensures PierceAll(t).failed <==> ThreeApart(t)
  {
    AllStand(t);
    if PierceAll(t).failed {
      var j :| Second(PierceAll(t), t, j);
      var k :| Apart(t, 0, k) && Apart(t, j, k);
      assert Apart(t, 0, j);
    }
    if ThreeApart(t) {
      var i, j, k :| Apart(t, i, j) && Apart(t, j, k);
      ThreeApartFail(t, i, j, k);
    }
  }

  lemma ThreeApartFail(t: seq<Interval>, i: int, j: int, k: int)
    requires Positive(t) && ByRight(t) && Stands(PierceAll(t), t)
    requires Apart(t, i, j) && Apart(t, j, k)
    ensures PierceAll(t).failed
  {
    assert t[0].right <= t[i].right <= t[j].right;
    assert Apart(t, 0, j) && Apart(t, 0, k);
    var s :| Second(PierceAll(t), t, s);
    assert t[s].right <= t[j].right;
    assert Apart(t, s, k);
  }
}
