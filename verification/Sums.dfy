/** Weighted sums over sequences: the counting arguments of every state machine in this project. */
module Sums {

  /** The sum of the weights of the elements of s. */
  function Sum<T>(s: seq<T>, weight: T -> nat): (total: nat)
  {
    if s == [] then 0 else Sum(s[..|s| - 1], weight) + weight(s[|s| - 1])
  }

  lemma {:induction false} SumUpdate<T>(s: seq<T>, i: nat, x: T, weight: T -> nat)
    requires i < |s|
    ensures Sum(s[i := x], weight) + weight(s[i]) == Sum(s, weight) + weight(x)
  {
    var last := |s| - 1;
    var t := s[i := x];
    if i == last {
      assert t[..last] == s[..last];
    } else {
      assert t[..last] == s[..last][i := x];
      SumUpdate(s[..last], i, x, weight);
    }
  }

  lemma SumAppend<T>(s: seq<T>, x: T, weight: T -> nat)
    ensures Sum(s + [x], weight) == Sum(s, weight) + weight(x)
  {
    assert (s + [x])[..|s|] == s;
  }

  lemma {:induction false} SumHead<T>(s: seq<T>, weight: T -> nat)
    requires s != []
    ensures Sum(s, weight) == weight(s[0]) + Sum(s[1..], weight)
  {
    if |s| > 1 {
      SumHead(s[..|s| - 1], weight);
      assert s[1..][..|s| - 2] == s[..|s| - 1][1..];
    }
  }

  lemma {:induction false} SumJoin<A>(a: seq<A>, b: seq<A>, weight: A -> nat)
    ensures Sum(a + b, weight) == Sum(a, weight) + Sum(b, weight)
  {
    if b == [] {
      assert a + b == a;
    } else {
      assert (a + b)[..|a + b| - 1] == a + b[..|b| - 1];
      SumJoin(a, b[..|b| - 1], weight);
    }
  }

  lemma {:induction false} SumAtLeast<T>(s: seq<T>, i: nat, weight: T -> nat)
    requires i < |s|
    ensures weight(s[i]) <= Sum(s, weight)
  {
    if i < |s| - 1 {
      SumAtLeast(s[..|s| - 1], i, weight);
    }
  }

  lemma {:induction false} SumZero<T>(s: seq<T>, weight: T -> nat)
    ensures Sum(s, weight) == 0 <==> forall i :: 0 <= i < |s| ==> weight(s[i]) == 0
  {
    if s != [] {
      var front := s[..|s| - 1];
      SumZero(front, weight);
      assert forall i :: 0 <= i < |front| ==> front[i] == s[i];
    }
  }

  lemma {:induction false} SumPointwise<T>(s: seq<T>, t: seq<T>, weight: T -> nat)
    requires |s| == |t|
    requires forall i :: 0 <= i < |s| ==> weight(t[i]) <= weight(s[i])
    ensures Sum(t, weight) <= Sum(s, weight)
  {
    if s != [] {
      SumPointwise(s[..|s| - 1], t[..|t| - 1], weight);
    }
  }

  lemma {:induction false} SumBound<T>(s: seq<T>, weight: T -> nat, most: nat)
    requires forall i :: 0 <= i < |s| ==> weight(s[i]) <= most
    ensures Sum(s, weight) <= most * |s|
  {
    if s != [] {
      SumBound(s[..|s| - 1], weight, most);
      assert most * |s| == most * (|s| - 1) + most;
    }
  }

  /** Another weight, which differs at one place only. */
  lemma {:induction false} SumChange<T>(s: seq<T>, i: nat, before: T -> nat, after: T -> nat)
    requires i < |s| && forall k :: 0 <= k < |s| && k != i ==> after(s[k]) == before(s[k])
    ensures Sum(s, after) + before(s[i]) == Sum(s, before) + after(s[i])
  {
    var front := s[..|s| - 1];
    if i < |front| {
      SumChange(front, i, before, after);
    } else {
      SumSame(front, before, after);
    }
  }

  lemma {:induction false} SumSame<T>(s: seq<T>, before: T -> nat, after: T -> nat)
    requires forall k :: 0 <= k < |s| ==> after(s[k]) == before(s[k])
    ensures Sum(s, after) == Sum(s, before)
  {
    if s != [] {
      SumSame(s[..|s| - 1], before, after);
    }
  }

  lemma {:induction false} SumLighter<T>(s: seq<T>, before: T -> nat, after: T -> nat)
    requires forall k :: 0 <= k < |s| ==> after(s[k]) <= before(s[k])
    ensures Sum(s, after) <= Sum(s, before)
  {
    if s != [] {
      SumLighter(s[..|s| - 1], before, after);
    }
  }
}
