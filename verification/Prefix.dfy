/** Completed prefixes: work finishes in any order, memory is given back in order. */
module Prefix {

  function From(done: set<nat>, from: nat): set<nat> {
    set m | m in done && from <= m
  }

  /** The least number at or above `from` that is not in `done`. */
  function MexFrom(done: set<nat>, from: nat): (r: nat)
    ensures from <= r && r !in done
    ensures forall m :: from <= m < r ==> m in done
    decreases |From(done, from)|
  {
    if from in done then
      assert From(done, from) == From(done, from + 1) + {from};
      MexFrom(done, from + 1)
    else
      from
  }

  /** How many multievents have been given back once `done` have completed. */
  function Mex(done: set<nat>): (r: nat)
    ensures r !in done
    ensures forall m :: 0 <= m < r ==> m in done
  {
    MexFrom(done, 0)
  }

  /** The two postconditions of `Mex` have exactly one solution. */
  lemma MexUnique(done: set<nat>, r: nat)
    requires r !in done
    requires forall m :: 0 <= m < r ==> m in done
    ensures Mex(done) == r
  {
  }

  lemma MexGrows(done: set<nat>, more: set<nat>)
    requires done <= more
    ensures Mex(done) <= Mex(more)
  {
  }

  /** The numbers below `hi`. */
  function Below(hi: nat): (r: set<nat>)
    ensures forall x :: x in r <==> 0 <= x < hi
    ensures |r| == hi
  {
    if hi == 0 then {} else Below(hi - 1) + {hi - 1}
  }

  lemma SubsetCard<T>(a: set<T>, b: set<T>)
    requires a <= b
    ensures |a| <= |b|
    ensures |a| == |b| ==> a == b
  {
    assert b == a + (b - a);
  }

  ghost predicate Distinct(q: seq<nat>) {
    forall i, j :: 0 <= i < j < |q| ==> q[i] != q[j]
  }

  function Elements(q: seq<nat>): set<nat> {
    set x | x in q
  }

  lemma {:induction false} DistinctCard(q: seq<nat>)
    requires Distinct(q)
    ensures |Elements(q)| == |q|
  {
    if q != [] {
      var last := q[|q| - 1];
      var front := q[..|q| - 1];
      DistinctCard(front);
      assert q == front + [last];
      assert last !in front;
      assert Elements(q) == Elements(front) + {last};
    }
  }

  lemma DistinctAppend(a: seq<nat>, b: seq<nat>)
    requires Distinct(a) && Distinct(b) && forall x :: x in a ==> x !in b
    ensures Distinct(a + b)
  {
    forall i, j | 0 <= i < j < |a + b|
      ensures (a + b)[i] != (a + b)[j]
    {
      if i < |a| <= j {
        assert a[i] !in b;
        assert b[j - |a|] in b;
      }
    }
  }

  /** The least of the sizes and a limit, found the way a loop over them does. */
  function Shortest(sizes: seq<nat>, limit: nat): (m: nat)
    ensures m <= limit
    ensures forall i :: 0 <= i < |sizes| ==> m <= sizes[i]
    ensures m == limit || exists i :: 0 <= i < |sizes| && sizes[i] == m
  {
    if sizes == [] then
      limit
    else
      var rest, current := Shortest(sizes[..|sizes| - 1], limit), sizes[|sizes| - 1];
      assert forall i :: 0 <= i < |sizes| - 1 ==> sizes[..|sizes| - 1][i] == sizes[i];
      if rest < current then rest else current
  }

  lemma ShortestStep(sizes: seq<nat>, limit: nat, i: nat)
    requires i < |sizes|
    ensures Shortest(sizes[..i + 1], limit)
         == if Shortest(sizes[..i], limit) < sizes[i] then Shortest(sizes[..i], limit) else sizes[i]
  {
    assert sizes[..i + 1][..i] == sizes[..i];
  }
}
