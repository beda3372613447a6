/** A set of numbers listed in increasing order. */
module Ascending {

  predicate IsMin(m: nat, s: set<nat>) {
    m in s && forall x | x in s :: m <= x
  }

  lemma {:induction false} HasMin(s: set<nat>)
    requires s != {}
    ensures exists m :: IsMin(m, s)
    decreases |s|
  {
    var y :| y in s;
    var rest := s - {y};
    if rest == {} {
      assert s == {y};
      assert IsMin(y, s);
    } else {
      HasMin(rest);
      var m :| IsMin(m, rest);
      assert s == rest + {y};
      assert IsMin(if y <= m then y else m, s);
    }
  }

  function Min(s: set<nat>): (m: nat)
    requires s != {}
    ensures IsMin(m, s)
  {
    HasMin(s);
    var m :| IsMin(m, s);
    m
  }

  ghost predicate Increasing(r: seq<nat>) {
    forall i, j | 0 <= i < j < |r| :: r[i] < r[j]
  }

  lemma Prepended(m: nat, rest: seq<nat>, s: set<nat>)
    requires IsMin(m, s) && Increasing(rest) && forall x :: x in rest <==> x in s - {m}
    ensures Increasing([m] + rest) && forall x :: x in [m] + rest <==> x in s
  {
    forall k | 0 <= k < |rest| ensures m < rest[k] {
      assert rest[k] in rest;
    }
  }

  /** The increasing listing of `s`. */
  function Listing(s: set<nat>): (r: seq<nat>)
    ensures forall x :: x in r <==> x in s
    ensures Increasing(r)
    ensures |r| == |s|
    decreases |s|
  {
    if s == {} then []
    else
      var m := Min(s);
      var rest := Listing(s - {m});
      Prepended(m, rest, s);
      [m] + rest
  }

  /** There are no more numbers below `bound` than `bound`. */
  lemma {:induction false} AtMost(s: set<nat>, bound: nat)
    requires forall x | x in s :: x < bound
    ensures |s| <= bound
    decreases bound
  {
    if |s| > 0 {
      var some :| some in s;
      var fewer := s - {bound - 1};
      AtMost(fewer, bound - 1);
      if bound - 1 in s {
        assert s == fewer + {bound - 1};
      } else {
        assert s == fewer;
      }
    }
  }
}
