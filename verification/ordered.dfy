/** Ordering the primary keys of a table: a plain table scan visits rows in
    ascending id order. */
module Ordered {

  /** Every element is smaller than every later one, so no element repeats. */
  predicate StrictlyIncreasing(s: seq<int>)
  {
    forall i, j :: 0 <= i < j < |s| ==> s[i] < s[j]
  }

  /** A set other than the empty one has an element to pick. */
  lemma HasElement(s: set<int>)
    requires s != {}
    ensures exists y :: y in s
  {
    if forall y :: y !in s {
      assert false;
    }
  }

  predicate IsLeast(m: int, s: set<int>)
  {
    m in s && forall x :: x in s ==> m <= x
  }

  /** A non-empty finite set of integers has a least element. */
  lemma {:induction false} LeastExists(s: set<int>)
    requires s != {}
    ensures exists m :: IsLeast(m, s)
    decreases s
  {
    HasElement(s);
    var y :| y in s;
    var rest := s - {y};
    if rest == {} {
      forall x | x in s
        ensures y <= x
      {
        assert x !in rest;
      }
      assert IsLeast(y, s);
    } else {
      LeastExists(rest);
      var m :| IsLeast(m, rest);
      var least := if y < m then y else m;
      forall x | x in s
        ensures least <= x
      {
        if x != y {
          assert x in rest;
        }
      }
      assert IsLeast(least, s);
    }
  }

  function Least(s: set<int>): (m: int)
    requires s != {}
    ensures m in s
    ensures forall x :: x in s ==> m <= x
  {
    LeastExists(s);
    var m :| IsLeast(m, s); m
  }

  /** The elements of `s`, each once, in ascending order. */
  function SortedIds(s: set<int>): (r: seq<int>)
    ensures |r| == |s|
    ensures forall x :: x in s <==> x in r
    ensures StrictlyIncreasing(r)
    decreases |s|
  {
    if s == {} then []
    else
      var m := Least(s);
      [m] + SortedIds(s - {m})
  }
}
