/** Finite sets of ids, and the lists a query returns them in. */
module Ordering {
  lemma Member<T>(s: set<T>) returns (x: T)
    requires s != {}
    ensures x in s
  {
    x :| x in s;
  }

  lemma {:induction false} HasLeast(s: set<int>)
    requires s != {}
    ensures exists m :: m in s && forall y :: y in s ==> m <= y
    decreases s
  {
    var x := Member(s);
    if s - {x} == {} {
      assert s == {x};
    } else {
      HasLeast(s - {x});
      var m :| m in s - {x} && forall y :: y in s - {x} ==> m <= y;
      var least := if x < m then x else m;
      assert least in s && forall y :: y in s ==> least <= y by {
        forall y | y in s ensures least <= y {
          assert y == x || y in s - {x};
        }
      }
    }
  }

  function Least(s: set<int>): (m: int)
    requires s != {}
    ensures m in s && forall y :: y in s ==> m <= y
  {
    HasLeast(s);
    var m :| m in s && forall y :: y in s ==> m <= y;
    m
  }

  function Ascending(s: set<int>): (ids: seq<int>)
    ensures |ids| == |s|
    ensures forall c :: c in ids <==> c in s
  {
    if s == {} then [] else [Least(s)] + Ascending(s - {Least(s)})
  }

  lemma {:induction false} AscendingSorted(s: set<int>)
    ensures forall i, j :: 0 <= i < j < |Ascending(s)| ==> Ascending(s)[i] < Ascending(s)[j]
    decreases s
  {
    if s != {} {
      var m := Least(s);
      var tail := Ascending(s - {m});
      AscendingSorted(s - {m});
      assert forall k :: 0 <= k < |tail| ==> tail[k] in tail && m < tail[k];
      assert Ascending(s) == [m] + tail;
    }
  }

  function Elements(ids: seq<int>): set<int> {
    set k | k in ids
  }

  ghost predicate Distinct(ids: seq<int>) {
    forall i, j :: 0 <= i < j < |ids| ==> ids[i] != ids[j]
  }

  lemma {:induction false} DistinctSize(ids: seq<int>)
    requires Distinct(ids)
    ensures |Elements(ids)| == |ids|
  {
    if ids != [] {
      var n := |ids| - 1;
      DistinctSize(ids[..n]);
      assert Elements(ids) == Elements(ids[..n]) + {ids[n]};
    }
  }
}
