/** Sums over rows and over sets, shared by every module that adds up money or counts claims. */
module Sums {

  function Sum<T>(rows: seq<T>, w: T -> nat): (total: nat)
  {
    if rows == [] then 0 else Sum(rows[..|rows| - 1], w) + w(rows[|rows| - 1])
  }

  // ------------------------------------------------------------------
  // Sums under the two ways a table changes: append a row, restamp a row
  // ------------------------------------------------------------------

  lemma SumAppend<T>(rows: seq<T>, t: T, w: T -> nat)
    ensures Sum(rows + [t], w) == Sum(rows, w) + w(t)
  {
    assert (rows + [t])[..|rows|] == rows;
  }

  lemma {:induction false} SumUpdate<T>(rows: seq<T>, i: nat, t: T, w: T -> nat)
    requires i < |rows|
    ensures Sum(rows[i := t], w) == Sum(rows, w) - w(rows[i]) + w(t)
  {
    var n := |rows| - 1;
    if i == n {
      assert rows[i := t][..n] == rows[..n];
    } else {
      SumUpdate(rows[..n], i, t, w);
      assert rows[i := t][..n] == rows[..n][i := t];
    }
  }

  lemma {:induction false} SumLe<T>(rows: seq<T>, v: T -> nat, w: T -> nat)
    requires forall i :: 0 <= i < |rows| ==> v(rows[i]) <= w(rows[i])
    ensures Sum(rows, v) <= Sum(rows, w)
  {
    if rows != [] {
      SumLe(rows[..|rows| - 1], v, w);
    }
  }

  lemma {:induction false} SumEq<T>(rows: seq<T>, v: T -> nat, w: T -> nat)
    requires forall i :: 0 <= i < |rows| ==> v(rows[i]) == w(rows[i])
    ensures Sum(rows, v) == Sum(rows, w)
  {
    SumLe(rows, v, w);
    SumLe(rows, w, v);
  }

  lemma {:induction false} SumZero<T>(rows: seq<T>, w: T -> nat)
    requires forall i :: 0 <= i < |rows| ==> w(rows[i]) == 0
    ensures Sum(rows, w) == 0
  {
    if rows != [] {
      SumZero(rows[..|rows| - 1], w);
    }
  }

  lemma {:induction false} SumSplit<T>(rows: seq<T>, cut: nat, w: T -> nat)
    requires cut <= |rows|
    ensures Sum(rows, w) == Sum(rows[..cut], w) + Sum(rows[cut..], w)
  {
    if cut == |rows| {
      assert rows[..cut] == rows;
    } else {
      var n := |rows| - 1;
      SumSplit(rows[..n], cut, w);
      assert rows[..n][..cut] == rows[..cut];
      assert rows[cut..][..|rows[cut..]| - 1] == rows[..n][cut..];
    }
  }

  /** One row's weight never exceeds the total. */
  lemma {:induction false} SumElement<T>(rows: seq<T>, i: nat, w: T -> nat)
    requires i < |rows|
    ensures w(rows[i]) <= Sum(rows, w)
  {
    SumSplit(rows, i, w);
    SumSplit(rows[i..], 1, w);
    assert rows[i..][..1] == [rows[i]];
    assert [rows[i]][..0] == [];
    assert Sum([rows[i]], w) == Sum([], w) + w(rows[i]);
  }

  // ------------------------------------------------------------------
  // Filters
  // ------------------------------------------------------------------

  function Filter<T(!new)>(rows: seq<T>, p: T -> bool): (kept: seq<T>)
    ensures forall x :: x in kept <==> x in rows && p(x)
  {
    if rows == [] then []
    else
      var init := Filter(rows[..|rows| - 1], p);
      if p(rows[|rows| - 1]) then init + [rows[|rows| - 1]] else init
  }

  lemma FilterAppend<T(!new)>(rows: seq<T>, x: T, p: T -> bool)
    ensures Filter(rows + [x], p) == Filter(rows, p) + if p(x) then [x] else []
  {
    assert (rows + [x])[..|rows|] == rows;
  }

  /** Summing what a filter keeps is summing the rest as zero. */
  lemma {:induction false} FilterAll<T(!new)>(rows: seq<T>, p: T -> bool)
    requires forall x :: x in rows ==> p(x)
    ensures Filter(rows, p) == rows
  {
    if rows != [] {
      FilterAll(rows[..|rows| - 1], p);
    }
  }

  /** The first n indices whose row satisfies p. */
  function Chosen<T(!new)>(rows: seq<T>, n: nat, p: T -> bool): set<int>
    requires n <= |rows|
  {
    set i | 0 <= i < n && p(rows[i])
  }

  lemma ChosenStep<T(!new)>(rows: seq<T>, n: nat, p: T -> bool)
    requires n < |rows|
    ensures Chosen(rows, n + 1, p) == Chosen(rows, n, p) + if p(rows[n]) then {n} else {}
    ensures n !in Chosen(rows, n, p)
  {
  }

  lemma FilterStep<T(!new)>(rows: seq<T>, n: nat, p: T -> bool)
    requires n < |rows| && |Filter(rows[..n], p)| == |Chosen(rows, n, p)|
    ensures |Filter(rows[..n + 1], p)| == |Chosen(rows, n + 1, p)|
  {
    assert rows[..n + 1] == rows[..n] + [rows[n]];
    FilterAppend(rows[..n], rows[n], p);
    ChosenStep(rows, n, p);
    assert !p(rows[n]) ==> Chosen(rows, n + 1, p) == Chosen(rows, n, p);
  }

  /** A filter keeps as many rows as there are indices that satisfy it. */
  lemma {:induction false} FilterSize<T(!new)>(rows: seq<T>, n: nat, p: T -> bool)
    requires n <= |rows|
    ensures |Filter(rows[..n], p)| == |Chosen(rows, n, p)|
  {
    if n == 0 {
      assert rows[..n] == [] && Chosen(rows, n, p) == {};
    } else {
      FilterSize(rows, n - 1, p);
      FilterStep(rows, n - 1, p);
    }
  }

  lemma {:induction false} SumFilter<T(!new)>(rows: seq<T>, p: T -> bool, w: T -> nat)
    ensures Sum(Filter(rows, p), w) == Sum(rows, x => if p(x) then w(x) else 0)
  {
    if rows != [] {
      var init := rows[..|rows| - 1];
      SumFilter(init, p, w);
      if p(rows[|rows| - 1]) {
        SumAppend(Filter(init, p), rows[|rows| - 1], w);
      }
    }
  }

  // ------------------------------------------------------------------
  // Sums over sets
  // ------------------------------------------------------------------

  ghost function SumSet<T>(s: set<T>, f: T -> nat): (total: nat)
  {
    if s == {} then 0
    else
      var x :| x in s;
      f(x) + SumSet(s - {x}, f)
  }

  /** Any element may be taken out first. */
  lemma {:induction false} SumSetRemove<T>(s: set<T>, y: T, f: T -> nat)
    requires y in s
    ensures SumSet(s, f) == f(y) + SumSet(s - {y}, f)
    decreases s
  {
    var x :| x in s && SumSet(s, f) == f(x) + SumSet(s - {x}, f);
    if x != y {
      SumSetRemove(s - {x}, y, f);
      SumSetRemove(s - {y}, x, f);
      assert s - {x} - {y} == s - {y} - {x};
    }
  }

  lemma SumSetInsert<T>(s: set<T>, y: T, f: T -> nat)
    ensures SumSet(s + {y}, f) == if y in s then SumSet(s, f) else SumSet(s, f) + f(y)
  {
    if y in s {
      assert s + {y} == s;
    } else {
      SumSetRemove(s + {y}, y, f);
      assert s + {y} - {y} == s;
    }
  }

  lemma {:induction false} SumSetMonotone<T>(s: set<T>, t: set<T>, f: T -> nat)
    requires s <= t
    ensures SumSet(s, f) <= SumSet(t, f)
    decreases s
  {
    if s != {} {
      var y :| y in s;
      SumSetRemove(s, y, f);
      SumSetRemove(t, y, f);
      SumSetMonotone(s - {y}, t - {y}, f);
    }
  }

  lemma SubsetSize<T>(a: set<T>, b: set<T>)
    requires a <= b
    ensures |a| <= |b|
  {
    if a != {} {
      var x :| x in a;
      SubsetSize(a - {x}, b - {x});
    }
  }

  lemma {:induction false} SumSetUnion<T>(s: set<T>, t: set<T>, f: T -> nat)
    requires s !! t
    ensures SumSet(s + t, f) == SumSet(s, f) + SumSet(t, f)
    decreases t
  {
    if t == {} {
      assert s + t == s;
    } else {
      var y :| y in t;
      SumSetUnion(s, t - {y}, f);
      SumSetRemove(t, y, f);
      SumSetRemove(s + t, y, f);
      assert s + t - {y} == s + (t - {y});
    }
  }

  lemma {:induction false} SumSetOnes<T>(s: set<T>, f: T -> nat)
    requires forall x :: x in s ==> f(x) == 1
    ensures SumSet(s, f) == |s|
    decreases s
  {
    if s != {} {
      var y :| y in s;
      SumSetRemove(s, y, f);
      SumSetOnes(s - {y}, f);
    }
  }

  lemma {:induction false} SumSetSame<T>(s: set<T>, f: T -> nat, g: T -> nat)
    requires forall x :: x in s ==> f(x) == g(x)
    ensures SumSet(s, f) == SumSet(s, g)
    decreases s
  {
    if s != {} {
      var x :| x in s;
      SumSetRemove(s, x, f);
      SumSetRemove(s, x, g);
      SumSetSame(s - {x}, f, g);
    }
  }

  // ------------------------------------------------------------------
  // Rows with a key: a table is as large as its key set
  // ------------------------------------------------------------------

  /** No two rows satisfying `p` share a key: a partial unique index. */
  ghost predicate Indexed<T>(rows: seq<T>, p: T -> bool, k: T -> int) {
    forall i, j :: 0 <= i < j < |rows| && p(rows[i]) && p(rows[j]) ==> k(rows[i]) != k(rows[j])
  }

  function Keys<T>(rows: seq<T>, k: T -> int): set<int> {
    set i | 0 <= i < |rows| :: k(rows[i])
  }

  lemma {:induction false} FilterIndexed<T(!new)>(rows: seq<T>, p: T -> bool, q: T -> bool, k: T -> int)
    requires Indexed(rows, p, k)
    requires forall x :: x in rows && q(x) ==> p(x)
    ensures Indexed(Filter(rows, q), x => true, k)
  {
    if rows != [] {
      var n := |rows| - 1;
      FilterIndexed(rows[..n], p, q, k);
      var kept := Filter(rows[..n], q);
      if q(rows[n]) {
        forall i | 0 <= i < |kept| ensures k(kept[i]) != k(rows[n]) {
          assert kept[i] in rows[..n] && q(kept[i]);
          var j :| 0 <= j < n && rows[..n][j] == kept[i];
          assert rows[j] == kept[i];
        }
      }
    }
  }

  lemma {:induction false} SumKeys<T>(rows: seq<T>, k: T -> int, w: T -> nat, f: int -> nat)
    requires Indexed(rows, x => true, k)
    requires forall i :: 0 <= i < |rows| ==> w(rows[i]) == f(k(rows[i]))
    ensures Sum(rows, w) == SumSet(Keys(rows, k), f)
  {
    if rows == [] {
      assert Keys(rows, k) == {};
    } else {
      var n := |rows| - 1;
      SumKeys(rows[..n], k, w, f);
      assert Keys(rows, k) == Keys(rows[..n], k) + {k(rows[n])} by {
        assert forall i :: 0 <= i < n ==> rows[..n][i] == rows[i];
      }
      SumSetInsert(Keys(rows[..n], k), k(rows[n]), f);
    }
  }
}
