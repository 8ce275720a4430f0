/** The sums of the money model, written out over the indices of the rows they count. */
module SpotTotals {
  import opened Sums
  import opened Tables

  function AmountAt(rows: Table): int -> nat {
    i => if 0 <= i < |rows| then rows[i].amount else 0
  }

  lemma SumStep(rows: Table, n: nat, w: Weight, p: Trans -> bool)
    requires n < |rows| && w(rows[n]) == if p(rows[n]) then rows[n].amount else 0
    requires Sum(rows[..n], w) == SumSet(Chosen(rows, n, p), AmountAt(rows))
    ensures Sum(rows[..n + 1], w) == SumSet(Chosen(rows, n + 1, p), AmountAt(rows))
  {
    ChosenStep(rows, n, p);
    assert rows[..n + 1] == rows[..n] + [rows[n]];
    SumAppend(rows[..n], rows[n], w);
    SumSetInsert(Chosen(rows, n, p), n, AmountAt(rows));
    assert !p(rows[n]) ==> Chosen(rows, n + 1, p) == Chosen(rows, n, p);
  }

  /** A weight that is the amount of some rows adds up the amounts at their indices. */
  lemma {:induction false} SumByIndex(rows: Table, n: nat, w: Weight, p: Trans -> bool)
    requires n <= |rows| && forall t :: w(t) == if p(t) then t.amount else 0
    ensures Sum(rows[..n], w) == SumSet(Chosen(rows, n, p), AmountAt(rows))
  {
    if n == 0 {
      assert rows[..n] == [] && Chosen(rows, n, p) == {};
    } else {
      SumByIndex(rows, n - 1, w, p);
      SumStep(rows, n - 1, w, p);
    }
  }

  lemma SumChosen(rows: Table, w: Weight, p: Trans -> bool, s: set<int>)
    requires forall t :: w(t) == if p(t) then t.amount else 0
    requires forall i :: i in s <==> 0 <= i < |rows| && p(rows[i])
    ensures Sum(rows, w) == SumSet(s, AmountAt(rows))
  {
    SumByIndex(rows, |rows|, w, p);
    assert rows[..|rows|] == rows;
    assert Chosen(rows, |rows|, p) == s;
  }

  /** What counts as confirmed. */
  lemma ConfirmedByIndex(rows: Table, k: TransType)
    ensures Sum(rows, Confirmed(k))
            == SumSet((set i | 0 <= i < |rows| && rows[i].kind == k && rows[i].status == TransConfirmed), AmountAt(rows))
  {
    SumChosen(rows, Confirmed(k), (t: Trans) => t.kind == k && t.status == TransConfirmed,
              set i | 0 <= i < |rows| && rows[i].kind == k && rows[i].status == TransConfirmed);
  }

  /** What counts as live: all but the failed rows. */
  lemma LiveByIndex(rows: Table, k: TransType)
    ensures Sum(rows, Active(k))
            == SumSet((set i | 0 <= i < |rows| && rows[i].kind == k && rows[i].status in {TransPending, TransConfirmed}), AmountAt(rows))
  {
    SumChosen(rows, Active(k), (t: Trans) => t.kind == k && t.status in {TransPending, TransConfirmed},
              set i | 0 <= i < |rows| && rows[i].kind == k && rows[i].status in {TransPending, TransConfirmed});
  }

  /** What has certainly left: everything confirmed but the deposits. */
  lemma OutgoingByIndex(rows: Table)
    ensures Sum(rows, ConfirmedOutgoing())
            == SumSet((set i | 0 <= i < |rows| && rows[i].kind != FillSpot && rows[i].status == TransConfirmed), AmountAt(rows))
  {
    SumChosen(rows, ConfirmedOutgoing(), (t: Trans) => t.kind != FillSpot && t.status == TransConfirmed,
              set i | 0 <= i < |rows| && rows[i].kind != FillSpot && rows[i].status == TransConfirmed);
  }
}
