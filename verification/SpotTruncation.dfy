/** What reading only the newest rows does to refunds and sweeps, in runs of any length. */
module SpotTruncation {
  import opened Options
  import opened Sums
  import opened Tables
  import opened SpotLedger
  import opened SpotSolvency
  import opened SpotPreservation
  import opened SpotExactness
  import opened SpotTheorems

  // ------------------------------------------------------------------
  // The two computed amounts in one form
  // ------------------------------------------------------------------

  /** What confirmed deposits leave after the rows of a weight. */
  function Left(rows: Table, w: Weight): nat {
    Monus(Sum(rows, Confirmed(FillSpot)), Sum(rows, w))
  }

  /** The confirmed rows a remainder subtracts. */
  function Settlements(): Weight {
    (t: Trans) => if t.kind in {ClaimPayout, CreationFee, RemainderRefund} && t.status == TransConfirmed then t.amount else 0
  }

  lemma {:induction false} SettlementsByType(rows: Table)
    ensures Sum(rows, Settlements())
            == Sum(rows, Confirmed(ClaimPayout)) + Sum(rows, Confirmed(CreationFee)) + Sum(rows, Confirmed(RemainderRefund))
  {
    if rows != [] {
      SettlementsByType(rows[..|rows| - 1]);
    }
  }

  lemma RemainderIsLeft(rows: Table)
    ensures Remainder(rows) == Left(rows, Settlements()) && Remaining(rows) == Left(rows, ConfirmedOutgoing())
  {
    SettlementsByType(rows);
  }

  ghost predicate Pays(w: Weight) {
    forall t: Trans :: w(t) <= Outgoing()(t)
  }

  // ------------------------------------------------------------------
  // Dropped rows
  // ------------------------------------------------------------------

  lemma DroppedPaysLess(rows: Table, w: Weight)
    requires PrefixSolvent(rows) && Pays(w)
    ensures Sum(Dropped(rows), w) <= Sum(Dropped(rows), Confirmed(FillSpot))
  {
    DroppedIsSolvent(rows);
    SumLe(Dropped(rows), w, Outgoing());
  }

  /** Reading the newest rows only never makes a computed amount larger. */
  lemma NeverMore(rows: Table, w: Weight)
    requires PrefixSolvent(rows) && Pays(w)
    ensures Left(Recent(rows), w) <= Left(rows, w)
  {
    DroppedPaysLess(rows, w);
    SplitRecent(rows, w);
    SplitRecent(rows, Confirmed(FillSpot));
  }

  predicate IsEarly(t: Trans) { t.kind in {FillSpot, CreationFee} }

  /** Dropping a reward, refund or sweep row means that all deposits were dropped before it. */
  lemma AllDepositsDropped(l: Ledger, i: nat)
    requires Core(l) && i < |Dropped(l.trans)| && !IsEarly(l.trans[i])
    ensures Sum(Dropped(l.trans), Confirmed(FillSpot)) == Deposits(l)
  {
    var cut, recent := |Dropped(l.trans)|, Recent(l.trans);
    forall j | 0 <= j < |recent| ensures Confirmed(FillSpot)(recent[j]) == 0 {
      assert recent[j] == l.trans[cut + j];
    }
    SumZero(recent, Confirmed(FillSpot));
    SplitRecent(l.trans, Confirmed(FillSpot));
  }

  lemma {:induction false} EarlyRowsPayTheFee(rows: Table, fee: nat)
    requires EarlyOnly(rows, fee)
    ensures Sum(rows, Outgoing()) == fee * Sum(rows, ActiveCount(CreationFee))
  {
    if rows != [] {
      var n := |rows| - 1;
      EarlyRowsPayTheFee(rows[..n], fee);
      var s, d := Sum(rows[..n], ActiveCount(CreationFee)), ActiveCount(CreationFee)(rows[n]);
      assert fee * (s + d) == fee * s + fee * d;
    }
  }

  /** Dropped deposits are never used up by a dropped fee alone. */
  lemma EarlyRowsLeaveSome(l: Ledger)
    requires Core(l) && DepositDropped(l.trans)
    requires forall i :: 0 <= i < |Dropped(l.trans)| ==> IsEarly(l.trans[i])
    ensures Sum(Dropped(l.trans), Outgoing()) < Sum(Dropped(l.trans), Confirmed(FillSpot))
  {
    var dropped := Dropped(l.trans);
    var i :| 0 <= i < |dropped| && l.trans[i].kind == FillSpot && l.trans[i].status == TransConfirmed;
    assert dropped[i] == l.trans[i] && RowOk(l, l.trans[i]);
    SumElement(dropped, i, Confirmed(FillSpot));
    DroppedFees(l);
    if HasActive(dropped, CreationFee) {
      var j :| 0 <= j < |dropped| && dropped[j].kind == CreationFee && dropped[j].status != TransFailed;
      assert l.trans[j] == dropped[j] && l.trans[..j] == dropped[..j];
      SumSplit(dropped, j, Confirmed(FillSpot));
    }
  }

  ghost predicate EarlyOnly(rows: Table, fee: nat) {
    forall i :: 0 <= i < |rows| ==> IsEarly(rows[i]) && (rows[i].kind == CreationFee ==> rows[i].amount == fee)
  }

  lemma EarlyFees(rows: Table, fee: nat)
    requires EarlyOnly(rows, fee) && Sum(rows, ActiveCount(CreationFee)) <= 1
    ensures Sum(rows, Outgoing()) <= fee
    ensures !HasActive(rows, CreationFee) ==> Sum(rows, Outgoing()) == 0
  {
    var n := Sum(rows, ActiveCount(CreationFee));
    EarlyRowsPayTheFee(rows, fee);
    CountPositive(rows, CreationFee);
    assert n == 0 || n == 1;
  }

  lemma DroppedFees(l: Ledger)
    requires Core(l) && forall i :: 0 <= i < |Dropped(l.trans)| ==> IsEarly(l.trans[i])
    ensures Sum(Dropped(l.trans), Outgoing()) <= l.spot.creationFee
    ensures !HasActive(Dropped(l.trans), CreationFee) ==> Sum(Dropped(l.trans), Outgoing()) == 0
  {
    var dropped := Dropped(l.trans);
    assert EarlyOnly(dropped, l.spot.creationFee) by {
      forall i | 0 <= i < |dropped| ensures IsEarly(dropped[i]) && (dropped[i].kind == CreationFee ==> dropped[i].amount == l.spot.creationFee) {
        assert dropped[i] == l.trans[i] && RowOk(l, l.trans[i]);
      }
    }
    SplitRecent(l.trans, ActiveCount(CreationFee));
    EarlyFees(dropped, l.spot.creationFee);
  }

  /** While something is left, dropped deposits always outweigh what was paid out of them. */
  lemma DroppedDepositCounts(l: Ledger, w: Weight)
    requires Core(l) && Pays(w) && DepositDropped(l.trans) && Left(l.trans, w) > 0
    ensures Sum(Dropped(l.trans), w) < Sum(Dropped(l.trans), Confirmed(FillSpot))
  {
    SplitRecent(l.trans, w);
    if i: nat :| i < |Dropped(l.trans)| && !IsEarly(l.trans[i]) {
      AllDepositsDropped(l, i);
    } else {
      EarlyRowsLeaveSome(l);
      SumLe(Dropped(l.trans), w, Outgoing());
    }
  }

  /** A computed amount is right if and only if no confirmed deposit was dropped or nothing is left at all. */
  lemma ExactWhenInView(l: Ledger, w: Weight)
    requires Core(l) && Pays(w)
    ensures Left(Recent(l.trans), w) == Left(l.trans, w) <==> !DepositDropped(l.trans) || Left(l.trans, w) == 0
  {
    NeverMore(l.trans, w);
    DroppedPaysLess(l.trans, w);
    SplitRecent(l.trans, w);
    SplitRecent(l.trans, Confirmed(FillSpot));
    if !DepositDropped(l.trans) {
      NoDepositDropped(l.trans, |Dropped(l.trans)|);
      assert l.trans[..|Dropped(l.trans)|] == Dropped(l.trans);
    } else if Left(l.trans, w) > 0 {
      DroppedDepositCounts(l, w);
    }
  }

  // ------------------------------------------------------------------
  // Results
  // ------------------------------------------------------------------

  /** In every run the remainder and the sweep amount read from the newest rows are at most the true ones. */
  lemma TruncationIsSafe(l: Ledger, es: seq<Event>)
    requires Orderly(l, es)
    ensures var rows := Run(l, es).trans;
            Remainder(Recent(rows)) <= Remainder(rows) && Remaining(Recent(rows)) <= Remaining(rows)
  {
    var rows := Run(l, es).trans;
    RunCore(l, es);
    RemainderIsLeft(rows);
    RemainderIsLeft(Recent(rows));
    NeverMore(rows, Settlements());
    NeverMore(rows, ConfirmedOutgoing());
  }

  /** In every run the remainder is right exactly when no confirmed deposit is older than the newest
      rows, or there is nothing to refund. */
  lemma TruncatedRemainderExact(l: Ledger, es: seq<Event>)
    requires Orderly(l, es)
    ensures var rows := Run(l, es).trans;
            Remainder(Recent(rows)) == Remainder(rows) <==> !DepositDropped(rows) || Remainder(rows) == 0
  {
    RunCore(l, es);
    RemainderIsLeft(Run(l, es).trans);
    RemainderIsLeft(Recent(Run(l, es).trans));
    ExactWhenInView(Run(l, es), Settlements());
  }

  /** And so is the amount of a ban sweep. */
  lemma TruncatedSweepExact(l: Ledger, es: seq<Event>)
    requires Orderly(l, es)
    ensures var rows := Run(l, es).trans;
            Remaining(Recent(rows)) == Remaining(rows) <==> !DepositDropped(rows) || Remaining(rows) == 0
  {
    RunCore(l, es);
    RemainderIsLeft(Run(l, es).trans);
    RemainderIsLeft(Recent(Run(l, es).trans));
    ExactWhenInView(Run(l, es), ConfirmedOutgoing());
  }
}
