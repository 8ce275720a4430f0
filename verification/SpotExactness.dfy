/** When the newest rows show every confirmed deposit, what is refunded or swept is exactly the rest. */
module SpotExactness {
  import opened Options
  import opened Sums
  import opened Tables
  import opened SpotLedger
  import opened SpotSolvency
  import opened SpotPreservation

  // ------------------------------------------------------------------
  // What the settlement queries see
  // ------------------------------------------------------------------

  /** A confirmed deposit is older than the newest rows. */
  predicate DepositDropped(rows: Table) {
    exists i :: 0 <= i < |Dropped(rows)| && rows[i].kind == FillSpot && rows[i].status == TransConfirmed
  }

  /** The amount of a refund or a sweep is computed with every confirmed deposit in view. */
  ghost predicate Sighted(l: Ledger, e: Event) {
    e.PrepareRemainder? || e.InsertSweep? ==> !DepositDropped(l.trans)
  }

  lemma NoDepositDropped(rows: Table, k: nat)
    requires !DepositDropped(rows) && k <= |Dropped(rows)|
    ensures Sum(rows[..k], Confirmed(FillSpot)) == 0
  {
    forall i | 0 <= i < k ensures Confirmed(FillSpot)(rows[..k][i]) == 0 {
      assert rows[..k][i] == rows[i];
    }
    SumZero(rows[..k], Confirmed(FillSpot));
  }

  lemma DepositInView(l: Ledger) returns (j: nat)
    requires Deposits(l) > 0 && !DepositDropped(l.trans)
    ensures |Dropped(l.trans)| <= j < |l.trans| && l.trans[j].kind == FillSpot && l.trans[j].status == TransConfirmed
  {
    j := SomeDeposit(l.trans);
    assert j < |Dropped(l.trans)| ==> DepositDropped(l.trans);
  }

  /** Of a funded Spot, rows older than its first confirmed deposit are failed deposits. */
  lemma DroppedAreFailed(l: Ledger, i: nat)
    requires Core(l) && Deposits(l) > 0 && !DepositDropped(l.trans) && i < |Dropped(l.trans)|
    ensures l.trans[i].kind == FillSpot && l.trans[i].status == TransFailed
  {
    var j := DepositInView(l);
    NoDepositDropped(l.trans, i);
    assert l.trans[i].kind in {FillSpot, CreationFee};
    assert l.trans[i].kind == FillSpot && l.trans[i].status == TransConfirmed ==> DepositDropped(l.trans);
  }

  lemma SomeDeposit(rows: Table) returns (j: nat)
    requires Sum(rows, Confirmed(FillSpot)) > 0
    ensures j < |rows| && rows[j].kind == FillSpot && rows[j].status == TransConfirmed
  {
    if forall i :: 0 <= i < |rows| ==> Confirmed(FillSpot)(rows[i]) == 0 {
      SumZero(rows, Confirmed(FillSpot));
      assert false;
    }
    j :| j < |rows| && Confirmed(FillSpot)(rows[j]) != 0;
  }

  lemma DroppedWeighsNothing(l: Ledger, w: Weight)
    requires Core(l) && Deposits(l) > 0 && !DepositDropped(l.trans)
    requires forall t: Trans :: t.kind == FillSpot && t.status == TransFailed ==> w(t) == 0
    ensures Sum(Recent(l.trans), w) == Sum(l.trans, w)
  {
    var dropped := Dropped(l.trans);
    forall i | 0 <= i < |dropped| ensures w(dropped[i]) == 0 {
      DroppedAreFailed(l, i);
    }
    SplitRecent(l.trans, w);
    SumZero(dropped, w);
  }

  lemma PendingIsRecent(l: Ledger, k: TransType)
    requires Core(l) && Deposits(l) > 0 && !DepositDropped(l.trans)
    ensures HasPending(l.trans, k) ==> HasPending(Recent(l.trans), k)
  {
    if HasPending(l.trans, k) {
      var cut := |Dropped(l.trans)|;
      var i :| 0 <= i < |l.trans| && l.trans[i].kind == k && l.trans[i].status == TransPending;
      if i < cut { DroppedAreFailed(l, i); }
      assert Recent(l.trans)[i - cut] == l.trans[i];
    }
  }

  /** Then the queries over the newest rows answer as queries over all rows would. */
  lemma RecentIsEverything(l: Ledger)
    requires Core(l) && Deposits(l) > 0 && !DepositDropped(l.trans)
    ensures forall k :: Sum(Recent(l.trans), Confirmed(k)) == Sum(l.trans, Confirmed(k))
    ensures Sum(Recent(l.trans), ConfirmedOutgoing()) == Sum(l.trans, ConfirmedOutgoing())
    ensures forall k :: HasPending(l.trans, k) ==> HasPending(Recent(l.trans), k)
  {
    forall k ensures Sum(Recent(l.trans), Confirmed(k)) == Sum(l.trans, Confirmed(k)) {
      DroppedWeighsNothing(l, Confirmed(k));
    }
    DroppedWeighsNothing(l, ConfirmedOutgoing());
    forall k ensures HasPending(l.trans, k) ==> HasPending(Recent(l.trans), k) {
      PendingIsRecent(l, k);
    }
  }

  // ------------------------------------------------------------------
  // The invariant
  // ------------------------------------------------------------------

  /** What confirmed deposits leave after confirmed rewards and the confirmed fee. */
  function Rest(l: Ledger): int {
    Deposits(l) - Sum(l.trans, Confirmed(ClaimPayout)) - Sum(l.trans, Confirmed(CreationFee))
  }

  /** Nothing can change the confirmed deposits, rewards and fee any more. */
  ghost predicate Frozen(l: Ledger) {
    !HasPending(l.trans, FillSpot) && !HasPending(l.trans, ClaimPayout) && !HasPending(l.trans, CreationFee)
  }

  /** A refund and a sweep are never live together, and both are for exactly the rest. */
  ghost predicate Exact(l: Ledger) {
    && Sum(l.trans, ActiveCount(RemainderRefund)) + Sum(l.trans, ActiveCount(PlatFee)) <= 1
    && (forall i :: 0 <= i < |l.trans| && l.trans[i].kind in {RemainderRefund, PlatFee} ==> l.trans[i].amount == Rest(l))
    && (forall a :: a in l.prepared ==> a == Rest(l))
    && (forall a :: a in l.sending ==> a == Rest(l))
    && (Late(l) ==> Frozen(l) && Rest(l) > 0)
  }

  lemma EarlyIsExact(l: Ledger)
    requires !Late(l)
    ensures Exact(l)
  {
    SumZero(l.trans, ActiveCount(RemainderRefund));
    SumZero(l.trans, ActiveCount(PlatFee));
  }

  predicate IsQuiet(e: Event) {
    e.EditDraft? || e.RecordDeposit? || e.SubmitCreationFee? || e.Publish? || e.OpenClaim? || e.ResolveClaim?
    || e.DropClaim? || e.PreparePayout? || e.InsertPayout?
  }

  /** These events do nothing to the rows and jobs of a Spot that is being wound up. */
  lemma QuietLate(l: Ledger, e: Event)
    requires Core(l) && Late(l) && IsQuiet(e)
    ensures Next(l, e).trans == l.trans && Next(l, e).prepared == l.prepared && Next(l, e).sending == l.sending
  {
    if e.InsertPayout? && CanInsertPayout(l, e.claim, e.reward) {
      assert l.claims[PayoutJob(e.claim, e.reward).claim] == ClaimSuccess;
      PaidNotInserted(l, e.claim);
    }
    assert HasConfirmed(l.trans, CreationFee) ==> HasActive(l.trans, CreationFee);
  }

  /** Nor do they start to wind one up. */
  lemma QuietEarly(l: Ledger, e: Event)
    requires !Late(l) && IsQuiet(e)
    ensures !Late(Next(l, e))
  {
    var rows := Next(l, e).trans;
    assert |l.trans| <= |rows| <= |l.trans| + 1;
    assert |rows| > |l.trans| ==> rows[|l.trans|].kind in {FillSpot, CreationFee, ClaimPayout};
    assert forall i :: 0 <= i < |l.trans| ==> rows[i] == l.trans[i];
  }

  lemma QuietExact(l: Ledger, e: Event)
    requires Core(l) && Exact(l) && IsQuiet(e)
    ensures Exact(Next(l, e))
  {
    var t := Next(l, e);
    if Late(l) {
      QuietLate(l, e);
      SameMoney(l, t);
    } else {
      QuietEarly(l, e);
      EarlyIsExact(t);
    }
  }

  lemma SameMoney(l: Ledger, t: Ledger)
    requires Exact(l) && Late(l) && t.trans == l.trans && t.prepared == l.prepared && t.sending == l.sending
    ensures Exact(t)
  {
    assert Rest(t) == Rest(l);
  }

  lemma RestampExact(l: Ledger, i: nat, t: Trans)
    requires Exact(l) && i < |l.trans| && l.trans[i].status == TransPending && t.status != TransPending
    requires t.kind == l.trans[i].kind && (t.kind != FillSpot ==> t.amount == l.trans[i].amount)
    ensures Exact(Restamp(l, i, t))
  {
    var after := Restamp(l, i, t);
    if Late(l) {
      assert t.kind in {RemainderRefund, PlatFee};
      UpdateSums(l.trans, i, t);
      assert Rest(after) == Rest(l);
      assert forall j :: 0 <= j < |l.trans| ==> after.trans[j].kind == l.trans[j].kind && (j != i ==> after.trans[j] == l.trans[j]);
    } else {
      assert forall j :: 0 <= j < |l.trans| ==> after.trans[j].kind == l.trans[j].kind;
      EarlyIsExact(after);
    }
  }

  lemma ChainExact(l: Ledger, i: nat, sender: string, amount: nat)
    requires Exact(l)
    ensures Exact(Next(l, Confirm(i, sender, amount))) && Exact(Next(l, Fail(i)))
  {
    if i < |l.trans| && l.trans[i].status == TransPending {
      RestampExact(l, i, l.trans[i].(status := TransFailed));
      if Verifies(l.trans[i], sender, amount) {
        RestampExact(l, i, ConfirmedRow(l.trans, i, sender, amount));
      }
    }
  }

  /** A refund or sweep row for the rest. */
  lemma AppendExact(l: Ledger, t: Trans)
    requires Exact(l) && Frozen(l) && t.amount == Rest(l) > 0
    requires t.kind in {RemainderRefund, PlatFee} && t.status == TransPending
    requires !HasActive(l.trans, RemainderRefund) && !HasActive(l.trans, PlatFee)
    ensures Exact(Append(l, t))
  {
    var after := Append(l, t);
    AppendSums(l.trans, t);
    CountPositive(l.trans, RemainderRefund);
    CountPositive(l.trans, PlatFee);
    assert Rest(after) == Rest(l);
    assert forall j :: 0 <= j < |l.trans| ==> after.trans[j] == l.trans[j];
  }

  lemma NoActiveNoConfirmed(rows: Table, k: TransType)
    ensures !HasActive(rows, k) ==> Sum(rows, Confirmed(k)) == 0
  {
    if !HasActive(rows, k) {
      SumZero(rows, Confirmed(k));
    }
  }

  /** With no refund pending, the confirmed refunds are none or exactly the rest. */
  lemma RefundLeavesNothing(l: Ledger)
    requires Exact(l) && !HasPending(l.trans, RemainderRefund)
    ensures Sum(l.trans, Confirmed(RemainderRefund)) in {0, Rest(l)}
    ensures HasActive(l.trans, RemainderRefund) ==> Sum(l.trans, Confirmed(RemainderRefund)) == Rest(l)
  {
    ConfirmedIsActive(l.trans, RemainderRefund);
    if HasActive(l.trans, RemainderRefund) {
      CountTimes(l.trans, RemainderRefund, Rest(l));
      CountPositive(l.trans, RemainderRefund);
    } else {
      NoActiveNoConfirmed(l.trans, RemainderRefund);
    }
  }

  /** The remainder the pass computes is the rest, or nothing once that has been refunded. */
  lemma SettledAmount(l: Ledger, ended: bool)
    requires Core(l) && Exact(l) && CanSettle(l, ended) && !DepositDropped(l.trans)
    ensures Frozen(l) && Deposits(l) > 0
    ensures Remainder(Recent(l.trans)) == Rest(l) - Sum(l.trans, Confirmed(RemainderRefund))
    ensures Remainder(Recent(l.trans)) in {0, Rest(l)}
  {
    RecentIsEverything(l);
    RefundLeavesNothing(l);
    CoreIsSolvent(l);
    ConfirmedIsActive(l.trans, ClaimPayout);
    ConfirmedIsActive(l.trans, CreationFee);
  }

  lemma PrepareRemainderExact(l: Ledger, ended: bool)
    requires Core(l) && Exact(l) && Sighted(l, PrepareRemainder(ended))
    ensures Exact(Next(l, PrepareRemainder(ended)))
  {
    if CanSettle(l, ended) {
      SettledAmount(l, ended);
      SettledJobs(l);
      JobsExact(l, Settle(l));
    }
  }

  /** Completing the Spot writes no row and records at most one amount. */
  lemma SettledJobs(l: Ledger)
    ensures Settle(l).trans == l.trans && Settle(l).sending == l.sending
    ensures forall a :: a in Settle(l).prepared ==> a in l.prepared || a == Remainder(Recent(l.trans)) > 0
  {
  }

  /** Only jobs for the rest are added, and the rows are the same. */
  lemma JobsExact(l: Ledger, t: Ledger)
    requires Exact(l) && t.trans == l.trans
    requires forall a :: a in t.prepared || a in t.sending ==> a in l.prepared || a in l.sending || (a == Rest(l) && a > 0 && Frozen(l))
    ensures Exact(t)
  {
    assert Rest(t) == Rest(l) && Frozen(t) == Frozen(l);
    if Late(t) {
      JobsAreLate(l, t);
    }
  }

  lemma JobsAreLate(l: Ledger, t: Ledger)
    requires Exact(l) && t.trans == l.trans && Late(t)
    requires forall a :: a in t.prepared || a in t.sending ==> a in l.prepared || a in l.sending || (a == Rest(l) && a > 0 && Frozen(l))
    ensures Frozen(l) && Rest(l) > 0
  {
    if a: nat :| a in t.prepared {
    } else if a: nat :| a in t.sending {
    } else {
      assert t.prepared == {} && t.sending == {};
    }
  }

  /** The sweep's own recheck makes it the rest, with no refund alive. */
  lemma SweptAmount(l: Ledger, remaining: nat)
    requires Core(l) && Exact(l) && CanInsertSweep(l, remaining) && !DepositDropped(l.trans)
    ensures Frozen(l) && remaining == Rest(l) && !HasActive(l.trans, RemainderRefund)
  {
    SplitRecent(l.trans, Confirmed(FillSpot));
    RecentIsEverything(l);
    assert forall k :: !HasPending(Recent(l.trans), k);
    OutgoingByType(l.trans);
    NoActiveNoConfirmed(l.trans, PlatFee);
    RefundLeavesNothing(l);
  }

  /** Confirmed outgoing money, by type. */
  lemma {:induction false} OutgoingByType(rows: Table)
    ensures Sum(rows, ConfirmedOutgoing())
            == Sum(rows, Confirmed(ClaimPayout)) + Sum(rows, Confirmed(CreationFee))
               + Sum(rows, Confirmed(RemainderRefund)) + Sum(rows, Confirmed(PlatFee))
  {
    if rows != [] {
      OutgoingByType(rows[..|rows| - 1]);
    }
  }

  lemma NextExact(l: Ledger, e: Event)
    requires Core(l) && Exact(l) && !Races(l, e) && Sighted(l, e)
    ensures Exact(Next(l, e))
  {
    match e
    case Confirm(i, sender, amount) => ChainExact(l, i, sender, amount);
    case Fail(i) => ChainExact(l, i, "", 0);
    case PrepareRemainder(ended) => PrepareRemainderExact(l, ended);
    case CheckRemainder(remainder) => CheckRemainderExact(l, remainder);
    case InsertRemainder(remainder) => InsertRemainderExact(l, remainder);
    case Ban => BanExact(l);
    case InsertSweep(remaining) => InsertSweepExact(l, remaining);
    case _ => QuietExact(l, e);
  }

  lemma CheckRemainderExact(l: Ledger, remainder: nat)
    requires Exact(l)
    ensures Exact(Next(l, CheckRemainder(remainder)))
  {
    JobsExact(l, Next(l, CheckRemainder(remainder)));
  }

  lemma BanExact(l: Ledger)
    requires Exact(l)
    ensures Exact(Next(l, Ban))
  {
    JobsExact(l, Next(l, Ban));
  }

  lemma InsertRemainderExact(l: Ledger, remainder: nat)
    requires Exact(l) && !Races(l, InsertRemainder(remainder))
    ensures Exact(Next(l, InsertRemainder(remainder)))
  {
    if CanInsertRemainder(l, remainder) {
      assert Late(l);
      AppendExact(l, Intent(RemainderRefund, 0, remainder));
    }
  }

  lemma InsertSweepExact(l: Ledger, remaining: nat)
    requires Core(l) && Exact(l) && Sighted(l, InsertSweep(remaining))
    ensures Exact(Next(l, InsertSweep(remaining)))
  {
    if CanInsertSweep(l, remaining) {
      SweptAmount(l, remaining);
      AppendExact(l, Intent(PlatFee, 0, remaining));
    }
  }
}
