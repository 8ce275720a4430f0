/** Over every run of a Prizedraw: one draw, stable winners, exact payouts. */
module PrizedrawRuns {
  import opened Sums
  import opened Tables
  import opened Prizedraw

  ghost predicate WinnerOk(d: Draw, c: int) {
    && c in d.claims
    && (d.claims[c] == ClaimPending || (d.claims[c] == ClaimSuccess && HasConfirmedPayout(d.trans, c)))
  }

  ghost predicate RowsOk(d: Draw) {
    forall i :: 0 <= i < |d.trans| ==>
      && d.trans[i].kind == ClaimPayout
      && d.trans[i].claimId in d.drawn
      && d.trans[i].amount == Allocation(d.total, d.drawn)[d.trans[i].claimId]
  }

  ghost predicate JobsOk(d: Draw) {
    forall j :: j in d.jobs ==> j.claim in d.drawn && j.amount == Allocation(d.total, d.drawn)[j.claim]
  }

  ghost predicate Inv(d: Draw) {
    && (d.status == Published ==> d.trans == [] && d.jobs == {} && d.drawn == {} && d.draws == 0)
    && (d.status == Completed ==> d.draws == 1 && forall c :: c in Pendings(d.claims) ==> c in d.drawn)
    && (forall c :: c in d.drawn ==> WinnerOk(d, c))
    && RowsOk(d) && JobsOk(d) && UniquePayouts(d.trans)
  }

  /** The set rebuilt from claim statuses and payout rows is the set that was drawn. */
  lemma WinnersAreDrawn(d: Draw)
    requires Inv(d) && d.status == Completed
    ensures Winners(d) == d.drawn
  {
    forall c | c in d.drawn ensures c in Winners(d) {
      assert WinnerOk(d, c);
      if d.claims[c] == ClaimSuccess {
        var i :| 0 <= i < |d.trans| && d.trans[i].kind == ClaimPayout && d.trans[i].claimId == c && d.trans[i].status == TransConfirmed;
        assert HasPayoutRow(d.trans, c);
      }
    }
    forall c | c in Winners(d) ensures c in d.drawn {
      assert c in Pendings(d.claims) || HasPayoutRow(d.trans, c);
    }
  }

  lemma SettleInv(d: Draw, ended: bool, eligible: set<int>, sample: set<int>)
    requires Inv(d) && CanSettle(d, ended, eligible, sample)
    ensures Inv(Settled(d, sample))
  {
    var t := Settled(d, sample);
    forall c | c in t.drawn ensures WinnerOk(t, c) {
      assert c in Successes(d.claims);
    }
  }

  lemma RetryAmounts(d: Draw, c: int)
    requires Inv(d) && d.status == Completed && c in d.drawn
    ensures RetryAmount(d, c) == Allocation(d.total, d.drawn)[c]
  {
    WinnersAreDrawn(d);
    LatestFailedAmount(d.trans, c, Allocation(d.total, d.drawn)[c]);
  }

  lemma RetryInv(d: Draw)
    requires Inv(d) && d.status == Completed
    ensures Inv(d.(claims := RetryClaims(d), jobs := d.jobs + RetryJobs(d)))
  {
    var t := d.(claims := RetryClaims(d), jobs := d.jobs + RetryJobs(d));
    forall c | c in t.drawn ensures WinnerOk(t, c) {
      assert WinnerOk(d, c);
    }
    forall j | j in RetryJobs(d) ensures j.claim in d.drawn && j.amount == Allocation(d.total, d.drawn)[j.claim] {
      RetryAmounts(d, j.claim);
    }
    forall c | c in Pendings(t.claims) ensures c in d.drawn {
      assert c in Pendings(d.claims);
    }
  }

  lemma ConfirmedKept(rows: Table, after: Table, c: int)
    requires HasConfirmedPayout(rows, c) && |rows| <= |after|
    requires forall i :: 0 <= i < |rows| && rows[i].status == TransConfirmed ==> after[i] == rows[i]
    ensures HasConfirmedPayout(after, c)
  {
    var i :| 0 <= i < |rows| && rows[i].kind == ClaimPayout && rows[i].claimId == c && rows[i].status == TransConfirmed;
    assert after[i] == rows[i];
  }

  lemma InsertInv(d: Draw, job: Job)
    requires Inv(d) && CanInsert(d, job)
    ensures Inv(Next(d, InsertPayout(job)))
  {
    var t := Next(d, InsertPayout(job));
    forall c | c in t.drawn ensures WinnerOk(t, c) {
      assert WinnerOk(d, c);
      if d.claims[c] == ClaimSuccess {
        ConfirmedKept(d.trans, t.trans, c);
      }
    }
    forall i, j | 0 <= i < j < |t.trans| && t.trans[i].status != TransFailed && t.trans[j].status != TransFailed
      ensures t.trans[i].claimId != t.trans[j].claimId
    {
      assert t.trans[i] == d.trans[i];
    }
    assert Winning(d, t);
  }

  /** The draw is still in the same phase, with the same winners to pay. */
  ghost predicate Winning(d: Draw, t: Draw) {
    t.status == d.status == Completed && t.drawn == d.drawn && t.total == d.total
  }

  lemma DecideWinners(d: Draw, i: nat, e: Event, c: int)
    requires Inv(d) && CanDecide(d, i) && e in {Confirm(i), Fail(i)} && c in d.drawn
    ensures WinnerOk(Next(d, e), c)
  {
    var t := Next(d, e);
    assert WinnerOk(d, c);
    if c == d.trans[i].claimId && e.Confirm? {
      assert t.trans[i].status == TransConfirmed;
    } else if d.claims[c] == ClaimSuccess {
      ConfirmedKept(d.trans, t.trans, c);
    }
  }

  lemma DecideInv(d: Draw, i: nat, e: Event)
    requires Inv(d) && CanDecide(d, i) && e in {Confirm(i), Fail(i)}
    ensures Inv(Next(d, e))
  {
    var t := Next(d, e);
    assert Winning(d, t);
    forall c | c in t.drawn ensures WinnerOk(t, c) {
      DecideWinners(d, i, e, c);
    }
    forall a | 0 <= a < |t.trans| ensures t.trans[a].claimId == d.trans[a].claimId && (t.trans[a].status != TransFailed ==> d.trans[a].status != TransFailed) {}
    forall c | c in Pendings(t.claims) ensures c in d.drawn {
      assert c in Pendings(d.claims);
    }
  }

  lemma NextInv(d: Draw, e: Event)
    requires Inv(d)
    ensures Inv(Next(d, e))
  {
    match e
    case Settle(ended, eligible, sample) => if CanSettle(d, ended, eligible, sample) { SettleInv(d, ended, eligible, sample); }
    case Retry => if d.status == Completed { RetryInv(d); }
    case InsertPayout(job) => if CanInsert(d, job) { InsertInv(d, job); }
    case Confirm(i) => if CanDecide(d, i) { DecideInv(d, i, e); }
    case Fail(i) => if CanDecide(d, i) { DecideInv(d, i, e); }
    case _ =>
  }

  lemma {:induction false} RunInv(d: Draw, es: seq<Event>)
    requires Opened(d)
    ensures Inv(Run(d, es))
  {
    if es != [] {
      RunInv(d, es[..|es| - 1]);
      NextInv(Run(d, es[..|es| - 1]), es[|es| - 1]);
    }
  }

  // ------------------------------------------------------------------
  // Results
  // ------------------------------------------------------------------

  /** A draw is made at most once, and from then on the rebuilt winners are the drawn ones. */
  lemma WinnersAreStable(d: Draw, es: seq<Event>, more: seq<Event>)
    requires Opened(d) && Run(d, es).status == Completed
    ensures var s, t := Run(d, es), Run(d, es + more);
            && t.status == Completed && t.draws == 1
            && Winners(s) == s.drawn == t.drawn == Winners(t)
  {
    RunInv(d, es);
    RunInv(d, es + more);
    DrawnForever(d, es, more);
    WinnersAreDrawn(Run(d, es));
    WinnersAreDrawn(Run(d, es + more));
  }

  lemma {:induction false} DrawnForever(d: Draw, es: seq<Event>, more: seq<Event>)
    requires Run(d, es).status == Completed
    ensures Run(d, es + more).status == Completed && Run(d, es + more).drawn == Run(d, es).drawn
  {
    if more == [] {
      assert es + more == es;
    } else {
      var n := |more| - 1;
      DrawnForever(d, es, more[..n]);
      assert (es + more)[..|es + more| - 1] == es + more[..n];
    }
  }

  /** Every payout attempt, of any age and outcome, goes to a drawn winner for its one share. */
  lemma AttemptsCarryTheShare(d: Draw, es: seq<Event>, i: nat)
    requires Opened(d) && i < |Run(d, es).trans|
    ensures var s := Run(d, es);
            && s.trans[i].claimId in s.drawn
            && s.trans[i].amount == Allocation(s.total, s.drawn)[s.trans[i].claimId]
  {
    RunInv(d, es);
  }

  /** The active payouts are the shares of the paid winners. */
  lemma ActiveIsShares(d: Draw)
    requires Inv(d)
    ensures Sum(d.trans, Active(ClaimPayout)) == SumSet(PaidClaims(d.trans), Share(Allocation(d.total, d.drawn)))
  {
    PayoutsByClaim(d.trans, Share(Allocation(d.total, d.drawn)));
  }

  /** At every instant, what is paid or on its way never exceeds the prize pool. */
  lemma PayoutsFitPool(d: Draw, es: seq<Event>)
    requires Opened(d)
    ensures Sum(Run(d, es).trans, Active(ClaimPayout)) <= Run(d, es).total
  {
    var s := Run(d, es);
    RunInv(d, es);
    ActiveIsShares(s);
    if s.drawn == {} {
      assert PaidClaims(s.trans) == {};
    } else {
      assert PaidClaims(s.trans) <= s.drawn;
      SumSetMonotone(PaidClaims(s.trans), s.drawn, Share(Allocation(s.total, s.drawn)));
      SplitIsExact(s.total, s.drawn);
    }
  }

  /** No winner waits for its money. */
  ghost predicate Finished(d: Draw) {
    d.status == Completed && d.drawn != {} && Pendings(d.claims) == {}
  }

  lemma FinishedIsConfirmed(d: Draw, c: int)
    requires Inv(d) && Finished(d) && c in d.drawn
    ensures HasConfirmedPayout(d.trans, c) && HasActivePayout(d.trans, c)
  {
    assert WinnerOk(d, c);
    assert c !in Pendings(d.claims);
  }

  lemma FinishedPaidAll(d: Draw)
    requires Inv(d) && Finished(d)
    ensures PaidClaims(d.trans) == d.drawn
  {
    forall c ensures c in d.drawn <==> HasActivePayout(d.trans, c) {
      if c in d.drawn {
        FinishedIsConfirmed(d, c);
      }
    }
    assert forall c :: c in PaidClaims(d.trans) <==> c in d.drawn;
  }

  lemma FinishedNothingPending(d: Draw, i: nat)
    requires Inv(d) && Finished(d) && i < |d.trans|
    ensures d.trans[i].status != TransPending
  {
    FinishedIsConfirmed(d, d.trans[i].claimId);
    var j :| 0 <= j < |d.trans| && d.trans[j].kind == ClaimPayout && d.trans[j].claimId == d.trans[i].claimId && d.trans[j].status == TransConfirmed;
    assert i < j || j <= i;
  }

  /** Once no winner waits, exactly the pool has been paid and confirmed. */
  lemma FinishedPaysThePool(d: Draw, es: seq<Event>)
    requires Opened(d) && Finished(Run(d, es))
    ensures Sum(Run(d, es).trans, Confirmed(ClaimPayout)) == Run(d, es).total
  {
    RunInv(d, es);
    FinishedActive(Run(d, es));
    FinishedConfirmed(Run(d, es));
  }

  lemma FinishedActive(d: Draw)
    requires Inv(d) && Finished(d)
    ensures Sum(d.trans, Active(ClaimPayout)) == d.total
  {
    FinishedPaidAll(d);
    ActiveIsShares(d);
    SplitIsExact(d.total, d.drawn);
  }

  lemma FinishedConfirmed(d: Draw)
    requires Inv(d) && Finished(d)
    ensures Sum(d.trans, Confirmed(ClaimPayout)) == Sum(d.trans, Active(ClaimPayout))
  {
    forall i | 0 <= i < |d.trans| ensures Confirmed(ClaimPayout)(d.trans[i]) == Active(ClaimPayout)(d.trans[i]) {
      FinishedNothingPending(d, i);
    }
    SumEq(d.trans, Confirmed(ClaimPayout), Active(ClaimPayout));
  }

  /** The draw takes as many winners as there are prizes, or every entrant when there are fewer. */
  lemma DrawSize(d: Draw, es: seq<Event>, ended: bool, eligible: set<int>, sample: set<int>)
    requires Opened(d) && CanSettle(Run(d, es), ended, eligible, sample) && 1 <= d.prizeCount <= MAX_LIMIT
    ensures var t := Next(Run(d, es), Settle(ended, eligible, sample));
            && |Winners(t)| == Min(d.prizeCount, |Successes(Run(d, es).claims)|)
            && Winners(t) <= Successes(Run(d, es).claims)
  {
    RunInv(d, es);
    SettleInv(Run(d, es), ended, eligible, sample);
    WinnersAreDrawn(Next(Run(d, es), Settle(ended, eligible, sample)));
    SettingsKept(d, es);
  }

  lemma {:induction false} SettingsKept(d: Draw, es: seq<Event>)
    ensures Run(d, es).total == d.total && Run(d, es).prizeCount == d.prizeCount
  {
    if es != [] {
      SettingsKept(d, es[..|es| - 1]);
    }
  }
}
