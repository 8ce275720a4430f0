/** The money results for one Standard Spot, over every interleaving of its events and runs of any length. */
module SpotTheorems {
  import opened Options
  import opened Sums
  import opened Tables
  import opened SpotLedger
  import opened SpotSolvency
  import opened SpotPreservation
  import opened SpotExactness

  /** A run of a new draft in which no remainder row is inserted beside an active sweep. */
  ghost predicate Orderly(l: Ledger, es: seq<Event>) {
    if es == [] then Created(l) else Orderly(l, es[..|es| - 1]) && !Races(Run(l, es[..|es| - 1]), es[|es| - 1])
  }

  /** Moreover, refunds and sweeps are computed with every confirmed deposit in view. */
  ghost predicate Regular(l: Ledger, es: seq<Event>) {
    Orderly(l, es) && (es != [] ==> Regular(l, es[..|es| - 1]) && Sighted(Run(l, es[..|es| - 1]), es[|es| - 1]))
  }

  lemma {:induction false} RunCore(l: Ledger, es: seq<Event>)
    requires Orderly(l, es)
    ensures Created(l) && Core(Run(l, es))
  {
    if es == [] {
      assert Successes(l.claims) == {} && Pendings(l.claims) == {};
    } else {
      RunCore(l, es[..|es| - 1]);
      NextCore(Run(l, es[..|es| - 1]), es[|es| - 1]);
    }
  }

  lemma {:induction false} RunExact(l: Ledger, es: seq<Event>)
    requires Regular(l, es)
    ensures Created(l) && Core(Run(l, es)) && Exact(Run(l, es))
  {
    RunCore(l, es);
    if es == [] {
      EarlyIsExact(l);
    } else {
      RunExact(l, es[..|es| - 1]);
      NextExact(Run(l, es[..|es| - 1]), es[|es| - 1]);
    }
  }

  /** Rewards, fee, refund and sweep, sent or still under way, never exceed the confirmed deposits. */
  lemma EveryRunIsSolvent(l: Ledger, es: seq<Event>)
    requires Orderly(l, es)
    ensures Committed(Run(l, es)) <= Deposits(Run(l, es))
  {
    RunCore(l, es);
    CoreIsSolvent(Run(l, es));
  }

  /** Once a remainder refund confirms, every deposited Luna is accounted for, forever. */
  lemma ConfirmedRefundConserves(l: Ledger, es: seq<Event>, i: nat)
    requires Regular(l, es)
    requires i < |Run(l, es).trans| && Run(l, es).trans[i].kind == RemainderRefund && Run(l, es).trans[i].status == TransConfirmed
    ensures var s := Run(l, es);
            && Deposits(s) == Sum(s.trans, Confirmed(ClaimPayout)) + Sum(s.trans, Confirmed(CreationFee)) + s.trans[i].amount
            && Committed(s) == Deposits(s)
  {
    var s := Run(l, es);
    RunExact(l, es);
    CoreIsSolvent(s);
    assert Late(s);
    ConfirmedIsActive(s.trans, ClaimPayout);
    ConfirmedIsActive(s.trans, CreationFee);
    SumElement(s.trans, i, Active(RemainderRefund));
  }

  /** Once a ban sweep confirms, deposits equal outgoing money and no second sweep can start. */
  lemma ConfirmedSweepConserves(l: Ledger, es: seq<Event>, i: nat, remaining: nat)
    requires Regular(l, es)
    requires i < |Run(l, es).trans| && Run(l, es).trans[i].kind == PlatFee && Run(l, es).trans[i].status == TransConfirmed
    ensures var s := Run(l, es);
            && Deposits(s) == Sum(s.trans, ConfirmedOutgoing())
            && Committed(s) == Deposits(s)
            && !CanInsertSweep(s, remaining)
  {
    var s := Run(l, es);
    RunExact(l, es);
    CoreIsSolvent(s);
    assert Late(s);
    ConfirmedIsActive(s.trans, ClaimPayout);
    ConfirmedIsActive(s.trans, CreationFee);
    ConfirmedIsActive(s.trans, RemainderRefund);
    SumElement(s.trans, i, Active(PlatFee));
    SumElement(s.trans, i, Confirmed(PlatFee));
    ConfirmedIsActive(s.trans, PlatFee);
    OutgoingByType(s.trans);
    assert HasActive(s.trans, PlatFee);
  }

  /** Whenever a remainder is computed in view of all deposits the subtraction is exact, and a source for it exists. */
  lemma RemainderNeverClamps(l: Ledger, es: seq<Event>, ended: bool)
    requires Regular(l, es) && CanSettle(Run(l, es), ended) && !DepositDropped(Run(l, es).trans)
    ensures var s := Run(l, es);
            && Remainder(Recent(s.trans))
               == Deposits(s) - Sum(s.trans, Confirmed(ClaimPayout)) - Sum(s.trans, Confirmed(CreationFee))
                  - Sum(s.trans, Confirmed(RemainderRefund))
            && HasRefundSource(Recent(s.trans))
  {
    RunExact(l, es);
    RunFunding(l, es);
    RemainderInView(Run(l, es), ended);
  }

  lemma RemainderInView(s: Ledger, ended: bool)
    requires Core(s) && Exact(s) && OneFundingWallet(s.trans) && CanSettle(s, ended) && !DepositDropped(s.trans)
    ensures Remainder(Recent(s.trans)) == Rest(s) - Sum(s.trans, Confirmed(RemainderRefund))
    ensures HasRefundSource(Recent(s.trans))
  {
    SettledAmount(s, ended);
    SourceInView(s);
  }

  lemma SourceInView(s: Ledger)
    requires Core(s) && Deposits(s) > 0 && !DepositDropped(s.trans) && OneFundingWallet(s.trans)
    ensures HasRefundSource(Recent(s.trans))
  {
    RecentIsEverything(s);
    var j := SomeDeposit(Recent(s.trans));
    assert Recent(s.trans)[j] == s.trans[|Dropped(s.trans)| + j];
    assert IsFunding(Recent(s.trans)[j]);
  }

  /** Every attempt at the reward or the fee, and in regular runs at the refund or the sweep, carries one amount. */
  lemma RetriesKeepTheAmount(l: Ledger, es: seq<Event>, i: nat, j: nat)
    requires Orderly(l, es) && i < |Run(l, es).trans| && j < |Run(l, es).trans|
    requires Run(l, es).trans[i].kind == Run(l, es).trans[j].kind != FillSpot
    requires Run(l, es).trans[i].kind in {RemainderRefund, PlatFee} ==> Regular(l, es)
    ensures Run(l, es).trans[i].amount == Run(l, es).trans[j].amount
  {
    var s := Run(l, es);
    RunCore(l, es);
    if s.trans[i].kind in {RemainderRefund, PlatFee} {
      RunExact(l, es);
    }
    assert RowOk(s, s.trans[i]) && RowOk(s, s.trans[j]);
  }

  // ------------------------------------------------------------------
  // After a ban
  // ------------------------------------------------------------------

  /** t has the rows of s, some of them decided since, and otherwise only refunds and sweeps. */
  ghost predicate OnlyWindsUp(s: Ledger, t: Ledger) {
    && t.spot.status == Banned && |s.trans| <= |t.trans|
    && (forall i :: 0 <= i < |s.trans| ==>
          && t.trans[i].kind == s.trans[i].kind && t.trans[i].claimId == s.trans[i].claimId
          && (t.trans[i].kind != FillSpot ==> t.trans[i].amount == s.trans[i].amount)
          && (s.trans[i].status != TransPending ==> t.trans[i] == s.trans[i]))
    && (forall i :: |s.trans| <= i < |t.trans| ==> t.trans[i].kind in {RemainderRefund, PlatFee})
  }

  lemma BanStep(s: Ledger, t: Ledger, e: Event)
    requires OnlyWindsUp(s, t)
    ensures OnlyWindsUp(s, Next(t, e))
  {
  }

  /** Once a Spot is banned, no later run adds a deposit, fee or reward row, or lifts the ban. */
  lemma {:induction false} BannedSpotGainsNoIntent(l: Ledger, es: seq<Event>, more: seq<Event>)
    requires Run(l, es).spot.status == Banned
    ensures OnlyWindsUp(Run(l, es), Run(l, es + more))
  {
    if more == [] {
      assert es + more == es;
    } else {
      var n := |more| - 1;
      BannedSpotGainsNoIntent(l, es, more[..n]);
      assert (es + more)[..|es + more| - 1] == es + more[..n];
      BanStep(Run(l, es), Run(l, es + more[..n]), more[n]);
    }
  }

  // ------------------------------------------------------------------
  // The remainder send and the ban
  // ------------------------------------------------------------------

  /** An active sweep commits all that the deposits leave. */
  lemma SweepTakesAll(l: Ledger)
    requires Exact(l) && HasActive(l.trans, PlatFee)
    ensures Committed(l) >= Deposits(l)
  {
    var i :| 0 <= i < |l.trans| && l.trans[i].kind == PlatFee && l.trans[i].status != TransFailed;
    assert Late(l);
    SumElement(l.trans, i, Active(PlatFee));
    ConfirmedIsActive(l.trans, ClaimPayout);
    ConfirmedIsActive(l.trans, CreationFee);
  }

  lemma SweptThenRefunded(l: Ledger, remainder: nat)
    requires Exact(l) && HasActive(l.trans, PlatFee) && CanInsertRemainder(l, remainder)
    ensures !Solvent(Next(l, InsertRemainder(remainder)))
  {
    SweepTakesAll(l);
    assert remainder > 0;
    AppendSums(l.trans, Intent(RemainderRefund, 0, remainder));
  }

  /** The insertion of a remainder row never rechecks the Spot: it keeps the Spot
      solvent exactly when no sweep is active. */
  lemma RemainderInsertExact(l: Ledger, es: seq<Event>, remainder: nat)
    requires Regular(l, es) && CanInsertRemainder(Run(l, es), remainder)
    ensures Solvent(Next(Run(l, es), InsertRemainder(remainder))) <==> !HasActive(Run(l, es).trans, PlatFee)
  {
    var s := Run(l, es);
    RunExact(l, es);
    if HasActive(s.trans, PlatFee) {
      SweptThenRefunded(s, remainder);
    } else {
      InsertRemainderCore(s, remainder);
      CoreIsSolvent(Next(s, InsertRemainder(remainder)));
    }
  }

  // ------------------------------------------------------------------
  // One funding wallet
  // ------------------------------------------------------------------

  /** Every confirmed deposit came from the Spot's one funding wallet. */
  ghost predicate OneFundingWallet(rows: Table) {
    forall i :: 0 <= i < |rows| && rows[i].kind == FillSpot && rows[i].status == TransConfirmed
                ==> rows[i].sender != "" && FundingWallet(rows) == Some(rows[i].sender)
  }

  lemma {:induction false} FundingWalletIsSender(rows: Table)
    ensures FundingWallet(rows) == None ==> forall i :: 0 <= i < |rows| ==> !IsFunding(rows[i])
    ensures FundingWallet(rows).Some? ==> exists i :: 0 <= i < |rows| && IsFunding(rows[i]) && rows[i].sender == FundingWallet(rows).value
  {
    if rows != [] {
      var init := rows[..|rows| - 1];
      FundingWalletIsSender(init);
      assert forall i :: 0 <= i < |init| ==> init[i] == rows[i];
    }
  }

  /** If all funding rows agree, the wallet is theirs. */
  lemma FundingWalletAgreed(rows: Table, w: string, i: nat)
    requires i < |rows| && IsFunding(rows[i])
    requires forall j :: 0 <= j < |rows| && IsFunding(rows[j]) ==> rows[j].sender == w
    ensures FundingWallet(rows) == Some(w)
  {
    FundingWalletIsSender(rows);
  }

  /** Funding rows change only when a pending deposit is decided. */
  lemma FundingRows(l: Ledger, e: Event, i: nat)
    requires OneFundingWallet(l.trans)
    requires i < |Next(l, e).trans| && Next(l, e).trans[i].kind == FillSpot && Next(l, e).trans[i].status == TransConfirmed
    ensures IsFunding(Next(l, e).trans[i])
    ensures FundingWallet(l.trans) in {None, Some(Next(l, e).trans[i].sender)}
  {
    if e.Confirm? {
    } else {
      assert i < |l.trans| && l.trans[i] == Next(l, e).trans[i];
    }
  }

  lemma FundingNext(l: Ledger, e: Event)
    requires OneFundingWallet(l.trans)
    ensures OneFundingWallet(Next(l, e).trans)
  {
    var rows := Next(l, e).trans;
    forall i | 0 <= i < |rows| && rows[i].kind == FillSpot && rows[i].status == TransConfirmed
      ensures rows[i].sender != "" && FundingWallet(rows) == Some(rows[i].sender)
    {
      FundingRows(l, e, i);
      forall j | 0 <= j < |rows| && IsFunding(rows[j]) ensures rows[j].sender == rows[i].sender {
        FundingRows(l, e, j);
        FundingPair(l, e, i, j);
      }
      FundingWalletAgreed(rows, rows[i].sender, i);
    }
  }

  lemma FundingPair(l: Ledger, e: Event, i: nat, j: nat)
    requires OneFundingWallet(l.trans) && i < |Next(l, e).trans| && j < |Next(l, e).trans|
    requires IsFunding(Next(l, e).trans[i]) && IsFunding(Next(l, e).trans[j])
    ensures Next(l, e).trans[i].sender == Next(l, e).trans[j].sender
  {
    FundingWalletIsSender(l.trans);
    FundingRows(l, e, i);
    FundingRows(l, e, j);
    assert i == j || (i < |l.trans| && l.trans[i] == Next(l, e).trans[i]) || (j < |l.trans| && l.trans[j] == Next(l, e).trans[j]);
  }

  lemma {:induction false} RunFunding(l: Ledger, es: seq<Event>)
    requires Created(l)
    ensures OneFundingWallet(Run(l, es).trans)
  {
    if es != [] {
      RunFunding(l, es[..|es| - 1]);
      FundingNext(Run(l, es[..|es| - 1]), es[|es| - 1]);
    }
  }
}
