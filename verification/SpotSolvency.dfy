/** What every run of the Spot ledger keeps, whatever its length: solvency of every prefix of the rows. */
module SpotSolvency {
  import opened Sums
  import opened Tables
  import opened SpotLedger

  // ------------------------------------------------------------------
  // The properties
  // ------------------------------------------------------------------

  /** Everything that has left the deposit account, or may still leave it. */
  function Committed(l: Ledger): nat {
    Sum(l.trans, Active(ClaimPayout)) + Sum(l.trans, Active(CreationFee))
    + Sum(l.trans, Active(RemainderRefund)) + Sum(l.trans, Active(PlatFee))
  }

  ghost predicate Solvent(l: Ledger) { Committed(l) <= Deposits(l) }

  // ------------------------------------------------------------------
  // The invariant
  // ------------------------------------------------------------------

  /** Amount of an outgoing row of any type that is not known to have failed. */
  function Outgoing(): Weight {
    (t: Trans) => if t.kind != FillSpot && t.status != TransFailed then t.amount else 0
  }

  ghost predicate RowOk(l: Ledger, t: Trans) {
    match t.kind
    case FillSpot => t.amount > 0
    case CreationFee => t.amount == l.spot.creationFee > 0
    case ClaimPayout =>
      && l.spot.status != Draft
      && t.claimId in l.claims
      && t.amount == Reward(l.spot)
      && (t.status != TransFailed ==> l.claims[t.claimId] == ClaimSuccess)
    case RemainderRefund => true
    case PlatFee => l.spot.status == Banned
  }

  ghost predicate RowsOk(l: Ledger) {
    forall i :: 0 <= i < |l.trans| ==> RowOk(l, l.trans[i])
  }

  /** The partial unique indexes for rewards and fee. */
  ghost predicate IndexesOk(l: Ledger) {
    UniquePayouts(l.trans) && Sum(l.trans, ActiveCount(CreationFee)) <= 1
  }

  ghost predicate ClaimsOk(l: Ledger) {
    && (l.spot.status == Draft ==> l.claims == map[])
    && |Successes(l.claims)| <= l.spot.maxClaims
    && (l.spot.status in {Completed, Banned} ==> Pendings(l.claims) == {})
  }

  ghost predicate PayoutJobsOk(l: Ledger) {
    forall j :: j in l.payoutJobs ==>
                  && j.claim in l.claims
                  && j.reward == Reward(l.spot)
                  && (l.claims[j.claim] == ClaimSuccess || (l.claims[j.claim] == ClaimFailed && l.spot.status == Banned))
  }

  ghost predicate Funded(l: Ledger) {
    && l.spot.totalValue >= MIN_SPOT_TOTAL_VALUE
    && (l.spot.status in {Published, Completed} ==> Deposits(l) >= Required(l.spot) && l.spot.maxClaims > 0)
  }

  /** A remainder or a sweep has been computed. */
  ghost predicate Late(l: Ledger) {
    || l.prepared != {}
    || l.sending != {}
    || exists i :: 0 <= i < |l.trans| && l.trans[i].kind in {RemainderRefund, PlatFee}
  }

  /** No reward and no fee can be inserted any more. */
  ghost predicate Closed(l: Ledger) {
    match l.spot.status
    case Banned => true
    case Completed => AllPaid(l.claims, l.trans) && (l.spot.creationFee > 0 ==> HasConfirmed(l.trans, CreationFee))
    case _ => false
  }

  /** What a computed remainder would take is still there beside all rewards and the fee. */
  ghost predicate JobsCovered(l: Ledger) {
    forall a :: a in l.prepared || a in l.sending ==>
                  a + Sum(l.trans, Active(ClaimPayout)) + Sum(l.trans, Active(CreationFee)) <= Deposits(l)
  }

  /** However many of the oldest rows are taken, what they pay out they also paid in. */
  ghost predicate PrefixSolvent(rows: Table) {
    forall k :: 0 <= k <= |rows| ==> Sum(rows[..k], Outgoing()) <= Sum(rows[..k], Confirmed(FillSpot))
  }

  /** Rows in the order they can be inserted: a deposit is only recorded once the one before is
      decided, a fee once it is covered, and everything else after the last deposit. */
  ghost predicate RowOrder(l: Ledger) {
    && (forall i, j :: 0 <= i < j < |l.trans| && l.trans[j].kind == FillSpot ==> l.trans[i].kind in {FillSpot, CreationFee})
    && (forall i, j :: 0 <= i < j < |l.trans| && l.trans[i].kind == l.trans[j].kind == FillSpot ==> l.trans[i].status != TransPending)
    && (forall j :: 0 <= j < |l.trans| && l.trans[j].kind == CreationFee ==> Sum(l.trans[..j], Confirmed(FillSpot)) > l.spot.creationFee)
  }

  ghost predicate Core(l: Ledger) {
    && RowsOk(l) && IndexesOk(l) && ClaimsOk(l) && PayoutJobsOk(l) && Funded(l)
    && (Late(l) ==> Closed(l)) && JobsCovered(l) && PrefixSolvent(l.trans) && RowOrder(l)
  }

  // ------------------------------------------------------------------
  // From the invariant to solvency
  // ------------------------------------------------------------------

  /** Capacity, uniqueness and integer division together: rewards fit in the pool. */
  lemma RewardsFitPool(l: Ledger)
    requires RowsOk(l) && UniquePayouts(l.trans) && ClaimsOk(l)
    ensures Sum(l.trans, Active(ClaimPayout)) <= l.spot.totalValue
  {
    var n := Sum(l.trans, ActiveCount(ClaimPayout));
    PayoutRowsAreClaims(l.trans);
    SubsetSize(PaidClaims(l.trans), Successes(l.claims));
    EqualRewards(l.trans, Reward(l.spot));
    if l.spot.maxClaims > 0 {
      ShareBound(l.spot.totalValue, l.spot.maxClaims, n);
    }
  }

  lemma ShareBound(pool: nat, max: nat, n: nat)
    requires 0 < max && n <= max
    ensures (pool / max) * n <= pool
  {
    var q := pool / max;
    assert q * max <= pool;
    assert q * n <= q * max;
  }

  lemma {:induction false} FeeBound(rows: Table, fee: nat)
    requires forall i :: 0 <= i < |rows| && rows[i].kind == CreationFee ==> rows[i].amount == fee
    requires Sum(rows, ActiveCount(CreationFee)) <= 1
    ensures Sum(rows, Active(CreationFee)) <= fee
    ensures !HasActive(rows, CreationFee) ==> Sum(rows, Active(CreationFee)) == 0
  {
    CountTimes(rows, CreationFee, fee);
    CountPositive(rows, CreationFee);
  }

  /** Rows of one type that all carry one amount. */
  lemma {:induction false} CountTimes(rows: Table, k: TransType, a: nat)
    requires forall i :: 0 <= i < |rows| && rows[i].kind == k ==> rows[i].amount == a
    ensures Sum(rows, Active(k)) == a * Sum(rows, ActiveCount(k))
  {
    if rows != [] {
      var init := rows[..|rows| - 1];
      CountTimes(init, k, a);
      var s, d := Sum(init, ActiveCount(k)), ActiveCount(k)(rows[|rows| - 1]);
      assert a * (s + d) == a * s + a * d;
    }
  }

  lemma ConfirmedIsActive(rows: Table, k: TransType)
    ensures Sum(rows, Confirmed(k)) <= Sum(rows, Active(k))
    ensures !HasPending(rows, k) ==> Sum(rows, Confirmed(k)) == Sum(rows, Active(k))
  {
    SumLe(rows, Confirmed(k), Active(k));
    if !HasPending(rows, k) {
      SumEq(rows, Confirmed(k), Active(k));
    }
  }

  /** Live outgoing money, by type. */
  lemma {:induction false} OutgoingIsCommitted(rows: Table)
    ensures Sum(rows, Outgoing()) == Sum(rows, Active(ClaimPayout)) + Sum(rows, Active(CreationFee))
                                     + Sum(rows, Active(RemainderRefund)) + Sum(rows, Active(PlatFee))
  {
    if rows != [] {
      OutgoingIsCommitted(rows[..|rows| - 1]);
    }
  }

  lemma CoreIsSolvent(l: Ledger)
    requires Core(l)
    ensures Solvent(l)
  {
    assert l.trans[..|l.trans|] == l.trans;
    OutgoingIsCommitted(l.trans);
  }

  /** Before a remainder or sweep is computed, all that is under way is rewards and fee. */
  lemma EarlyOutgoing(l: Ledger)
    requires !Late(l)
    ensures Sum(l.trans, Outgoing()) == Sum(l.trans, Active(ClaimPayout)) + Sum(l.trans, Active(CreationFee))
  {
    OutgoingIsCommitted(l.trans);
    SumZero(l.trans, Active(RemainderRefund));
    SumZero(l.trans, Active(PlatFee));
  }
}
