/** Rows and sums shared by the modules that reason about the TRANSACTION table. */
module Tables {
  import opened Sums

  datatype ClaimStatus = ClaimPending | ClaimSuccess | ClaimFailed

  datatype TransType = FillSpot | RemainderRefund | ClaimPayout | PlatFee | CreationFee

  datatype TransStatus = TransPending | TransConfirmed | TransFailed

  /** One TRANSACTION row. Rows are numbered by their position: ids only grow and
      rows are never deleted. `claimId` is meaningful for ClaimPayout rows only. */
  datatype Trans = Trans(kind: TransType, claimId: int, amount: nat, sender: string, status: TransStatus)

  type Table = seq<Trans>

  /** What a row contributes to a total. */
  type Weight = Trans -> nat

  /** Amount of a confirmed row of one type. */
  function Confirmed(k: TransType): Weight {
    (t: Trans) => if t.kind == k && t.status == TransConfirmed then t.amount else 0
  }

  /** Amount of a row of one type that is not known to have failed. */
  function Active(k: TransType): Weight {
    (t: Trans) => if t.kind == k && t.status != TransFailed then t.amount else 0
  }

  /** Counts the rows a partial unique index covers. */
  function ActiveCount(k: TransType): Weight {
    (t: Trans) => if t.kind == k && t.status != TransFailed then 1 else 0
  }

  function ConfirmedOutgoing(): Weight {
    (t: Trans) => if t.kind != FillSpot && t.status == TransConfirmed then t.amount else 0
  }

  predicate HasActive(rows: Table, k: TransType) {
    exists i :: 0 <= i < |rows| && rows[i].kind == k && rows[i].status != TransFailed
  }

  predicate HasConfirmed(rows: Table, k: TransType) {
    exists i :: 0 <= i < |rows| && rows[i].kind == k && rows[i].status == TransConfirmed
  }

  predicate HasPending(rows: Table, k: TransType) {
    exists i :: 0 <= i < |rows| && rows[i].kind == k && rows[i].status == TransPending
  }

  predicate HasActivePayout(rows: Table, c: int) {
    exists i :: 0 <= i < |rows| && rows[i].kind == ClaimPayout && rows[i].claimId == c && rows[i].status != TransFailed
  }

  predicate HasConfirmedPayout(rows: Table, c: int) {
    exists i :: 0 <= i < |rows| && rows[i].kind == ClaimPayout && rows[i].claimId == c && rows[i].status == TransConfirmed
  }

  function Successes(claims: map<int, ClaimStatus>): (s: set<int>) {
    set c | c in claims && claims[c] == ClaimSuccess
  }

  function Pendings(claims: map<int, ClaimStatus>): (s: set<int>) {
    set c | c in claims && claims[c] == ClaimPending
  }

  lemma {:induction false} CountPositive(rows: Table, k: TransType)
    ensures Sum(rows, ActiveCount(k)) == 0 <==> !HasActive(rows, k)
  {
    if HasActive(rows, k) {
      var i :| 0 <= i < |rows| && rows[i].kind == k && rows[i].status != TransFailed;
      SumElement(rows, i, ActiveCount(k));
    } else {
      SumZero(rows, ActiveCount(k));
    }
  }

  // ------------------------------------------------------------------
  // Payouts: rows, claims and the reward
  // ------------------------------------------------------------------

  /** idx_trans_claim_active_payout_unique: at most one active payout per claim. */
  ghost predicate UniquePayouts(rows: Table) {
    forall i, j :: 0 <= i < j < |rows|
                   && rows[i].kind == ClaimPayout && rows[i].status != TransFailed
                   && rows[j].kind == ClaimPayout && rows[j].status != TransFailed
                   ==> rows[i].claimId != rows[j].claimId
  }

  function PaidClaims(rows: Table): (s: set<int>)
    ensures forall c :: c in s <==> HasActivePayout(rows, c)
  {
    set i | 0 <= i < |rows| && rows[i].kind == ClaimPayout && rows[i].status != TransFailed :: rows[i].claimId
  }

  lemma PaidStep(rows: Table)
    requires rows != []
    ensures var init, last := rows[..|rows| - 1], rows[|rows| - 1];
            PaidClaims(rows) == PaidClaims(init) +
              (if last.kind == ClaimPayout && last.status != TransFailed then {last.claimId} else {})
  {
    var n := |rows| - 1;
    var init := rows[..n];
    forall c ensures HasActivePayout(rows, c) <==>
                     HasActivePayout(init, c) || (rows[n].kind == ClaimPayout && rows[n].claimId == c && rows[n].status != TransFailed)
    {
      forall i | 0 <= i < n ensures init[i] == rows[i] {}
    }
  }

  /** Under the unique index, active payout rows and paid claims are equally many. */
  lemma {:induction false} PayoutRowsAreClaims(rows: Table)
    requires UniquePayouts(rows)
    ensures Sum(rows, ActiveCount(ClaimPayout)) == |PaidClaims(rows)|
  {
    if rows == [] {
      assert PaidClaims(rows) == {};
    } else {
      var n := |rows| - 1;
      PayoutRowsAreClaims(rows[..n]);
      PaidStep(rows);
      if rows[n].kind == ClaimPayout && rows[n].status != TransFailed {
        assert !HasActivePayout(rows[..n], rows[n].claimId);
      }
    }
  }

  /** Under the unique index, active payouts add up claim by claim. */
  lemma {:induction false} PayoutsByClaim(rows: Table, f: int -> nat)
    requires UniquePayouts(rows)
    requires forall i :: 0 <= i < |rows| && rows[i].kind == ClaimPayout ==> rows[i].amount == f(rows[i].claimId)
    ensures Sum(rows, Active(ClaimPayout)) == SumSet(PaidClaims(rows), f)
  {
    if rows == [] {
      assert PaidClaims(rows) == {};
    } else {
      var n := |rows| - 1;
      var paid := PaidClaims(rows[..n]);
      PayoutsByClaim(rows[..n], f);
      if rows[n].kind == ClaimPayout && rows[n].status != TransFailed {
        FreshPayout(rows);
        SumSetInsert(paid, rows[n].claimId, f);
      } else {
        PaidStep(rows);
        assert PaidClaims(rows) == paid;
      }
    }
  }

  lemma FreshPayout(rows: Table)
    requires UniquePayouts(rows) && rows != []
    requires rows[|rows| - 1].kind == ClaimPayout && rows[|rows| - 1].status != TransFailed
    ensures rows[|rows| - 1].claimId !in PaidClaims(rows[..|rows| - 1])
    ensures PaidClaims(rows) == PaidClaims(rows[..|rows| - 1]) + {rows[|rows| - 1].claimId}
  {
    PaidStep(rows);
    assert !HasActivePayout(rows[..|rows| - 1], rows[|rows| - 1].claimId);
  }

  /** Equal rewards: the active payout total is the reward times the row count. */
  lemma {:induction false} EqualRewards(rows: Table, reward: nat)
    requires forall i :: 0 <= i < |rows| && rows[i].kind == ClaimPayout ==> rows[i].amount == reward
    ensures Sum(rows, Active(ClaimPayout)) == reward * Sum(rows, ActiveCount(ClaimPayout))
  {
    if rows != [] {
      var n := |rows| - 1;
      EqualRewards(rows[..n], reward);
      var s := Sum(rows[..n], ActiveCount(ClaimPayout));
      var d := ActiveCount(ClaimPayout)(rows[n]);
      assert Active(ClaimPayout)(rows[n]) == reward * d;
      assert reward * (s + d) == reward * s + reward * d;
    }
  }

  /** `latest_failed_claim_payout_amount` */
  function LatestFailedPayout(rows: Table, c: int): nat
  {
    if rows == [] then 0
    else
      var t := rows[|rows| - 1];
      if t.kind == ClaimPayout && t.claimId == c && t.status == TransFailed then t.amount
      else LatestFailedPayout(rows[..|rows| - 1], c)
  }

  /** If every attempt for a claim carried one amount, so does the latest failed one. */
  lemma {:induction false} LatestFailedAmount(rows: Table, c: int, amount: nat)
    requires forall i :: 0 <= i < |rows| && rows[i].kind == ClaimPayout && rows[i].claimId == c ==> rows[i].amount == amount
    ensures LatestFailedPayout(rows, c) in {0, amount}
  {
    if rows != [] {
      LatestFailedAmount(rows[..|rows| - 1], c, amount);
    }
  }
}
