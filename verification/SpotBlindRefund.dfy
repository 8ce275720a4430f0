/** A run of any draft in which the deposit drops out of the newest rows and the remainder is lost. */
module SpotBlindRefund {
  import opened Options
  import opened Sums
  import opened Tables
  import opened SpotLedger
  import opened SpotSolvency
  import opened SpotPreservation
  import opened SpotExactness
  import opened SpotFunding

  /** Half the value: the reward of a Spot with two places. */
  const REWARD: nat := POOL / 2

  const FAILED := Trans(ClaimPayout, 1, REWARD, DEPOSIT_ACCOUNT, TransFailed)
  const PAID := FAILED.(status := TransConfirmed)

  function Failed(n: nat): Table { seq(n, _ => FAILED) }

  /** Then the claim's payout is prepared, and n times it is lost and prepared again; `base` rows are older. */
  function Attempts(es: seq<Event>, base: nat, n: nat): seq<Event>
  {
    if n == 0 then es + [PreparePayout(1)]
    else Attempts(es, base, n - 1) + [InsertPayout(1, REWARD)] + [Fail(base + (n - 1))] + [PreparePayout(1)]
  }

  /** One claim is paid at last, when as many rows are newer than the deposit as the queries return. */
  function BlindRun(fee: nat): seq<Event> {
    var base := |Paid(fee)|;
    Attempts(Opening(fee, 2) + [OpenClaim(1, true)], base, MAX_LIMIT - base)
    + [InsertPayout(1, REWARD)] + [Confirm(MAX_LIMIT, DEPOSIT_ACCOUNT, REWARD)] + [PrepareRemainder(true)]
  }

  /** The published Spot with one successful claim. */
  function Trying(l: Ledger, rows: Table, jobs: set<PayoutJob>): Ledger {
    Ledger(Spot(Published, POOL, 2, l.spot.creationFee, 0), map[1 := ClaimSuccess], rows, Some("w"), jobs, {}, {}, l.settled)
  }

  const JOB := PayoutJob(1, REWARD)

  lemma {:induction false} LatestOfFailed(rows: Table, n: nat)
    requires n > 0
    ensures LatestFailedPayout(rows + Failed(n), 1) == REWARD
  {
    assert (rows + Failed(n))[|rows| + n - 1] == FAILED;
  }

  lemma NothingActive(fee: nat, n: nat)
    ensures !HasActivePayout(Paid(fee) + Failed(n), 1)
    ensures LatestFailedPayout(Paid(fee) + Failed(n), 1) == if n == 0 then 0 else REWARD
  {
    if n > 0 {
      LatestOfFailed(Paid(fee), n);
    } else {
      assert Paid(fee) + Failed(0) == Paid(fee);
      NoneFailed(fee);
    }
  }

  lemma NoneFailed(fee: nat)
    ensures LatestFailedPayout(Paid(fee), 1) == 0
  {
    var rows := [Deposit(fee, TransConfirmed)];
    assert rows[..0] == [] && LatestFailedPayout(rows, 1) == 0;
    if fee > 0 {
      assert Paid(fee)[..1] == rows;
    }
  }

  const SENT := FAILED.(status := TransPending)

  /** n attempts have been lost. */
  function Lost(l: Ledger, n: nat, jobs: set<PayoutJob>): Ledger { Trying(l, Paid(l.spot.creationFee) + Failed(n), jobs) }

  /** One more is on its way. */
  function Sent(l: Ledger, n: nat): Ledger { Trying(l, Paid(l.spot.creationFee) + Failed(n) + [SENT], {JOB}) }

  /** Preparing the payout, and sending it. */
  lemma Sending(l: Ledger, n: nat, jobs: set<PayoutJob>)
    requires jobs <= {JOB}
    ensures Steps(Lost(l, n, jobs), PreparePayout(1), Lost(l, n, {JOB}))
    ensures Steps(Lost(l, n, {JOB}), InsertPayout(1, REWARD), Sent(l, n))
  {
    NothingActive(l.spot.creationFee, n);
    assert jobs + {JOB} == {JOB};
  }

  lemma Losing(l: Ledger, n: nat)
    ensures Steps(Sent(l, n), Fail(|Paid(l.spot.creationFee)| + n), Lost(l, n + 1, {JOB}))
  {
    var rows := Paid(l.spot.creationFee) + Failed(n);
    var sent := rows + [SENT];
    assert sent[|rows|] == SENT;
    assert sent[|rows| := FAILED] == Paid(l.spot.creationFee) + Failed(n + 1);
  }

  /** One more attempt is sent and lost, and the next one prepared. */
  lemma AttemptStep(l: Ledger, es: seq<Event>, n: nat)
    requires Reaches(l, es, Lost(l, n, {JOB}))
    ensures Reaches(l, es + [InsertPayout(1, REWARD)] + [Fail(|Paid(l.spot.creationFee)| + n)] + [PreparePayout(1)],
                    Lost(l, n + 1, {JOB}))
  {
    Sending(l, n, {JOB});
    Losing(l, n);
    Sending(l, n + 1, {JOB});
    Then(l, es, InsertPayout(1, REWARD), Lost(l, n, {JOB}), Sent(l, n));
    Then(l, es + [InsertPayout(1, REWARD)], Fail(|Paid(l.spot.creationFee)| + n), Sent(l, n), Lost(l, n + 1, {JOB}));
    Then(l, es + [InsertPayout(1, REWARD)] + [Fail(|Paid(l.spot.creationFee)| + n)], PreparePayout(1),
         Lost(l, n + 1, {JOB}), Lost(l, n + 1, {JOB}));
  }

  lemma OneMore(es: seq<Event>, base: nat, n: nat)
    ensures Attempts(es, base, n + 1) == Attempts(es, base, n) + [InsertPayout(1, REWARD)] + [Fail(base + n)] + [PreparePayout(1)]
  {
  }

  /** After n attempts the run is where it should be. */
  ghost predicate Tried(l: Ledger, es: seq<Event>, n: nat) {
    Reaches(l, Attempts(es, |Paid(l.spot.creationFee)|, n), Lost(l, n, {JOB}))
  }

  lemma TriedAgain(l: Ledger, es: seq<Event>, n: nat)
    requires Tried(l, es, n)
    ensures Tried(l, es, n + 1)
  {
    OneMore(es, |Paid(l.spot.creationFee)|, n);
    AttemptStep(l, Attempts(es, |Paid(l.spot.creationFee)|, n), n);
  }

  lemma {:induction false} AttemptsRun(l: Ledger, es: seq<Event>, n: nat)
    requires Tried(l, es, 0)
    ensures Tried(l, es, n)
  {
    if n > 0 {
      AttemptsRun(l, es, n - 1);
      TriedAgain(l, es, n - 1);
    }
  }

  // ------------------------------------------------------------------
  // The last attempt and the settlement
  // ------------------------------------------------------------------

  /** All rows once the claim is paid: one more than the queries return. */
  function Rows(fee: nat): Table { Paid(fee) + Failed(MAX_LIMIT - |Paid(fee)|) + [PAID] }

  lemma Paying(l: Ledger)
    ensures Steps(Sent(l, MAX_LIMIT - |Paid(l.spot.creationFee)|), Confirm(MAX_LIMIT, DEPOSIT_ACCOUNT, REWARD),
                  Trying(l, Rows(l.spot.creationFee), {JOB}))
  {
    var s := Sent(l, MAX_LIMIT - |Paid(l.spot.creationFee)|);
    assert s.trans[MAX_LIMIT] == SENT && s.trans[MAX_LIMIT := PAID] == Rows(l.spot.creationFee);
  }

  lemma {:induction false} FailedWeighNothing(rows: Table, n: nat)
    ensures forall k :: Sum(rows + Failed(n), Confirmed(k)) == Sum(rows, Confirmed(k))
  {
    if n == 0 {
      assert rows + Failed(0) == rows;
    } else {
      FailedWeighNothing(rows, n - 1);
      AppendSums(rows + Failed(n - 1), FAILED);
      assert rows + Failed(n - 1) + [FAILED] == rows + Failed(n);
    }
  }

  /** The confirmed rows after a deposit and perhaps a fee. */
  lemma RowsAddUp(head: Table, n: nat)
    ensures forall k :: Sum(head + Failed(n) + [PAID], Confirmed(k)) == Sum(head, Confirmed(k)) + if k == ClaimPayout then REWARD else 0
  {
    FailedWeighNothing(head, n);
    AppendSums(head + Failed(n), PAID);
  }

  lemma OneRow(t: Trans)
    ensures forall k :: Sum([t], Confirmed(k)) == Confirmed(k)(t)
  {
    AppendSums([], t);
    assert [] + [t] == [t];
  }

  lemma FeeOnly(fee: nat)
    ensures forall k :: Sum(Paid(fee)[1..], Confirmed(k)) == if k == CreationFee then fee else 0
  {
    var tail := Paid(fee)[1..];
    if fee == 0 {
      assert tail == [];
    } else {
      OneRow(Fee(fee, TransConfirmed));
      assert tail == [Fee(fee, TransConfirmed)];
    }
  }

  lemma RecentRows(fee: nat)
    ensures Recent(Rows(fee)) == Paid(fee)[1..] + Failed(MAX_LIMIT - |Paid(fee)|) + [PAID]
  {
    assert Rows(fee)[1..] == Paid(fee)[1..] + Failed(MAX_LIMIT - |Paid(fee)|) + [PAID];
  }

  lemma RowSums(fee: nat)
    ensures Remainder(Recent(Rows(fee))) == 0 && Sum(Recent(Rows(fee)), Confirmed(CreationFee)) == fee
    ensures Remainder(Rows(fee)) == REWARD
  {
    var n: nat := MAX_LIMIT - |Paid(fee)|;
    RecentRows(fee);
    FeeOnly(fee);
    RowsAddUp(Paid(fee)[1..], n);
    PaidSums(fee);
    RowsAddUp(Paid(fee), n);
  }

  /** Every claim is paid and every row decided. */
  lemma AllDone(fee: nat)
    ensures AllPaid(map[1 := ClaimSuccess], Rows(fee)) && !BlockingPending(Recent(Rows(fee)))
  {
    RecentRows(fee);
    assert Rows(fee)[MAX_LIMIT] == PAID;
    assert HasConfirmedPayout(Rows(fee), 1);
    assert forall i :: 0 <= i < |Recent(Rows(fee))| ==> Recent(Rows(fee))[i].status != TransPending;
  }

  lemma CanBeSettled(l: Ledger)
    ensures CanSettle(Trying(l, Rows(l.spot.creationFee), {JOB}), true)
  {
    AllDone(l.spot.creationFee);
    RowSums(l.spot.creationFee);
    assert Pendings(map[1 := ClaimSuccess]) == {};
  }

  /** The Spot once it is marked settled. */
  function Lossy(l: Ledger): Ledger {
    var s := Trying(l, Rows(l.spot.creationFee), {JOB});
    s.(spot := s.spot.(status := Completed), settled := true)
  }

  lemma Settling(l: Ledger)
    ensures Steps(Trying(l, Rows(l.spot.creationFee), {JOB}), PrepareRemainder(true), Lossy(l))
  {
    CanBeSettled(l);
    RowSums(l.spot.creationFee);
  }

  lemma Started(l: Ledger)
    requires Created(l)
    ensures Tried(l, Opening(l.spot.creationFee, 2) + [OpenClaim(1, true)], 0)
  {
    var es := Opening(l.spot.creationFee, 2);
    Opened(l, 2);
    Claiming(l);
    Sending(l, 0, {});
    Then(l, es, OpenClaim(1, true), Stage(l, 2, Published, Paid(l.spot.creationFee)), Lost(l, 0, {}));
    Then(l, es + [OpenClaim(1, true)], PreparePayout(1), Lost(l, 0, {}), Lost(l, 0, {JOB}));
  }

  lemma Claiming(l: Ledger)
    ensures Steps(Stage(l, 2, Published, Paid(l.spot.creationFee)), OpenClaim(1, true), Lost(l, 0, {}))
  {
    assert Successes(map[]) == {};
    assert Paid(l.spot.creationFee) + Failed(0) == Paid(l.spot.creationFee);
  }

  lemma LastAttempt(l: Ledger, es: seq<Event>)
    requires Reaches(l, es, Lost(l, MAX_LIMIT - |Paid(l.spot.creationFee)|, {JOB}))
    ensures Reaches(l, es + [InsertPayout(1, REWARD)] + [Confirm(MAX_LIMIT, DEPOSIT_ACCOUNT, REWARD)] + [PrepareRemainder(true)],
                    Lossy(l))
  {
    var n: nat := MAX_LIMIT - |Paid(l.spot.creationFee)|;
    Sending(l, n, {JOB});
    Paying(l);
    Settling(l);
    Then(l, es, InsertPayout(1, REWARD), Lost(l, n, {JOB}), Sent(l, n));
    Then(l, es + [InsertPayout(1, REWARD)], Confirm(MAX_LIMIT, DEPOSIT_ACCOUNT, REWARD),
         Sent(l, n), Trying(l, Rows(l.spot.creationFee), {JOB}));
    Then(l, es + [InsertPayout(1, REWARD)] + [Confirm(MAX_LIMIT, DEPOSIT_ACCOUNT, REWARD)], PrepareRemainder(true),
         Trying(l, Rows(l.spot.creationFee), {JOB}), Lossy(l));
  }

  lemma BlindRunEnds(l: Ledger)
    requires Created(l)
    ensures Reaches(l, BlindRun(l.spot.creationFee), Lossy(l))
  {
    var n: nat := MAX_LIMIT - |Paid(l.spot.creationFee)|;
    var es := Opening(l.spot.creationFee, 2) + [OpenClaim(1, true)];
    Started(l);
    AttemptsRun(l, es, n);
    LastAttempt(l, Attempts(es, |Paid(l.spot.creationFee)|, n));
  }

  /** From every draft, whatever its fee, there is a run in which the Spot is marked settled with
      nothing to refund although a whole reward is left: its deposit is older than the newest rows. */
  lemma RemainderIsLost(l: Ledger)
    requires Created(l)
    ensures var t := Run(l, BlindRun(l.spot.creationFee));
            && t.spot.status == Completed && t.settled && t.prepared == {}
            && DepositDropped(t.trans) && Remainder(Recent(t.trans)) == 0 && Remainder(t.trans) == REWARD > 0
  {
    BlindRunEnds(l);
    RowSums(l.spot.creationFee);
    assert Rows(l.spot.creationFee)[0] == Paid(l.spot.creationFee)[0];
  }
}
