/** Every event keeps the invariant of SpotSolvency, in ledgers of any length. */
module SpotPreservation {
  import opened Options
  import opened Sums
  import opened Tables
  import opened SpotLedger
  import opened SpotSolvency

  /** The interleaving the program does not exclude: a remainder send that passed its
      status check before a ban inserts its row while a sweep is active. */
  ghost predicate Races(l: Ledger, e: Event) {
    e.InsertRemainder? && CanInsertRemainder(l, e.remainder) && HasActive(l.trans, PlatFee)
  }

  // ------------------------------------------------------------------
  // Rows and sums
  // ------------------------------------------------------------------

  lemma AppendSums(rows: Table, t: Trans)
    ensures forall k :: Sum(rows + [t], Confirmed(k)) == Sum(rows, Confirmed(k)) + Confirmed(k)(t)
    ensures forall k :: Sum(rows + [t], Active(k)) == Sum(rows, Active(k)) + Active(k)(t)
    ensures forall k :: Sum(rows + [t], ActiveCount(k)) == Sum(rows, ActiveCount(k)) + ActiveCount(k)(t)
  {
    forall k
      ensures Sum(rows + [t], Confirmed(k)) == Sum(rows, Confirmed(k)) + Confirmed(k)(t)
      ensures Sum(rows + [t], Active(k)) == Sum(rows, Active(k)) + Active(k)(t)
      ensures Sum(rows + [t], ActiveCount(k)) == Sum(rows, ActiveCount(k)) + ActiveCount(k)(t)
    {
      SumAppend(rows, t, Confirmed(k));
      SumAppend(rows, t, Active(k));
      SumAppend(rows, t, ActiveCount(k));
    }
  }

  lemma UpdateSums(rows: Table, i: nat, t: Trans)
    requires i < |rows|
    ensures forall k :: Sum(rows[i := t], Confirmed(k)) == Sum(rows, Confirmed(k)) - Confirmed(k)(rows[i]) + Confirmed(k)(t)
    ensures forall k :: Sum(rows[i := t], Active(k)) == Sum(rows, Active(k)) - Active(k)(rows[i]) + Active(k)(t)
    ensures forall k :: Sum(rows[i := t], ActiveCount(k)) == Sum(rows, ActiveCount(k)) - ActiveCount(k)(rows[i]) + ActiveCount(k)(t)
  {
    forall k
      ensures Sum(rows[i := t], Confirmed(k)) == Sum(rows, Confirmed(k)) - Confirmed(k)(rows[i]) + Confirmed(k)(t)
      ensures Sum(rows[i := t], Active(k)) == Sum(rows, Active(k)) - Active(k)(rows[i]) + Active(k)(t)
      ensures Sum(rows[i := t], ActiveCount(k)) == Sum(rows, ActiveCount(k)) - ActiveCount(k)(rows[i]) + ActiveCount(k)(t)
    {
      SumUpdate(rows, i, t, Confirmed(k));
      SumUpdate(rows, i, t, Active(k));
      SumUpdate(rows, i, t, ActiveCount(k));
    }
  }

  /** A new last row leaves every shorter prefix as it was. */
  lemma AppendPrefix(rows: Table, t: Trans)
    requires PrefixSolvent(rows)
    requires t.kind == FillSpot || Sum(rows, Outgoing()) + t.amount <= Sum(rows, Confirmed(FillSpot))
    ensures PrefixSolvent(rows + [t])
  {
    var after := rows + [t];
    forall k | 0 <= k <= |after| ensures Sum(after[..k], Outgoing()) <= Sum(after[..k], Confirmed(FillSpot)) {
      if k <= |rows| {
        assert after[..k] == rows[..k];
      } else {
        assert after[..k] == after && rows[..|rows|] == rows;
        SumAppend(rows, t, Outgoing());
        SumAppend(rows, t, Confirmed(FillSpot));
      }
    }
  }

  /** Deciding a row never takes money out of a prefix. */
  lemma RestampPrefixSums(rows: Table, i: nat, t: Trans, k: nat)
    requires i < |rows| && k <= |rows| && rows[i].status == TransPending
    requires t.kind == rows[i].kind && t.status != TransPending && (t.kind != FillSpot ==> t.amount == rows[i].amount)
    ensures Sum(rows[i := t][..k], Outgoing()) <= Sum(rows[..k], Outgoing())
    ensures Sum(rows[i := t][..k], Confirmed(FillSpot)) >= Sum(rows[..k], Confirmed(FillSpot))
  {
    if k <= i {
      assert rows[i := t][..k] == rows[..k];
    } else {
      assert rows[i := t][..k] == rows[..k][i := t];
      SumUpdate(rows[..k], i, t, Outgoing());
      SumUpdate(rows[..k], i, t, Confirmed(FillSpot));
    }
  }

  lemma AppendUnique(rows: Table, t: Trans)
    requires UniquePayouts(rows)
    requires t.kind == ClaimPayout && t.status != TransFailed ==> !HasActivePayout(rows, t.claimId)
    ensures UniquePayouts(rows + [t])
  {
    var after := rows + [t];
    forall i, j | 0 <= i < j < |after| && after[i].kind == ClaimPayout && after[i].status != TransFailed
                  && after[j].kind == ClaimPayout && after[j].status != TransFailed
      ensures after[i].claimId != after[j].claimId
    {
      assert after[i] == rows[i];
    }
  }

  // ------------------------------------------------------------------
  // Claims
  // ------------------------------------------------------------------

  lemma SuccessesInsert(claims: map<int, ClaimStatus>, c: int)
    ensures c in claims && claims[c] == ClaimSuccess ==> Successes(claims[c := ClaimSuccess]) == Successes(claims)
    ensures c !in Successes(claims) ==> |Successes(claims[c := ClaimSuccess])| == |Successes(claims)| + 1
    ensures c !in Successes(claims) ==> Successes(claims[c := ClaimFailed]) == Successes(claims)
    ensures c !in Successes(claims) ==> Successes(claims[c := ClaimPending]) == Successes(claims)
  {
    if c !in Successes(claims) {
      assert Successes(claims[c := ClaimSuccess]) == Successes(claims) + {c};
      assert Successes(claims[c := ClaimFailed]) == Successes(claims);
      assert Successes(claims[c := ClaimPending]) == Successes(claims);
    } else {
      assert Successes(claims[c := ClaimSuccess]) == Successes(claims);
    }
  }

  lemma ClaimsCore(l: Ledger, claims: map<int, ClaimStatus>)
    requires Core(l) && l.spot.status == Published
    requires |Successes(claims)| <= l.spot.maxClaims
    requires forall c :: c in l.claims ==> c in claims && (l.claims[c] == ClaimSuccess ==> claims[c] == ClaimSuccess)
    ensures Core(l.(claims := claims))
  {
    var after := l.(claims := claims);
    forall i | 0 <= i < |after.trans| ensures RowOk(after, after.trans[i]) {
      assert RowOk(l, l.trans[i]);
    }
    forall j | j in after.payoutJobs ensures j.claim in claims && claims[j.claim] == ClaimSuccess {
      assert j.claim in l.claims;
    }
  }

  lemma OpenClaimCore(l: Ledger, c: int, eligible: bool)
    requires Core(l)
    ensures Core(Next(l, OpenClaim(c, eligible)))
  {
    if CanOpenClaim(l, c, eligible) {
      SuccessesInsert(l.claims, c);
      ClaimsCore(l, Next(l, OpenClaim(c, eligible)).claims);
    }
  }

  lemma ResolveClaimCore(l: Ledger, c: int)
    requires Core(l)
    ensures Core(Next(l, ResolveClaim(c))) && Core(Next(l, DropClaim(c)))
  {
    if c in l.claims && l.claims[c] == ClaimPending {
      assert c in Pendings(l.claims);
      SuccessesInsert(l.claims, c);
      var after := Promoted(l, c);
      if |Successes(l.claims)| < l.spot.maxClaims {
        assert Successes(after) == Successes(l.claims[c := ClaimSuccess]);
      }
      ClaimsCore(l, after);
      ClaimsCore(l, l.claims[c := ClaimFailed]);
    }
  }

  // ------------------------------------------------------------------
  // Draft events
  // ------------------------------------------------------------------

  lemma EditDraftCore(l: Ledger, total: nat, maxClaims: nat, duration: nat)
    requires Core(l)
    ensures Core(Next(l, EditDraft(total, maxClaims, duration)))
  {
    var after := Next(l, EditDraft(total, maxClaims, duration));
    if CanEditDraft(l, total, maxClaims) {
      assert Successes(after.claims) == {};
      forall i | 0 <= i < |after.trans| ensures RowOk(after, after.trans[i]) {
        assert RowOk(l, l.trans[i]);
      }
    }
  }

  lemma PublishCore(l: Ledger, complete: bool)
    requires Core(l)
    ensures Core(Next(l, Publish(complete)))
  {
    var after := Next(l, Publish(complete));
    if CanPublish(l, complete) {
      forall i | 0 <= i < |after.trans| ensures RowOk(after, after.trans[i]) {
        assert RowOk(l, l.trans[i]);
      }
    }
  }

  // ------------------------------------------------------------------
  // Appending a row
  // ------------------------------------------------------------------

  /** The row fits behind the rows there are. */
  ghost predicate Follows(l: Ledger, t: Trans) {
    match t.kind
    case FillSpot => l.spot.status == Draft && !HasPending(l.trans, FillSpot)
    case CreationFee => !Late(l) && !HasActive(l.trans, CreationFee) && Deposits(l) > l.spot.creationFee
    case ClaimPayout => !Late(l) && !HasActivePayout(l.trans, t.claimId)
    case _ => Closed(l)
  }

  lemma AppendOrder(l: Ledger, t: Trans)
    requires RowsOk(l) && RowOrder(l) && Follows(l, t) && (Late(l) ==> Closed(l))
    ensures RowOrder(Append(l, t))
  {
    if t.kind == FillSpot {
      AppendDeposit(l, t);
    }
    AppendFee(l, t);
  }

  /** A Draft only has deposits and fees. */
  lemma AppendDeposit(l: Ledger, t: Trans)
    requires RowsOk(l) && l.spot.status == Draft && !Late(l)
    ensures forall i :: 0 <= i < |l.trans| ==> Append(l, t).trans[i].kind in {FillSpot, CreationFee}
  {
    forall i | 0 <= i < |l.trans| ensures Append(l, t).trans[i].kind in {FillSpot, CreationFee} {
      assert RowOk(l, l.trans[i]) && Append(l, t).trans[i] == l.trans[i];
    }
  }

  lemma AppendFee(l: Ledger, t: Trans)
    requires RowOrder(l) && (t.kind == CreationFee ==> Deposits(l) > l.spot.creationFee)
    ensures var rows := Append(l, t).trans;
            forall j :: 0 <= j < |rows| && rows[j].kind == CreationFee ==> Sum(rows[..j], Confirmed(FillSpot)) > l.spot.creationFee
  {
    var rows := Append(l, t).trans;
    forall j | 0 <= j < |rows| && rows[j].kind == CreationFee ensures Sum(rows[..j], Confirmed(FillSpot)) > l.spot.creationFee {
      if j < |l.trans| {
        assert rows[..j] == l.trans[..j];
      } else {
        assert rows[..j] == l.trans;
      }
    }
  }

  lemma AppendClosed(l: Ledger, t: Trans)
    requires Closed(l)
    ensures Closed(Append(l, t))
  {
    var after := Append(l, t);
    assert forall i :: 0 <= i < |l.trans| ==> after.trans[i] == l.trans[i];
    if l.spot.status == Completed {
      forall c | c in after.claims && after.claims[c] == ClaimSuccess ensures HasConfirmedPayout(after.trans, c) {
        ConfirmedStays(l.trans, after.trans, c);
      }
      if HasConfirmed(l.trans, CreationFee) {
        var i :| 0 <= i < |l.trans| && l.trans[i].kind == CreationFee && l.trans[i].status == TransConfirmed;
        assert after.trans[i] == l.trans[i];
      }
    }
  }

  lemma ConfirmedStays(rows: Table, after: Table, c: int)
    requires HasConfirmedPayout(rows, c) && |rows| <= |after|
    requires forall i :: 0 <= i < |rows| && rows[i].status == TransConfirmed ==> after[i] == rows[i]
    ensures HasConfirmedPayout(after, c)
  {
    var i :| 0 <= i < |rows| && rows[i].kind == ClaimPayout && rows[i].claimId == c && rows[i].status == TransConfirmed;
    assert after[i] == rows[i];
  }

  lemma AppendRows(l: Ledger, t: Trans)
    requires RowsOk(l) && RowOk(l, t)
    ensures RowsOk(Append(l, t))
  {
    var after := Append(l, t);
    forall i | 0 <= i < |after.trans| ensures RowOk(after, after.trans[i]) {
      if i < |l.trans| {
        assert RowOk(l, l.trans[i]);
      }
    }
  }

  lemma AppendLate(l: Ledger, t: Trans)
    requires Late(l) ==> Closed(l)
    requires t.kind in {RemainderRefund, PlatFee} ==> Closed(l)
    ensures Late(Append(l, t)) ==> Closed(Append(l, t))
    ensures Late(Append(l, t)) ==> Late(l) || t.kind in {RemainderRefund, PlatFee}
  {
    var after := Append(l, t);
    if Late(l) || t.kind in {RemainderRefund, PlatFee} {
      AppendClosed(l, t);
    } else {
      assert !Late(after) by {
        assert forall i :: 0 <= i < |l.trans| ==> after.trans[i] == l.trans[i];
      }
    }
  }

  lemma AppendCovered(l: Ledger, t: Trans)
    requires JobsCovered(l) && t.status == TransPending
    requires t.kind in {ClaimPayout, CreationFee} ==> !Late(l)
    ensures JobsCovered(Append(l, t))
  {
    AppendSums(l.trans, t);
  }

  lemma AppendIndexes(l: Ledger, t: Trans)
    requires IndexesOk(l)
    requires t.kind == CreationFee ==> !HasActive(l.trans, CreationFee)
    requires t.kind == ClaimPayout ==> !HasActivePayout(l.trans, t.claimId)
    ensures IndexesOk(Append(l, t))
  {
    SumAppend(l.trans, t, ActiveCount(CreationFee));
    AppendUnique(l.trans, t);
    CountPositive(l.trans, CreationFee);
  }

  lemma AppendFunded(l: Ledger, t: Trans)
    requires Funded(l)
    ensures Funded(Append(l, t))
  {
    SumAppend(l.trans, t, Confirmed(FillSpot));
  }

  lemma AppendCore(l: Ledger, t: Trans)
    requires Core(l) && RowOk(l, t) && t.status == TransPending && Follows(l, t)
    requires t.kind == FillSpot || Sum(l.trans, Outgoing()) + t.amount <= Deposits(l)
    ensures Core(Append(l, t))
  {
    AppendRows(l, t);
    AppendIndexes(l, t);
    AppendFunded(l, t);
    AppendCovered(l, t);
    AppendPrefix(l.trans, t);
    AppendOrder(l, t);
    AppendLate(l, t);
  }

  lemma RecordDepositCore(l: Ledger, amount: int, account: string)
    requires Core(l)
    ensures Core(Next(l, RecordDeposit(amount, account)))
  {
    if CanRecordDeposit(l, amount, account) {
      var t := Trans(FillSpot, 0, DepositAmount(l, amount), account, TransPending);
      DepositFollows(l, amount, account);
      AppendCore(l, t);
      SameTables(Append(l, t), Next(l, RecordDeposit(amount, account)));
    }
  }

  lemma DepositFollows(l: Ledger, amount: int, account: string)
    requires RowsOk(l) && CanRecordDeposit(l, amount, account)
    ensures DepositAmount(l, amount) > 0 && !HasPending(l.trans, FillSpot)
  {
    forall i | 0 <= i < |l.trans| && l.trans[i].kind == FillSpot ensures l.trans[i].amount > 0 {
      assert RowOk(l, l.trans[i]);
    }
    NothingPending(l.trans);
  }

  /** Equal totals leave no positive row pending. */
  lemma {:induction false} NothingPending(rows: Table)
    requires Sum(rows, Active(FillSpot)) == Sum(rows, Confirmed(FillSpot))
    requires forall i :: 0 <= i < |rows| && rows[i].kind == FillSpot ==> rows[i].amount > 0
    ensures !HasPending(rows, FillSpot)
  {
    if rows != [] {
      var n := |rows| - 1;
      SumLe(rows[..n], Confirmed(FillSpot), Active(FillSpot));
      NothingPending(rows[..n]);
      assert forall i :: 0 <= i < n ==> rows[..n][i] == rows[i];
    }
  }

  lemma SubmitCreationFeeCore(l: Ledger)
    requires Core(l)
    ensures Core(Next(l, SubmitCreationFee))
  {
    if CanSubmitCreationFee(l) {
      assert HasConfirmed(l.trans, CreationFee) ==> HasActive(l.trans, CreationFee);
      EarlyOutgoing(l);
      FeeBound(l.trans, l.spot.creationFee);
      if l.spot.status == Draft {
        SumZero(l.trans, Active(ClaimPayout));
      } else {
        RewardsFitPool(l);
      }
      AppendCore(l, Intent(CreationFee, 0, l.spot.creationFee));
    }
  }

  lemma PaidNotInserted(l: Ledger, c: int)
    requires Core(l) && l.spot.status != Banned && c in l.claims && l.claims[c] == ClaimSuccess
    ensures Late(l) ==> HasActivePayout(l.trans, c)
  {
    assert HasConfirmedPayout(l.trans, c) ==> HasActivePayout(l.trans, c);
  }

  /** One more reward still fits in the pool. */
  lemma OneMoreReward(l: Ledger, t: Trans)
    requires Core(l) && t.kind == ClaimPayout && t.status == TransPending && RowOk(l, t) && !HasActivePayout(l.trans, t.claimId)
    ensures Sum(l.trans, Active(ClaimPayout)) + t.amount <= l.spot.totalValue
  {
    AppendRows(l, t);
    AppendUnique(l.trans, t);
    SumAppend(l.trans, t, Active(ClaimPayout));
    RewardsFitPool(Append(l, t));
  }

  lemma InsertPayoutCore(l: Ledger, c: int, reward: nat)
    requires Core(l)
    ensures Core(Next(l, InsertPayout(c, reward)))
  {
    if CanInsertPayout(l, c, reward) {
      assert l.claims[PayoutJob(c, reward).claim] == ClaimSuccess;
      PaidNotInserted(l, c);
      EarlyOutgoing(l);
      FeeBound(l.trans, l.spot.creationFee);
      OneMoreReward(l, Intent(ClaimPayout, c, reward));
      AppendCore(l, Intent(ClaimPayout, c, reward));
    }
  }

  lemma InsertRemainderCore(l: Ledger, remainder: nat)
    requires Core(l) && !Races(l, InsertRemainder(remainder))
    ensures Core(Next(l, InsertRemainder(remainder)))
  {
    if CanInsertRemainder(l, remainder) {
      OutgoingIsCommitted(l.trans);
      NoneActive(l.trans, RemainderRefund);
      NoneActive(l.trans, PlatFee);
      AppendCore(l, Intent(RemainderRefund, 0, remainder));
    }
  }

  lemma NoneActive(rows: Table, k: TransType)
    ensures !HasActive(rows, k) ==> Sum(rows, Active(k)) == 0
  {
    if !HasActive(rows, k) {
      SumZero(rows, Active(k));
    }
  }

  // ------------------------------------------------------------------
  // Reading the newest rows only
  // ------------------------------------------------------------------

  /** The rows the settlement queries no longer return. */
  function Dropped(rows: Table): Table {
    if |rows| <= MAX_LIMIT then [] else rows[..|rows| - MAX_LIMIT]
  }

  lemma SplitRecent(rows: Table, w: Weight)
    ensures Dropped(rows) + Recent(rows) == rows
    ensures Sum(rows, w) == Sum(Dropped(rows), w) + Sum(Recent(rows), w)
  {
    if |rows| > MAX_LIMIT {
      SumSplit(rows, |rows| - MAX_LIMIT, w);
    }
  }

  lemma DroppedIsSolvent(rows: Table)
    requires PrefixSolvent(rows)
    ensures Sum(Dropped(rows), Outgoing()) <= Sum(Dropped(rows), Confirmed(FillSpot))
  {
    assert Dropped(rows) == rows[..|Dropped(rows)|];
  }

  /** A sweep of what the newest rows leave never takes more than there is. */
  lemma SweepFits(l: Ledger, remaining: nat)
    requires Core(l) && CanInsertSweep(l, remaining)
    ensures Sum(l.trans, Outgoing()) + remaining <= Deposits(l)
  {
    DroppedIsSolvent(l.trans);
    SplitRecent(l.trans, Outgoing());
    SplitRecent(l.trans, Confirmed(FillSpot));
    AllDecided(Recent(l.trans));
  }

  lemma AllDecided(rows: Table)
    requires !AnyPending(rows)
    ensures Sum(rows, Outgoing()) == Sum(rows, ConfirmedOutgoing())
  {
    SumEq(rows, Outgoing(), ConfirmedOutgoing());
  }

  lemma InsertSweepCore(l: Ledger, remaining: nat)
    requires Core(l)
    ensures Core(Next(l, InsertSweep(remaining)))
  {
    if CanInsertSweep(l, remaining) {
      SweepFits(l, remaining);
      AppendCore(l, Intent(PlatFee, 0, remaining));
    }
  }

  /** A remainder of the newest rows leaves room for all rewards and the fee. */
  lemma RemainderFits(l: Ledger, ended: bool)
    requires Core(l) && CanSettle(l, ended) && Remainder(Recent(l.trans)) > 0
    ensures Remainder(Recent(l.trans)) + Sum(l.trans, Active(ClaimPayout)) + Sum(l.trans, Active(CreationFee)) <= Deposits(l)
  {
    var recent := Recent(l.trans);
    DroppedIsSolvent(l.trans);
    OutgoingIsCommitted(Dropped(l.trans));
    SplitRecent(l.trans, Active(ClaimPayout));
    SplitRecent(l.trans, Active(CreationFee));
    SplitRecent(l.trans, Confirmed(FillSpot));
    ConfirmedIsActive(recent, ClaimPayout);
    ConfirmedIsActive(recent, CreationFee);
  }

  // ------------------------------------------------------------------
  // Jobs
  // ------------------------------------------------------------------

  /** A retry pays what the first attempt paid. */
  lemma PreparePayoutCore(l: Ledger, c: int)
    requires Core(l)
    ensures Core(Next(l, PreparePayout(c)))
    ensures CanPreparePayout(l, c) ==> PayoutAmount(l, c) == Reward(l.spot)
  {
    if CanPreparePayout(l, c) {
      LatestFailedAmount(l.trans, c, Reward(l.spot));
      SameTables(l, Next(l, PreparePayout(c)));
    }
  }

  /** Jobs and the creator's account may change beside the tables. */
  lemma SameTables(l: Ledger, after: Ledger)
    requires Core(l) && after.trans == l.trans && after.spot == l.spot && after.claims == l.claims
    requires PayoutJobsOk(after) && JobsCovered(after) && (Late(after) ==> Closed(l))
    ensures Core(after)
  {
    forall i | 0 <= i < |after.trans| ensures RowOk(after, after.trans[i]) {
      assert RowOk(l, l.trans[i]);
    }
  }

  lemma CheckRemainderCore(l: Ledger, remainder: nat)
    requires Core(l)
    ensures Core(Next(l, CheckRemainder(remainder)))
  {
    var after := Next(l, CheckRemainder(remainder));
    if after != l {
      assert remainder in l.prepared && Late(l);
      SameTables(l, after);
    }
  }

  // ------------------------------------------------------------------
  // Deciding a row
  // ------------------------------------------------------------------

  lemma RestampUnique(rows: Table, i: nat, t: Trans)
    requires UniquePayouts(rows) && i < |rows| && rows[i].status == TransPending
    requires t.kind == rows[i].kind && t.claimId == rows[i].claimId
    ensures UniquePayouts(rows[i := t])
  {
    var after := rows[i := t];
    forall a, b | 0 <= a < b < |after| && after[a].kind == ClaimPayout && after[a].status != TransFailed
                  && after[b].kind == ClaimPayout && after[b].status != TransFailed
      ensures after[a].claimId != after[b].claimId
    {
      assert rows[a].kind == ClaimPayout && rows[a].status != TransFailed && rows[a].claimId == after[a].claimId;
      assert rows[b].kind == ClaimPayout && rows[b].status != TransFailed && rows[b].claimId == after[b].claimId;
    }
  }

  lemma RestampPrefix(rows: Table, i: nat, t: Trans)
    requires PrefixSolvent(rows) && i < |rows| && rows[i].status == TransPending
    requires t.kind == rows[i].kind && t.status != TransPending && (t.kind != FillSpot ==> t.amount == rows[i].amount)
    ensures PrefixSolvent(rows[i := t])
  {
    var after := rows[i := t];
    forall k | 0 <= k <= |after| ensures Sum(after[..k], Outgoing()) <= Sum(after[..k], Confirmed(FillSpot)) {
      RestampPrefixSums(rows, i, t, k);
    }
  }

  lemma RestampOrder(l: Ledger, i: nat, t: Trans)
    requires RowOrder(l) && i < |l.trans| && l.trans[i].status == TransPending
    requires t.kind == l.trans[i].kind && t.status != TransPending && (t.kind != FillSpot ==> t.amount == l.trans[i].amount)
    ensures RowOrder(Restamp(l, i, t))
  {
    var after := Restamp(l, i, t);
    assert forall j :: 0 <= j < |l.trans| ==> after.trans[j].kind == l.trans[j].kind;
    forall j | 0 <= j < |l.trans| && after.trans[j].kind == CreationFee
      ensures Sum(after.trans[..j], Confirmed(FillSpot)) > l.spot.creationFee
    {
      RestampPrefixSums(l.trans, i, t, j);
    }
  }

  lemma RestampClosed(l: Ledger, i: nat, t: Trans)
    requires Closed(l) && i < |l.trans| && l.trans[i].status == TransPending
    ensures Closed(Restamp(l, i, t))
  {
    var after := Restamp(l, i, t);
    if l.spot.status == Completed {
      forall c | c in after.claims && after.claims[c] == ClaimSuccess ensures HasConfirmedPayout(after.trans, c) {
        ConfirmedStays(l.trans, after.trans, c);
      }
      if HasConfirmed(l.trans, CreationFee) {
        var j :| 0 <= j < |l.trans| && l.trans[j].kind == CreationFee && l.trans[j].status == TransConfirmed;
        assert after.trans[j] == l.trans[j];
      }
    }
  }

  /** The chain decides a pending row; a confirmed outgoing row keeps its amount. */
  lemma RestampCore(l: Ledger, i: nat, t: Trans)
    requires Core(l) && i < |l.trans| && l.trans[i].status == TransPending
    requires t.kind == l.trans[i].kind && t.claimId == l.trans[i].claimId && t.status != TransPending
    requires if t.kind == FillSpot then t.amount > 0 else t.amount == l.trans[i].amount
    ensures Core(Restamp(l, i, t))
  {
    var after := Restamp(l, i, t);
    UpdateSums(l.trans, i, t);
    RestampUnique(l.trans, i, t);
    RestampOrder(l, i, t);
    RestampPrefix(l.trans, i, t);
    RestampRows(l, i, t);
    RestampLate(l, i, t);
  }

  lemma RestampRows(l: Ledger, i: nat, t: Trans)
    requires RowsOk(l) && i < |l.trans| && l.trans[i].status == TransPending
    requires t.kind == l.trans[i].kind && t.claimId == l.trans[i].claimId
    requires if t.kind == FillSpot then t.amount > 0 else t.amount == l.trans[i].amount
    ensures RowsOk(Restamp(l, i, t))
  {
    var after := Restamp(l, i, t);
    forall j | 0 <= j < |after.trans| ensures RowOk(after, after.trans[j]) {
      assert RowOk(l, l.trans[j]);
    }
  }

  lemma RestampLate(l: Ledger, i: nat, t: Trans)
    requires i < |l.trans| && l.trans[i].status == TransPending && t.kind == l.trans[i].kind
    requires Late(l) ==> Closed(l)
    ensures Late(Restamp(l, i, t)) ==> Late(l) && Closed(Restamp(l, i, t))
  {
    var after := Restamp(l, i, t);
    if Late(after) {
      assert forall j :: 0 <= j < |l.trans| ==> after.trans[j].kind == l.trans[j].kind;
      RestampClosed(l, i, t);
    }
  }

  lemma ChainCore(l: Ledger, i: nat, sender: string, amount: nat)
    requires Core(l)
    ensures Core(Next(l, Confirm(i, sender, amount))) && Core(Next(l, Fail(i)))
  {
    if i < |l.trans| && l.trans[i].status == TransPending {
      assert RowOk(l, l.trans[i]);
      RestampCore(l, i, l.trans[i].(status := TransFailed));
      if Verifies(l.trans[i], sender, amount) {
        RestampCore(l, i, ConfirmedRow(l.trans, i, sender, amount));
      }
    }
  }

  // ------------------------------------------------------------------
  // Completion and ban
  // ------------------------------------------------------------------

  /** What the settlement pass has checked when it completes the Spot. */
  lemma SettleCloses(l: Ledger, ended: bool)
    requires CanSettle(l, ended)
    ensures Closed(l.(spot := l.spot.(status := Completed)))
  {
    if l.spot.creationFee > 0 {
      if !HasConfirmed(Recent(l.trans), CreationFee) {
        SumZero(Recent(l.trans), Confirmed(CreationFee));
      }
      SplitRecent(l.trans, Confirmed(CreationFee));
      var i :| 0 <= i < |Recent(l.trans)| && Recent(l.trans)[i].kind == CreationFee && Recent(l.trans)[i].status == TransConfirmed;
      assert l.trans[|Dropped(l.trans)| + i] == Recent(l.trans)[i];
    }
  }

  lemma CompleteCore(l: Ledger, ended: bool)
    requires Core(l) && CanSettle(l, ended)
    ensures Core(l.(spot := l.spot.(status := Completed)))
  {
    var after := l.(spot := l.spot.(status := Completed));
    SettleCloses(l, ended);
    forall i | 0 <= i < |after.trans| ensures RowOk(after, after.trans[i]) {
      assert RowOk(l, l.trans[i]);
    }
  }

  lemma PrepareRemainderCore(l: Ledger, ended: bool)
    requires Core(l)
    ensures Core(Next(l, PrepareRemainder(ended)))
  {
    if CanSettle(l, ended) {
      var done := l.(spot := l.spot.(status := Completed));
      var remainder := Remainder(Recent(l.trans));
      CompleteCore(l, ended);
      SettleCloses(l, ended);
      if remainder == 0 {
        JobsCore(done, l.prepared, true);
      } else {
        RemainderFits(l, ended);
        JobsCore(done, l.prepared + {remainder}, l.settled);
      }
    }
  }

  /** Recording a covered remainder as a job changes nothing else. */
  lemma JobsCore(l: Ledger, prepared: set<nat>, settled: bool)
    requires Core(l) && Closed(l)
    requires forall a :: a in prepared ==>
                           a in l.prepared || a + Sum(l.trans, Active(ClaimPayout)) + Sum(l.trans, Active(CreationFee)) <= Deposits(l)
    ensures Core(l.(prepared := prepared, settled := settled))
  {
    SameTables(l, l.(prepared := prepared, settled := settled));
  }

  lemma PaidAreSuccesses(l: Ledger)
    requires RowsOk(l)
    ensures forall c :: HasActivePayout(l.trans, c) ==> c in l.claims && l.claims[c] == ClaimSuccess
  {
    forall c | HasActivePayout(l.trans, c) ensures c in l.claims && l.claims[c] == ClaimSuccess {
      var i :| 0 <= i < |l.trans| && l.trans[i].kind == ClaimPayout && l.trans[i].claimId == c && l.trans[i].status != TransFailed;
      assert RowOk(l, l.trans[i]);
    }
  }

  lemma BanRows(l: Ledger)
    requires Core(l)
    ensures RowsOk(Next(l, Ban))
  {
    var after := Next(l, Ban);
    forall i | 0 <= i < |after.trans| ensures RowOk(after, after.trans[i]) {
      assert RowOk(l, l.trans[i]);
      if l.trans[i].kind == ClaimPayout && l.trans[i].status != TransFailed {
        assert HasActivePayout(l.trans, l.trans[i].claimId);
      }
    }
  }

  lemma BanCore(l: Ledger)
    requires Core(l)
    ensures Core(Next(l, Ban))
  {
    var after := Next(l, Ban);
    PaidAreSuccesses(l);
    BanRows(l);
    SubsetSize(Successes(after.claims), Successes(l.claims));
    assert Pendings(after.claims) == {};
  }

  // ------------------------------------------------------------------
  // Any event
  // ------------------------------------------------------------------

  lemma NextCore(l: Ledger, e: Event)
    requires Core(l) && !Races(l, e)
    ensures Core(Next(l, e))
  {
    match e
    case EditDraft(total, maxClaims, duration) => EditDraftCore(l, total, maxClaims, duration);
    case RecordDeposit(amount, account) => RecordDepositCore(l, amount, account);
    case SubmitCreationFee => SubmitCreationFeeCore(l);
    case Publish(complete) => PublishCore(l, complete);
    case OpenClaim(c, eligible) => OpenClaimCore(l, c, eligible);
    case ResolveClaim(c) => ResolveClaimCore(l, c);
    case DropClaim(c) => ResolveClaimCore(l, c);
    case PreparePayout(c) => PreparePayoutCore(l, c);
    case InsertPayout(c, reward) => InsertPayoutCore(l, c, reward);
    case Confirm(i, sender, amount) => ChainCore(l, i, sender, amount);
    case Fail(i) => ChainCore(l, i, "", 0);
    case PrepareRemainder(ended) => PrepareRemainderCore(l, ended);
    case CheckRemainder(remainder) => CheckRemainderCore(l, remainder);
    case InsertRemainder(remainder) => InsertRemainderCore(l, remainder);
    case Ban => BanCore(l);
    case InsertSweep(remaining) => InsertSweepCore(l, remaining);
  }
}
