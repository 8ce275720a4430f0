/** The Spot, claim and transaction rows as the program updates them, one method a transaction.
    Each method performs one event of SpotLedger, so the results of SpotTheorems hold of it. */
module SpotStore {
  import opened Options
  import opened Sums
  import opened Tables
  import opened SpotLedger

  /** The sums the settlement and moderation passes take over the rows they fetched. */
  method Total(rows: Table, k: TransType, status: TransStatus) returns (total: nat)
    ensures status == TransConfirmed ==> total == Sum(rows, Confirmed(k))
    ensures status == TransPending ==> total == Sum(rows, Active(k)) - Sum(rows, Confirmed(k))
  {
    total := 0;
    for i := 0 to |rows|
      invariant status == TransConfirmed ==> total == Sum(rows[..i], Confirmed(k))
      invariant status == TransPending ==> total == Sum(rows[..i], Active(k)) - Sum(rows[..i], Confirmed(k))
    {
      assert rows[..i + 1][..i] == rows[..i];
      if rows[i].kind == k && rows[i].status == status {
        total := total + rows[i].amount;
      }
    }
    assert rows[..|rows|] == rows;
  }

  method OutgoingTotal(rows: Table) returns (total: nat)
    ensures total == Sum(rows, ConfirmedOutgoing())
  {
    total := 0;
    for i := 0 to |rows|
      invariant total == Sum(rows[..i], ConfirmedOutgoing())
    {
      assert rows[..i + 1][..i] == rows[..i];
      if rows[i].kind != FillSpot && rows[i].status == TransConfirmed {
        total := total + rows[i].amount;
      }
    }
    assert rows[..|rows|] == rows;
  }

  /** `has_confirmed_spot_creation_fee_transaction`, for a fee that is charged */
  method FindConfirmedFee(rows: Table, fee: nat) returns (found: bool)
    ensures found <==> exists i :: 0 <= i < |rows| && rows[i].kind == CreationFee && rows[i].status == TransConfirmed
                                   && rows[i].amount == fee
  {
    found := false;
    for i := 0 to |rows|
      invariant !found
      invariant forall j :: 0 <= j < i ==> !(rows[j].kind == CreationFee && rows[j].status == TransConfirmed && rows[j].amount == fee)
    {
      if rows[i].kind == CreationFee && rows[i].status == TransConfirmed && rows[i].amount == fee {
        return true;
      }
    }
  }

  class Store {
    var spot: Spot
    var claims: map<int, ClaimStatus>
    var trans: Table
    var returnAddress: Option<string>
    var settled: bool
    ghost var payoutJobs: set<PayoutJob>
    ghost var prepared: set<nat>
    ghost var sending: set<nat>

    ghost function State(): Ledger
      reads this
    {
      Ledger(spot, claims, trans, returnAddress, payoutJobs, prepared, sending, settled)
    }

    /** A draft just created, with its creation fee already fixed. */
    constructor (creationFee: nat)
      ensures Created(State()) && spot == Spot(Draft, MIN_SPOT_TOTAL_VALUE, 1, creationFee, 0) && !settled
    {
      spot := Spot(Draft, MIN_SPOT_TOTAL_VALUE, 1, creationFee, 0);
      claims, trans, returnAddress, settled := map[], [], None, false;
      payoutJobs, prepared, sending := {}, {}, {};
    }

    /** `modify_draft_spot`, for the fields the money depends on */
    method EditDraft(total: nat, maxClaims: nat, duration: nat) returns (ok: bool)
      modifies this`spot
      ensures State() == Next(old(State()), SpotLedger.EditDraft(total, maxClaims, duration))
      ensures ok <==> CanEditDraft(old(State()), total, maxClaims)
    {
      ok := false;
      if spot.status != Draft || maxClaims < 1 || total < MIN_SPOT_TOTAL_VALUE {
        return;
      }
      if total != spot.totalValue && HasActive(trans, FillSpot) {
        return;
      }
      spot := spot.(totalValue := total, maxClaims := maxClaims, duration := duration);
      ok := true;
    }

    /** `record_spot_deposit_transaction`, as the return-address module installs it */
    method RecordDeposit(amount: int, account: string) returns (ok: bool)
      modifies this
      ensures State() == Next(old(State()), SpotLedger.RecordDeposit(amount, account))
      ensures ok <==> CanRecordDeposit(old(State()), amount, account)
    {
      ok := false;
      if amount <= 0 || spot.status != Draft {
        return;
      }
      if returnAddress.Some? {
        if returnAddress.value != account {
          return;
        }
      } else if FundingWallet(trans).Some? {
        return;
      }
      var pendingAmount := Total(trans, FillSpot, TransPending);
      if pendingAmount > 0 {
        return;
      }
      var confirmedAmount := Total(trans, FillSpot, TransConfirmed);
      var due := Monus(Required(spot), confirmedAmount);
      if due <= 0 {
        return;
      }
      trans := trans + [Trans(FillSpot, 0, if amount < due then amount else due, account, TransPending)];
      if returnAddress.None? {
        returnAddress := Some(account);
      }
      ok := true;
    }

    /** `create_spot_creation_fee_transaction`, as the fee worker extends it */
    method SubmitCreationFee() returns (ok: bool)
      modifies this`trans
      ensures State() == Next(old(State()), SpotLedger.SubmitCreationFee)
      ensures ok <==> CanSubmitCreationFee(old(State()))
    {
      ok := false;
      if spot.status == Banned || spot.creationFee <= 0 {
        return;
      }
      var confirmed := Total(trans, FillSpot, TransConfirmed);
      if confirmed < Required(spot) || HasActive(trans, CreationFee) {
        return;
      }
      trans := trans + [Intent(CreationFee, 0, spot.creationFee)];
      ok := true;
    }

    /** `publish_spot` after `can_publish_spot_after_fee_broadcast` */
    method Publish(complete: bool) returns (ok: bool)
      modifies this`spot
      ensures State() == Next(old(State()), SpotLedger.Publish(complete))
      ensures ok <==> CanPublish(old(State()), complete)
    {
      ok := false;
      if !complete || spot.status != Draft || spot.totalValue <= 0 || spot.maxClaims < 1 {
        return;
      }
      if spot.totalValue < MIN_STANDARD_CLAIM_PAYOUT * spot.maxClaims {
        return;
      }
      var confirmed := Total(trans, FillSpot, TransConfirmed);
      if confirmed < Required(spot) {
        return;
      }
      if spot.creationFee > 0 {
        var paid := FindConfirmedFee(trans, spot.creationFee);
        if !paid {
          return;
        }
      }
      spot := spot.(status := Published);
      ok := true;
    }

    /** `promote_pending_claim_to_success_if_capacity_available` with its capacity clean-up */
    method ResolveClaim(c: int)
      modifies this`claims
      ensures State() == Next(old(State()), SpotLedger.ResolveClaim(c))
    {
      if c !in claims || claims[c] != ClaimPending {
        return;
      }
      var successes := |Successes(claims)|;
      if successes >= spot.maxClaims {
        claims := claims[c := ClaimFailed];
        return;
      }
      claims := claims[c := ClaimSuccess];
      successes := |Successes(claims)|;
      if spot.duration > 0 && successes >= spot.maxClaims {
        claims := map d | d in claims :: if claims[d] == ClaimPending then ClaimFailed else claims[d];
      }
    }

    /** `payout_standard_claim_if_ready`, up to the send: the amount, or 0 for nothing to send */
    method PreparePayout(c: int) returns (amount: nat)
      modifies this`payoutJobs
      ensures State() == Next(old(State()), SpotLedger.PreparePayout(c))
      ensures amount > 0 <==> CanPreparePayout(old(State()), c)
      ensures amount > 0 ==> PayoutJob(c, amount) in payoutJobs
    {
      amount := 0;
      if c !in claims || claims[c] != ClaimSuccess || HasActivePayout(trans, c) {
        return;
      }
      amount := LatestFailedPayout(trans, c);
      if amount == 0 {
        amount := Reward(spot);
      }
      if amount > 0 {
        payoutJobs := payoutJobs + {PayoutJob(c, amount)};
      }
    }

    /** `create_claim_transaction` behind the moderation gate */
    method InsertPayout(c: int, amount: nat) returns (ok: bool)
      requires PayoutJob(c, amount) in payoutJobs
      modifies this`trans
      ensures State() == Next(old(State()), SpotLedger.InsertPayout(c, amount))
      ensures ok <==> CanInsertPayout(old(State()), c, amount)
    {
      ok := false;
      if c !in claims || spot.status == Banned || HasActivePayout(trans, c) {
        return;
      }
      trans := trans + [Intent(ClaimPayout, c, amount)];
      ok := true;
    }

    /** `mark_trans_as_confirmed`: the chain reported the row, with these details */
    method MarkConfirmed(i: nat, sender: string, amount: nat)
      modifies this`trans
      ensures State() == Next(old(State()), Confirm(i, sender, amount))
    {
      if i >= |trans| || trans[i].status != TransPending || !Verifies(trans[i], sender, amount) {
        return;
      }
      var row := trans[i];
      if row.kind == FillSpot {
        var wallet := FundingWallet(trans);
        row := row.(sender := sender, amount := amount);
        if wallet.Some? && wallet.value != sender {
          trans := trans[i := row.(status := TransFailed)];
          return;
        }
      }
      trans := trans[i := row.(status := TransConfirmed)];
    }

    /** `mark_trans_as_failed` */
    method MarkFailed(i: nat)
      modifies this`trans
      ensures State() == Next(old(State()), Fail(i))
    {
      if i < |trans| && trans[i].status == TransPending {
        trans := trans[i := trans[i].(status := TransFailed)];
      }
    }

    /** The checks `settle_spot_remainder_if_ready` makes before it completes the Spot. */
    method ReadyToSettle(ended: bool) returns (ready: bool)
      ensures ready <==> CanSettle(State(), ended)
    {
      ready := false;
      if spot.status == Banned || Pendings(claims) != {} {
        return;
      }
      if spot.status == Published {
        var successes := |Successes(claims)|;
        if !ended && !(spot.maxClaims > 0 && successes >= spot.maxClaims) {
          return;
        }
      } else if spot.status != Completed {
        return;
      }
      if !AllPaid(claims, trans) || BlockingPending(Recent(trans)) {
        return;
      }
      var fees := Total(Recent(trans), CreationFee, TransConfirmed);
      ready := fees >= spot.creationFee;
    }

    /** `remainder_amount` before its clamp at zero. */
    method Unspent(rows: Table) returns (unspent: int)
      ensures Remainder(rows) == if unspent > 0 then unspent else 0
    {
      var deposits := Total(rows, FillSpot, TransConfirmed);
      var rewards := Total(rows, ClaimPayout, TransConfirmed);
      var fees := Total(rows, CreationFee, TransConfirmed);
      var refunds := Total(rows, RemainderRefund, TransConfirmed);
      unspent := deposits as int - rewards as int - fees as int - refunds as int;
    }

    /** The locked part of `settle_spot_remainder_if_ready`: the amount to send, or 0 */
    method PrepareRemainder(ended: bool) returns (amount: nat)
      modifies this
      ensures State() == Next(old(State()), SpotLedger.PrepareRemainder(ended))
      ensures amount > 0 ==> CanSettle(old(State()), ended) && amount == Remainder(Recent(trans)) && amount in prepared
      ensures amount == 0 ==> prepared == old(prepared)
    {
      amount := 0;
      var ready := ReadyToSettle(ended);
      if !ready {
        return;
      }
      var unspent := Unspent(Recent(trans));
      spot := spot.(status := Completed);
      if unspent <= 0 {
        settled := true;
      } else if HasRefundSource(Recent(trans)) {
        amount := unspent;
        prepared := prepared + {amount};
      }
    }

    /** `submit_spot_remainder_refund_transaction`: the status check before the send */
    method CheckRemainder(amount: nat) returns (ok: bool)
      requires amount in prepared
      modifies this`sending
      ensures State() == Next(old(State()), SpotLedger.CheckRemainder(amount))
      ensures ok <==> spot.status == Completed
      ensures ok ==> amount in sending
    {
      ok := spot.status == Completed;
      if ok {
        sending := sending + {amount};
      }
    }

    /** `create_spot_remainder_refund_transaction` */
    method InsertRemainder(amount: nat) returns (ok: bool)
      requires amount in sending
      modifies this`trans
      ensures State() == Next(old(State()), SpotLedger.InsertRemainder(amount))
      ensures ok <==> CanInsertRemainder(old(State()), amount)
    {
      ok := !HasActive(trans, RemainderRefund);
      if ok {
        trans := trans + [Intent(RemainderRefund, 0, amount)];
      }
    }

    /** The locked part of `ban_spot` */
    method Ban()
      modifies this
      ensures State() == Next(old(State()), SpotLedger.Ban)
    {
      spot := spot.(status := Banned);
      claims := map c | c in claims ::
        if claims[c] != ClaimFailed && !HasActivePayout(trans, c) then ClaimFailed else claims[c];
    }

    /** `attempt_banned_spot_sweep` with `_create_ban_sweep_transaction`: the swept amount, or 0 */
    method InsertSweep() returns (amount: nat)
      modifies this`trans
      ensures State() == Next(old(State()), SpotLedger.InsertSweep(Remaining(Recent(old(trans)))))
      ensures amount == if CanInsertSweep(old(State()), Remaining(Recent(old(trans)))) then Remaining(Recent(old(trans))) else 0
    {
      amount := 0;
      if spot.status != Banned {
        return;
      }
      var rows := Recent(trans);
      if AnyPending(rows) {
        return;
      }
      var deposits := Total(rows, FillSpot, TransConfirmed);
      var outgoing := OutgoingTotal(rows);
      var remaining := Monus(deposits, outgoing);
      if remaining <= 0 || HasActive(trans, PlatFee) {
        return;
      }
      trans := trans + [Intent(PlatFee, 0, remaining)];
      amount := remaining;
    }
  }
}
