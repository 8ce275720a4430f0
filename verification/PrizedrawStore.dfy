/** The settlement transactions of one Prizedraw, run in place over its rows. */
module PrizedrawStore {
  import opened Ordering
  import opened Tables
  import opened Prizedraw

  /** `_prize_amounts`: a list of equal shares whose first cell is then adjusted. */
  method AmountList(total: nat, prizeCount: int, winnerCount: int) returns (amounts: seq<nat>)
    ensures amounts == PrizeAmounts(total, if winnerCount > 0 then winnerCount else 0)
  {
    if winnerCount <= 0 {
      return [];
    }
    var base, remainder := total / winnerCount, total % winnerCount;
    amounts := seq(winnerCount, _ => base);
    amounts := amounts[0 := amounts[0] + remainder];
  }

  /** `_prize_amounts_by_claim_id`: duplicates and non-positive ids are dropped, the rest sorted and zipped. */
  method AmountsByClaim(total: nat, prizeCount: int, winnerIds: seq<int>) returns (byClaim: map<int, nat>)
    ensures byClaim == Allocation(total, set c | c in winnerIds && c > 0)
  {
    var winners := set c | c in winnerIds && c > 0;
    var ids := Ascending(winners);
    var amounts := AmountList(total, if prizeCount > 1 then prizeCount else 1, |ids|);
    byClaim := map[];
    for k := 0 to |ids|
      invariant byClaim == Zip(ids[..k], amounts[..k])
    {
      byClaim := byClaim[ids[k] := amounts[k]];
      assert ids[..k + 1][..k] == ids[..k] && amounts[..k + 1][..k] == amounts[..k];
    }
    assert ids[..|ids|] == ids && amounts[..|ids|] == amounts;
  }

  /** The part of a retry that concerns the first few pending winners. */
  ghost function ClaimsAfter(d: Draw, ids: seq<int>): map<int, ClaimStatus> {
    map c | c in d.claims :: if c in ids && HasConfirmedPayout(d.trans, c) then ClaimSuccess else d.claims[c]
  }

  ghost function JobsAfter(d: Draw, ids: seq<int>): set<Job> {
    set c | c in ids && !HasActivePayout(d.trans, c) && RetryAmount(d, c) > 0 :: Job(c, RetryAmount(d, c))
  }

  /** The failed amount again when there is one, or the rebuilt share. */
  function AmountToSend(rows: Table, byClaim: map<int, nat>, c: int): nat {
    var failed := LatestFailedPayout(rows, c);
    if failed > 0 then failed else if c in byClaim then byClaim[c] else 0
  }

  lemma RetryStep(d: Draw, ids: seq<int>, c: int, byClaim: map<int, nat>)
    requires c in d.claims && byClaim == Allocation(d.total, Winners(d))
    ensures ClaimsAfter(d, ids + [c]) ==
            if HasConfirmedPayout(d.trans, c) then ClaimsAfter(d, ids)[c := ClaimSuccess] else ClaimsAfter(d, ids)
    ensures HasConfirmedPayout(d.trans, c) ==> HasActivePayout(d.trans, c)
    ensures JobsAfter(d, ids + [c]) ==
            JobsAfter(d, ids) + (var amount := AmountToSend(d.trans, byClaim, c);
                                 if !HasActivePayout(d.trans, c) && amount > 0 then {Job(c, amount)} else {})
  {
    assert AmountToSend(d.trans, byClaim, c) == RetryAmount(d, c);
    assert forall x :: x in ids + [c] <==> x in ids || x == c;
  }

  lemma RetryWhole(d: Draw, ids: seq<int>)
    requires forall c :: c in ids <==> c in Pendings(d.claims)
    ensures ClaimsAfter(d, ids) == RetryClaims(d) && JobsAfter(d, ids) == RetryJobs(d)
  {
    assert forall c :: c in d.claims ==> (d.claims[c] == ClaimPending <==> c in ids);
  }

  ghost predicate PositiveIds(d: Draw) {
    && (forall c :: c in d.claims ==> c > 0)
    && forall i :: 0 <= i < |d.trans| ==> d.trans[i].claimId > 0
  }

  lemma WinnersArePositive(d: Draw)
    requires PositiveIds(d)
    ensures (set c | c in Ascending(Winners(d)) && c > 0) == Winners(d)
  {
    forall c | c in Winners(d) ensures c > 0 {
      assert c in Pendings(d.claims) || HasPayoutRow(d.trans, c);
    }
  }

  /** The transaction reads only the stored part of the state. */
  lemma OnlyStored(d: Draw, e: Draw)
    requires d.claims == e.claims && d.trans == e.trans
    ensures Winners(d) == Winners(e)
  {
  }

  ghost function Sent(send: seq<Job>): set<Job> {
    set j | j in send
  }

  lemma SendMore(send: seq<Job>, j: Job)
    ensures Sent(send + [j]) == Sent(send) + {j}
  {
    assert forall x :: x in send + [j] <==> x in send || x == j;
  }

  lemma NoPending(d: Draw)
    ensures Pendings(d.claims) == {} ==> RetryClaims(d) == d.claims && RetryJobs(d) == {}
  {
    assert forall c :: c in d.claims && d.claims[c] == ClaimPending ==> c in Pendings(d.claims);
  }

  class Store {
    var status: DrawStatus
    const total: nat
    const prizeCount: nat
    const maxEntries: nat
    var claims: map<int, ClaimStatus>
    var trans: Table
    ghost var jobs: set<Job>
    ghost var drawn: set<int>
    ghost var draws: nat

    ghost function State(): Draw
      reads this
    {
      Draw(status, total, prizeCount, maxEntries, claims, trans, jobs, drawn, draws)
    }

    constructor (total: nat, prizeCount: nat, maxEntries: nat)
      ensures Opened(State()) && State().total == total && State().prizeCount == prizeCount && State().maxEntries == maxEntries
    {
      status := Published;
      this.total, this.prizeCount, this.maxEntries := total, prizeCount, maxEntries;
      claims, trans := map[], [];
      jobs, drawn, draws := {}, {}, 0;
    }

    /** `settle_prizedraw_spot_if_ready`: the terminal decision, without the sends that follow it. */
    method Settle(ended: bool, eligible: set<int>, sample: set<int>) returns (settled: bool)
      requires IsEligible(State(), eligible) && sample <= eligible && |sample| == WinnerCount(State(), eligible)
      modifies this
      ensures State() == Next(old(State()), Event.Settle(ended, eligible, sample))
      ensures settled <==> CanSettle(old(State()), ended, eligible, sample)
    {
      if status != Published || !Ready(Draw(status, total, prizeCount, maxEntries, claims, trans, {}, {}, 0), ended) {
        return false;
      }
      // the winners are drawn among successes, so failing the pending entries first does not touch them
      claims := map c | c in claims :: if claims[c] == ClaimPending then ClaimFailed else claims[c];
      claims := map c | c in claims :: if c in sample && claims[c] == ClaimSuccess then ClaimPending else claims[c];
      assert claims == Settled(old(State()), sample).claims;
      drawn, draws := sample, draws + 1;
      status := Completed;
      return true;
    }

    /** Rebuilds the winners from the rows, and with them every winner's amount. */
    method RebuiltAmounts() returns (byClaim: map<int, nat>)
      requires PositiveIds(State())
      ensures byClaim == Allocation(total, Winners(State()))
    {
      var stored := Draw(status, total, prizeCount, maxEntries, claims, trans, {}, {}, 0);
      OnlyStored(stored, State());
      WinnersArePositive(stored);
      byClaim := AmountsByClaim(total, prizeCount, Ascending(Winners(stored)));
    }

    /** One pending winner: already paid, already under way, or to be sent its amount. */
    method PrepareRetry(ghost was: Draw, ghost done: seq<int>, c: int, byClaim: map<int, nat>, send: seq<Job>) returns (more: seq<Job>)
      requires byClaim == Allocation(was.total, Winners(was)) && trans == was.trans && c in was.claims
      requires claims == ClaimsAfter(was, done) && Sent(send) == JobsAfter(was, done)
      modifies `claims
      ensures claims == ClaimsAfter(was, done + [c])
      ensures Sent(more) == JobsAfter(was, done + [c])
    {
      more := send;
      RetryStep(was, done, c, byClaim);
      if HasConfirmedPayout(trans, c) {
        claims := claims[c := ClaimSuccess];
      } else if !HasActivePayout(trans, c) {
        var amount := AmountToSend(trans, byClaim, c);
        if amount > 0 {
          SendMore(send, Job(c, amount));
          more := send + [Job(c, amount)];
        }
      }
    }

    /** The retry's loop over the pending winners, in ascending order. */
    method PrepareRetries(pending: seq<int>, byClaim: map<int, nat>) returns (send: seq<Job>)
      requires byClaim == Allocation(total, Winners(State()))
      requires forall c :: c in pending ==> c in claims
      modifies `claims
      ensures claims == ClaimsAfter(old(State()), pending)
      ensures Sent(send) == JobsAfter(old(State()), pending)
    {
      send := [];
      ghost var was := State();
      for k := 0 to |pending|
        invariant claims == ClaimsAfter(was, pending[..k])
        invariant Sent(send) == JobsAfter(was, pending[..k])
      {
        send := PrepareRetry(was, pending[..k], pending[k], byClaim, send);
        assert pending[..k + 1] == pending[..k] + [pending[k]];
      }
      assert pending[..|pending|] == pending;
    }

    /** `retry_pending_prizedraw_payouts_for_spot`: what the retry decides to send, claim by claim. */
    method RetryPendingPayouts() returns (send: seq<Job>)
      requires PositiveIds(State())
      modifies `claims, `jobs
      ensures State() == Next(old(State()), Retry)
      ensures Sent(send) == if status == Completed then RetryJobs(old(State())) else {}
    {
      if status != Completed || Pendings(claims) == {} {
        NoPending(State());
        return [];
      }
      ghost var was := State();
      var byClaim := RebuiltAmounts();
      var pending := Ascending(Pendings(claims));
      send := PrepareRetries(pending, byClaim);
      RetryWhole(was, pending);
      jobs := jobs + Sent(send);
    }

    /** `create_claim_transaction` under the active-payout index. */
    method InsertPayout(claim: int, amount: nat) returns (inserted: bool)
      requires Job(claim, amount) in jobs && claim in claims
      modifies `trans
      ensures State() == Next(old(State()), Event.InsertPayout(Job(claim, amount)))
      ensures inserted <==> !HasActivePayout(old(trans), claim)
    {
      if HasActivePayout(trans, claim) {
        return false;
      }
      trans := trans + [Trans(ClaimPayout, claim, amount, "", TransPending)];
      return true;
    }
  }
}
