/** Prizedraw settlement: the winner set is never stored, only rebuilt from rows. */
module Prizedraw {
  import opened Ordering
  import opened Sums
  import opened Tables

  // ------------------------------------------------------------------
  // The split
  // ------------------------------------------------------------------

  /** `_prize_amounts`: equal shares, the indivisible remainder to the first winner. */
  function PrizeAmounts(total: nat, winners: nat): (amounts: seq<nat>)
    ensures |amounts| == winners
  {
    if winners == 0 then [] else [total / winners + total % winners] + seq(winners - 1, _ => total / winners)
  }

  /** Pairs two lists of one length into a map. */
  function Zip(ids: seq<int>, amounts: seq<nat>): (m: map<int, nat>)
    requires |ids| == |amounts|
    ensures forall c :: c in m <==> c in ids
  {
    if ids == [] then map[]
    else Zip(ids[..|ids| - 1], amounts[..|ids| - 1])[ids[|ids| - 1] := amounts[|ids| - 1]]
  }

  lemma {:induction false} ZipAt(ids: seq<int>, amounts: seq<nat>, i: nat)
    requires i < |ids| == |amounts|
    requires forall j, k :: 0 <= j < k < |ids| ==> ids[j] != ids[k]
    ensures Zip(ids, amounts)[ids[i]] == amounts[i]
  {
    if i < |ids| - 1 {
      ZipAt(ids[..|ids| - 1], amounts[..|ids| - 1], i);
    }
  }

  /** `_prize_amounts_by_claim_id`: the k-th amount goes to the k-th smallest id. */
  function Allocation(total: nat, winners: set<int>): (amounts: map<int, nat>)
    ensures forall c :: c in amounts <==> c in winners
  {
    Zip(Ascending(winners), PrizeAmounts(total, |winners|))
  }

  /** Which amount an id receives does not depend on the list it was read from. */
  lemma AllocationOf(total: nat, winners: set<int>, c: int)
    requires c in winners
    ensures Allocation(total, winners)[c] == total / |winners| + if c == Least(winners) then total % |winners| else 0
  {
    var ids := Ascending(winners);
    AscendingSorted(winners);
    var i :| 0 <= i < |ids| && ids[i] == c;
    ZipAt(ids, PrizeAmounts(total, |winners|), i);
    assert i == 0 <==> c == Least(winners);
  }

  function Share(amounts: map<int, nat>): int -> nat {
    c => if c in amounts then amounts[c] else 0
  }

  lemma {:induction false} SumEqualShares(s: set<int>, share: nat, f: int -> nat)
    requires forall c :: c in s ==> f(c) == share
    ensures SumSet(s, f) == share * |s|
    decreases s
  {
    if s != {} {
      var c := Member(s);
      SumSetRemove(s, c, f);
      SumEqualShares(s - {c}, share, f);
      OneShareMore(share, |s - {c}|);
      assert |s| == |s - {c}| + 1;
    }
  }

  lemma OneShareMore(share: nat, k: nat)
    ensures share * (k + 1) == share * k + share
  {
  }

  /** The whole pool is allocated. */
  lemma SplitIsExact(total: nat, winners: set<int>)
    requires winners != {}
    ensures SumSet(winners, Share(Allocation(total, winners))) == total
  {
    var n := |winners|;
    var first := Least(winners);
    var f := Share(Allocation(total, winners));
    forall c | c in winners ensures f(c) == total / n + if c == first then total % n else 0 {
      AllocationOf(total, winners, c);
    }
    SumSetRemove(winners, first, f);
    SumEqualShares(winners - {first}, total / n, f);
    Redivide(total, n);
  }

  lemma Redivide(total: nat, n: nat)
    requires n > 0
    ensures (total / n) * (n - 1) + total / n + total % n == total
  {
    var q := total / n;
    assert q * (n - 1) + q == q * n;
  }

  /** No two winners' amounts differ by as much as the number of winners. */
  lemma SplitIsEven(total: nat, winners: set<int>, c: int, d: int)
    requires c in winners && d in winners
    ensures Allocation(total, winners)[c] < Allocation(total, winners)[d] + |winners|
  {
    AllocationOf(total, winners, c);
    AllocationOf(total, winners, d);
  }

  // ------------------------------------------------------------------
  // The tables and the transactions over them
  // ------------------------------------------------------------------

  const MAX_LIMIT: nat := 500

  datatype DrawStatus = Published | Completed

  datatype Job = Job(claim: int, amount: nat)

  /** `drawn` and `draws` are history: no transaction reads them. */
  datatype Draw = Draw(
    status: DrawStatus,
    total: nat,
    prizeCount: nat,
    maxEntries: nat,
    claims: map<int, ClaimStatus>,
    trans: Table,
    jobs: set<Job>,
    drawn: set<int>,
    draws: nat)

  datatype Event =
    | Enter(claim: int, instant: bool)
    | ResolveEntry(claim: int, passed: bool)
    | Settle(ended: bool, eligible: set<int>, sample: set<int>)
    | Retry
    | InsertPayout(job: Job)
    | Confirm(row: nat)
    | Fail(row: nat)

  predicate Ready(d: Draw, ended: bool) {
    || ended
    || (d.maxEntries > 0 && |Pendings(d.claims)| + |Successes(d.claims)| >= d.maxEntries)
  }

  /** The entries the draw reads: all of them, or as many as the query returns. */
  predicate IsEligible(d: Draw, eligible: set<int>) {
    && eligible <= Successes(d.claims)
    && |eligible| == Min(|Successes(d.claims)|, MAX_LIMIT)
  }

  function Min(a: nat, b: nat): nat { if a < b then a else b }

  function WinnerCount(d: Draw, eligible: set<int>): nat {
    Min(if d.prizeCount > 1 then d.prizeCount else 1, |eligible|)
  }

  predicate CanSettle(d: Draw, ended: bool, eligible: set<int>, sample: set<int>) {
    && d.status == Published
    && Ready(d, ended)
    && IsEligible(d, eligible)
    && sample <= eligible
    && |sample| == WinnerCount(d, eligible)
  }

  function Settled(d: Draw, sample: set<int>): Draw {
    d.(status := Completed,
       claims := map c | c in d.claims ::
         if d.claims[c] == ClaimPending then ClaimFailed
         else if c in sample && d.claims[c] == ClaimSuccess then ClaimPending
         else d.claims[c],
       drawn := sample,
       draws := d.draws + 1)
  }

  /** `get_prizedraw_winner_claim_ids`: pending claims and claims with any payout row. */
  function Winners(d: Draw): (winners: set<int>)
    ensures forall c :: c in winners <==> c in Pendings(d.claims) || HasPayoutRow(d.trans, c)
  {
    Pendings(d.claims)
    + set i | 0 <= i < |d.trans| && d.trans[i].kind == ClaimPayout :: d.trans[i].claimId
  }

  predicate HasPayoutRow(rows: Table, c: int) {
    exists i :: 0 <= i < |rows| && rows[i].kind == ClaimPayout && rows[i].claimId == c
  }

  /** What a retry sends for a pending winner: the failed amount again, or the rebuilt share. */
  function RetryAmount(d: Draw, c: int): nat {
    var failed := LatestFailedPayout(d.trans, c);
    if failed > 0 then failed else Share(Allocation(d.total, Winners(d)))(c)
  }

  function RetryJobs(d: Draw): set<Job> {
    set c | c in Pendings(d.claims) && !HasActivePayout(d.trans, c) && RetryAmount(d, c) > 0 :: Job(c, RetryAmount(d, c))
  }

  function RetryClaims(d: Draw): map<int, ClaimStatus> {
    map c | c in d.claims ::
      if d.claims[c] == ClaimPending && HasConfirmedPayout(d.trans, c) then ClaimSuccess else d.claims[c]
  }

  predicate CanInsert(d: Draw, job: Job) {
    job in d.jobs && job.claim in d.claims && !HasActivePayout(d.trans, job.claim)
  }

  predicate CanDecide(d: Draw, i: nat) {
    i < |d.trans| && d.trans[i].status == TransPending
  }

  function Next(d: Draw, e: Event): Draw {
    match e
    case Enter(c, instant) =>
      if c > 0 && c !in d.claims && d.status == Published
         && (d.maxEntries == 0 || |Pendings(d.claims)| + |Successes(d.claims)| < d.maxEntries)
      then d.(claims := d.claims[c := if instant then ClaimSuccess else ClaimPending]) else d
    case ResolveEntry(c, passed) =>
      // a completed Prizedraw's pending claims are winners and are left alone
      if d.status == Published && c in d.claims && d.claims[c] == ClaimPending
      then d.(claims := d.claims[c := if passed then ClaimSuccess else ClaimFailed]) else d
    case Settle(ended, eligible, sample) =>
      if CanSettle(d, ended, eligible, sample) then Settled(d, sample) else d
    case Retry =>
      if d.status == Completed then d.(claims := RetryClaims(d), jobs := d.jobs + RetryJobs(d)) else d
    case InsertPayout(job) =>
      if CanInsert(d, job)
      then d.(trans := d.trans + [Trans(ClaimPayout, job.claim, job.amount, "", TransPending)]) else d
    case Confirm(i) =>
      if CanDecide(d, i)
      then
        var row := d.trans[i];
        d.(trans := d.trans[i := row.(status := TransConfirmed)],
           claims := if d.status == Completed && row.kind == ClaimPayout && row.claimId in d.claims
                     then d.claims[row.claimId := ClaimSuccess] else d.claims)
      else d
    case Fail(i) =>
      if CanDecide(d, i) then d.(trans := d.trans[i := d.trans[i].(status := TransFailed)]) else d
  }

  function Run(d: Draw, es: seq<Event>): Draw
  {
    if es == [] then d else Next(Run(d, es[..|es| - 1]), es[|es| - 1])
  }

  ghost predicate Opened(d: Draw) {
    d.status == Published && d.claims == map[] && d.trans == [] && d.jobs == {} && d.drawn == {} && d.draws == 0
  }
}
