/** The money lifecycle of one Standard Spot as a state machine over its rows.

    Every event is one SQLite transaction of the program, or one observation of the
    chain. A worker that computes an amount in one transaction and inserts the row in
    a later one is two events joined by a job; a job may be performed late, several
    times or never, which covers crashes and competing workers. */
module SpotLedger {
  import opened Options
  import opened Sums
  import opened Tables

  const MIN_SPOT_TOTAL_VALUE: nat := 50_000_000
  const MIN_STANDARD_CLAIM_PAYOUT: nat := 10_000_000
  const MAX_LIMIT: nat := 500

  datatype SpotStatus = Draft | Published | Completed | Banned

  datatype Spot = Spot(status: SpotStatus, totalValue: nat, maxClaims: nat, creationFee: nat, duration: nat)

  datatype PayoutJob = PayoutJob(claim: int, reward: nat)

  datatype Ledger = Ledger(
    spot: Spot,
    claims: map<int, ClaimStatus>,
    trans: Table,
    returnAddress: Option<string>, // the creator's account, remembered with the first deposit
    payoutJobs: set<PayoutJob>, // reward sends whose amount has been computed
    prepared: set<nat>,          // remainder amounts computed, sender not yet started
    sending: set<nat>,           // remainder sends past their status check
    settled: bool)

  datatype Event =
    | EditDraft(total: nat, maxClaims: nat, duration: nat)
    | RecordDeposit(amount: int, account: string)
    | SubmitCreationFee
    | Publish(complete: bool)
    | OpenClaim(claim: int, eligible: bool)
    | ResolveClaim(claim: int)
    | DropClaim(claim: int)
    | PreparePayout(claim: int)
    | InsertPayout(claim: int, reward: nat)
    | Confirm(row: nat, chainSender: string, chainAmount: nat)
    | Fail(row: nat)
    | PrepareRemainder(ended: bool)
    | CheckRemainder(remainder: nat)
    | InsertRemainder(remainder: nat)
    | Ban
    | InsertSweep(remaining: nat)

  // ------------------------------------------------------------------
  // Queries
  // ------------------------------------------------------------------

  function Deposits(l: Ledger): nat { Sum(l.trans, Confirmed(FillSpot)) }

  function Required(s: Spot): nat { s.totalValue + s.creationFee }

  /** `_standard_claim_payout_amount` */
  function Reward(s: Spot): nat {
    if s.maxClaims <= 0 then 0 else s.totalValue / s.maxClaims
  }

  /** `get_transactions_by_spot(limit=MAX_LIMIT)`: the most recent rows only. */
  function Recent(rows: Table): Table {
    if |rows| <= MAX_LIMIT then rows else rows[|rows| - MAX_LIMIT..]
  }

  function Monus(a: int, b: int): nat { if a > b then a - b else 0 }

  /** `_financial_state(...)["remaining"]` */
  function Remaining(rows: Table): nat {
    Monus(Sum(rows, Confirmed(FillSpot)), Sum(rows, ConfirmedOutgoing()))
  }

  /** `remainder_amount` */
  function Remainder(rows: Table): nat {
    Monus(Sum(rows, Confirmed(FillSpot)) - Sum(rows, Confirmed(ClaimPayout)) - Sum(rows, Confirmed(CreationFee)),
          Sum(rows, Confirmed(RemainderRefund)))
  }

  predicate AnyPending(rows: Table) {
    exists i :: 0 <= i < |rows| && rows[i].status == TransPending
  }

  predicate BlockingPending(rows: Table) {
    HasPending(rows, FillSpot) || HasPending(rows, ClaimPayout) || HasPending(rows, CreationFee) || HasPending(rows, RemainderRefund)
  }

  predicate IsFunding(t: Trans) {
    t.kind == FillSpot && t.status == TransConfirmed && t.sender != ""
  }

  /** `get_confirmed_spot_funding_address`: sender of the first confirmed deposit. */
  function FundingWallet(rows: Table): (w: Option<string>)
  {
    if rows == [] then None
    else
      var earlier := FundingWallet(rows[..|rows| - 1]);
      if earlier.Some? then earlier
      else if IsFunding(rows[|rows| - 1]) then Some(rows[|rows| - 1].sender)
      else None
  }

  /** `count_successful_standard_claims_without_confirmed_payout` is zero. */
  predicate AllPaid(claims: map<int, ClaimStatus>, rows: Table) {
    forall c :: c in claims && claims[c] == ClaimSuccess ==> HasConfirmedPayout(rows, c)
  }

  // ------------------------------------------------------------------
  // Guards and effects, one pair for each transaction
  // ------------------------------------------------------------------

  /** `modify_draft_spot`: the value is fixed once a deposit is pending or confirmed. */
  predicate CanEditDraft(l: Ledger, total: nat, maxClaims: nat) {
    && l.spot.status == Draft
    && total >= MIN_SPOT_TOTAL_VALUE
    && maxClaims >= 1
    && (total != l.spot.totalValue ==> !HasActive(l.trans, FillSpot))
  }

  predicate CanRecordDeposit(l: Ledger, amount: int, account: string) {
    && amount > 0
    && l.spot.status == Draft
    && (if l.returnAddress.Some? then l.returnAddress == Some(account) else FundingWallet(l.trans) == None)
    && Sum(l.trans, Active(FillSpot)) == Deposits(l)
    && Deposits(l) < Required(l.spot)
  }

  predicate CanSubmitCreationFee(l: Ledger) {
    && l.spot.status in {Draft, Published, Completed}
    && l.spot.creationFee > 0
    && Deposits(l) >= Required(l.spot)
    && !HasActive(l.trans, CreationFee)
  }

  predicate CanPublish(l: Ledger, complete: bool) {
    && complete
    && l.spot.status == Draft
    && l.spot.totalValue > 0
    && l.spot.maxClaims >= 1
    && l.spot.totalValue >= MIN_STANDARD_CLAIM_PAYOUT * l.spot.maxClaims
    && Deposits(l) >= Required(l.spot)
    && FeeConfirmed(l)
  }

  /** `has_confirmed_spot_creation_fee_transaction` */
  predicate FeeConfirmed(l: Ledger) {
    || l.spot.creationFee == 0
    || exists i :: 0 <= i < |l.trans| && l.trans[i].kind == CreationFee && l.trans[i].status == TransConfirmed
                   && l.trans[i].amount == l.spot.creationFee
  }

  predicate CanOpenClaim(l: Ledger, c: int, eligible: bool) {
    && eligible
    && c !in l.claims
    && l.spot.status == Published
    && |Successes(l.claims)| < l.spot.maxClaims
  }

  predicate CanPreparePayout(l: Ledger, c: int) {
    && c in l.claims
    && l.claims[c] == ClaimSuccess
    && !HasActivePayout(l.trans, c)
    && PayoutAmount(l, c) > 0
  }

  function PayoutAmount(l: Ledger, c: int): nat {
    var retry := LatestFailedPayout(l.trans, c);
    if retry > 0 then retry else Reward(l.spot)
  }

  predicate CanInsertPayout(l: Ledger, c: int, reward: nat) {
    && PayoutJob(c, reward) in l.payoutJobs
    && c in l.claims
    && l.spot.status != Banned
    && !HasActivePayout(l.trans, c)
  }

  predicate CanInsertRemainder(l: Ledger, remainder: nat) {
    && remainder in l.sending
    && !HasActive(l.trans, RemainderRefund)
  }

  predicate CanInsertSweep(l: Ledger, remaining: nat) {
    && l.spot.status == Banned
    && !AnyPending(Recent(l.trans))
    && remaining == Remaining(Recent(l.trans))
    && remaining > 0
    && !HasActive(l.trans, PlatFee)
  }

  function Promoted(l: Ledger, c: int): map<int, ClaimStatus>
    requires c in l.claims
  {
    if |Successes(l.claims)| < l.spot.maxClaims then
      var claims := l.claims[c := ClaimSuccess];
      if l.spot.duration > 0 && |Successes(claims)| >= l.spot.maxClaims then
        map d | d in claims :: if claims[d] == ClaimPending then ClaimFailed else claims[d]
      else claims
    else l.claims[c := ClaimFailed]
  }

  /** `mark_trans_as_confirmed` for a row whose chain details verified. */
  function ConfirmedRow(rows: Table, i: nat, sender: string, amount: nat): Trans
    requires i < |rows|
  {
    var t := rows[i];
    if t.kind == FillSpot then
      if FundingWallet(rows) in {None, Some(sender)}
      then t.(sender := sender, amount := amount, status := TransConfirmed)
      else t.(sender := sender, amount := amount, status := TransFailed)
    else t.(status := TransConfirmed)
  }

  /** `_verify_chain_details_for_record` */
  predicate Verifies(t: Trans, sender: string, amount: nat) {
    && sender != ""
    && if t.kind == FillSpot then amount >= t.amount else sender == t.sender && amount == t.amount
  }

  predicate Terminal(l: Ledger, ended: bool) {
    || l.spot.status == Completed
    || (l.spot.status == Published && (ended || 0 < l.spot.maxClaims <= |Successes(l.claims)|))
  }

  predicate CanSettle(l: Ledger, ended: bool) {
    && Pendings(l.claims) == {}
    && Terminal(l, ended)
    && AllPaid(l.claims, l.trans)
    && !BlockingPending(Recent(l.trans))
    && Sum(Recent(l.trans), Confirmed(CreationFee)) >= l.spot.creationFee
  }

  predicate HasRefundSource(rows: Table) {
    exists i :: 0 <= i < |rows| && IsFunding(rows[i])
  }

  function Settle(l: Ledger): Ledger {
    var done := l.(spot := l.spot.(status := Completed));
    var remainder := Remainder(Recent(l.trans));
    if remainder == 0 then done.(settled := true)
    else if HasRefundSource(Recent(l.trans)) then done.(prepared := l.prepared + {remainder})
    else done
  }

  /** `_fail_claims_without_committed_payout` */
  function BanClaims(l: Ledger): map<int, ClaimStatus> {
    map c | c in l.claims :: if HasActivePayout(l.trans, c) then l.claims[c] else ClaimFailed
  }

  const DEPOSIT_ACCOUNT := "spot deposit account"

  function Intent(k: TransType, c: int, amount: nat): Trans {
    Trans(k, c, amount, DEPOSIT_ACCOUNT, TransPending)
  }

  function Append(l: Ledger, t: Trans): Ledger { l.(trans := l.trans + [t]) }

  function Restamp(l: Ledger, i: nat, t: Trans): Ledger
    requires i < |l.trans|
  {
    l.(trans := l.trans[i := t])
  }

  function Next(l: Ledger, e: Event): Ledger {
    match e
    case EditDraft(total, maxClaims, duration) =>
      if CanEditDraft(l, total, maxClaims)
      then l.(spot := l.spot.(totalValue := total, maxClaims := maxClaims, duration := duration)) else l
    case RecordDeposit(amount, account) =>
      if CanRecordDeposit(l, amount, account)
      then Append(l, Trans(FillSpot, 0, DepositAmount(l, amount), account, TransPending)).(returnAddress := Some(account))
      else l
    case SubmitCreationFee =>
      if CanSubmitCreationFee(l) then Append(l, Intent(CreationFee, 0, l.spot.creationFee)) else l
    case Publish(complete) =>
      if CanPublish(l, complete) then l.(spot := l.spot.(status := Published)) else l
    case OpenClaim(c, eligible) =>
      if CanOpenClaim(l, c, eligible)
      then l.(claims := l.claims[c := if l.spot.duration > 0 then ClaimPending else ClaimSuccess]) else l
    case ResolveClaim(c) =>
      if c in l.claims && l.claims[c] == ClaimPending then l.(claims := Promoted(l, c)) else l
    case DropClaim(c) =>
      if c in l.claims && l.claims[c] == ClaimPending then l.(claims := l.claims[c := ClaimFailed]) else l
    case PreparePayout(c) =>
      if CanPreparePayout(l, c) then l.(payoutJobs := l.payoutJobs + {PayoutJob(c, PayoutAmount(l, c))}) else l
    case InsertPayout(c, reward) =>
      if CanInsertPayout(l, c, reward) then Append(l, Intent(ClaimPayout, c, reward)) else l
    case Confirm(i, sender, amount) =>
      if i < |l.trans| && l.trans[i].status == TransPending && Verifies(l.trans[i], sender, amount)
      then Restamp(l, i, ConfirmedRow(l.trans, i, sender, amount)) else l
    case Fail(i) =>
      if i < |l.trans| && l.trans[i].status == TransPending
      then Restamp(l, i, l.trans[i].(status := TransFailed)) else l
    case PrepareRemainder(ended) =>
      if CanSettle(l, ended) then Settle(l) else l
    case CheckRemainder(remainder) =>
      if remainder in l.prepared && l.spot.status == Completed then l.(sending := l.sending + {remainder}) else l
    case InsertRemainder(remainder) =>
      if CanInsertRemainder(l, remainder) then Append(l, Intent(RemainderRefund, 0, remainder)) else l
    case Ban =>
      l.(spot := l.spot.(status := Banned), claims := BanClaims(l))
    case InsertSweep(remaining) =>
      if CanInsertSweep(l, remaining) then Append(l, Intent(PlatFee, 0, remaining)) else l
  }

  function DepositAmount(l: Ledger, amount: int): nat
    requires CanRecordDeposit(l, amount, "") || amount > 0
  {
    var due := Monus(Required(l.spot), Deposits(l));
    if amount < due then amount else due
  }

  function Run(l: Ledger, es: seq<Event>): Ledger
  {
    if es == [] then l else Next(Run(l, es[..|es| - 1]), es[|es| - 1])
  }

  /** A draft just created: no claims, no rows, no work under way. */
  ghost predicate Created(l: Ledger) {
    && l.spot.status == Draft && l.spot.totalValue >= MIN_SPOT_TOTAL_VALUE && l.returnAddress == None
    && l.claims == map[] && l.trans == [] && l.payoutJobs == {} && l.prepared == {} && l.sending == {}
  }
}
