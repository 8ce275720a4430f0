/** The payout throttle: a durable ledger of reservations merged with payout rows under four budgets. */
module PayoutThrottle {
  import opened Sums

  datatype Limit = Limit(window: nat, maxCount: nat, maxAmount: nat)

  /** The environment settings; `DEFAULTS` are the values used when none is set. */
  datatype Config = Config(short: Limit, daily: Limit, spot: Limit, maxAutomatic: nat, lifetimePercent: nat)

  const LUNA_PER_NIM: nat := 100_000

  const DEFAULTS := Config(
    Limit(10 * 60, 8, 10_000 * LUNA_PER_NIM),
    Limit(24 * 60 * 60, 100, 50_000 * LUNA_PER_NIM),
    Limit(24 * 60 * 60, 10, 5_000 * LUNA_PER_NIM),
    10_000 * LUNA_PER_NIM,
    50)

  datatype SpotInfo = SpotInfo(usePassword: bool, isPrizedraw: bool, capacity: nat, pool: nat)

  datatype ClaimInfo = ClaimInfo(spotId: int, reward: nat)

  /** Every claim and Spot, with the one amount each claim is ever paid, and whether this is the public deployment. */
  datatype World = World(claims: map<int, ClaimInfo>, spots: map<int, SpotInfo>, isPublic: bool)

  datatype Reservation = Reservation(claim: int, amount: nat, spotId: int, shortAt: int, dailyAt: int, spotAt: int)

  /** A claim-payout TRANSACTION row; `failed` is its only later change that matters here. */
  datatype Payout = Payout(claim: int, amount: nat, spotId: int, createdAt: int, failed: bool)

  /** The two marks of a claim security record the throttle reads or writes. */
  datatype Record = Record(review: bool, released: bool)

  datatype State = State(now: int, rows: seq<Payout>, ledger: seq<Reservation>, records: map<int, Record>)

  datatype Load = Load(count: nat, amount: nat)

  datatype Reason =
    | IndividualLimit | DailyCountLimit | DailyAmountLimit | GlobalCountLimit | GlobalAmountLimit
    | SpotCountLimit | SpotAmountLimit | LifetimeCountLimit | LifetimeAmountLimit
    | WithinGlobalLimits | WithinSpotLimits | WithinLifetimeLimits | AlreadyMaterialised | ExistingReservation

  datatype Decision = Decision(allow: bool, reason: Reason, manualReview: bool)

  predicate IsOpenStandard(w: World, c: int) {
    && c in w.claims
    && w.claims[c].spotId in w.spots
    && var spot := w.spots[w.claims[c].spotId];
       !spot.usePassword && !spot.isPrizedraw
  }

  predicate Released(s: State, c: int) {
    c in s.records && s.records[c].released
  }

  // ------------------------------------------------------------------
  // Windows
  // ------------------------------------------------------------------

  predicate Materialised(rows: seq<Payout>, c: int) {
    exists i :: 0 <= i < |rows| && rows[i].claim == c && !rows[i].failed
  }

  predicate ShortLive(cfg: Config, now: int, r: Reservation) { r.shortAt > now - cfg.short.window }
  predicate DailyLive(cfg: Config, now: int, r: Reservation) { r.dailyAt > now - cfg.daily.window }
  predicate SpotLive(cfg: Config, now: int, r: Reservation) { r.spotAt > now - cfg.spot.window }

  /** The four budgets; a Spot budget names its Spot. */
  datatype Budget = Short | Daily | SpotWindow(spotId: int) | Lifetime(spotId: int)

  predicate RowIn(cfg: Config, now: int, b: Budget, p: Payout) {
    && !p.failed
    && match b
       case Short => p.createdAt > now - cfg.short.window
       case Daily => p.createdAt > now - cfg.daily.window
       case SpotWindow(id) => p.spotId == id && p.createdAt > now - cfg.spot.window
       case Lifetime(id) => p.spotId == id
  }

  predicate ReservationIn(cfg: Config, now: int, b: Budget, r: Reservation) {
    match b
    case Short => ShortLive(cfg, now, r)
    case Daily => DailyLive(cfg, now, r)
    case SpotWindow(id) => r.spotId == id && SpotLive(cfg, now, r)
    case Lifetime(id) => r.spotId == id
  }

  function Rows(cfg: Config, s: State, b: Budget): seq<Payout> {
    Filter(s.rows, p => RowIn(cfg, s.now, b, p))
  }

  function Reservations(cfg: Config, s: State, b: Budget): seq<Reservation> {
    Filter(s.ledger, r => ReservationIn(cfg, s.now, b, r))
  }

  // ------------------------------------------------------------------
  // Decisions
  // ------------------------------------------------------------------

  function RowClaims(rows: seq<Payout>): set<int> { set p | p in rows :: p.claim }

  function ReservedClaims(rs: seq<Reservation>): set<int> { set r | r in rs :: r.claim }

  /** `_combined_window_state`: rows, plus reservations whose claim has none of these rows. */
  function Combined(rows: seq<Payout>, rs: seq<Reservation>): Load {
    var extra := Filter(rs, (r: Reservation) => r.claim !in RowClaims(rows));
    Load(|rows| + |extra|, Sum(rows, (p: Payout) => p.amount) + Sum(extra, (r: Reservation) => r.amount))
  }

  function ThrottleDecision(cfg: Config, state: Load, daily: Load, amount: nat): Decision {
    if amount > cfg.maxAutomatic then Decision(false, IndividualLimit, true)
    else if daily.count >= cfg.daily.maxCount then Decision(false, DailyCountLimit, false)
    else if daily.amount + amount > cfg.daily.maxAmount then Decision(false, DailyAmountLimit, false)
    else if state.count >= cfg.short.maxCount then Decision(false, GlobalCountLimit, false)
    else if state.amount + amount > cfg.short.maxAmount then Decision(false, GlobalAmountLimit, false)
    else Decision(true, WithinGlobalLimits, false)
  }

  function SpotWindowDecision(cfg: Config, state: Load, amount: nat): Decision {
    if state.count >= cfg.spot.maxCount then Decision(false, SpotCountLimit, true)
    else if state.amount + amount > cfg.spot.maxAmount then Decision(false, SpotAmountLimit, true)
    else Decision(true, WithinSpotLimits, true)
  }

  function LifetimeCount(cfg: Config, spot: SpotInfo): nat {
    (if spot.capacity > 1 then spot.capacity else 1) * cfg.lifetimePercent / 100
  }

  function LifetimeAmount(cfg: Config, spot: SpotInfo): nat {
    spot.pool * cfg.lifetimePercent / 100
  }

  function SpotLifetimeDecision(cfg: Config, state: Load, amount: nat, spot: SpotInfo): Decision {
    if state.count >= LifetimeCount(cfg, spot) then Decision(false, LifetimeCountLimit, true)
    else if state.amount + amount > LifetimeAmount(cfg, spot) then Decision(false, LifetimeAmountLimit, true)
    else Decision(true, WithinLifetimeLimits, true)
  }

  // ------------------------------------------------------------------
  // The ledger operations
  // ------------------------------------------------------------------

  /** What `_prune_reservations` keeps. */
  predicate Kept(w: World, cfg: Config, s: State, r: Reservation) {
    if r.claim in w.claims && Materialised(s.rows, r.claim) then false
    else if IsOpenStandard(w, r.claim) then true
    else ShortLive(cfg, s.now, r) || DailyLive(cfg, s.now, r)
  }

  function Pruned(w: World, cfg: Config, s: State): State {
    s.(ledger := Filter(s.ledger, r => Kept(w, cfg, s, r)))
  }

  function Without(rs: seq<Reservation>, c: int): seq<Reservation> {
    Filter(rs, (r: Reservation) => r.claim != c)
  }

  function BudgetLoad(cfg: Config, s: State, b: Budget): Load {
    Combined(Rows(cfg, s, b), Reservations(cfg, s, b))
  }

  function GlobalDecision(cfg: Config, s: State, amount: nat): Decision {
    ThrottleDecision(cfg, BudgetLoad(cfg, s, Short), BudgetLoad(cfg, s, Daily), amount)
  }

  /** The Spot of a claim, or 0 for a claim that does not exist. */
  function SpotOf(w: World, c: int): int {
    if c in w.claims then w.claims[c].spotId else 0
  }

  /** The decision for a claim with no reservation. */
  function FreshDecision(w: World, cfg: Config, s: State, c: int, amount: nat): Decision {
    var id := SpotOf(w, c);
    var global := GlobalDecision(cfg, s, amount);
    if !global.allow || !IsOpenStandard(w, c) || Released(s, c) then global
    else
      var lifetime := SpotLifetimeDecision(cfg, BudgetLoad(cfg, s, Lifetime(id)), amount, w.spots[id]);
      if !lifetime.allow then lifetime
      else SpotWindowDecision(cfg, BudgetLoad(cfg, s, SpotWindow(id)), amount)
  }

  /** The decision for a claim whose own reservation is left out of the sums. */
  function RecheckDecision(w: World, cfg: Config, s: State, c: int, amount: nat): Decision {
    var others := s.(ledger := Without(s.ledger, c));
    var global := GlobalDecision(cfg, others, amount);
    if !global.allow || !IsOpenStandard(w, c) || Released(s, c) then global
    else SpotWindowDecision(cfg, BudgetLoad(cfg, others, SpotWindow(SpotOf(w, c))), amount)
  }

  function Restamped(cfg: Config, now: int, r: Reservation): Reservation {
    r.(shortAt := if ShortLive(cfg, now, r) then r.shortAt else now,
       dailyAt := if DailyLive(cfg, now, r) then r.dailyAt else now,
       spotAt := if SpotLive(cfg, now, r) then r.spotAt else now)
  }

  function Restamp(cfg: Config, now: int, rs: seq<Reservation>, c: int): (out: seq<Reservation>)
    ensures |out| == |rs|
  {
    if rs == [] then []
    else if rs[0].claim == c then [Restamped(cfg, now, rs[0])] + rs[1..]
    else [rs[0]] + Restamp(cfg, now, rs[1..], c)
  }

  function MarkReview(s: State, c: int): State {
    if c in s.records then s.(records := s.records[c := s.records[c].(review := true)]) else s
  }

  function NewReservation(w: World, s: State, c: int, amount: nat): Reservation {
    Reservation(c, amount, SpotOf(w, c), s.now, s.now, s.now)
  }

  predicate InWindowRows(cfg: Config, s: State, c: int) {
    c in RowClaims(Rows(cfg, s, Short)) || c in RowClaims(Rows(cfg, s, Daily))
  }

  /** The decision for any claim whose payout is not in the windows already. */
  function SlotDecision(w: World, cfg: Config, p: State, c: int, amount: nat): Decision {
    if c in ReservedClaims(p.ledger) then RecheckDecision(w, cfg, p, c, amount) else FreshDecision(w, cfg, p, c, amount)
  }

  /** What a decision does to the pruned ledger and to the claim's record. */
  function Apply(w: World, cfg: Config, p: State, c: int, amount: nat, d: Decision): (State, Decision) {
    if c in ReservedClaims(p.ledger) then
      if d.allow then (p.(ledger := Restamp(cfg, p.now, p.ledger, c)), d.(reason := ExistingReservation))
      else if d.manualReview then (MarkReview(p, c), d)
      else (p, d)
    else
      var marked := if d.manualReview then MarkReview(p, c) else p;
      if d.allow then (marked.(ledger := p.ledger + [NewReservation(w, p, c, amount)]), d) else (marked, d)
  }

  /** `reserve_payout_slot`: new state and decision. */
  function Reserve(w: World, cfg: Config, s: State, c: int, amount: nat): (State, Decision) {
    var p := Pruned(w, cfg, s);
    if InWindowRows(cfg, p, c) then (p, Decision(true, AlreadyMaterialised, false))
    else Apply(w, cfg, p, c, amount, SlotDecision(w, cfg, p, c, amount))
  }

  /** The security gate: no record is only accepted outside the public deployment, and a review mark holds. */
  predicate Cleared(w: World, s: State, c: int) {
    if c in s.records then !s.records[c].review else !w.isPublic
  }

  // ------------------------------------------------------------------
  // Runs
  // ------------------------------------------------------------------

  datatype Event =
    | Tick(seconds: nat)
    | RecordClaim(claim: int)     // the security record written with the claim
    | HoldClaim(claim: int)       // `_mark_manual_review`
    | ReserveSlot(claim: int)     // the throttled send asks for a place
    | ReleaseReview(claim: int)   // `release_claim_manual_review`
    | InsertIntent(claim: int)    // the send behind it inserts its PENDING row
    | FailRow(row: nat)

  predicate CanReserve(w: World, s: State, c: int) {
    c in w.claims && w.claims[c].reward > 0 && Cleared(w, s, c)
  }

  predicate CanInsert(w: World, s: State, c: int) {
    c in w.claims && w.claims[c].reward > 0 && Cleared(w, s, c) && !Materialised(s.rows, c)
  }

  function Next(w: World, cfg: Config, s: State, e: Event): State {
    match e
    case Tick(seconds) => s.(now := s.now + seconds)
    case RecordClaim(c) => if c in s.records then s else s.(records := s.records[c := Record(false, false)])
    case HoldClaim(c) => MarkReview(s, c)
    case ReserveSlot(c) => if CanReserve(w, s, c) then Reserve(w, cfg, s, c, w.claims[c].reward).0 else s
    case ReleaseReview(c) => if c in s.records then s.(records := s.records[c := Record(false, true)]) else s
    case InsertIntent(c) =>
      if CanInsert(w, s, c)
      then s.(rows := s.rows + [Payout(c, w.claims[c].reward, w.claims[c].spotId, s.now, false)]) else s
    case FailRow(i) => if i < |s.rows| then s.(rows := s.rows[i := s.rows[i].(failed := true)]) else s
  }

  function Run(w: World, cfg: Config, s: State, es: seq<Event>): State
  {
    if es == [] then s else Next(w, cfg, Run(w, cfg, s, es[..|es| - 1]), es[|es| - 1])
  }
}
