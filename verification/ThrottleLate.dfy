/** A run in which one row, inserted after its claim's stamp has expired, overfills the short window. */
module ThrottleLate {
  import opened Sums
  import opened PayoutThrottle
  import opened ThrottleSafety
  import opened ThrottleRuns

  /** Settings under which the short count is the first limit that small rewards reach. */
  predicate Roomy(cfg: Config) {
    && ValidConfig(cfg) && cfg.short.window < cfg.daily.window
    && 0 < cfg.short.maxCount <= cfg.short.maxAmount
    && cfg.short.maxCount < cfg.daily.maxCount && cfg.short.maxCount < cfg.daily.maxAmount
    && cfg.maxAutomatic > 0
  }

  lemma DefaultsAreRoomy()
    ensures Roomy(DEFAULTS)
  {
  }

  function Between(a: int, b: int): (s: set<int>)
    requires a <= b
    ensures |s| == b - a && forall c :: c in s <==> a <= c < b
    decreases b - a
  {
    if a == b then {} else Between(a, b - 1) + {b - 1}
  }

  /** A password Spot of the public deployment with n + 1 claims of one Luna each, all recorded. */
  function Places(n: nat): World {
    var ids := Between(1, n + 2);
    World(map c | c in ids :: ClaimInfo(1, 1), map[1 := SpotInfo(true, false, n + 1, n + 1)], true)
  }

  function Records(n: nat): map<int, Record> {
    var ids := Between(1, n + 2);
    map c | c in ids :: Record(false, false)
  }

  function Entry(c: int, at: int): Reservation { Reservation(c, 1, 1, at, at, at) }

  /** Claims 2 to k + 1 have reserved. */
  function Others(k: nat, at: int): seq<Reservation> { seq(k, i => Entry(i + 2, at)) }

  function Start(cfg: Config, now: int): State { State(now, [], [], Records(cfg.short.maxCount)) }

  /** The first claim reserved at `now`; a whole window later k others have reserved. */
  function Filled(cfg: Config, now: int, k: nat): State {
    State(now + cfg.short.window, [], [Entry(1, now)] + Others(k, now + cfg.short.window), Records(cfg.short.maxCount))
  }

  /** Claims 2 to k + 1 ask. */
  function Requests(k: nat): seq<Event> { seq(k, i => ReserveSlot(i + 2)) }

  /** The first claim reserves, its sender stalls for a window, others fill the window, the sender goes on. */
  function LateRun(cfg: Config): seq<Event> {
    [] + [ReserveSlot(1)] + [Tick(cfg.short.window)] + Requests(cfg.short.maxCount) + [InsertIntent(1)]
  }

  ghost predicate Steps(cfg: Config, s: State, e: Event, t: State) { Next(Places(cfg.short.maxCount), cfg, s, e) == t }

  ghost predicate Reaches(cfg: Config, now: int, es: seq<Event>, t: State) {
    Run(Places(cfg.short.maxCount), cfg, Start(cfg, now), es) == t
  }

  lemma Then(cfg: Config, now: int, es: seq<Event>, e: Event, s: State, t: State)
    requires Reaches(cfg, now, es, s) && Steps(cfg, s, e, t)
    ensures Reaches(cfg, now, es + [e], t)
  {
    assert (es + [e])[..|es|] == es;
  }

  // ------------------------------------------------------------------
  // One more claim is admitted
  // ------------------------------------------------------------------

  /** Every reward is one Luna, so a budget's load is the number of its claims, twice. */
  lemma LoadIsSize(w: World, cfg: Config, s: State, b: Budget)
    requires Base(w, s) && forall c :: c in w.claims ==> w.claims[c].reward == 1
    ensures BudgetLoad(cfg, s, b) == Load(|Held(cfg, s, b)|, |Held(cfg, s, b)|)
  {
    var held := Held(cfg, s, b);
    forall c | c in held ensures c in w.claims {
      if HoldsRow(cfg, s, b, c) {
        var i :| 0 <= i < |s.rows| && s.rows[i].claim == c;
      } else {
        var i :| 0 <= i < |s.ledger| && s.ledger[i].claim == c;
      }
    }
    CombinedIsHeld(w, cfg, s, b, Number);
    CombinedIsHeld(w, cfg, s, b, Amount);
    SumSetOnes(held, Value(w, Number));
    SumSetOnes(held, Value(w, Amount));
  }

  lemma LoadsAllow(cfg: Config, short: Load, daily: Load)
    requires Roomy(cfg) && short.count == short.amount < cfg.short.maxCount && daily.count == daily.amount <= cfg.short.maxCount
    ensures ThrottleDecision(cfg, short, daily, 1) == Decision(true, WithinGlobalLimits, false)
  {
  }

  lemma Allowed(cfg: Config, s: State)
    requires Roomy(cfg) && Base(Places(cfg.short.maxCount), s)
    requires |Held(cfg, s, Short)| < cfg.short.maxCount && |Held(cfg, s, Daily)| <= cfg.short.maxCount
    ensures GlobalDecision(cfg, s, 1) == Decision(true, WithinGlobalLimits, false)
  {
    LoadIsSize(Places(cfg.short.maxCount), cfg, s, Short);
    LoadIsSize(Places(cfg.short.maxCount), cfg, s, Daily);
    LoadsAllow(cfg, BudgetLoad(cfg, s, Short), BudgetLoad(cfg, s, Daily));
  }

  /** A claim of a Spot with a password, and without a reservation, only meets the global windows. */
  lemma OnlyGlobal(w: World, cfg: Config, s: State, c: int, amount: nat)
    requires !IsOpenStandard(w, c) && c !in ReservedClaims(s.ledger)
    ensures SlotDecision(w, cfg, s, c, amount) == GlobalDecision(cfg, s, amount)
  {
  }

  /** Nothing is pruned, and no row is in a window. */
  lemma Untouched(cfg: Config, s: State, c: int)
    requires s.rows == [] && forall r :: r in s.ledger ==> DailyLive(cfg, s.now, r)
    ensures Pruned(Places(cfg.short.maxCount), cfg, s) == s && !InWindowRows(cfg, s, c)
  {
    FilterAll(s.ledger, r => Kept(Places(cfg.short.maxCount), cfg, s, r));
    assert Rows(cfg, s, Short) == [] && Rows(cfg, s, Daily) == [];
  }

  lemma Unpruned(w: World, cfg: Config, s: State, c: int, d: Decision)
    requires Pruned(w, cfg, s) == s && !InWindowRows(cfg, s, c) && SlotDecision(w, cfg, s, c, 1) == d
    ensures Reserve(w, cfg, s, c, 1) == Apply(w, cfg, s, c, 1, d)
  {
  }

  /** One more claim can be admitted. */
  ghost predicate Ready(cfg: Config, s: State) {
    && Base(Places(cfg.short.maxCount), s) && s.rows == [] && s.records == Records(cfg.short.maxCount)
    && |Held(cfg, s, Short)| < cfg.short.maxCount && |Held(cfg, s, Daily)| <= cfg.short.maxCount
    && forall r :: r in s.ledger ==> DailyLive(cfg, s.now, r)
  }

  lemma Admission(cfg: Config, s: State, c: int)
    requires Roomy(cfg) && Ready(cfg, s)
    requires 1 <= c <= cfg.short.maxCount + 1 && c !in ReservedClaims(s.ledger)
    ensures Steps(cfg, s, ReserveSlot(c), s.(ledger := s.ledger + [Entry(c, s.now)]))
  {
    var w := Places(cfg.short.maxCount);
    Untouched(cfg, s, c);
    Allowed(cfg, s);
    OnlyGlobal(w, cfg, s, c, 1);
    Unpruned(w, cfg, s, c, Decision(true, WithinGlobalLimits, false));
    Granted(cfg, s, c);
    Asking(w, cfg, s, c);
  }

  lemma Asking(w: World, cfg: Config, s: State, c: int)
    requires CanReserve(w, s, c) && w.claims[c].reward == 1
    ensures Next(w, cfg, s, ReserveSlot(c)) == Reserve(w, cfg, s, c, 1).0
  {
  }

  lemma Granted(cfg: Config, s: State, c: int)
    requires 1 <= c <= cfg.short.maxCount + 1 && c !in ReservedClaims(s.ledger)
    ensures Apply(Places(cfg.short.maxCount), cfg, s, c, 1, Decision(true, WithinGlobalLimits, false)).0
            == s.(ledger := s.ledger + [Entry(c, s.now)])
  {
  }

  // ------------------------------------------------------------------
  // The run
  // ------------------------------------------------------------------

  lemma FilledEntries(cfg: Config, now: int, k: nat, i: nat)
    requires i <= k
    ensures Filled(cfg, now, k).ledger[i] == Entry(i + 1, if i == 0 then now else now + cfg.short.window)
  {
  }

  lemma FilledBase(cfg: Config, now: int, k: nat)
    requires k <= cfg.short.maxCount
    ensures Base(Places(cfg.short.maxCount), Filled(cfg, now, k))
  {
    var s := Filled(cfg, now, k);
    forall i | 0 <= i < |s.ledger| ensures s.ledger[i].claim == i + 1 && s.ledger[i].amount == s.ledger[i].spotId == 1 {
      FilledEntries(cfg, now, k, i);
    }
  }

  /** The first claim's stamp has left the short window, and only the short window. */
  lemma FilledHeld(cfg: Config, now: int, k: nat)
    requires Roomy(cfg) && k <= cfg.short.maxCount
    ensures Held(cfg, Filled(cfg, now, k), Short) == Between(2, k + 2)
    ensures Held(cfg, Filled(cfg, now, k), Daily) <= Between(1, k + 2)
  {
    var s := Filled(cfg, now, k);
    forall i | 0 <= i < |s.ledger|
      ensures s.ledger[i].claim == i + 1 && (ReservationIn(cfg, s.now, Short, s.ledger[i]) <==> i > 0)
    {
      FilledEntries(cfg, now, k, i);
    }
    forall c ensures HoldsReservation(cfg, s, Short, c) <==> c in Between(2, k + 2) {
      if c in Between(2, k + 2) {
        assert s.ledger[c - 1].claim == c;
      }
    }
    forall c ensures !HoldsRow(cfg, s, Short, c) && !HoldsRow(cfg, s, Daily, c) {}
  }

  lemma FilledReady(cfg: Config, now: int, k: nat)
    requires Roomy(cfg) && k < cfg.short.maxCount
    ensures Ready(cfg, Filled(cfg, now, k)) && k + 2 !in ReservedClaims(Filled(cfg, now, k).ledger)
  {
    var s := Filled(cfg, now, k);
    FilledBase(cfg, now, k);
    FilledHeld(cfg, now, k);
    SubsetSize(Held(cfg, s, Daily), Between(1, k + 2));
    forall i | 0 <= i < |s.ledger| ensures s.ledger[i].claim == i + 1 && DailyLive(cfg, s.now, s.ledger[i]) {
      FilledEntries(cfg, now, k, i);
    }
  }

  lemma FilledMore(cfg: Config, now: int, k: nat)
    ensures var s := Filled(cfg, now, k);
            s.(ledger := s.ledger + [Entry(k + 2, s.now)]) == Filled(cfg, now, k + 1)
  {
    var s, t := Filled(cfg, now, k), Filled(cfg, now, k + 1);
    assert s.ledger + [Entry(k + 2, s.now)] == t.ledger;
  }

  lemma Filling(cfg: Config, now: int, k: nat)
    requires Roomy(cfg) && k < cfg.short.maxCount
    ensures Steps(cfg, Filled(cfg, now, k), ReserveSlot(k + 2), Filled(cfg, now, k + 1))
  {
    FilledReady(cfg, now, k);
    FilledMore(cfg, now, k);
    Admission(cfg, Filled(cfg, now, k), k + 2);
  }

  lemma Stalling(cfg: Config, now: int)
    requires Roomy(cfg)
    ensures Reaches(cfg, now, [] + [ReserveSlot(1)] + [Tick(cfg.short.window)], Filled(cfg, now, 0))
  {
    var s := Start(cfg, now);
    var t := s.(ledger := [] + [Entry(1, now)]);
    assert Held(cfg, s, Short) == {} && Held(cfg, s, Daily) == {};
    Admission(cfg, s, 1);
    assert Reaches(cfg, now, [], s);
    Then(cfg, now, [], ReserveSlot(1), s, t);
    assert [] + [Entry(1, now)] == [Entry(1, now)] + Others(0, now + cfg.short.window);
    Then(cfg, now, [] + [ReserveSlot(1)], Tick(cfg.short.window), t, Filled(cfg, now, 0));
  }

  ghost predicate FilledBy(cfg: Config, now: int, es: seq<Event>, k: nat) {
    Reaches(cfg, now, es + Requests(k), Filled(cfg, now, k))
  }

  lemma OneMoreRequest(es: seq<Event>, k: nat)
    ensures es + Requests(k + 1) == es + Requests(k) + [ReserveSlot(k + 2)]
  {
  }

  lemma FillsMore(cfg: Config, now: int, es: seq<Event>, k: nat)
    requires Roomy(cfg) && k < cfg.short.maxCount && FilledBy(cfg, now, es, k)
    ensures FilledBy(cfg, now, es, k + 1)
  {
    Filling(cfg, now, k);
    OneMoreRequest(es, k);
    Then(cfg, now, es + Requests(k), ReserveSlot(k + 2), Filled(cfg, now, k), Filled(cfg, now, k + 1));
  }

  lemma {:induction false} FillsRun(cfg: Config, now: int, es: seq<Event>, k: nat, n: nat)
    requires Roomy(cfg) && k <= n <= cfg.short.maxCount && FilledBy(cfg, now, es, k)
    ensures FilledBy(cfg, now, es, n)
    decreases n - k
  {
    if k < n {
      FillsMore(cfg, now, es, k);
      FillsRun(cfg, now, es, k + 1, n);
    }
  }

  lemma Inserting(cfg: Config, now: int)
    requires Roomy(cfg)
    ensures Steps(cfg, Filled(cfg, now, cfg.short.maxCount), InsertIntent(1),
                  WithRow(Places(cfg.short.maxCount), Filled(cfg, now, cfg.short.maxCount), 1))
  {
    assert CanInsert(Places(cfg.short.maxCount), Filled(cfg, now, cfg.short.maxCount), 1);
  }

  lemma Overfull(cfg: Config, now: int)
    requires Roomy(cfg)
    ensures var n := cfg.short.maxCount;
            |Held(cfg, WithRow(Places(n), Filled(cfg, now, n), 1), Short)| == n + 1
  {
    var n := cfg.short.maxCount;
    FilledHeld(cfg, now, n);
    OneMoreHeld(Places(n), cfg, Filled(cfg, now, n), 1, n);
  }

  lemma OneMoreHeld(w: World, cfg: Config, s: State, c: int, n: nat)
    requires ValidConfig(cfg) && c in w.claims && Held(cfg, s, Short) == Between(2, n + 2) && c < 2
    ensures |Held(cfg, WithRow(w, s, c), Short)| == n + 1
  {
    WithRowHeld(w, cfg, s, c, Short);
  }

  /** With any such settings, the defaults among them, a run ends with one claim more in the
      short window than it allows: every request was admitted, and only the last row was late. */
  lemma LateRowOverfills(cfg: Config, now: int)
    requires Roomy(cfg)
    ensures |Held(cfg, Run(Places(cfg.short.maxCount), cfg, Start(cfg, now), LateRun(cfg)), Short)| == cfg.short.maxCount + 1
  {
    var n := cfg.short.maxCount;
    var es := [] + [ReserveSlot(1)] + [Tick(cfg.short.window)];
    Stalling(cfg, now);
    assert es + Requests(0) == es;
    FillsRun(cfg, now, es, 0, n);
    Inserting(cfg, now);
    Overfull(cfg, now);
    Then(cfg, now, es + Requests(n), InsertIntent(1), Filled(cfg, now, n), WithRow(Places(n), Filled(cfg, now, n), 1));
  }
}
