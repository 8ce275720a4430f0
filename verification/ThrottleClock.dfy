/** The throttle's budgets by the clock: written out over rows, entries and times. */
module ThrottleClock {
  import opened Sums
  import opened PayoutThrottle
  import opened ThrottleSafety
  import opened ThrottleRuns
  import opened ThrottleTheorems

  // ------------------------------------------------------------------
  // Who counts
  // ------------------------------------------------------------------

  /** Claims with an unfailed payout or a reservation of the last short window. */
  function ShortClaims(cfg: Config, t: State): set<int> {
    (set i | 0 <= i < |t.rows| && !t.rows[i].failed && t.now - t.rows[i].createdAt < cfg.short.window :: t.rows[i].claim)
    + (set i | 0 <= i < |t.ledger| && t.now - t.ledger[i].shortAt < cfg.short.window :: t.ledger[i].claim)
  }

  /** The same for the daily window. */
  function DailyClaims(cfg: Config, t: State): set<int> {
    (set i | 0 <= i < |t.rows| && !t.rows[i].failed && t.now - t.rows[i].createdAt < cfg.daily.window :: t.rows[i].claim)
    + (set i | 0 <= i < |t.ledger| && t.now - t.ledger[i].dailyAt < cfg.daily.window :: t.ledger[i].claim)
  }

  /** The same for one Spot's own window. */
  function SpotClaims(cfg: Config, t: State, id: int): set<int> {
    (set i | 0 <= i < |t.rows| && !t.rows[i].failed && t.rows[i].spotId == id
             && t.now - t.rows[i].createdAt < cfg.spot.window :: t.rows[i].claim)
    + (set i | 0 <= i < |t.ledger| && t.ledger[i].spotId == id && t.now - t.ledger[i].spotAt < cfg.spot.window :: t.ledger[i].claim)
  }

  /** One Spot's claims with an unfailed payout or a reservation of any age. */
  function AllClaims(t: State, id: int): set<int> {
    (set i | 0 <= i < |t.rows| && !t.rows[i].failed && t.rows[i].spotId == id :: t.rows[i].claim)
    + (set i | 0 <= i < |t.ledger| && t.ledger[i].spotId == id :: t.ledger[i].claim)
  }

  function ReleasedByHand(t: State): set<int> {
    set c | c in t.records && t.records[c].released
  }

  lemma ShortIsHeld(cfg: Config, t: State)
    ensures Held(cfg, t, Short) == ShortClaims(cfg, t)
  {
    assert forall c :: HoldsRow(cfg, t, Short, c) || HoldsReservation(cfg, t, Short, c) <==> c in ShortClaims(cfg, t);
  }

  lemma DailyIsHeld(cfg: Config, t: State)
    ensures Held(cfg, t, Daily) == DailyClaims(cfg, t)
  {
    assert forall c :: HoldsRow(cfg, t, Daily, c) || HoldsReservation(cfg, t, Daily, c) <==> c in DailyClaims(cfg, t);
  }

  lemma SpotIsHeld(cfg: Config, t: State, id: int)
    ensures Held(cfg, t, SpotWindow(id)) == SpotClaims(cfg, t, id)
  {
    assert forall c :: HoldsRow(cfg, t, SpotWindow(id), c) || HoldsReservation(cfg, t, SpotWindow(id), c) <==> c in SpotClaims(cfg, t, id);
  }

  lemma AllIsHeld(cfg: Config, t: State, id: int)
    ensures Held(cfg, t, Lifetime(id)) == AllClaims(t, id)
  {
    assert forall c :: HoldsRow(cfg, t, Lifetime(id), c) || HoldsReservation(cfg, t, Lifetime(id), c) <==> c in AllClaims(t, id);
  }

  // ------------------------------------------------------------------
  // Punctual senders
  // ------------------------------------------------------------------

  /** The claim has a reservation that is young enough for the budget, or the budget does not bind it. */
  ghost predicate Young(w: World, cfg: Config, s: State, b: Budget, c: int)
    requires c in w.claims
  {
    match b
    case Short => exists i :: 0 <= i < |s.ledger| && s.ledger[i].claim == c && s.now - s.ledger[i].shortAt < cfg.short.window
    case Daily => exists i :: 0 <= i < |s.ledger| && s.ledger[i].claim == c && s.now - s.ledger[i].dailyAt < cfg.daily.window
    case SpotWindow(id) =>
      || w.claims[c].spotId != id || c in ReleasedByHand(s)
      || exists i :: 0 <= i < |s.ledger| && s.ledger[i].claim == c && s.now - s.ledger[i].spotAt < cfg.spot.window
    case Lifetime(id) =>
      || w.claims[c].spotId != id || c in ReleasedByHand(s)
      || exists i :: 0 <= i < |s.ledger| && s.ledger[i].claim == c
  }

  /** Every row is inserted for a claim whose reservation is young enough. */
  ghost predicate Punctual(w: World, cfg: Config, s: State, es: seq<Event>, b: Budget) {
    es == [] ||
    var before := Run(w, cfg, s, es[..|es| - 1]);
    var e := es[|es| - 1];
    && Punctual(w, cfg, s, es[..|es| - 1], b)
    && (e.InsertIntent? && e.claim in w.claims && |Run(w, cfg, s, es).rows| > |before.rows| ==>
          Young(w, cfg, before, b, e.claim))
  }

  lemma YoungIsSecured(w: World, cfg: Config, s: State, b: Budget, c: int)
    requires LedgerOk(w, s.ledger) && c in w.claims && Young(w, cfg, s, b, c)
    ensures Secured(w, cfg, s, b, c)
  {
    if !Exempt(w, s, b, c) {
      assert HoldsReservation(cfg, s, b, c);
    }
  }

  lemma {:induction false} PunctualIsInTime(w: World, cfg: Config, s: State, es: seq<Event>, b: Budget)
    requires Starts(s) && Punctual(w, cfg, s, es, b)
    ensures InTime(w, cfg, s, es, b)
  {
    if es != [] {
      var before := Run(w, cfg, s, es[..|es| - 1]);
      var e := es[|es| - 1];
      PunctualIsInTime(w, cfg, s, es[..|es| - 1], b);
      RunBase(w, cfg, s, es[..|es| - 1]);
      if e.InsertIntent? && CanInsert(w, before, e.claim) {
        YoungIsSecured(w, cfg, before, b, e.claim);
      }
    }
  }

  // ------------------------------------------------------------------
  // The bounds
  // ------------------------------------------------------------------

  /** At every instant, over the last short window by the clock. */
  lemma ShortLimitHolds(w: World, cfg: Config, s: State, es: seq<Event>)
    requires Starts(s) && ValidConfig(cfg) && Punctual(w, cfg, s, es, Short)
    ensures var claims := ShortClaims(cfg, Run(w, cfg, s, es));
            |claims| <= cfg.short.maxCount && SumSet(claims, RewardOf(w)) <= cfg.short.maxAmount
  {
    PunctualIsInTime(w, cfg, s, es, Short);
    GlobalWindowsHold(w, cfg, s, es, Short);
    ShortIsHeld(cfg, Run(w, cfg, s, es));
  }

  /** And over the last day. */
  lemma DailyLimitHolds(w: World, cfg: Config, s: State, es: seq<Event>)
    requires Starts(s) && ValidConfig(cfg) && Punctual(w, cfg, s, es, Daily)
    ensures var claims := DailyClaims(cfg, Run(w, cfg, s, es));
            |claims| <= cfg.daily.maxCount && SumSet(claims, RewardOf(w)) <= cfg.daily.maxAmount
  {
    PunctualIsInTime(w, cfg, s, es, Daily);
    GlobalWindowsHold(w, cfg, s, es, Daily);
    DailyIsHeld(cfg, Run(w, cfg, s, es));
  }

  /** And over an open Standard Spot's window, manually released claims aside. */
  lemma SpotLimitHolds(w: World, cfg: Config, s: State, es: seq<Event>, id: int)
    requires Starts(s) && ValidConfig(cfg) && IsOpenSpot(w, id) && Punctual(w, cfg, s, es, SpotWindow(id))
    ensures var t := Run(w, cfg, s, es);
            var claims := SpotClaims(cfg, t, id) - ReleasedByHand(t);
            |claims| <= cfg.spot.maxCount && SumSet(claims, RewardOf(w)) <= cfg.spot.maxAmount
  {
    PunctualIsInTime(w, cfg, s, es, SpotWindow(id));
    SpotWindowHolds(w, cfg, s, es, id);
    SpotIsHeld(cfg, Run(w, cfg, s, es), id);
  }

  /** And for ever over the Spot's automatic share: a percentage of its places, at least one, and of its pool. */
  lemma ShareHolds(w: World, cfg: Config, s: State, es: seq<Event>, id: int)
    requires Starts(s) && ValidConfig(cfg) && IsOpenSpot(w, id) && Punctual(w, cfg, s, es, Lifetime(id))
    ensures var t := Run(w, cfg, s, es);
            var claims := AllClaims(t, id) - ReleasedByHand(t);
            && 100 * |claims| <= cfg.lifetimePercent * (if w.spots[id].capacity == 0 then 1 else w.spots[id].capacity)
            && 100 * SumSet(claims, RewardOf(w)) <= cfg.lifetimePercent * w.spots[id].pool
  {
    PunctualIsInTime(w, cfg, s, es, Lifetime(id));
    BudgetHolds(w, cfg, s, es, Lifetime(id));
    WithinMeans(w, cfg, Run(w, cfg, s, es), Lifetime(id));
    AllIsHeld(cfg, Run(w, cfg, s, es), id);
    ShareIsFloor(cfg, w.spots[id]);
  }

  /** The two lifetime limits are the largest within the percentage. */
  lemma ShareIsFloor(cfg: Config, spot: SpotInfo)
    ensures var places := if spot.capacity == 0 then 1 else spot.capacity;
            && 100 * LifetimeCount(cfg, spot) <= cfg.lifetimePercent * places < 100 * (LifetimeCount(cfg, spot) + 1)
            && 100 * LifetimeAmount(cfg, spot) <= cfg.lifetimePercent * spot.pool < 100 * (LifetimeAmount(cfg, spot) + 1)
  {
    var places := if spot.capacity == 0 then 1 else spot.capacity;
    Hundredth(places * cfg.lifetimePercent);
    Hundredth(spot.pool * cfg.lifetimePercent);
    assert places == if spot.capacity > 1 then spot.capacity else 1;
  }

  lemma Hundredth(x: nat)
    ensures 100 * (x / 100) <= x < 100 * (x / 100 + 1)
  {
  }

  // ------------------------------------------------------------------
  // One request
  // ------------------------------------------------------------------

  /** Pruning keeps exactly the entries whose claim has no unfailed payout and that an open Standard
      Spot's share, the short or the daily window still needs. */
  lemma PruneExactly(w: World, cfg: Config, s: State, r: Reservation)
    ensures r in Pruned(w, cfg, s).ledger
            <==> && r in s.ledger
                 && (r.claim in w.claims ==> forall i :: 0 <= i < |s.rows| && s.rows[i].claim == r.claim ==> s.rows[i].failed)
                 && (Bounded(w, r.claim) || s.now - r.shortAt < cfg.short.window || s.now - r.dailyAt < cfg.daily.window)
  {
    if r in s.ledger {
      assert Kept(w, cfg, s, r) <==> && (r.claim in w.claims ==> !Materialised(s.rows, r.claim))
                                     && (IsOpenStandard(w, r.claim) || ShortLive(cfg, s.now, r) || DailyLive(cfg, s.now, r));
    }
  }

  /** A claim of an existing Spot without a password that is no Prizedraw. */
  predicate Bounded(w: World, c: int) {
    c in w.claims && w.claims[c].spotId in w.spots
    && !w.spots[w.claims[c].spotId].usePassword && !w.spots[w.claims[c].spotId].isPrizedraw
  }

  /** There is room for one more reward beside some claims. */
  ghost predicate Room(w: World, limit: Limit, claims: set<int>, reward: nat) {
    |claims| < limit.maxCount && SumSet(claims, RewardOf(w)) + reward <= limit.maxAmount
  }

  /** And within the share of a Spot. */
  ghost predicate ShareRoom(w: World, cfg: Config, spot: SpotInfo, claims: set<int>, reward: nat) {
    && 100 * (|claims| + 1) <= cfg.lifetimePercent * (if spot.capacity == 0 then 1 else spot.capacity)
    && 100 * (SumSet(claims, RewardOf(w)) + reward) <= cfg.lifetimePercent * spot.pool
  }

  lemma LoadIsHeld(w: World, cfg: Config, s: State, b: Budget)
    requires Base(w, s)
    ensures BudgetLoad(cfg, s, b) == Load(|Held(cfg, s, b)|, SumSet(Held(cfg, s, b), RewardOf(w)))
  {
    CombinedIsHeld(w, cfg, s, b, Number);
    CombinedIsHeld(w, cfg, s, b, Amount);
    SumSetOnes(Held(cfg, s, b), Value(w, Number));
    SumSetSame(Held(cfg, s, b), Value(w, Amount), RewardOf(w));
  }

  /** The global decision allows exactly a small enough reward with room in both windows. */
  lemma GlobalExactly(w: World, cfg: Config, s: State, reward: nat)
    requires Base(w, s)
    ensures GlobalDecision(cfg, s, reward).allow
            <==> reward <= cfg.maxAutomatic && Room(w, cfg.daily, DailyClaims(cfg, s), reward) && Room(w, cfg.short, ShortClaims(cfg, s), reward)
  {
    LoadIsHeld(w, cfg, s, Short);
    LoadIsHeld(w, cfg, s, Daily);
    ShortIsHeld(cfg, s);
    DailyIsHeld(cfg, s);
    ThrottleAllows(cfg, BudgetLoad(cfg, s, Short), BudgetLoad(cfg, s, Daily), reward);
  }

  lemma ThrottleAllows(cfg: Config, short: Load, daily: Load, amount: nat)
    ensures ThrottleDecision(cfg, short, daily, amount).allow
            <==> && amount <= cfg.maxAutomatic
                 && daily.count < cfg.daily.maxCount && daily.amount + amount <= cfg.daily.maxAmount
                 && short.count < cfg.short.maxCount && short.amount + amount <= cfg.short.maxAmount
  {
  }

  lemma SpotWindowExactly(w: World, cfg: Config, s: State, id: int, reward: nat)
    requires Base(w, s)
    ensures SpotWindowDecision(cfg, BudgetLoad(cfg, s, SpotWindow(id)), reward).allow <==> Room(w, cfg.spot, SpotClaims(cfg, s, id), reward)
  {
    LoadIsHeld(w, cfg, s, SpotWindow(id));
    SpotIsHeld(cfg, s, id);
  }

  lemma ShareExactly(w: World, cfg: Config, s: State, id: int, reward: nat)
    requires Base(w, s) && id in w.spots
    ensures SpotLifetimeDecision(cfg, BudgetLoad(cfg, s, Lifetime(id)), reward, w.spots[id]).allow
            <==> ShareRoom(w, cfg, w.spots[id], AllClaims(s, id), reward)
  {
    LoadIsHeld(w, cfg, s, Lifetime(id));
    AllIsHeld(cfg, s, id);
    ShareAllows(cfg, BudgetLoad(cfg, s, Lifetime(id)), reward, w.spots[id]);
  }

  lemma ShareAllows(cfg: Config, load: Load, amount: nat, spot: SpotInfo)
    ensures SpotLifetimeDecision(cfg, load, amount, spot).allow
            <==> && 100 * (load.count + 1) <= cfg.lifetimePercent * (if spot.capacity == 0 then 1 else spot.capacity)
                 && 100 * (load.amount + amount) <= cfg.lifetimePercent * spot.pool
  {
    ShareIsFloor(cfg, spot);
  }

  /** The first request of a claim is allowed exactly when its reward has room in both global windows and,
      for an open Standard claim nobody released, in the Spot's share and window. */
  lemma FirstRequestExactly(w: World, cfg: Config, p: State, c: int)
    requires Base(w, p) && c in w.claims
    ensures var info := w.claims[c];
            FreshDecision(w, cfg, p, c, info.reward).allow
            <==> && info.reward <= cfg.maxAutomatic
                 && Room(w, cfg.daily, DailyClaims(cfg, p), info.reward) && Room(w, cfg.short, ShortClaims(cfg, p), info.reward)
                 && (Bounded(w, c) && c !in ReleasedByHand(p) ==>
                       && ShareRoom(w, cfg, w.spots[info.spotId], AllClaims(p, info.spotId), info.reward)
                       && Room(w, cfg.spot, SpotClaims(cfg, p, info.spotId), info.reward))
  {
    var info := w.claims[c];
    GlobalExactly(w, cfg, p, info.reward);
    if Bounded(w, c) {
      ShareExactly(w, cfg, p, info.spotId, info.reward);
      SpotWindowExactly(w, cfg, p, info.spotId, info.reward);
    }
  }

  lemma OthersHeld(w: World, cfg: Config, p: State, c: int, b: Budget)
    requires forall i :: 0 <= i < |p.rows| && p.rows[i].claim == c ==> p.rows[i].failed
    ensures Held(cfg, p.(ledger := Without(p.ledger, c)), b) == Held(cfg, p, b) - {c}
  {
    var others := p.(ledger := Without(p.ledger, c));
    forall d ensures d in Held(cfg, others, b) <==> d in Held(cfg, p, b) && d != c {
      assert HoldsRow(cfg, others, b, d) == HoldsRow(cfg, p, b, d) && !HoldsRow(cfg, p, b, c);
      OthersReserve(cfg, p, c, b, d);
    }
  }

  lemma OthersReserve(cfg: Config, p: State, c: int, b: Budget, d: int)
    ensures HoldsReservation(cfg, p.(ledger := Without(p.ledger, c)), b, d) <==> HoldsReservation(cfg, p, b, d) && d != c
  {
    var rest := Without(p.ledger, c);
    if i :| 0 <= i < |p.ledger| && p.ledger[i].claim == d && ReservationIn(cfg, p.now, b, p.ledger[i]) {
      assert p.ledger[i] in rest <==> d != c;
    }
    if i :| 0 <= i < |rest| && rest[i].claim == d && ReservationIn(cfg, p.now, b, rest[i]) {
      assert rest[i] in rest && rest[i] in p.ledger;
    }
  }

  /** A later request of a claim with a reservation is allowed exactly when its reward still has room beside
      the other claims in both global windows and in the Spot's own; its place in the share is safe. */
  lemma LaterRequestExactly(w: World, cfg: Config, p: State, c: int)
    requires Base(w, p) && c in w.claims
    requires forall i :: 0 <= i < |p.rows| && p.rows[i].claim == c ==> p.rows[i].failed
    ensures var info := w.claims[c];
            RecheckDecision(w, cfg, p, c, info.reward).allow
            <==> && info.reward <= cfg.maxAutomatic
                 && Room(w, cfg.daily, DailyClaims(cfg, p) - {c}, info.reward) && Room(w, cfg.short, ShortClaims(cfg, p) - {c}, info.reward)
                 && (Bounded(w, c) && c !in ReleasedByHand(p) ==> Room(w, cfg.spot, SpotClaims(cfg, p, info.spotId) - {c}, info.reward))
  {
    var info := w.claims[c];
    var others := p.(ledger := Without(p.ledger, c));
    FilterLedger(w, p.ledger, (r: Reservation) => r.claim != c);
    OthersByClock(w, cfg, p, c, info.spotId);
    RecheckReads(w, cfg, p, c, info.reward);
    GlobalExactly(w, cfg, others, info.reward);
    SpotWindowExactly(w, cfg, others, info.spotId, info.reward);
  }

  lemma RecheckReads(w: World, cfg: Config, p: State, c: int, amount: nat)
    ensures var others := p.(ledger := Without(p.ledger, c));
            RecheckDecision(w, cfg, p, c, amount).allow
            <==> && GlobalDecision(cfg, others, amount).allow
                 && (Bounded(w, c) && c !in ReleasedByHand(p) ==>
                       SpotWindowDecision(cfg, BudgetLoad(cfg, others, SpotWindow(SpotOf(w, c))), amount).allow)
  {
  }

  lemma OthersByClock(w: World, cfg: Config, p: State, c: int, id: int)
    requires forall i :: 0 <= i < |p.rows| && p.rows[i].claim == c ==> p.rows[i].failed
    ensures var others := p.(ledger := Without(p.ledger, c));
            && ShortClaims(cfg, others) == ShortClaims(cfg, p) - {c} && DailyClaims(cfg, others) == DailyClaims(cfg, p) - {c}
            && SpotClaims(cfg, others, id) == SpotClaims(cfg, p, id) - {c}
  {
    var others := p.(ledger := Without(p.ledger, c));
    OthersHeld(w, cfg, p, c, Short);
    OthersHeld(w, cfg, p, c, Daily);
    OthersHeld(w, cfg, p, c, SpotWindow(id));
    ShortIsHeld(cfg, p);
    ShortIsHeld(cfg, others);
    DailyIsHeld(cfg, p);
    DailyIsHeld(cfg, others);
    SpotIsHeld(cfg, p, id);
    SpotIsHeld(cfg, others, id);
  }

  /** A claim has an unfailed payout in one of the two windows. */
  ghost predicate JustPaid(cfg: Config, s: State, c: int) {
    exists i :: 0 <= i < |s.rows| && s.rows[i].claim == c && !s.rows[i].failed
                && (s.now - s.rows[i].createdAt < cfg.short.window || s.now - s.rows[i].createdAt < cfg.daily.window)
  }

  lemma JustPaidIsInWindow(cfg: Config, s: State, c: int)
    ensures InWindowRows(cfg, s, c) <==> JustPaid(cfg, s, c)
  {
    RowClaimsHold(cfg, s, Short, c);
    RowClaimsHold(cfg, s, Daily, c);
    if JustPaid(cfg, s, c) {
      var i :| 0 <= i < |s.rows| && s.rows[i].claim == c && !s.rows[i].failed
               && (s.now - s.rows[i].createdAt < cfg.short.window || s.now - s.rows[i].createdAt < cfg.daily.window);
      assert RowIn(cfg, s.now, Short, s.rows[i]) || RowIn(cfg, s.now, Daily, s.rows[i]);
    }
  }

  /** What an answer does to the pruned ledger: nothing for a refusal; a first place is taken with the stamps
      of the moment; a later request only renews the stamps that have run out. */
  ghost predicate Answers(w: World, cfg: Config, p: State, c: int, t: State, allow: bool) {
    var known := exists i :: 0 <= i < |p.ledger| && p.ledger[i].claim == c;
    && t.rows == p.rows && t.now == p.now
    && (!allow ==> t.ledger == p.ledger)
    && (allow && !known ==>
          c in w.claims && t.ledger == p.ledger + [Reservation(c, w.claims[c].reward, w.claims[c].spotId, p.now, p.now, p.now)])
    && (allow && known ==>
          && |t.ledger| == |p.ledger|
          && forall k :: 0 <= k < |p.ledger| ==>
               t.ledger[k] == if p.ledger[k].claim == c then Renewed(cfg, p.now, p.ledger[k]) else p.ledger[k])
  }

  /** A claim just paid is waved through and changes nothing; any other is answered by its first or its later
      request's decision. */
  lemma AnswerExactly(w: World, cfg: Config, s: State, c: int)
    requires Base(w, s) && c in w.claims
    ensures var p := Pruned(w, cfg, s);
            var (t, d) := Reserve(w, cfg, s, c, w.claims[c].reward);
            if JustPaid(cfg, s, c) then t == p && d.allow
            else && Answers(w, cfg, p, c, t, d.allow)
                 && d.allow == if exists i :: 0 <= i < |p.ledger| && p.ledger[i].claim == c
                               then RecheckDecision(w, cfg, p, c, w.claims[c].reward).allow
                               else FreshDecision(w, cfg, p, c, w.claims[c].reward).allow
  {
    var p := Pruned(w, cfg, s);
    PrunedBase(w, cfg, s);
    ReserveReads(w, cfg, s, c, w.claims[c].reward);
    Known(p.ledger, c);
    Answered(w, cfg, p, c, SlotDecision(w, cfg, p, c, w.claims[c].reward));
  }

  lemma ReserveReads(w: World, cfg: Config, s: State, c: int, amount: nat)
    ensures var p := Pruned(w, cfg, s);
            Reserve(w, cfg, s, c, amount) ==
            if JustPaid(cfg, s, c) then (p, Decision(true, AlreadyMaterialised, false))
            else Apply(w, cfg, p, c, amount, SlotDecision(w, cfg, p, c, amount))
  {
    JustPaidIsInWindow(cfg, s, c);
    assert InWindowRows(cfg, Pruned(w, cfg, s), c) == InWindowRows(cfg, s, c);
  }

  lemma Known(rs: seq<Reservation>, c: int)
    ensures c in ReservedClaims(rs) <==> exists i :: 0 <= i < |rs| && rs[i].claim == c
  {
    if i :| 0 <= i < |rs| && rs[i].claim == c {
      assert rs[i] in rs;
    }
  }

  lemma Answered(w: World, cfg: Config, p: State, c: int, d: Decision)
    requires LedgerOk(w, p.ledger) && c in w.claims
    ensures var t := Apply(w, cfg, p, c, w.claims[c].reward, d);
            t.1.allow == d.allow && Answers(w, cfg, p, c, t.0, d.allow)
  {
    Known(p.ledger, c);
    RestampOk(w, cfg, p.now, p.ledger, c);
  }

  /** A row is inserted exactly for a claim that has a reward, is not held back, and has no unfailed row. */
  lemma InsertionExactly(w: World, cfg: Config, s: State, c: int)
    ensures Next(w, cfg, s, InsertIntent(c)) ==
            if && c in w.claims && w.claims[c].reward > 0
               && (if c in s.records then !s.records[c].review else !w.isPublic)
               && (forall i :: 0 <= i < |s.rows| && s.rows[i].claim == c ==> s.rows[i].failed)
            then s.(rows := s.rows + [Payout(c, w.claims[c].reward, w.claims[c].spotId, s.now, false)])
            else s
  {
  }

  function Renewed(cfg: Config, now: int, r: Reservation): Reservation {
    r.(shortAt := if now - r.shortAt < cfg.short.window then r.shortAt else now,
       dailyAt := if now - r.dailyAt < cfg.daily.window then r.dailyAt else now,
       spotAt := if now - r.spotAt < cfg.spot.window then r.spotAt else now)
  }
}
