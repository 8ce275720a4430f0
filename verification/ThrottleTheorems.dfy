/** The throttle's promises over every run, each under what it needs of the moment a row is inserted. */
module ThrottleTheorems {
  import opened Sums
  import opened PayoutThrottle
  import opened ThrottleSafety
  import opened ThrottleRuns

  ghost predicate Starts(s: State) { s.rows == [] && s.ledger == [] }

  /** Every row is inserted while its claim holds a place in the budget, or needs none. */
  ghost predicate InTime(w: World, cfg: Config, s: State, es: seq<Event>, b: Budget) {
    es == [] ||
    var before := Run(w, cfg, s, es[..|es| - 1]);
    var e := es[|es| - 1];
    && InTime(w, cfg, s, es[..|es| - 1], b)
    && (e.InsertIntent? && CanInsert(w, before, e.claim) ==> Secured(w, cfg, before, b, e.claim))
  }

  /** Every row is inserted for a claim with a reservation of any age, a manual release, or no Spot budget. */
  ghost predicate Reserved(w: World, cfg: Config, s: State, es: seq<Event>) {
    es == [] ||
    var before := Run(w, cfg, s, es[..|es| - 1]);
    var e := es[|es| - 1];
    && Reserved(w, cfg, s, es[..|es| - 1])
    && (e.InsertIntent? && CanInsert(w, before, e.claim) ==>
          e.claim in ReservedClaims(before.ledger) || Released(before, e.claim) || !IsOpenStandard(w, e.claim))
  }

  lemma {:induction false} RunBase(w: World, cfg: Config, s: State, es: seq<Event>)
    requires Starts(s)
    ensures Base(w, Run(w, cfg, s, es))
  {
    if es != [] {
      RunBase(w, cfg, s, es[..|es| - 1]);
      NextBase(w, cfg, Run(w, cfg, s, es[..|es| - 1]), es[|es| - 1]);
    }
  }

  lemma StartWithin(w: World, cfg: Config, s: State, b: Budget)
    requires Starts(s) && Relevant(w, b)
    ensures Within(w, cfg, s, b)
  {
    assert Held(cfg, s, b) == {};
    assert Counted(cfg, s, b) == {};
  }

  /** Each budget holds for ever in the runs whose rows are in time for it, whatever the others do. */
  lemma {:induction false} BudgetHolds(w: World, cfg: Config, s: State, es: seq<Event>, b: Budget)
    requires Starts(s) && ValidConfig(cfg) && Relevant(w, b) && InTime(w, cfg, s, es, b)
    ensures Within(w, cfg, Run(w, cfg, s, es), b)
  {
    if es == [] {
      StartWithin(w, cfg, s, b);
    } else {
      BudgetHolds(w, cfg, s, es[..|es| - 1], b);
      RunBase(w, cfg, s, es[..|es| - 1]);
      NextWithin(w, cfg, Run(w, cfg, s, es[..|es| - 1]), es[|es| - 1], b);
    }
  }

  /** At every instant the claims paid or reserved in the short and the daily window stay
      within the count and the value the settings allow. */
  lemma GlobalWindowsHold(w: World, cfg: Config, s: State, es: seq<Event>, b: Budget)
    requires Starts(s) && ValidConfig(cfg) && b in {Short, Daily} && InTime(w, cfg, s, es, b)
    ensures var held := Held(cfg, Run(w, cfg, s, es), b);
            var limit := if b.Short? then cfg.short else cfg.daily;
            |held| <= limit.maxCount && SumSet(held, RewardOf(w)) <= limit.maxAmount
  {
    BudgetHolds(w, cfg, s, es, b);
    WithinMeans(w, cfg, Run(w, cfg, s, es), b);
  }

  /** The rolling window of an open Standard Spot; only manually released claims are exempt. */
  lemma SpotWindowHolds(w: World, cfg: Config, s: State, es: seq<Event>, id: int)
    requires Starts(s) && ValidConfig(cfg) && IsOpenSpot(w, id) && InTime(w, cfg, s, es, SpotWindow(id))
    ensures var t := Run(w, cfg, s, es);
            var recent := Held(cfg, t, SpotWindow(id)) - ReleasedClaims(t);
            |recent| <= cfg.spot.maxCount && SumSet(recent, RewardOf(w)) <= cfg.spot.maxAmount
  {
    BudgetHolds(w, cfg, s, es, SpotWindow(id));
    WithinMeans(w, cfg, Run(w, cfg, s, es), SpotWindow(id));
  }

  lemma {:induction false} ReservedIsInTime(w: World, cfg: Config, s: State, es: seq<Event>, id: int)
    requires Starts(s) && IsOpenSpot(w, id) && Reserved(w, cfg, s, es)
    ensures InTime(w, cfg, s, es, Lifetime(id))
  {
    if es != [] {
      var before := Run(w, cfg, s, es[..|es| - 1]);
      var e := es[|es| - 1];
      ReservedIsInTime(w, cfg, s, es[..|es| - 1], id);
      RunBase(w, cfg, s, es[..|es| - 1]);
      if e.InsertIntent? && CanInsert(w, before, e.claim) {
        ReservedIsSecured(w, cfg, before, e.claim, id);
      }
    }
  }

  /** For ever, and however late rows are inserted: an open Standard Spot's automatic payouts
      stay within its share of capacity and pool. */
  lemma LifetimeShareHolds(w: World, cfg: Config, s: State, es: seq<Event>, id: int)
    requires Starts(s) && ValidConfig(cfg) && IsOpenSpot(w, id) && Reserved(w, cfg, s, es)
    ensures var t := Run(w, cfg, s, es);
            var automatic := Held(cfg, t, Lifetime(id)) - ReleasedClaims(t);
            && |automatic| <= LifetimeCount(cfg, w.spots[id])
            && SumSet(automatic, RewardOf(w)) <= LifetimeAmount(cfg, w.spots[id])
  {
    ReservedIsInTime(w, cfg, s, es, id);
    BudgetHolds(w, cfg, s, es, Lifetime(id));
    WithinMeans(w, cfg, Run(w, cfg, s, es), Lifetime(id));
  }

  /** The ledger never holds two reservations for one claim, in any run at all. */
  lemma OneReservationPerClaim(w: World, cfg: Config, s: State, es: seq<Event>, i: nat, j: nat)
    requires Starts(s) && i < j < |Run(w, cfg, s, es).ledger|
    ensures Run(w, cfg, s, es).ledger[i].claim != Run(w, cfg, s, es).ledger[j].claim
  {
    RunBase(w, cfg, s, es);
  }

  // ------------------------------------------------------------------
  // Asking again
  // ------------------------------------------------------------------

  lemma {:induction false} RestampTwice(w: World, cfg: Config, now: int, rs: seq<Reservation>, c: int)
    requires LedgerOk(w, rs) && ValidConfig(cfg)
    ensures var once := Restamp(cfg, now, rs, c);
            && Restamp(cfg, now, once, c) == once
            && Without(once, c) == Without(rs, c)
  {
    var once := Restamp(cfg, now, rs, c);
    RestampOk(w, cfg, now, rs, c);
    RestampOk(w, cfg, now, once, c);
    WithoutSame(once, rs, c);
  }

  lemma {:induction false} WithoutSame(a: seq<Reservation>, b: seq<Reservation>, c: int)
    requires |a| == |b|
    requires forall i :: 0 <= i < |a| ==> a[i] == b[i] || (a[i].claim == c && b[i].claim == c)
    ensures Without(a, c) == Without(b, c)
  {
    if a != [] {
      WithoutSame(a[..|a| - 1], b[..|b| - 1], c);
    }
  }

  lemma KeptAgain(w: World, cfg: Config, s: State, p: State, t: State, c: int)
    requires p == Pruned(w, cfg, s) && t.rows == s.rows && t.now == s.now && !Materialised(s.rows, c)
    requires forall r :: r in t.ledger ==> r in p.ledger || (r.claim == c && ShortLive(cfg, s.now, r))
    ensures Pruned(w, cfg, t) == t
  {
    forall r | r in t.ledger ensures Kept(w, cfg, t, r) {
      if r in p.ledger {
        assert Kept(w, cfg, s, r);
      }
    }
    FilterAll(t.ledger, r => Kept(w, cfg, t, r));
  }

  lemma RowClaimsMaterialised(cfg: Config, s: State, c: int)
    requires InWindowRows(cfg, s, c)
    ensures Materialised(s.rows, c)
  {
    var rows := if c in RowClaims(Rows(cfg, s, Short)) then Rows(cfg, s, Short) else Rows(cfg, s, Daily);
    var p :| p in rows && p.claim == c;
    assert p in s.rows;
  }

  /** A worker that repeats an allowed request is allowed again and takes no second slot. */
  lemma RepeatIsFree(w: World, cfg: Config, s: State, c: int)
    requires Base(w, s) && ValidConfig(cfg) && c in w.claims && !Materialised(s.rows, c)
    requires Reserve(w, cfg, s, c, w.claims[c].reward).1.allow
    ensures var t := Reserve(w, cfg, s, c, w.claims[c].reward).0;
            && Reserve(w, cfg, t, c, w.claims[c].reward).0 == t
            && Reserve(w, cfg, t, c, w.claims[c].reward).1 == Decision(true, ExistingReservation, Reserve(w, cfg, t, c, w.claims[c].reward).1.manualReview)
  {
    var p := Pruned(w, cfg, s);
    var t := Reserve(w, cfg, s, c, w.claims[c].reward).0;
    PrunedBase(w, cfg, s);
    if InWindowRows(cfg, p, c) {
      RowClaimsMaterialised(cfg, p, c);
    }
    if InWindowRows(cfg, t, c) {
      RowClaimsMaterialised(cfg, t, c);
    }
    if c in ReservedClaims(p.ledger) {
      RepeatExisting(w, cfg, s, p, c);
    } else {
      RepeatFresh(w, cfg, s, p, t, c);
    }
  }

  lemma SameLoads(cfg: Config, a: State, b: State)
    requires a.rows == b.rows && a.ledger == b.ledger && a.now == b.now
    ensures forall x :: BudgetLoad(cfg, a, x) == BudgetLoad(cfg, b, x)
  {
  }

  /** The recheck looks at the other claims' entries only. */
  lemma RecheckSame(w: World, cfg: Config, a: State, b: State, c: int)
    requires c in w.claims && a.rows == b.rows && a.now == b.now && Released(a, c) == Released(b, c)
    requires Without(a.ledger, c) == Without(b.ledger, c)
    ensures RecheckDecision(w, cfg, a, c, w.claims[c].reward) == RecheckDecision(w, cfg, b, c, w.claims[c].reward)
  {
    SameLoads(cfg, a.(ledger := Without(a.ledger, c)), b.(ledger := Without(b.ledger, c)));
  }

  /** With no entry of its own, a claim's recheck is its fresh check without the lifetime share. */
  lemma RecheckAfterFresh(w: World, cfg: Config, p: State, c: int)
    requires c in w.claims && c !in ReservedClaims(p.ledger) && FreshDecision(w, cfg, p, c, w.claims[c].reward).allow
    ensures RecheckDecision(w, cfg, p, c, w.claims[c].reward).allow
  {
    FilterAll(p.ledger, (x: Reservation) => x.claim != c);
    assert p.(ledger := Without(p.ledger, c)) == p;
  }

  lemma RestampMembers(w: World, cfg: Config, now: int, rs: seq<Reservation>, c: int)
    requires LedgerOk(w, rs) && ValidConfig(cfg)
    ensures forall r :: r in Restamp(cfg, now, rs, c) ==> r in rs || (r.claim == c && ShortLive(cfg, now, r))
    ensures c in ReservedClaims(rs) ==> c in ReservedClaims(Restamp(cfg, now, rs, c))
  {
    var out := Restamp(cfg, now, rs, c);
    RestampOk(w, cfg, now, rs, c);
    forall i | 0 <= i < |out| ensures out[i] in rs || (out[i].claim == c && ShortLive(cfg, now, out[i])) {
      assert rs[i] in rs;
    }
    if i :| 0 <= i < |rs| && rs[i].claim == c {
      assert out[i] in out;
    }
  }

  lemma RestampKeeps(w: World, cfg: Config, s: State, p: State, c: int)
    requires p == Pruned(w, cfg, s) && LedgerOk(w, p.ledger) && ValidConfig(cfg) && !Materialised(s.rows, c)
    ensures var t := p.(ledger := Restamp(cfg, p.now, p.ledger, c));
            && Pruned(w, cfg, t) == t
            && (c in ReservedClaims(p.ledger) ==> c in ReservedClaims(t.ledger))
  {
    RestampMembers(w, cfg, p.now, p.ledger, c);
    KeptAgain(w, cfg, s, p, p.(ledger := Restamp(cfg, p.now, p.ledger, c)), c);
  }

  lemma RepeatExisting(w: World, cfg: Config, s: State, p: State, c: int)
    requires p == Pruned(w, cfg, s) && LedgerOk(w, p.ledger) && ValidConfig(cfg) && c in w.claims && !Materialised(s.rows, c)
    requires c in ReservedClaims(p.ledger) && RecheckDecision(w, cfg, p, c, w.claims[c].reward).allow
    ensures var t := p.(ledger := Restamp(cfg, p.now, p.ledger, c));
            && Pruned(w, cfg, t) == t && c in ReservedClaims(t.ledger)
            && RecheckDecision(w, cfg, t, c, w.claims[c].reward).allow
            && Restamp(cfg, t.now, t.ledger, c) == t.ledger
  {
    RestampTwice(w, cfg, p.now, p.ledger, c);
    RestampKeeps(w, cfg, s, p, c);
    RecheckSame(w, cfg, p.(ledger := Restamp(cfg, p.now, p.ledger, c)), p, c);
  }

  lemma NewEntry(w: World, cfg: Config, p: State, c: int)
    requires LedgerOk(w, p.ledger) && ValidConfig(cfg) && c in w.claims && c !in ReservedClaims(p.ledger)
    ensures var rs := p.ledger + [NewReservation(w, p, c, w.claims[c].reward)];
            Without(rs, c) == Without(p.ledger, c) && Restamp(cfg, p.now, rs, c) == rs
  {
    var r := NewReservation(w, p, c, w.claims[c].reward);
    var rs := p.ledger + [r];
    FilterAppend(p.ledger, r, (x: Reservation) => x.claim != c);
    AppendLedger(w, p, c);
    RestampOk(w, cfg, p.now, rs, c);
    forall i | 0 <= i < |rs| ensures Restamp(cfg, p.now, rs, c)[i] == rs[i] {
      if i < |p.ledger| {
        assert rs[i] in p.ledger;
      }
    }
  }

  lemma RepeatFresh(w: World, cfg: Config, s: State, p: State, t: State, c: int)
    requires p == Pruned(w, cfg, s) && LedgerOk(w, p.ledger) && ValidConfig(cfg) && c in w.claims && !Materialised(s.rows, c)
    requires c !in ReservedClaims(p.ledger) && FreshDecision(w, cfg, p, c, w.claims[c].reward).allow
    requires t.rows == p.rows && t.now == p.now && t.ledger == p.ledger + [NewReservation(w, p, c, w.claims[c].reward)]
    requires Released(t, c) == Released(p, c)
    ensures Pruned(w, cfg, t) == t && c in ReservedClaims(t.ledger)
    ensures RecheckDecision(w, cfg, t, c, w.claims[c].reward).allow
    ensures Restamp(cfg, t.now, t.ledger, c) == t.ledger
  {
    KeptAgain(w, cfg, s, p, t, c);
    assert t.ledger[|p.ledger|] in t.ledger;
    NewEntry(w, cfg, p, c);
    RecheckAfterFresh(w, cfg, p, c);
    RecheckSame(w, cfg, t, p, c);
  }

  /** A refusal only prunes; it never takes, drops or refreshes a place. */
  lemma RefusalTakesNothing(w: World, cfg: Config, s: State, c: int, amount: nat, b: Budget)
    requires !Reserve(w, cfg, s, c, amount).1.allow
    ensures Reserve(w, cfg, s, c, amount).0.ledger == Pruned(w, cfg, s).ledger
    ensures Held(cfg, Reserve(w, cfg, s, c, amount).0, b) <= Held(cfg, s, b)
  {
    LedgerShrinks(cfg, s, Reserve(w, cfg, s, c, amount).0, b);
  }
}
