/** Each event keeps the rows and entries apart, and each budget by itself. */
module ThrottleRuns {
  import opened Sums
  import opened PayoutThrottle
  import opened ThrottleSafety

  // ------------------------------------------------------------------
  // Shrinking and growing the counted claims
  // ------------------------------------------------------------------

  lemma WithinShrinks(w: World, cfg: Config, s: State, t: State, b: Budget)
    requires Relevant(w, b) && Within(w, cfg, s, b)
    requires Counted(cfg, t, b) <= Counted(cfg, s, b)
    ensures Within(w, cfg, t, b)
  {
    forall m ensures SumSet(Counted(cfg, t, b), Value(w, m)) <= Max(w, cfg, b, m) {
      SumSetMonotone(Counted(cfg, t, b), Counted(cfg, s, b), Value(w, m));
    }
  }

  /** One more claim, admitted against the sums of `s`. */
  lemma WithinGrows(w: World, cfg: Config, s: State, t: State, b: Budget, c: int)
    requires Relevant(w, b) && c in w.claims
    requires Base(w, s)
    requires Counted(cfg, t, b) <= Held(cfg, s, b) + {c}
    requires BudgetLoad(cfg, s, b).count < Max(w, cfg, b, Number)
    requires BudgetLoad(cfg, s, b).amount + w.claims[c].reward <= Max(w, cfg, b, Amount)
    ensures Within(w, cfg, t, b)
  {
    forall m ensures SumSet(Counted(cfg, t, b), Value(w, m)) <= Max(w, cfg, b, m) {
      CombinedIsHeld(w, cfg, s, b, m);
      SumSetInsert(Held(cfg, s, b), c, Value(w, m));
      SumSetMonotone(Counted(cfg, t, b), Held(cfg, s, b) + {c}, Value(w, m));
    }
  }

  // ------------------------------------------------------------------
  // Clock, records, failure
  // ------------------------------------------------------------------

  lemma TickHeld(cfg: Config, s: State, t: State, b: Budget)
    requires t.rows == s.rows && t.ledger == s.ledger && t.records == s.records && t.now >= s.now
    ensures Counted(cfg, t, b) <= Counted(cfg, s, b)
  {
    forall i | 0 <= i < |s.rows| && RowIn(cfg, t.now, b, s.rows[i]) ensures RowIn(cfg, s.now, b, s.rows[i]) {}
    forall i | 0 <= i < |s.ledger| && ReservationIn(cfg, t.now, b, s.ledger[i]) ensures ReservationIn(cfg, s.now, b, s.ledger[i]) {}
    assert Held(cfg, t, b) <= Held(cfg, s, b);
  }

  /** Marks never take a place; a release only exempts. */
  lemma RecordsWithin(w: World, cfg: Config, s: State, records: map<int, Record>, b: Budget)
    requires Relevant(w, b) && Within(w, cfg, s, b)
    requires ReleasedClaims(s) <= ReleasedClaims(s.(records := records))
    ensures Within(w, cfg, s.(records := records), b)
  {
    var t := s.(records := records);
    assert Held(cfg, t, b) == Held(cfg, s, b) by {
      assert forall c :: HoldsRow(cfg, t, b, c) == HoldsRow(cfg, s, b, c);
      assert forall c :: HoldsReservation(cfg, t, b, c) == HoldsReservation(cfg, s, b, c);
    }
    WithinShrinks(w, cfg, s, t, b);
  }

  lemma FailRowBase(w: World, cfg: Config, s: State, i: nat)
    requires Base(w, s) && i < |s.rows|
    ensures Base(w, Next(w, cfg, s, FailRow(i)))
  {
    var t := Next(w, cfg, s, FailRow(i));
    forall a, b | 0 <= a < b < |t.rows| && !t.rows[a].failed && !t.rows[b].failed
      ensures t.rows[a].claim != t.rows[b].claim
    {
      assert t.rows[a] == s.rows[a] && t.rows[b] == s.rows[b];
    }
  }

  lemma FailRowHeld(w: World, cfg: Config, s: State, i: nat, b: Budget)
    requires i < |s.rows|
    ensures Counted(cfg, Next(w, cfg, s, FailRow(i)), b) <= Counted(cfg, s, b)
  {
    var t := Next(w, cfg, s, FailRow(i));
    forall c | c in Held(cfg, t, b) ensures c in Held(cfg, s, b) {
      if HoldsRow(cfg, t, b, c) {
        var j :| 0 <= j < |t.rows| && t.rows[j].claim == c && RowIn(cfg, t.now, b, t.rows[j]);
        assert t.rows[j] == s.rows[j];
      } else {
        assert HoldsReservation(cfg, s, b, c);
      }
    }
  }

  // ------------------------------------------------------------------
  // Inserting an intent
  // ------------------------------------------------------------------

  function WithRow(w: World, s: State, c: int): State
    requires c in w.claims
  {
    s.(rows := s.rows + [Payout(c, w.claims[c].reward, w.claims[c].spotId, s.now, false)])
  }

  lemma WithRowOk(w: World, s: State, c: int)
    requires RowsOk(w, s) && CanInsert(w, s, c)
    ensures RowsOk(w, WithRow(w, s, c))
  {
    var t := WithRow(w, s, c);
    forall a, b | 0 <= a < b < |t.rows| && !t.rows[a].failed && !t.rows[b].failed
      ensures t.rows[a].claim != t.rows[b].claim
    {
      assert t.rows[a] == s.rows[a];
    }
  }

  predicate Concerns(w: World, b: Budget, c: int)
    requires c in w.claims
  {
    match b
    case Short => true
    case Daily => true
    case SpotWindow(id) => id == w.claims[c].spotId
    case Lifetime(id) => id == w.claims[c].spotId
  }

  /** A budget takes no notice of the claim: it is for another Spot, or the claim is released from it. */
  predicate Exempt(w: World, s: State, b: Budget, c: int)
    requires c in w.claims
  {
    !Concerns(w, b, c) || (!b.Short? && !b.Daily? && Released(s, c))
  }

  /** The claim holds a place in the budget, or needs none. */
  predicate Secured(w: World, cfg: Config, s: State, b: Budget, c: int)
    requires c in w.claims
  {
    Exempt(w, s, b, c) || c in Held(cfg, s, b)
  }

  predicate ValidConfig(cfg: Config) {
    cfg.short.window > 0 && cfg.daily.window > 0 && cfg.spot.window > 0
  }

  lemma WithRowHeld(w: World, cfg: Config, s: State, c: int, b: Budget)
    requires c in w.claims && ValidConfig(cfg)
    ensures Held(cfg, WithRow(w, s, c), b) == Held(cfg, s, b) + if Concerns(w, b, c) then {c} else {}
  {
    var t := WithRow(w, s, c);
    var n := |s.rows|;
    forall d ensures HoldsRow(cfg, t, b, d) <==> HoldsRow(cfg, s, b, d) || (d == c && Concerns(w, b, c)) {
      assert forall i :: 0 <= i < n ==> t.rows[i] == s.rows[i];
      assert RowIn(cfg, t.now, b, t.rows[n]) == Concerns(w, b, c);
    }
    assert forall d :: HoldsReservation(cfg, t, b, d) == HoldsReservation(cfg, s, b, d);
  }

  lemma WithRowCounted(w: World, cfg: Config, s: State, c: int, b: Budget)
    requires c in w.claims && ValidConfig(cfg)
    ensures Counted(cfg, WithRow(w, s, c), b) == Counted(cfg, s, b) + if Exempt(w, s, b, c) then {} else {c}
  {
    WithRowHeld(w, cfg, s, c, b);
    assert ReleasedClaims(WithRow(w, s, c)) == ReleasedClaims(s);
  }

  lemma InsertWithin(w: World, cfg: Config, s: State, c: int, b: Budget)
    requires Relevant(w, b) && Within(w, cfg, s, b) && ValidConfig(cfg)
    requires c in w.claims && Secured(w, cfg, s, b, c)
    ensures Within(w, cfg, WithRow(w, s, c), b)
  {
    WithRowCounted(w, cfg, s, c, b);
    WithinShrinks(w, cfg, s, WithRow(w, s, c), b);
  }

  function RewardOf(w: World): int -> nat { c => Reward(w, c) }

  /** One more claim would still be within the budget's number and value. */
  ghost predicate Fits(w: World, cfg: Config, s: State, b: Budget, c: int)
    requires Relevant(w, b) && c in w.claims
  {
    && |Counted(cfg, s, b)| < Max(w, cfg, b, Number)
    && SumSet(Counted(cfg, s, b), RewardOf(w)) + w.claims[c].reward <= Max(w, cfg, b, Amount)
  }

  lemma WithinMeans(w: World, cfg: Config, s: State, b: Budget)
    requires Relevant(w, b)
    ensures Within(w, cfg, s, b)
            <==> |Counted(cfg, s, b)| <= Max(w, cfg, b, Number)
                 && SumSet(Counted(cfg, s, b), RewardOf(w)) <= Max(w, cfg, b, Amount)
  {
    SumSetOnes(Counted(cfg, s, b), Value(w, Number));
    SumSetSame(Counted(cfg, s, b), Value(w, Amount), RewardOf(w));
    WithinBoth(w, cfg, s, b);
  }

  lemma WithinBoth(w: World, cfg: Config, s: State, b: Budget)
    requires Relevant(w, b)
    ensures Within(w, cfg, s, b)
            <==> SumSet(Counted(cfg, s, b), Value(w, Number)) <= Max(w, cfg, b, Number)
                 && SumSet(Counted(cfg, s, b), Value(w, Amount)) <= Max(w, cfg, b, Amount)
  {
  }

  /** The row of a claim without a place takes one. */
  lemma TakesAPlace(w: World, cfg: Config, s: State, c: int, b: Budget)
    requires c in w.claims && ValidConfig(cfg) && !Secured(w, cfg, s, b, c)
    ensures var after := Counted(cfg, WithRow(w, s, c), b);
            && |after| == |Counted(cfg, s, b)| + 1
            && SumSet(after, RewardOf(w)) == SumSet(Counted(cfg, s, b), RewardOf(w)) + w.claims[c].reward
  {
    WithRowCounted(w, cfg, s, c, b);
    assert c !in Counted(cfg, s, b);
    SumSetInsert(Counted(cfg, s, b), c, RewardOf(w));
  }

  /** When a row keeps a budget: exactly when the claim holds a place in it, needs none, or still fits. */
  lemma LateInsertExact(w: World, cfg: Config, s: State, c: int, b: Budget)
    requires Relevant(w, b) && Within(w, cfg, s, b) && ValidConfig(cfg) && CanInsert(w, s, c)
    ensures Within(w, cfg, WithRow(w, s, c), b) <==> Secured(w, cfg, s, b, c) || Fits(w, cfg, s, b, c)
  {
    if Secured(w, cfg, s, b, c) {
      InsertWithin(w, cfg, s, c, b);
    } else {
      TakesAPlace(w, cfg, s, c, b);
      WithinMeans(w, cfg, WithRow(w, s, c), b);
    }
  }

  /** A reservation of any age is a place in the lifetime share. */
  lemma ReservedIsSecured(w: World, cfg: Config, s: State, c: int, id: int)
    requires LedgerOk(w, s.ledger) && IsOpenSpot(w, id) && c in w.claims
    requires c in ReservedClaims(s.ledger) || Released(s, c) || !IsOpenStandard(w, c)
    ensures Secured(w, cfg, s, Lifetime(id), c)
  {
    if Concerns(w, Lifetime(id), c) && c in ReservedClaims(s.ledger) {
      var r :| r in s.ledger && r.claim == c;
      assert HoldsReservation(cfg, s, Lifetime(id), c);
    }
  }

  /** So however late its row is, a reserved claim never breaks a lifetime share. */
  lemma LateKeepsLifetime(w: World, cfg: Config, s: State, c: int, id: int)
    requires LedgerOk(w, s.ledger) && IsOpenSpot(w, id) && Within(w, cfg, s, Lifetime(id)) && ValidConfig(cfg)
    requires CanInsert(w, s, c) && c in ReservedClaims(s.ledger)
    ensures Within(w, cfg, WithRow(w, s, c), Lifetime(id))
    ensures Counted(cfg, WithRow(w, s, c), Lifetime(id)) == Counted(cfg, s, Lifetime(id))
  {
    ReservedIsSecured(w, cfg, s, c, id);
    InsertWithin(w, cfg, s, c, Lifetime(id));
    WithRowCounted(w, cfg, s, c, Lifetime(id));
  }

  // ------------------------------------------------------------------
  // Pruning
  // ------------------------------------------------------------------

  lemma LedgerShrinks(cfg: Config, s: State, t: State, b: Budget)
    requires t.rows == s.rows && t.now == s.now
    requires forall r :: r in t.ledger ==> r in s.ledger
    ensures Held(cfg, t, b) <= Held(cfg, s, b)
  {
    forall c | c in Held(cfg, t, b) ensures c in Held(cfg, s, b) {
      if HoldsRow(cfg, t, b, c) {
        assert HoldsRow(cfg, s, b, c);
      } else {
        var i :| 0 <= i < |t.ledger| && t.ledger[i].claim == c && ReservationIn(cfg, t.now, b, t.ledger[i]);
        assert t.ledger[i] in t.ledger;
        assert t.ledger[i] in s.ledger;
      }
    }
  }

  lemma PrunedBase(w: World, cfg: Config, s: State)
    requires Base(w, s)
    ensures Base(w, Pruned(w, cfg, s))
  {
    FilterLedger(w, s.ledger, r => Kept(w, cfg, s, r));
  }

  lemma PrunedWithin(w: World, cfg: Config, s: State, b: Budget)
    requires Relevant(w, b) && Within(w, cfg, s, b)
    ensures Within(w, cfg, Pruned(w, cfg, s), b)
  {
    LedgerShrinks(cfg, s, Pruned(w, cfg, s), b);
    assert ReleasedClaims(Pruned(w, cfg, s)) == ReleasedClaims(s);
    WithinShrinks(w, cfg, s, Pruned(w, cfg, s), b);
  }

  lemma MaterialisedHolds(w: World, cfg: Config, s: State, c: int)
    requires RowsOk(w, s) && c in w.claims && Materialised(s.rows, c)
    ensures HoldsRow(cfg, s, Lifetime(w.claims[c].spotId), c)
  {
    var j :| 0 <= j < |s.rows| && s.rows[j].claim == c && !s.rows[j].failed;
    assert RowIn(cfg, s.now, Lifetime(w.claims[c].spotId), s.rows[j]);
  }

  /** Pruning never reopens a lifetime slot of an open Standard Spot. */
  lemma PruneKeepsLifetimeSlots(w: World, cfg: Config, s: State, id: int)
    requires Base(w, s) && IsOpenSpot(w, id)
    ensures Held(cfg, Pruned(w, cfg, s), Lifetime(id)) == Held(cfg, s, Lifetime(id))
  {
    var t := Pruned(w, cfg, s);
    LedgerShrinks(cfg, s, t, Lifetime(id));
    forall c | c in Held(cfg, s, Lifetime(id)) ensures c in Held(cfg, t, Lifetime(id)) {
      assert HoldsRow(cfg, t, Lifetime(id), c) == HoldsRow(cfg, s, Lifetime(id), c);
      if !HoldsRow(cfg, s, Lifetime(id), c) {
        var i :| 0 <= i < |s.ledger| && s.ledger[i].claim == c && ReservationIn(cfg, s.now, Lifetime(id), s.ledger[i]);
        assert !Materialised(s.rows, c) by {
          if Materialised(s.rows, c) {
            MaterialisedHolds(w, cfg, s, c);
          }
        }
        assert s.ledger[i] in t.ledger;
      }
    }
  }

  // ------------------------------------------------------------------
  // A fresh reservation
  // ------------------------------------------------------------------

  lemma AppendLedger(w: World, p: State, c: int)
    requires LedgerOk(w, p.ledger) && c in w.claims && c !in ReservedClaims(p.ledger)
    ensures LedgerOk(w, p.ledger + [NewReservation(w, p, c, w.claims[c].reward)])
  {
    var rs := p.ledger + [NewReservation(w, p, c, w.claims[c].reward)];
    forall i, j | 0 <= i < j < |rs| ensures rs[i].claim != rs[j].claim {
      assert rs[i] == p.ledger[i];
      assert rs[i] in p.ledger;
    }
  }

  lemma AppendHeld(w: World, cfg: Config, p: State, t: State, c: int, b: Budget)
    requires c in w.claims && t.rows == p.rows && t.now == p.now && t.ledger == p.ledger + [NewReservation(w, p, c, w.claims[c].reward)]
    ensures Held(cfg, t, b) <= Held(cfg, p, b) + {c}
    ensures !Concerns(w, b, c) ==> Held(cfg, t, b) <= Held(cfg, p, b)
  {
    var n := |p.ledger|;
    forall d | d in Held(cfg, t, b) ensures d in Held(cfg, p, b) || (d == c && Concerns(w, b, c)) {
      assert HoldsRow(cfg, t, b, d) == HoldsRow(cfg, p, b, d);
      if HoldsReservation(cfg, t, b, d) {
        var i :| 0 <= i < |t.ledger| && t.ledger[i].claim == d && ReservationIn(cfg, t.now, b, t.ledger[i]);
        if i < n {
          assert t.ledger[i] == p.ledger[i];
          assert HoldsReservation(cfg, p, b, d);
        }
      }
    }
  }

  predicate Admits(w: World, cfg: Config, s: State, b: Budget, c: int)
    requires Relevant(w, b) && c in w.claims
  {
    && BudgetLoad(cfg, s, b).count < Max(w, cfg, b, Number)
    && BudgetLoad(cfg, s, b).amount + w.claims[c].reward <= Max(w, cfg, b, Amount)
  }

  /** An allowed fresh claim fits every budget that binds it. */
  lemma FreshAdmits(w: World, cfg: Config, p: State, c: int, b: Budget)
    requires c in w.claims && FreshDecision(w, cfg, p, c, w.claims[c].reward).allow
    requires Relevant(w, b) && Concerns(w, b, c) && (b.Short? || b.Daily? || !Released(p, c))
    ensures Admits(w, cfg, p, b, c)
  {
    assert !b.Short? && !b.Daily? ==> IsOpenStandard(w, c);
  }

  lemma FreshWithin(w: World, cfg: Config, p: State, t: State, c: int, b: Budget)
    requires Base(w, p) && Relevant(w, b) && Within(w, cfg, p, b)
    requires c in w.claims && FreshDecision(w, cfg, p, c, w.claims[c].reward).allow
    requires t.rows == p.rows && t.now == p.now && t.ledger == p.ledger + [NewReservation(w, p, c, w.claims[c].reward)]
    requires ReleasedClaims(t) == ReleasedClaims(p)
    ensures Within(w, cfg, t, b)
  {
    AppendHeld(w, cfg, p, t, c, b);
    if !Concerns(w, b, c) || (!b.Short? && !b.Daily? && Released(p, c)) {
      WithinShrinks(w, cfg, p, t, b);
    } else {
      FreshAdmits(w, cfg, p, c, b);
      WithinGrows(w, cfg, p, t, b, c);
    }
  }

  // ------------------------------------------------------------------
  // Refreshing a reservation
  // ------------------------------------------------------------------

  lemma {:induction false} RestampOk(w: World, cfg: Config, now: int, rs: seq<Reservation>, c: int)
    requires LedgerOk(w, rs)
    ensures LedgerOk(w, Restamp(cfg, now, rs, c))
    ensures forall i :: 0 <= i < |rs| ==>
              Restamp(cfg, now, rs, c)[i] == if rs[i].claim == c then Restamped(cfg, now, rs[i]) else rs[i]
  {
    if rs != [] && rs[0].claim != c {
      assert LedgerOk(w, rs[1..]) by {
        forall i, j | 0 <= i < j < |rs[1..]| ensures rs[1..][i].claim != rs[1..][j].claim {
          assert rs[1..][i] == rs[i + 1] && rs[1..][j] == rs[j + 1];
        }
      }
      RestampOk(w, cfg, now, rs[1..], c);
    }
    var out := Restamp(cfg, now, rs, c);
    forall i | 0 <= i < |rs| ensures out[i] == if rs[i].claim == c then Restamped(cfg, now, rs[i]) else rs[i] {
      if i > 0 {
        assert rs[i] == rs[1..][i - 1];
      }
    }
  }

  lemma RestampHeld(w: World, cfg: Config, p: State, c: int, b: Budget)
    requires LedgerOk(w, p.ledger) && c in w.claims
    ensures var t := p.(ledger := Restamp(cfg, p.now, p.ledger, c));
            var others := p.(ledger := Without(p.ledger, c));
            && Held(cfg, t, b) <= Held(cfg, others, b) + {c}
            && (!Concerns(w, b, c) ==> Held(cfg, t, b) <= Held(cfg, p, b))
            && (b.Lifetime? ==> Held(cfg, t, b) <= Held(cfg, p, b))
  {
    var t := p.(ledger := Restamp(cfg, p.now, p.ledger, c));
    var others := p.(ledger := Without(p.ledger, c));
    forall d | d in Held(cfg, t, b)
      ensures d in Held(cfg, others, b) + {c}
      ensures !Concerns(w, b, c) || b.Lifetime? ==> d in Held(cfg, p, b)
    {
      assert HoldsRow(cfg, t, b, d) == HoldsRow(cfg, p, b, d) == HoldsRow(cfg, others, b, d);
      if HoldsReservation(cfg, t, b, d) {
        RestampHeldBy(w, cfg, p, c, b, d);
      }
    }
  }

  lemma RestampHeldBy(w: World, cfg: Config, p: State, c: int, b: Budget, d: int)
    requires LedgerOk(w, p.ledger) && c in w.claims
    requires HoldsReservation(cfg, p.(ledger := Restamp(cfg, p.now, p.ledger, c)), b, d)
    ensures d != c ==> HoldsReservation(cfg, p.(ledger := Without(p.ledger, c)), b, d)
    ensures d != c || !Concerns(w, b, c) || b.Lifetime? ==> HoldsReservation(cfg, p, b, d)
  {
    RestampOk(w, cfg, p.now, p.ledger, c);
    var t := p.(ledger := Restamp(cfg, p.now, p.ledger, c));
    var i :| 0 <= i < |t.ledger| && t.ledger[i].claim == d && ReservationIn(cfg, t.now, b, t.ledger[i]);
    if d != c {
      assert t.ledger[i] == p.ledger[i];
      assert p.ledger[i] in Without(p.ledger, c);
    } else if !Concerns(w, b, c) || b.Lifetime? {
      assert p.ledger[i].spotId == w.claims[c].spotId;
    }
  }

  lemma RecheckWithin(w: World, cfg: Config, p: State, c: int, b: Budget)
    requires Base(w, p) && Relevant(w, b) && Within(w, cfg, p, b)
    requires c in w.claims && RecheckDecision(w, cfg, p, c, w.claims[c].reward).allow
    ensures Within(w, cfg, p.(ledger := Restamp(cfg, p.now, p.ledger, c)), b)
  {
    var t := p.(ledger := Restamp(cfg, p.now, p.ledger, c));
    var others := p.(ledger := Without(p.ledger, c));
    FilterLedger(w, p.ledger, (r: Reservation) => r.claim != c);
    assert ReleasedClaims(t) == ReleasedClaims(p);
    RestampHeld(w, cfg, p, c, b);
    if !Concerns(w, b, c) || b.Lifetime? {
      WithinShrinks(w, cfg, p, t, b);
    } else if b.SpotWindow? && Released(p, c) {
      LedgerShrinks(cfg, p, others, b);
      WithinShrinks(w, cfg, p, t, b);
    } else {
      RecheckAdmits(w, cfg, p, c, b);
      WithinGrows(w, cfg, others, t, b, c);
    }
  }

  lemma RecheckAdmits(w: World, cfg: Config, p: State, c: int, b: Budget)
    requires c in w.claims && RecheckDecision(w, cfg, p, c, w.claims[c].reward).allow
    requires Relevant(w, b) && Concerns(w, b, c) && !b.Lifetime? && (b.SpotWindow? ==> !Released(p, c))
    ensures Admits(w, cfg, p.(ledger := Without(p.ledger, c)), b, c)
  {
  }

  // ------------------------------------------------------------------
  // A request
  // ------------------------------------------------------------------

  lemma MarkReleases(s: State, c: int)
    ensures ReleasedClaims(MarkReview(s, c)) == ReleasedClaims(s)
  {
  }

  lemma ApplyBase(w: World, cfg: Config, p: State, c: int, d: Decision)
    requires Base(w, p) && c in w.claims
    ensures Base(w, Apply(w, cfg, p, c, w.claims[c].reward, d).0)
  {
    if c in ReservedClaims(p.ledger) {
      RestampOk(w, cfg, p.now, p.ledger, c);
    } else {
      AppendLedger(w, p, c);
    }
  }

  lemma ApplyWithin(w: World, cfg: Config, p: State, c: int, b: Budget)
    requires Base(w, p) && c in w.claims && Relevant(w, b) && Within(w, cfg, p, b)
    ensures Within(w, cfg, Apply(w, cfg, p, c, w.claims[c].reward, SlotDecision(w, cfg, p, c, w.claims[c].reward)).0, b)
  {
    var d := SlotDecision(w, cfg, p, c, w.claims[c].reward);
    MarkReleases(p, c);
    RecordsWithin(w, cfg, p, MarkReview(p, c).records, b);
    if c in ReservedClaims(p.ledger) {
      if d.allow {
        RecheckWithin(w, cfg, p, c, b);
      }
    } else if d.allow {
      FreshWithin(w, cfg, p, Apply(w, cfg, p, c, w.claims[c].reward, d).0, c, b);
    }
  }

  lemma ReserveBase(w: World, cfg: Config, s: State, c: int)
    requires Base(w, s) && c in w.claims
    ensures Base(w, Reserve(w, cfg, s, c, w.claims[c].reward).0)
  {
    var p := Pruned(w, cfg, s);
    PrunedBase(w, cfg, s);
    ApplyBase(w, cfg, p, c, SlotDecision(w, cfg, p, c, w.claims[c].reward));
  }

  lemma ReserveWithin(w: World, cfg: Config, s: State, c: int, b: Budget)
    requires Base(w, s) && c in w.claims && Relevant(w, b) && Within(w, cfg, s, b)
    ensures Within(w, cfg, Reserve(w, cfg, s, c, w.claims[c].reward).0, b)
  {
    PrunedBase(w, cfg, s);
    PrunedWithin(w, cfg, s, b);
    ApplyWithin(w, cfg, Pruned(w, cfg, s), c, b);
  }

  // ------------------------------------------------------------------
  // Any event
  // ------------------------------------------------------------------

  lemma NextBase(w: World, cfg: Config, s: State, e: Event)
    requires Base(w, s)
    ensures Base(w, Next(w, cfg, s, e))
  {
    match e
    case ReserveSlot(c) => if CanReserve(w, s, c) { ReserveBase(w, cfg, s, c); }
    case InsertIntent(c) => if CanInsert(w, s, c) { WithRowOk(w, s, c); }
    case FailRow(i) => if i < |s.rows| { FailRowBase(w, cfg, s, i); }
    case _ =>
  }

  lemma NextWithin(w: World, cfg: Config, s: State, e: Event, b: Budget)
    requires Base(w, s) && ValidConfig(cfg) && Relevant(w, b) && Within(w, cfg, s, b)
    requires e.InsertIntent? && CanInsert(w, s, e.claim) ==> Secured(w, cfg, s, b, e.claim)
    ensures Within(w, cfg, Next(w, cfg, s, e), b)
  {
    var t := Next(w, cfg, s, e);
    match e
    case Tick(seconds) =>
      TickHeld(cfg, s, t, b);
      WithinShrinks(w, cfg, s, t, b);
    case RecordClaim(c) => RecordsWithin(w, cfg, s, t.records, b);
    case HoldClaim(c) => RecordsWithin(w, cfg, s, t.records, b);
    case ReserveSlot(c) => if CanReserve(w, s, c) { ReserveWithin(w, cfg, s, c, b); }
    case ReleaseReview(c) => RecordsWithin(w, cfg, s, t.records, b);
    case InsertIntent(c) => if CanInsert(w, s, c) { InsertWithin(w, cfg, s, c, b); }
    case FailRow(i) =>
      if i < |s.rows| {
        FailRowHeld(w, cfg, s, i, b);
        WithinShrinks(w, cfg, s, t, b);
      }
  }
}
