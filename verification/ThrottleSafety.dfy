/** What the payout throttle guarantees over whole runs. */
module ThrottleSafety {
  import opened Sums
  import opened PayoutThrottle

  datatype Measure = Number | Amount

  function Reward(w: World, c: int): nat {
    if c in w.claims then w.claims[c].reward else 0
  }

  function Value(w: World, m: Measure): int -> nat {
    c => if m.Number? then 1 else Reward(w, c)
  }

  predicate IsOpenSpot(w: World, id: int) {
    id in w.spots && !w.spots[id].usePassword && !w.spots[id].isPrizedraw
  }

  /** Spot budgets bind the open Standard Spots. */
  predicate Relevant(w: World, b: Budget) {
    match b
    case Short => true
    case Daily => true
    case SpotWindow(id) => IsOpenSpot(w, id)
    case Lifetime(id) => IsOpenSpot(w, id)
  }

  function Max(w: World, cfg: Config, b: Budget, m: Measure): nat
    requires Relevant(w, b)
  {
    match b
    case Short => if m.Number? then cfg.short.maxCount else cfg.short.maxAmount
    case Daily => if m.Number? then cfg.daily.maxCount else cfg.daily.maxAmount
    case SpotWindow(_) => if m.Number? then cfg.spot.maxCount else cfg.spot.maxAmount
    case Lifetime(id) => if m.Number? then LifetimeCount(cfg, w.spots[id]) else LifetimeAmount(cfg, w.spots[id])
  }

  // ------------------------------------------------------------------
  // The claims a budget holds
  // ------------------------------------------------------------------

  predicate HoldsRow(cfg: Config, s: State, b: Budget, c: int) {
    exists i :: 0 <= i < |s.rows| && s.rows[i].claim == c && RowIn(cfg, s.now, b, s.rows[i])
  }

  predicate HoldsReservation(cfg: Config, s: State, b: Budget, c: int) {
    exists i :: 0 <= i < |s.ledger| && s.ledger[i].claim == c && ReservationIn(cfg, s.now, b, s.ledger[i])
  }

  /** Claims with a non-failed payout, or a live reservation, in the budget's window. */
  function Held(cfg: Config, s: State, b: Budget): (held: set<int>)
    ensures forall c :: c in held <==> HoldsRow(cfg, s, b, c) || HoldsReservation(cfg, s, b, c)
  {
    (set i | 0 <= i < |s.rows| && RowIn(cfg, s.now, b, s.rows[i]) :: s.rows[i].claim)
    + (set i | 0 <= i < |s.ledger| && ReservationIn(cfg, s.now, b, s.ledger[i]) :: s.ledger[i].claim)
  }

  function ReleasedClaims(s: State): set<int> {
    set c | c in s.records && s.records[c].released
  }

  /** A manual release lifts the Spot budgets, never the global ones. */
  function Counted(cfg: Config, s: State, b: Budget): set<int> {
    if b.Short? || b.Daily? then Held(cfg, s, b) else Held(cfg, s, b) - ReleasedClaims(s)
  }

  ghost predicate Within(w: World, cfg: Config, s: State, b: Budget)
    requires Relevant(w, b)
  {
    forall m :: SumSet(Counted(cfg, s, b), Value(w, m)) <= Max(w, cfg, b, m)
  }

  // ------------------------------------------------------------------
  // The invariant
  // ------------------------------------------------------------------

  ghost predicate RowsOk(w: World, s: State) {
    && Indexed(s.rows, (p: Payout) => !p.failed, (p: Payout) => p.claim)
    && forall i :: 0 <= i < |s.rows| ==>
         s.rows[i].claim in w.claims
         && s.rows[i].amount == w.claims[s.rows[i].claim].reward
         && s.rows[i].spotId == w.claims[s.rows[i].claim].spotId
  }

  ghost predicate LedgerOk(w: World, rs: seq<Reservation>) {
    && Indexed(rs, r => true, (r: Reservation) => r.claim)
    && forall i :: 0 <= i < |rs| ==>
         rs[i].claim in w.claims
         && rs[i].amount == w.claims[rs[i].claim].reward
         && rs[i].spotId == w.claims[rs[i].claim].spotId
  }

  ghost predicate Base(w: World, s: State) { RowsOk(w, s) && LedgerOk(w, s.ledger) }

  // ------------------------------------------------------------------
  // The merged sums count each held claim once
  // ------------------------------------------------------------------

  function LoadOf(l: Load, m: Measure): nat { if m.Number? then l.count else l.amount }

  lemma RowLoad(w: World, cfg: Config, s: State, b: Budget, m: Measure)
    requires RowsOk(w, s)
    ensures var rows := Rows(cfg, s, b);
            SumSet(RowClaims(rows), Value(w, m)) == if m.Number? then |rows| else Sum(rows, (p: Payout) => p.amount)
  {
    var rows := Rows(cfg, s, b);
    var k := (p: Payout) => p.claim;
    FilterIndexed(s.rows, (p: Payout) => !p.failed, (p: Payout) => RowIn(cfg, s.now, b, p), k);
    assert Keys(rows, k) == RowClaims(rows);
    forall i | 0 <= i < |rows| ensures rows[i].amount == Reward(w, rows[i].claim) {
      assert rows[i] in s.rows;
    }
    if m.Number? {
      SumKeys(rows, k, (p: Payout) => 1, Value(w, m));
      SumOnes(rows, (p: Payout) => 1);
    } else {
      SumKeys(rows, k, (p: Payout) => p.amount, Value(w, m));
    }
  }

  lemma {:induction false} SumOnes<T>(rows: seq<T>, f: T -> nat)
    requires forall x :: f(x) == 1
    ensures Sum(rows, f) == |rows|
  {
    if rows != [] {
      SumOnes(rows[..|rows| - 1], f);
    }
  }

  lemma ReservationLoad(w: World, rs: seq<Reservation>, m: Measure)
    requires LedgerOk(w, rs)
    ensures SumSet(ReservedClaims(rs), Value(w, m)) == if m.Number? then |rs| else Sum(rs, (r: Reservation) => r.amount)
  {
    var k := (r: Reservation) => r.claim;
    assert Keys(rs, k) == ReservedClaims(rs);
    if m.Number? {
      SumKeys(rs, k, (r: Reservation) => 1, Value(w, m));
      SumOnes(rs, (r: Reservation) => 1);
    } else {
      SumKeys(rs, k, (r: Reservation) => r.amount, Value(w, m));
    }
  }

  lemma FilterLedger(w: World, rs: seq<Reservation>, q: Reservation -> bool)
    requires LedgerOk(w, rs)
    ensures LedgerOk(w, Filter(rs, q))
  {
    FilterIndexed(rs, r => true, q, (r: Reservation) => r.claim);
    var kept := Filter(rs, q);
    forall i | 0 <= i < |kept| ensures kept[i] in rs {
      assert kept[i] in kept;
    }
  }

  /** `_combined_window_state` computes the size and the value of the held set. */
  lemma CombinedIsHeld(w: World, cfg: Config, s: State, b: Budget, m: Measure)
    requires RowsOk(w, s) && LedgerOk(w, s.ledger)
    ensures LoadOf(BudgetLoad(cfg, s, b), m) == SumSet(Held(cfg, s, b), Value(w, m))
  {
    var rows, rs := Rows(cfg, s, b), Reservations(cfg, s, b);
    var isExtra := (r: Reservation) => r.claim !in RowClaims(rows);
    var extra := Filter(rs, isExtra);
    FilterLedger(w, s.ledger, (r: Reservation) => ReservationIn(cfg, s.now, b, r));
    FilterLedger(w, rs, isExtra);
    RowLoad(w, cfg, s, b, m);
    ReservationLoad(w, extra, m);
    SumSetUnion(RowClaims(rows), ReservedClaims(extra), Value(w, m));
    HeldSplit(cfg, s, b);
  }

  lemma RowClaimsHold(cfg: Config, s: State, b: Budget, c: int)
    ensures c in RowClaims(Rows(cfg, s, b)) <==> HoldsRow(cfg, s, b, c)
  {
    var rows := Rows(cfg, s, b);
    if c in RowClaims(rows) {
      var p :| p in rows && p.claim == c;
      assert p in s.rows;
    }
    if HoldsRow(cfg, s, b, c) {
      var i :| 0 <= i < |s.rows| && s.rows[i].claim == c && RowIn(cfg, s.now, b, s.rows[i]);
      assert s.rows[i] in rows;
    }
  }

  lemma ReservedClaimsHold(cfg: Config, s: State, b: Budget, c: int)
    ensures c in ReservedClaims(Reservations(cfg, s, b)) <==> HoldsReservation(cfg, s, b, c)
  {
    var rs := Reservations(cfg, s, b);
    if c in ReservedClaims(rs) {
      var r :| r in rs && r.claim == c;
      assert r in s.ledger;
    }
    if HoldsReservation(cfg, s, b, c) {
      var i :| 0 <= i < |s.ledger| && s.ledger[i].claim == c && ReservationIn(cfg, s.now, b, s.ledger[i]);
      assert s.ledger[i] in rs;
    }
  }

  lemma HeldSplit(cfg: Config, s: State, b: Budget)
    ensures var rows := Rows(cfg, s, b);
            var extra := Filter(Reservations(cfg, s, b), (r: Reservation) => r.claim !in RowClaims(rows));
            RowClaims(rows) + ReservedClaims(extra) == Held(cfg, s, b)
  {
    var rows, rs := Rows(cfg, s, b), Reservations(cfg, s, b);
    var extra := Filter(rs, (r: Reservation) => r.claim !in RowClaims(rows));
    forall c ensures c in RowClaims(rows) <==> HoldsRow(cfg, s, b, c) {
      RowClaimsHold(cfg, s, b, c);
    }
    forall c ensures c in ReservedClaims(rs) <==> HoldsReservation(cfg, s, b, c) {
      ReservedClaimsHold(cfg, s, b, c);
    }
    forall c ensures c in ReservedClaims(rs) ==> c in RowClaims(rows) || c in ReservedClaims(extra) {
      if c in ReservedClaims(rs) && c !in RowClaims(rows) {
        var r :| r in rs && r.claim == c;
        assert r in extra;
      }
    }
    assert forall c :: c in ReservedClaims(extra) ==> c in ReservedClaims(rs);
  }
}
