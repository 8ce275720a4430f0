/** The durable reservation ledger and the loops that maintain it. */
module ThrottleStore {
  import opened Options
  import opened Sums
  import opened PayoutThrottle

  /** `_combined_window_state`: one pass over the rows, one over the reservations. */
  method CombinedWindowState(rows: seq<Payout>, rs: seq<Reservation>) returns (load: Load)
    ensures load == Combined(rows, rs)
  {
    var transactionClaims: set<int> := {};
    var count, amount := 0, 0;
    for i := 0 to |rows|
      invariant count == i
      invariant transactionClaims == RowClaims(rows[..i])
      invariant amount == Sum(rows[..i], (p: Payout) => p.amount)
    {
      assert rows[..i + 1] == rows[..i] + [rows[i]];
      SumAppend(rows[..i], rows[i], (p: Payout) => p.amount);
      count, amount := count + 1, amount + rows[i].amount;
      transactionClaims := transactionClaims + {rows[i].claim};
    }
    assert rows[..|rows|] == rows;
    var base, baseCount := amount, count;
    var isExtra := (r: Reservation) => r.claim !in RowClaims(rows);
    for i := 0 to |rs|
      invariant count == baseCount + |Filter(rs[..i], isExtra)|
      invariant amount == base + Sum(Filter(rs[..i], isExtra), (r: Reservation) => r.amount)
    {
      assert rs[..i + 1] == rs[..i] + [rs[i]];
      FilterAppend(rs[..i], rs[i], isExtra);
      if rs[i].claim !in transactionClaims {
        SumAppend(Filter(rs[..i], isExtra), rs[i], (r: Reservation) => r.amount);
        count, amount := count + 1, amount + rs[i].amount;
      }
    }
    assert rs[..|rs|] == rs;
    load := Load(count, amount);
  }

  /** The loop of `_prune_reservations`. */
  method PruneReservations(w: World, cfg: Config, s: State) returns (kept: seq<Reservation>)
    ensures kept == Pruned(w, cfg, s).ledger
  {
    kept := [];
    ghost var keeps := r => Kept(w, cfg, s, r);
    for i := 0 to |s.ledger|
      invariant kept == Filter(s.ledger[..i], keeps)
    {
      var r := s.ledger[i];
      assert s.ledger[..i + 1] == s.ledger[..i] + [r];
      FilterAppend(s.ledger[..i], r, keeps);
      if r.claim in w.claims && Materialised(s.rows, r.claim) {
        continue;
      }
      if IsOpenStandard(w, r.claim) || ShortLive(cfg, s.now, r) || DailyLive(cfg, s.now, r) {
        kept := kept + [r];
      }
    }
    assert s.ledger[..|s.ledger|] == s.ledger;
  }

  /** The two window states `reserve_payout_slot` compares with the global limits. */
  method CheckGlobal(cfg: Config, s: State, amount: nat) returns (d: Decision)
    ensures d == GlobalDecision(cfg, s, amount)
  {
    var short := CombinedWindowState(Rows(cfg, s, Short), Reservations(cfg, s, Short));
    var daily := CombinedWindowState(Rows(cfg, s, Daily), Reservations(cfg, s, Daily));
    d := ThrottleDecision(cfg, short, daily, amount);
  }

  method CheckSpotWindow(cfg: Config, s: State, id: int, amount: nat) returns (d: Decision)
    ensures d == SpotWindowDecision(cfg, BudgetLoad(cfg, s, SpotWindow(id)), amount)
  {
    var load := CombinedWindowState(Rows(cfg, s, SpotWindow(id)), Reservations(cfg, s, SpotWindow(id)));
    d := SpotWindowDecision(cfg, load, amount);
  }

  lemma {:induction false} RestampFirst(cfg: Config, now: int, rs: seq<Reservation>, c: int, i: nat)
    requires i <= |rs| && (forall j :: 0 <= j < i ==> rs[j].claim != c) && (i < |rs| ==> rs[i].claim == c)
    ensures Restamp(cfg, now, rs, c) == if i < |rs| then rs[i := Restamped(cfg, now, rs[i])] else rs
  {
    if i > 0 {
      RestampFirst(cfg, now, rs[1..], c, i - 1);
      if i < |rs| {
        assert rs[i := Restamped(cfg, now, rs[i])] == [rs[0]] + rs[1..][i - 1 := Restamped(cfg, now, rs[i])];
      }
    } else if rs != [] {
      assert rs[0 := Restamped(cfg, now, rs[0])] == [Restamped(cfg, now, rs[0])] + rs[1..];
    }
  }

  class Ledger {
    const w: World
    const cfg: Config
    var now: int
    var rows: seq<Payout>
    var reservations: seq<Reservation>
    var records: map<int, Record>

    function Value(): State
      reads this
    {
      State(now, rows, reservations, records)
    }

    constructor (w: World, cfg: Config, now: int)
      ensures Value() == State(now, [], [], map[]) && this.w == w && this.cfg == cfg
    {
      this.w, this.cfg, this.now := w, cfg, now;
      rows, reservations, records := [], [], map[];
    }

    method MarkForReview(c: int)
      modifies this`records
      ensures Value() == MarkReview(old(Value()), c)
    {
      if c in records {
        records := records[c := records[c].(review := true)];
      }
    }

    /** Refresh the expired stamps of the claim's own reservation, in place. */
    method RefreshStamps(c: int)
      modifies this`reservations
      ensures reservations == Restamp(cfg, now, old(reservations), c)
    {
      var i := 0;
      while i < |reservations| && reservations[i].claim != c
        invariant 0 <= i <= |reservations|
        invariant forall j :: 0 <= j < i ==> reservations[j].claim != c
      {
        i := i + 1;
      }
      RestampFirst(cfg, now, reservations, c, i);
      if i < |reservations| {
        var r := reservations[i];
        if !ShortLive(cfg, now, r) {
          r := r.(shortAt := now);
        }
        if !DailyLive(cfg, now, r) {
          r := r.(dailyAt := now);
        }
        if !SpotLive(cfg, now, r) {
          r := r.(spotAt := now);
        }
        reservations := reservations[i := r];
      }
    }

    /** `reserve_payout_slot`: None for an identifier or an amount that is not positive */
    method ReservePayoutSlot(c: int, amount: int) returns (d: Option<Decision>)
      modifies this
      ensures d.None? <==> c <= 0 || amount <= 0
      ensures d.None? ==> Value() == old(Value())
      ensures d.Some? ==> (Value(), d.value) == Reserve(w, cfg, old(Value()), c, amount)
    {
      if c <= 0 || amount <= 0 {
        return None;
      }
      reservations := PruneReservations(w, cfg, Value());
      if InWindowRows(cfg, Value(), c) {
        return Some(Decision(true, AlreadyMaterialised, false));
      }
      if c in ReservedClaims(reservations) {
        var decision := Recheck(c, amount);
        if decision.allow {
          RefreshStamps(c);
          decision := decision.(reason := ExistingReservation);
        } else if decision.manualReview {
          MarkForReview(c);
        }
        return Some(decision);
      }
      var decision := Admit(c, amount);
      if decision.manualReview {
        MarkForReview(c);
      }
      if decision.allow {
        reservations := reservations + [NewReservation(w, Value(), c, amount)];
      }
      return Some(decision);
    }

    /** The claim has a reservation already: only the windows are checked, without it. */
    method Recheck(c: int, amount: nat) returns (d: Decision)
      ensures d == RecheckDecision(w, cfg, Value(), c, amount)
    {
      var others := Value().(ledger := Without(reservations, c));
      d := CheckGlobal(cfg, others, amount);
      if d.allow && IsOpenStandard(w, c) && !Released(Value(), c) {
        d := CheckSpotWindow(cfg, others, SpotOf(w, c), amount);
      }
    }

    /** The claim has none: the global windows, then the lifetime share, then the Spot window. */
    method Admit(c: int, amount: nat) returns (d: Decision)
      ensures d == FreshDecision(w, cfg, Value(), c, amount)
    {
      var id := SpotOf(w, c);
      d := CheckGlobal(cfg, Value(), amount);
      if d.allow && IsOpenStandard(w, c) && !Released(Value(), c) {
        var load := CombinedWindowState(Rows(cfg, Value(), Lifetime(id)), Reservations(cfg, Value(), Lifetime(id)));
        d := SpotLifetimeDecision(cfg, load, amount, w.spots[id]);
        if d.allow {
          d := CheckSpotWindow(cfg, Value(), id, amount);
        }
      }
    }
  }
}
