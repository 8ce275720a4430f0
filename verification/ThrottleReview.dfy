/** Admission and the security gate together: what an open Standard claim needs before it is paid. */
module ThrottleReview {
  import opened Sums
  import opened PayoutThrottle
  import opened ThrottleSafety
  import opened ThrottleRuns
  import opened ThrottleTheorems

  /** The Spot decisions carry the review mark even when they allow: the first automatic
      admission of an open Standard claim marks its record for manual review, and no
      other allowed request does. */
  lemma AdmissionMarksReview(w: World, cfg: Config, s: State, c: int, amount: nat)
    requires c in s.records && !s.records[c].review
    requires Reserve(w, cfg, s, c, amount).1.allow
    ensures var p := Pruned(w, cfg, s);
            Reserve(w, cfg, s, c, amount).0.records[c].review
            <==> IsOpenStandard(w, c) && !Released(s, c) && !InWindowRows(cfg, p, c) && c !in ReservedClaims(p.ledger)
  {
  }

  predicate HasRow(s: State, c: int) {
    exists i :: 0 <= i < |s.rows| && s.rows[i].claim == c
  }

  /** A reserved claim is under review until it is released, and so has no row before. */
  predicate OnHold(s: State, c: int) {
    && (c in ReservedClaims(s.ledger) ==> c in s.records && (s.records[c].review || s.records[c].released))
    && (HasRow(s, c) ==> Released(s, c))
  }

  lemma ReservedSubset(a: seq<Reservation>, b: seq<Reservation>)
    requires forall i :: 0 <= i < |a| ==> a[i] in b
    ensures ReservedClaims(a) <= ReservedClaims(b)
  {
    forall c | c in ReservedClaims(a) ensures c in ReservedClaims(b) {
      var r :| r in a && r.claim == c;
      assert r in b;
    }
  }

  lemma RestampClaims(w: World, cfg: Config, now: int, rs: seq<Reservation>, d: int)
    requires LedgerOk(w, rs)
    ensures ReservedClaims(Restamp(cfg, now, rs, d)) <= ReservedClaims(rs)
  {
    var out := Restamp(cfg, now, rs, d);
    RestampOk(w, cfg, now, rs, d);
    forall c | c in ReservedClaims(out) ensures c in ReservedClaims(rs) {
      var i :| 0 <= i < |out| && out[i].claim == c;
      assert rs[i] in rs && rs[i].claim == c;
    }
  }

  lemma AppendedClaims(rs: seq<Reservation>, r: Reservation)
    ensures ReservedClaims(rs + [r]) <= ReservedClaims(rs) + {r.claim}
  {
  }

  /** All that a request may do. */
  ghost predicate Asked(w: World, cfg: Config, p: State, d: int, amount: nat, t: State) {
    && t.rows == p.rows
    && (t.ledger == p.ledger || t.ledger == Restamp(cfg, p.now, p.ledger, d)
        || t.ledger == p.ledger + [NewReservation(w, p, d, amount)])
    && (t.records == p.records || t.records == MarkReview(p, d).records)
  }

  lemma ApplyShape(w: World, cfg: Config, p: State, d: int, amount: nat, decision: Decision)
    ensures Asked(w, cfg, p, d, amount, Apply(w, cfg, p, d, amount, decision).0)
  {
  }

  lemma ReserveShape(w: World, cfg: Config, s: State, d: int, amount: nat)
    ensures Asked(w, cfg, Pruned(w, cfg, s), d, amount, Reserve(w, cfg, s, d, amount).0)
  {
    ApplyShape(w, cfg, Pruned(w, cfg, s), d, amount, SlotDecision(w, cfg, Pruned(w, cfg, s), d, amount));
  }

  lemma LedgerClaims(w: World, cfg: Config, p: State, d: int, amount: nat, rs: seq<Reservation>)
    requires LedgerOk(w, p.ledger)
    requires rs == p.ledger || rs == Restamp(cfg, p.now, p.ledger, d) || rs == p.ledger + [NewReservation(w, p, d, amount)]
    ensures ReservedClaims(rs) <= ReservedClaims(p.ledger) + {d}
  {
    RestampClaims(w, cfg, p.now, p.ledger, d);
    AppendedClaims(p.ledger, NewReservation(w, p, d, amount));
  }

  lemma SameHold(s: State, t: State, c: int)
    requires OnHold(s, c) && t.rows == s.rows
    requires c in ReservedClaims(t.ledger) ==> c in ReservedClaims(s.ledger)
    requires c in s.records ==> c in t.records && t.records[c] == s.records[c]
    ensures OnHold(t, c)
  {
    assert HasRow(t, c) == HasRow(s, c);
  }

  /** A request for another claim changes nothing for this one. */
  lemma ReserveOnHold(w: World, cfg: Config, s: State, d: int, amount: nat, c: int)
    requires Base(w, s) && OnHold(s, c) && d != c
    ensures OnHold(Reserve(w, cfg, s, d, amount).0, c)
    ensures c in s.records ==> c in Reserve(w, cfg, s, d, amount).0.records
  {
    var p := Pruned(w, cfg, s);
    var t := Reserve(w, cfg, s, d, amount).0;
    PrunedBase(w, cfg, s);
    ReserveShape(w, cfg, s, d, amount);
    LedgerClaims(w, cfg, p, d, amount, t.ledger);
    ReservedSubset(p.ledger, s.ledger);
    SameHold(s, t, c);
  }

  /** An allowed claim of an open Spot that is not released is told to be reviewed. */
  lemma AllowedIsReviewed(w: World, cfg: Config, p: State, c: int, amount: nat)
    requires IsOpenStandard(w, c) && !Released(p, c) && FreshDecision(w, cfg, p, c, amount).allow
    ensures FreshDecision(w, cfg, p, c, amount).manualReview
  {
  }

  lemma ApplyOnHold(w: World, cfg: Config, p: State, c: int, amount: nat, d: Decision)
    requires OnHold(p, c) && c in p.records
    requires c !in ReservedClaims(p.ledger) && d.allow && !Released(p, c) ==> d.manualReview
    ensures OnHold(Apply(w, cfg, p, c, amount, d).0, c) && c in Apply(w, cfg, p, c, amount, d).0.records
  {
    assert HasRow(Apply(w, cfg, p, c, amount, d).0, c) == HasRow(p, c);
  }

  /** The claim's own admission puts it under review. */
  lemma AdmittedOnHold(w: World, cfg: Config, s: State, c: int, amount: nat)
    requires OnHold(s, c) && IsOpenStandard(w, c) && c in s.records
    ensures OnHold(Reserve(w, cfg, s, c, amount).0, c) && c in Reserve(w, cfg, s, c, amount).0.records
  {
    var p := Pruned(w, cfg, s);
    ReservedSubset(p.ledger, s.ledger);
    SameHold(s, p, c);
    if c !in ReservedClaims(p.ledger) && !Released(p, c) && FreshDecision(w, cfg, p, c, amount).allow {
      AllowedIsReviewed(w, cfg, p, c, amount);
    }
    ApplyOnHold(w, cfg, p, c, amount, SlotDecision(w, cfg, p, c, amount));
  }

  lemma InsertOnHold(w: World, cfg: Config, s: State, d: int, c: int)
    requires OnHold(s, c) && IsOpenStandard(w, c) && (w.isPublic || c in s.records)
    requires CanInsert(w, s, d) && (d == c ==> c in ReservedClaims(s.ledger) || Released(s, c))
    ensures OnHold(WithRow(w, s, d), c)
  {
    var t := WithRow(w, s, d);
    if HasRow(t, c) && !HasRow(s, c) {
      var i :| 0 <= i < |t.rows| && t.rows[i].claim == c;
      assert i == |s.rows| && d == c;
    }
  }

  lemma RequestOnHold(w: World, cfg: Config, s: State, d: int, amount: nat, c: int)
    requires Base(w, s) && OnHold(s, c) && IsOpenStandard(w, c) && (d == c ==> c in s.records)
    ensures OnHold(Reserve(w, cfg, s, d, amount).0, c)
    ensures c in s.records ==> c in Reserve(w, cfg, s, d, amount).0.records
  {
    if d == c {
      AdmittedOnHold(w, cfg, s, c, amount);
    } else {
      ReserveOnHold(w, cfg, s, d, amount, c);
    }
  }

  lemma NextOnHold(w: World, cfg: Config, s: State, e: Event, c: int)
    requires Base(w, s) && OnHold(s, c) && IsOpenStandard(w, c) && (w.isPublic || c in s.records)
    requires e.InsertIntent? && e.claim == c && CanInsert(w, s, c) ==> c in ReservedClaims(s.ledger) || Released(s, c)
    ensures OnHold(Next(w, cfg, s, e), c)
    ensures c in s.records ==> c in Next(w, cfg, s, e).records
  {
    var t := Next(w, cfg, s, e);
    match e
    case ReserveSlot(d) =>
      if CanReserve(w, s, d) {
        RequestOnHold(w, cfg, s, d, w.claims[d].reward, c);
      }
    case InsertIntent(d) => if CanInsert(w, s, d) { InsertOnHold(w, cfg, s, d, c); }
    case FailRow(i) => FailRowOnHold(w, cfg, s, i, c);
    case _ =>
      assert t.rows == s.rows && t.ledger == s.ledger;
      assert HasRow(t, c) == HasRow(s, c);
  }

  lemma FailRowOnHold(w: World, cfg: Config, s: State, i: nat, c: int)
    requires OnHold(s, c)
    ensures OnHold(Next(w, cfg, s, FailRow(i)), c)
  {
    var t := Next(w, cfg, s, FailRow(i));
    if HasRow(t, c) {
      var j :| 0 <= j < |t.rows| && t.rows[j].claim == c;
      assert s.rows[j].claim == c;
    }
  }

  lemma {:induction false} RunOnHold(w: World, cfg: Config, s: State, es: seq<Event>, c: int)
    requires Starts(s) && IsOpenStandard(w, c) && (w.isPublic || c in s.records) && Reserved(w, cfg, s, es)
    ensures OnHold(Run(w, cfg, s, es), c)
    ensures c in s.records ==> c in Run(w, cfg, s, es).records
  {
    if es != [] {
      RunOnHold(w, cfg, s, es[..|es| - 1], c);
      RunBase(w, cfg, s, es[..|es| - 1]);
      NextOnHold(w, cfg, Run(w, cfg, s, es[..|es| - 1]), es[|es| - 1], c);
    }
  }

  /** Whatever the budgets allow, no payout of an open Standard claim is ever inserted before the
      claim has been released by hand: the admission itself raises the mark the sender then obeys. */
  lemma PaidOnlyWhenReleased(w: World, cfg: Config, s: State, es: seq<Event>, i: nat)
    requires Starts(s) && Reserved(w, cfg, s, es) && i < |Run(w, cfg, s, es).rows|
    ensures var t := Run(w, cfg, s, es);
            var c := t.rows[i].claim;
            IsOpenStandard(w, c) && (w.isPublic || c in s.records) ==> Released(t, c)
  {
    var t := Run(w, cfg, s, es);
    var c := t.rows[i].claim;
    if IsOpenStandard(w, c) && (w.isPublic || c in s.records) {
      RunOnHold(w, cfg, s, es, c);
      assert HasRow(t, c);
    }
  }

  /** A hold keeps a recorded claim's row out. */
  lemma HeldIsNotPaid(w: World, cfg: Config, s: State, c: int)
    requires c in s.records
    ensures Next(w, cfg, Next(w, cfg, s, HoldClaim(c)), InsertIntent(c)).rows == s.rows
  {
  }

  /** A release by hand lets the row of a claim without an unfailed one through, whatever was marked before. */
  lemma ReleasedCanBePaid(w: World, cfg: Config, s: State, c: int)
    requires c in s.records && c in w.claims && w.claims[c].reward > 0
    requires forall i :: 0 <= i < |s.rows| && s.rows[i].claim == c ==> s.rows[i].failed
    ensures Next(w, cfg, Next(w, cfg, s, ReleaseReview(c)), InsertIntent(c)).rows
            == s.rows + [Payout(c, w.claims[c].reward, w.claims[c].spotId, s.now, false)]
  {
  }
}
