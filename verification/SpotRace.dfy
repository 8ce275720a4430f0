/** The remainder send and the ban sweep that the program lets race, as a run of any draft. */
module SpotRace {
  import opened Options
  import opened Sums
  import opened Tables
  import opened SpotLedger
  import opened SpotSolvency
  import opened SpotPreservation
  import opened SpotFunding

  /** A remainder worker pauses after its status check; the Spot is banned and swept; the worker resumes. */
  function RaceRun(fee: nat): seq<Event> {
    Opening(fee, 1) + [PrepareRemainder(true)] + [CheckRemainder(POOL)] + [Ban] + [InsertSweep(POOL)] + [InsertRemainder(POOL)]
  }

  function Late(l: Ledger, status: SpotStatus, rows: Table, sending: set<nat>): Ledger {
    Stage(l, 1, status, rows).(prepared := {POOL}, sending := sending)
  }

  lemma Settleable(l: Ledger)
    ensures CanSettle(Stage(l, 1, Published, Paid(l.spot.creationFee)), true)
  {
    var s := Stage(l, 1, Published, Paid(l.spot.creationFee));
    PaidSums(l.spot.creationFee);
    assert Pendings(s.claims) == {};
  }

  lemma PaidRemainder(fee: nat)
    ensures Remainder(Paid(fee)) == POOL && HasRefundSource(Paid(fee))
  {
    PaidSums(fee);
    assert IsFunding(Paid(fee)[0]);
  }

  lemma Preparing(l: Ledger)
    ensures var rows := Paid(l.spot.creationFee);
            && Steps(Stage(l, 1, Published, rows), PrepareRemainder(true), Late(l, Completed, rows, {}))
            && Steps(Late(l, Completed, rows, {}), CheckRemainder(POOL), Late(l, Completed, rows, {POOL}))
  {
    Settleable(l);
    PaidRemainder(l.spot.creationFee);
    assert {} + {POOL} == {POOL};
  }

  lemma Banning(l: Ledger)
    ensures var rows := Paid(l.spot.creationFee);
            && Steps(Late(l, Completed, rows, {POOL}), Ban, Late(l, Banned, rows, {POOL}))
            && Steps(Late(l, Banned, rows, {POOL}), InsertSweep(POOL), Late(l, Banned, rows + [Intent(PlatFee, 0, POOL)], {POOL}))
  {
    PaidSums(l.spot.creationFee);
    assert CanInsertSweep(Late(l, Banned, Paid(l.spot.creationFee), {POOL}), POOL);
  }

  /** Both rows are there. */
  function Overdrawn(l: Ledger): Ledger {
    Late(l, Banned, Paid(l.spot.creationFee) + [Intent(PlatFee, 0, POOL)] + [Intent(RemainderRefund, 0, POOL)], {POOL})
  }

  lemma Resuming(l: Ledger)
    ensures Steps(Late(l, Banned, Paid(l.spot.creationFee) + [Intent(PlatFee, 0, POOL)], {POOL}), InsertRemainder(POOL), Overdrawn(l))
    ensures Committed(Overdrawn(l)) == Deposits(Overdrawn(l)) + POOL
  {
    var rows := Paid(l.spot.creationFee) + [Intent(PlatFee, 0, POOL)];
    assert CanInsertRemainder(Late(l, Banned, rows, {POOL}), POOL);
    PaidSums(l.spot.creationFee);
    AppendSums(Paid(l.spot.creationFee), Intent(PlatFee, 0, POOL));
    AppendSums(rows, Intent(RemainderRefund, 0, POOL));
  }

  lemma RaceEnds(l: Ledger)
    requires Created(l)
    ensures Reaches(l, RaceRun(l.spot.creationFee), Overdrawn(l))
  {
    var es, rows := Opening(l.spot.creationFee, 1), Paid(l.spot.creationFee);
    var swept := Late(l, Banned, rows + [Intent(PlatFee, 0, POOL)], {POOL});
    Opened(l, 1);
    Preparing(l);
    Banning(l);
    Resuming(l);
    Then(l, es, PrepareRemainder(true), Stage(l, 1, Published, rows), Late(l, Completed, rows, {}));
    es := es + [PrepareRemainder(true)];
    Then(l, es, CheckRemainder(POOL), Late(l, Completed, rows, {}), Late(l, Completed, rows, {POOL}));
    es := es + [CheckRemainder(POOL)];
    Then(l, es, Ban, Late(l, Completed, rows, {POOL}), Late(l, Banned, rows, {POOL}));
    es := es + [Ban];
    Then(l, es, InsertSweep(POOL), Late(l, Banned, rows, {POOL}), swept);
    es := es + [InsertSweep(POOL)];
    Then(l, es, InsertRemainder(POOL), swept, Overdrawn(l));
  }

  /** The race is reachable from every draft, whatever its fee: the same Luna is committed twice. */
  lemma RaceOvercommits(l: Ledger)
    requires Created(l)
    ensures var s := Run(l, RaceRun(l.spot.creationFee));
            Committed(s) == Deposits(s) + POOL > Deposits(s)
  {
    RaceEnds(l);
    Resuming(l);
  }
}
