/** Drafts that are funded, charged their fee and published: the start of the concrete runs. */
module SpotFunding {
  import opened Options
  import opened Sums
  import opened Tables
  import opened SpotLedger
  import opened SpotSolvency
  import opened SpotPreservation
  import opened SpotExactness

  const POOL: nat := MIN_SPOT_TOTAL_VALUE

  /** Without a fee the two fee events do nothing. */
  function Opening(fee: nat, m: nat): seq<Event> {
    [] + [EditDraft(POOL, m, 0)] + [RecordDeposit(POOL + fee, "w")] + [Confirm(0, "w", POOL + fee)]
    + [SubmitCreationFee] + [Confirm(1, DEPOSIT_ACCOUNT, fee)] + [Publish(true)]
  }

  ghost predicate Reaches(l: Ledger, es: seq<Event>, t: Ledger) { Run(l, es) == t }

  ghost predicate Steps(s: Ledger, e: Event, t: Ledger) { Next(s, e) == t }

  lemma Then(l: Ledger, es: seq<Event>, e: Event, s: Ledger, t: Ledger)
    requires Reaches(l, es, s) && Steps(s, e, t)
    ensures Reaches(l, es + [e], t)
  {
    assert (es + [e])[..|es|] == es;
  }

  function Deposit(fee: nat, status: TransStatus): Trans { Trans(FillSpot, 0, POOL + fee, "w", status) }

  function Fee(fee: nat, status: TransStatus): Trans { Trans(CreationFee, 0, fee, DEPOSIT_ACCOUNT, status) }

  /** The rows of the funded and charged Spot. */
  function Paid(fee: nat): Table {
    if fee == 0 then [Deposit(fee, TransConfirmed)] else [Deposit(fee, TransConfirmed), Fee(fee, TransConfirmed)]
  }

  /** The draft l with its value set, a number of rewards, and some rows; nothing else has happened. */
  function Stage(l: Ledger, m: nat, status: SpotStatus, rows: Table): Ledger {
    Ledger(Spot(status, POOL, m, l.spot.creationFee, 0), map[], rows, if rows == [] then None else Some("w"), {}, {}, {}, l.settled)
  }

  lemma Funding(l: Ledger, m: nat)
    requires Created(l) && m > 0
    ensures var fee := l.spot.creationFee;
            && Steps(l, EditDraft(POOL, m, 0), Stage(l, m, Draft, []))
            && Steps(Stage(l, m, Draft, []), RecordDeposit(POOL + fee, "w"), Stage(l, m, Draft, [Deposit(fee, TransPending)]))
            && Steps(Stage(l, m, Draft, [Deposit(fee, TransPending)]), Confirm(0, "w", POOL + fee),
                     Stage(l, m, Draft, [Deposit(fee, TransConfirmed)]))
  {
    var fee := l.spot.creationFee;
    assert CanRecordDeposit(Stage(l, m, Draft, []), POOL + fee, "w");
    assert [] + [Deposit(fee, TransPending)] == [Deposit(fee, TransPending)];
    assert [Deposit(fee, TransPending)][..0] == [];
    assert [Deposit(fee, TransPending)][0 := Deposit(fee, TransConfirmed)] == [Deposit(fee, TransConfirmed)];
  }

  lemma OneDeposit(fee: nat)
    ensures var rows := [Deposit(fee, TransConfirmed)];
            && (forall k :: Sum(rows, Confirmed(k)) == if k == FillSpot then POOL + fee else 0)
            && (forall k :: Sum(rows, Active(k)) == if k == FillSpot then POOL + fee else 0)
  {
    AppendSums([], Deposit(fee, TransConfirmed));
    assert [] + [Deposit(fee, TransConfirmed)] == [Deposit(fee, TransConfirmed)];
  }

  lemma PaidSums(fee: nat)
    ensures forall k :: Sum(Paid(fee), Confirmed(k)) == if k == FillSpot then POOL + fee else if k == CreationFee then fee else 0
    ensures forall k :: Sum(Paid(fee), Active(k)) == Sum(Paid(fee), Confirmed(k))
    ensures Sum(Paid(fee), ConfirmedOutgoing()) == fee
  {
    OneDeposit(fee);
    AppendSums([Deposit(fee, TransConfirmed)], Fee(fee, TransConfirmed));
    assert [Deposit(fee, TransConfirmed)] + [Fee(fee, TransConfirmed)] == [Deposit(fee, TransConfirmed), Fee(fee, TransConfirmed)];
    OutgoingByType(Paid(fee));
  }

  /** Between the fee's submission and its confirmation. */
  function Charged(l: Ledger, m: nat): Ledger {
    var fee := l.spot.creationFee;
    Stage(l, m, Draft, if fee == 0 then [Deposit(fee, TransConfirmed)] else [Deposit(fee, TransConfirmed), Fee(fee, TransPending)])
  }

  lemma Charging(l: Ledger, m: nat)
    requires m > 0
    ensures Steps(Stage(l, m, Draft, [Deposit(l.spot.creationFee, TransConfirmed)]), SubmitCreationFee, Charged(l, m))
    ensures Steps(Charged(l, m), Confirm(1, DEPOSIT_ACCOUNT, l.spot.creationFee), Stage(l, m, Draft, Paid(l.spot.creationFee)))
  {
    var fee := l.spot.creationFee;
    var rows := [Deposit(fee, TransConfirmed)];
    OneDeposit(fee);
    if fee > 0 {
      assert CanSubmitCreationFee(Stage(l, m, Draft, rows));
      assert rows + [Fee(fee, TransPending)] == [rows[0], Fee(fee, TransPending)];
      assert [rows[0], Fee(fee, TransPending)][1 := Fee(fee, TransConfirmed)] == Paid(fee);
    }
  }

  lemma Publishing(l: Ledger, m: nat)
    requires 1 <= m <= 5
    ensures Steps(Stage(l, m, Draft, Paid(l.spot.creationFee)), Publish(true), Stage(l, m, Published, Paid(l.spot.creationFee)))
  {
    var rows := Paid(l.spot.creationFee);
    PaidSums(l.spot.creationFee);
    assert l.spot.creationFee > 0 ==> rows[1].kind == CreationFee;
  }

  lemma Funded(l: Ledger, m: nat)
    requires Created(l) && m > 0
    ensures var fee := l.spot.creationFee;
            Reaches(l, [] + [EditDraft(POOL, m, 0)] + [RecordDeposit(POOL + fee, "w")] + [Confirm(0, "w", POOL + fee)],
                    Stage(l, m, Draft, [Deposit(fee, TransConfirmed)]))
  {
    var fee := l.spot.creationFee;
    Funding(l, m);
    assert Reaches(l, [], l);
    Then(l, [], EditDraft(POOL, m, 0), l, Stage(l, m, Draft, []));
    Then(l, [] + [EditDraft(POOL, m, 0)], RecordDeposit(POOL + fee, "w"),
         Stage(l, m, Draft, []), Stage(l, m, Draft, [Deposit(fee, TransPending)]));
    Then(l, [] + [EditDraft(POOL, m, 0)] + [RecordDeposit(POOL + fee, "w")], Confirm(0, "w", POOL + fee),
         Stage(l, m, Draft, [Deposit(fee, TransPending)]), Stage(l, m, Draft, [Deposit(fee, TransConfirmed)]));
  }

  /** Every draft can be funded, charged and published. */
  lemma Opened(l: Ledger, m: nat)
    requires Created(l) && 1 <= m <= 5
    ensures Reaches(l, Opening(l.spot.creationFee, m), Stage(l, m, Published, Paid(l.spot.creationFee)))
  {
    var fee := l.spot.creationFee;
    var es := [] + [EditDraft(POOL, m, 0)] + [RecordDeposit(POOL + fee, "w")] + [Confirm(0, "w", POOL + fee)];
    Funded(l, m);
    Charging(l, m);
    Publishing(l, m);
    Then(l, es, SubmitCreationFee, Stage(l, m, Draft, [Deposit(fee, TransConfirmed)]), Charged(l, m));
    Then(l, es + [SubmitCreationFee], Confirm(1, DEPOSIT_ACCOUNT, fee), Charged(l, m), Stage(l, m, Draft, Paid(fee)));
    Then(l, es + [SubmitCreationFee] + [Confirm(1, DEPOSIT_ACCOUNT, fee)], Publish(true),
         Stage(l, m, Draft, Paid(fee)), Stage(l, m, Published, Paid(fee)));
  }
}
