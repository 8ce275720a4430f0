/** When each step of a Spot happens and what follows from it, written out over its rows and claims. */
module SpotOutcomes {
  import opened Options
  import opened Sums
  import opened Tables
  import opened SpotLedger
  import opened SpotSolvency
  import opened SpotPreservation
  import opened SpotTheorems

  /** A row is among the newest 500. */
  predicate InView(rows: Table, i: int) {
    0 <= i < |rows| && |rows| - 500 <= i
  }

  /** How many rows the queries leave out. */
  function Older(rows: Table): nat {
    if |rows| <= 500 then 0 else |rows| - 500
  }

  lemma RecentIsInView(rows: Table)
    ensures |Recent(rows)| == |rows| - Older(rows)
    ensures forall j :: 0 <= j < |Recent(rows)| ==> InView(rows, Older(rows) + j) && Recent(rows)[j] == rows[Older(rows) + j]
    ensures forall i :: InView(rows, i) ==> 0 <= i - Older(rows) < |Recent(rows)| && Recent(rows)[i - Older(rows)] == rows[i]
  {
    var recent, older := Recent(rows), Older(rows);
    assert |recent| == |rows| - older;
    forall j | 0 <= j < |recent| ensures InView(rows, older + j) && recent[j] == rows[older + j] {}
    forall i | InView(rows, i) ensures 0 <= i - older < |recent| && recent[i - older] == rows[i] {}
  }

  // ------------------------------------------------------------------
  // Completion
  // ------------------------------------------------------------------

  /** The creation fee never changes, and every fee row is for it. */
  ghost predicate FeesOk(l: Ledger) {
    forall i :: 0 <= i < |l.trans| && l.trans[i].kind == CreationFee ==> l.trans[i].amount == l.spot.creationFee > 0
  }

  /** Rows keep their type, and outgoing ones their amount; at most one is added. */
  lemma RowsKept(l: Ledger, e: Event)
    ensures |l.trans| <= |Next(l, e).trans| <= |l.trans| + 1
    ensures forall i :: 0 <= i < |l.trans| ==>
              && Next(l, e).trans[i].kind == l.trans[i].kind
              && (l.trans[i].kind != FillSpot ==> Next(l, e).trans[i].amount == l.trans[i].amount)
  {
  }

  lemma AddedFee(l: Ledger, e: Event)
    requires |Next(l, e).trans| == |l.trans| + 1 && Next(l, e).trans[|l.trans|].kind == CreationFee
    ensures Next(l, e).trans[|l.trans|].amount == l.spot.creationFee > 0
  {
  }

  lemma FeesNext(l: Ledger, e: Event)
    requires FeesOk(l)
    ensures FeesOk(Next(l, e))
  {
    var rows := Next(l, e).trans;
    RowsKept(l, e);
    if |rows| == |l.trans| + 1 && rows[|l.trans|].kind == CreationFee {
      AddedFee(l, e);
    }
    assert Next(l, e).spot.creationFee == l.spot.creationFee;
  }

  lemma {:induction false} RunFees(l: Ledger, es: seq<Event>)
    requires Created(l)
    ensures FeesOk(Run(l, es))
  {
    if es != [] {
      RunFees(l, es[..|es| - 1]);
      FeesNext(Run(l, es[..|es| - 1]), es[|es| - 1]);
    }
  }

  lemma FeeInView(l: Ledger)
    requires FeesOk(l)
    ensures Sum(Recent(l.trans), Confirmed(CreationFee)) >= l.spot.creationFee
            <==> l.spot.creationFee == 0
                 || exists i :: InView(l.trans, i) && l.trans[i].kind == CreationFee && l.trans[i].status == TransConfirmed
  {
    var recent := Recent(l.trans);
    RecentIsInView(l.trans);
    if j: nat :| j < |recent| && recent[j].kind == CreationFee && recent[j].status == TransConfirmed {
      SumElement(recent, j, Confirmed(CreationFee));
      assert InView(l.trans, Older(l.trans) + j);
    } else {
      SumZero(recent, Confirmed(CreationFee));
    }
  }

  lemma NoneWaiting(rows: Table)
    ensures BlockingPending(Recent(rows)) <==> exists i :: InView(rows, i) && rows[i].kind != PlatFee && rows[i].status == TransPending
  {
    var recent := Recent(rows);
    RecentIsInView(rows);
    if BlockingPending(recent) {
      var j :| 0 <= j < |recent| && recent[j].kind != PlatFee && recent[j].status == TransPending;
      assert InView(rows, Older(rows) + j);
    }
    if i :| InView(rows, i) && rows[i].kind != PlatFee && rows[i].status == TransPending {
      assert HasPending(recent, rows[i].kind) by { assert recent[i - Older(rows)] == rows[i]; }
    }
  }

  /** The Spot is over: ended or full, nobody pending, every winner paid, nothing undecided, its fee paid. */
  ghost predicate Over(l: Ledger, ended: bool) {
    && (l.spot.status == Completed
        || (l.spot.status == Published
            && (ended || 0 < l.spot.maxClaims <= |set c | c in l.claims && l.claims[c] == ClaimSuccess|)))
    && (forall c :: c in l.claims ==> l.claims[c] != ClaimPending)
    && (forall c :: c in l.claims && l.claims[c] == ClaimSuccess ==>
          exists i :: 0 <= i < |l.trans| && l.trans[i].kind == ClaimPayout && l.trans[i].claimId == c && l.trans[i].status == TransConfirmed)
    && (forall i :: InView(l.trans, i) && l.trans[i].kind != PlatFee ==> l.trans[i].status != TransPending)
    && (l.spot.creationFee > 0 ==>
          exists i :: InView(l.trans, i) && l.trans[i].kind == CreationFee && l.trans[i].status == TransConfirmed)
  }

  lemma NobodyPends(claims: map<int, ClaimStatus>)
    ensures Pendings(claims) == {} <==> forall c :: c in claims ==> claims[c] != ClaimPending
  {
    if forall c :: c in claims ==> claims[c] != ClaimPending {
      assert forall c :: c !in Pendings(claims);
    } else {
      var c :| c in claims && claims[c] == ClaimPending;
      assert c in Pendings(claims);
    }
  }

  lemma SettlesWhenOver(l: Ledger, ended: bool)
    requires FeesOk(l)
    ensures CanSettle(l, ended) <==> Over(l, ended)
  {
    FeeInView(l);
    NoneWaiting(l.trans);
    assert (set c | c in l.claims && l.claims[c] == ClaimSuccess) == Successes(l.claims);
    assert forall c :: c in Pendings(l.claims) <==> c in l.claims && l.claims[c] == ClaimPending;
    NobodyPends(l.claims);
  }

  /** The one step that completes a published Spot is a settlement pass that finds it over, and
      nothing is refunded or marked settled before. */
  lemma CompletionExactly(s: Ledger, e: Event)
    requires FeesOk(s) && s.spot.status == Published
    ensures Next(s, e).spot.status == Completed <==> e.PrepareRemainder? && Over(s, e.ended)
    ensures Next(s, e).spot.status != Completed ==> Next(s, e).prepared == s.prepared && Next(s, e).settled == s.settled
  {
    if e.PrepareRemainder? {
      SettlesWhenOver(s, e.ended);
    }
  }

  /** Whoever finds a Spot completed can name the pass that found it over. */
  lemma {:induction false} CompletedWasOver(l: Ledger, es: seq<Event>) returns (k: nat)
    requires Created(l) && Run(l, es).spot.status == Completed
    ensures k < |es| && es[k].PrepareRemainder?
    ensures Run(l, es[..k]).spot.status == Published && Over(Run(l, es[..k]), es[k].ended)
  {
    var n := |es| - 1;
    var before := Run(l, es[..n]);
    if before.spot.status == Completed {
      k := CompletedWasOver(l, es[..n]);
      assert es[..n][..k] == es[..k];
    } else {
      k := n;
      RunFees(l, es[..n]);
      CompletionComesFromPublished(before, es[n]);
      CompletionExactly(before, es[n]);
    }
  }

  lemma CompletionComesFromPublished(s: Ledger, e: Event)
    requires s.spot.status != Completed && Next(s, e).spot.status == Completed
    ensures s.spot.status == Published
  {
  }

  /** What a settlement pass does: nothing before the Spot is over; then it completes the Spot, and either
      marks it settled, or prepares exactly what is left for the funding wallet it finds. */
  lemma SettlementExactly(s: Ledger, ended: bool)
    requires FeesOk(s)
    ensures var rows := Recent(s.trans);
            var left := Sum(rows, Confirmed(FillSpot)) - Sum(rows, Confirmed(ClaimPayout)) - Sum(rows, Confirmed(CreationFee))
                        - Sum(rows, Confirmed(RemainderRefund));
            Next(s, PrepareRemainder(ended))
            == if Over(s, ended)
                 then s.(spot := s.spot.(status := Completed), settled := s.settled || left <= 0,
                         prepared := if left > 0 && Wallets(s.trans) then s.prepared + {left} else s.prepared)
                 else s
  {
    SettlesWhenOver(s, ended);
    Settles(s);
  }

  lemma Settles(s: Ledger)
    ensures var t, rows := Settle(s), Recent(s.trans);
            var left := Sum(rows, Confirmed(FillSpot)) - Sum(rows, Confirmed(ClaimPayout)) - Sum(rows, Confirmed(CreationFee))
                        - Sum(rows, Confirmed(RemainderRefund));
            t == s.(spot := s.spot.(status := Completed), settled := s.settled || left <= 0,
                    prepared := if left > 0 && Wallets(s.trans) then s.prepared + {left} else s.prepared)
  {
    SourceInView(s.trans);
  }

  /** A confirmed deposit with a known sender is in view. */
  ghost predicate Wallets(rows: Table) {
    exists i :: InView(rows, i) && rows[i].kind == FillSpot && rows[i].status == TransConfirmed && rows[i].sender != ""
  }

  lemma SourceInView(rows: Table)
    ensures HasRefundSource(Recent(rows)) <==> Wallets(rows)
  {
    var recent := Recent(rows);
    RecentIsInView(rows);
    if j: nat :| j < |recent| && IsFunding(recent[j]) {
      assert InView(rows, Older(rows) + j);
    }
    if i :| InView(rows, i) && rows[i].kind == FillSpot && rows[i].status == TransConfirmed && rows[i].sender != "" {
      assert IsFunding(recent[i - Older(rows)]);
    }
  }

  /** A prepared refund is sent on exactly while the Spot is completed. */
  lemma SendingExactly(s: Ledger, amount: nat)
    ensures Next(s, CheckRemainder(amount)) ==
            if amount in s.prepared && s.spot.status == Completed then s.(sending := s.sending + {amount}) else s
  {
  }

  /** The refund goes out: the prepared amount is checked, inserted and confirmed. */
  lemma RefundIsSent(s: Ledger, amount: nat)
    requires amount in s.prepared && s.spot.status == Completed
    requires forall i :: 0 <= i < |s.trans| && s.trans[i].kind == RemainderRefund ==> s.trans[i].status == TransFailed
    ensures var t := Next(Next(Next(s, CheckRemainder(amount)), InsertRemainder(amount)), Confirm(|s.trans|, DEPOSIT_ACCOUNT, amount));
            t.trans == s.trans + [Trans(RemainderRefund, 0, amount, DEPOSIT_ACCOUNT, TransConfirmed)]
  {
    var u := Next(Next(s, CheckRemainder(amount)), InsertRemainder(amount));
    assert u.trans == s.trans + [Intent(RemainderRefund, 0, amount)];
    SentIsConfirmed(u, s.trans, Intent(RemainderRefund, 0, amount));
  }

  // ------------------------------------------------------------------
  // Publishing and funding
  // ------------------------------------------------------------------

  /** A draft's terms change exactly while it is a draft; its value only until a deposit is pending or confirmed. */
  lemma EditExactly(s: Ledger, total: nat, maxClaims: nat, duration: nat)
    ensures Next(s, EditDraft(total, maxClaims, duration)) ==
            if && s.spot.status == Draft && total >= 50_000_000 && maxClaims >= 1
               && (total == s.spot.totalValue
                   || forall i :: 0 <= i < |s.trans| && s.trans[i].kind == FillSpot ==> s.trans[i].status == TransFailed)
            then s.(spot := Spot(Draft, total, maxClaims, s.spot.creationFee, duration))
            else s
  {
  }

  /** The one step that publishes a draft is a publication of a complete Spot, fully funded, its fee
      confirmed, with rewards of at least 100 NIM. */
  lemma PublicationExactly(s: Ledger, e: Event)
    requires s.spot.status == Draft
    ensures Next(s, e).spot.status == Published
            <==> && e == Publish(true) && s.spot.maxClaims >= 1
                 && s.spot.totalValue >= 10_000_000 * s.spot.maxClaims
                 && Sum(s.trans, Confirmed(FillSpot)) >= s.spot.totalValue + s.spot.creationFee
                 && (s.spot.creationFee > 0 ==>
                       exists i :: 0 <= i < |s.trans| && s.trans[i].kind == CreationFee && s.trans[i].status == TransConfirmed
                                   && s.trans[i].amount == s.spot.creationFee)
  {
  }

  /** A deposit is recorded exactly for a draft with nothing pending and something due, from the creator's
      remembered account; it is recorded for at most what is due. */
  lemma DepositExactly(s: Ledger, amount: int, account: string)
    requires RowsOk(s)
    ensures var due := s.spot.totalValue + s.spot.creationFee - Sum(s.trans, Confirmed(FillSpot));
            Next(s, RecordDeposit(amount, account))
            == if Welcome(s, amount, account) && due > 0
               then s.(trans := s.trans + [Trans(FillSpot, 0, if amount < due then amount else due, account, TransPending)],
                       returnAddress := Some(account))
               else s
  {
    WelcomeIsAccepted(s, amount, account);
  }

  /** A draft with no pending deposit may receive one from its creator's account. */
  ghost predicate Welcome(s: Ledger, amount: int, account: string) {
    && amount > 0 && s.spot.status == Draft
    && (s.returnAddress == Some(account) || (s.returnAddress == None && !AnyFunding(s.trans)))
    && (forall i :: 0 <= i < |s.trans| && s.trans[i].kind == FillSpot ==> s.trans[i].status != TransPending)
  }

  lemma WelcomeIsAccepted(s: Ledger, amount: int, account: string)
    requires RowsOk(s)
    ensures CanRecordDeposit(s, amount, account) <==> Welcome(s, amount, account) && Deposits(s) < s.spot.totalValue + s.spot.creationFee
  {
    FundingWalletIsSender(s.trans);
    PendingDeposits(s);
  }

  ghost predicate AnyFunding(rows: Table) {
    exists i :: 0 <= i < |rows| && rows[i].kind == FillSpot && rows[i].status == TransConfirmed && rows[i].sender != ""
  }

  lemma PendingDeposits(s: Ledger)
    requires RowsOk(s)
    ensures Sum(s.trans, Active(FillSpot)) == Deposits(s) <==> !HasPending(s.trans, FillSpot)
  {
    forall i | 0 <= i < |s.trans| && s.trans[i].kind == FillSpot ensures s.trans[i].amount > 0 {
      assert RowOk(s, s.trans[i]);
    }
    if Sum(s.trans, Active(FillSpot)) == Deposits(s) {
      NothingPending(s.trans);
    }
    ConfirmedIsActive(s.trans, FillSpot);
  }

  /** The fee is submitted exactly once it is covered beside the value, while no other attempt is alive. */
  lemma FeeExactly(s: Ledger)
    ensures Next(s, SubmitCreationFee) ==
            if && s.spot.status != Banned && s.spot.creationFee > 0
               && Sum(s.trans, Confirmed(FillSpot)) >= s.spot.totalValue + s.spot.creationFee
               && (forall i :: 0 <= i < |s.trans| && s.trans[i].kind == CreationFee ==> s.trans[i].status == TransFailed)
            then s.(trans := s.trans + [Trans(CreationFee, 0, s.spot.creationFee, DEPOSIT_ACCOUNT, TransPending)])
            else s
  {
  }

  /** What the chain decides about a row: an outgoing one must show its own account and amount, a deposit at
      least its amount, and a deposit of another wallet than the confirmed ones fails with its facts kept. */
  lemma ConfirmationExactly(l: Ledger, es: seq<Event>, i: nat, sender: string, amount: nat)
    requires Created(l) && i < |Run(l, es).trans|
    ensures var s := Run(l, es);
            var row := s.trans[i];
            Next(s, Confirm(i, sender, amount)).trans ==
            if row.status != TransPending || sender == "" then s.trans
            else if row.kind != FillSpot then
              if sender == row.sender && amount == row.amount then s.trans[i := row.(status := TransConfirmed)] else s.trans
            else if amount < row.amount then s.trans
            else s.trans[i := row.(sender := sender, amount := amount,
                                   status := if Foreign(s.trans, sender) then TransFailed else TransConfirmed)]
  {
    var s := Run(l, es);
    RunFunding(l, es);
    FundingWalletIsSender(s.trans);
    if Foreign(s.trans, sender) {
      var j :| 0 <= j < |s.trans| && s.trans[j].kind == FillSpot && s.trans[j].status == TransConfirmed && s.trans[j].sender != sender;
      assert FundingWallet(s.trans) == Some(s.trans[j].sender);
    }
  }

  /** Some confirmed deposit came from another wallet. */
  ghost predicate Foreign(rows: Table, sender: string) {
    exists j :: 0 <= j < |rows| && rows[j].kind == FillSpot && rows[j].status == TransConfirmed && rows[j].sender != sender
  }

  // ------------------------------------------------------------------
  // Claims
  // ------------------------------------------------------------------

  /** An eligible claim is opened exactly while the published Spot has a place; it waits if there is a duration. */
  lemma OpeningExactly(s: Ledger, c: int, eligible: bool)
    ensures Next(s, OpenClaim(c, eligible)) ==
            if eligible && c !in s.claims && s.spot.status == Published
               && |set d | d in s.claims && s.claims[d] == ClaimSuccess| < s.spot.maxClaims
            then s.(claims := s.claims[c := if s.spot.duration > 0 then ClaimPending else ClaimSuccess])
            else s
  {
    assert (set d | d in s.claims && s.claims[d] == ClaimSuccess) == Successes(s.claims);
  }

  /** A pending claim wins exactly while a place is left; the last place of a duration Spot ends all waiting. */
  lemma PromotionExactly(s: Ledger, c: int, d: int)
    requires c in s.claims && s.claims[c] == ClaimPending && d in s.claims
    ensures var won := |set x | x in s.claims && s.claims[x] == ClaimSuccess|;
            var after := Next(s, ResolveClaim(c)).claims;
            && after.Keys == s.claims.Keys
            && (after[c] == if won < s.spot.maxClaims then ClaimSuccess else ClaimFailed)
            && (d != c ==> after[d] == if s.claims[d] == ClaimPending && s.spot.duration > 0 && won + 1 == s.spot.maxClaims
                                       then ClaimFailed else s.claims[d])
  {
    assert (set x | x in s.claims && s.claims[x] == ClaimSuccess) == Successes(s.claims);
    SuccessesInsert(s.claims, c);
  }

  /** A claim that is given up fails while it waits; a decided one stays. */
  lemma DroppingExactly(s: Ledger, c: int)
    ensures Next(s, DropClaim(c)) ==
            if c in s.claims && s.claims[c] == ClaimPending then s.(claims := s.claims[c := ClaimFailed]) else s
  {
  }

  // ------------------------------------------------------------------
  // Rewards
  // ------------------------------------------------------------------

  predicate HasReward(rows: Table) {
    exists i :: 0 <= i < |rows| && rows[i].kind == ClaimPayout
  }

  /** A Spot that pays rewards can afford the least reward for every place. */
  ghost predicate Worth(l: Ledger) {
    l.spot.status in {Published, Completed} || HasReward(l.trans)
    ==> l.spot.maxClaims > 0 && l.spot.totalValue >= 10_000_000 * l.spot.maxClaims
  }

  lemma FirstReward(l: Ledger, e: Event)
    requires HasReward(Next(l, e).trans) && !HasReward(l.trans)
    ensures e.InsertPayout? && CanInsertPayout(l, e.claim, e.reward)
  {
    var rows := Next(l, e).trans;
    var i :| 0 <= i < |rows| && rows[i].kind == ClaimPayout;
    assert i < |l.trans| ==> rows[i].kind == l.trans[i].kind;
  }

  lemma NoRewardInDraft(l: Ledger)
    requires RowsOk(l) && l.spot.status == Draft
    ensures !HasReward(l.trans)
  {
    forall i | 0 <= i < |l.trans| ensures l.trans[i].kind != ClaimPayout {
      assert RowOk(l, l.trans[i]);
    }
  }

  lemma WorthNext(l: Ledger, e: Event)
    requires Core(l) && Worth(l)
    ensures Worth(Next(l, e))
  {
    if l.spot.status == Draft {
      NoRewardInDraft(l);
      DraftWorth(l, e);
    } else if HasReward(Next(l, e).trans) && !HasReward(l.trans) {
      FirstReward(l, e);
    } else {
      SameWorth(l, e);
    }
  }

  lemma DraftWorth(l: Ledger, e: Event)
    requires ClaimsOk(l) && PayoutJobsOk(l) && l.spot.status == Draft && !HasReward(l.trans)
    ensures Worth(Next(l, e))
  {
    if HasReward(Next(l, e).trans) {
      FirstReward(l, e);
    }
  }

  lemma SameWorth(l: Ledger, e: Event)
    requires l.spot.status != Draft
    ensures Next(l, e).spot.totalValue == l.spot.totalValue && Next(l, e).spot.maxClaims == l.spot.maxClaims
    ensures Next(l, e).spot.status in {Published, Completed} ==> l.spot.status in {Published, Completed}
  {
  }

  lemma {:induction false} RunWorth(l: Ledger, es: seq<Event>)
    requires Orderly(l, es)
    ensures Worth(Run(l, es))
  {
    if es == [] {
      RunCore(l, es);
    } else {
      RunWorth(l, es[..|es| - 1]);
      RunCore(l, es[..|es| - 1]);
      WorthNext(Run(l, es[..|es| - 1]), es[|es| - 1]);
    }
  }

  lemma FloorShare(total: nat, places: nat, least: nat)
    requires places > 0 && total >= least * places
    ensures var share := total / places; least <= share && share * places <= total < (share + 1) * places
  {
    var share := total / places;
    assert total == share * places + total % places;
    Larger(share + 1, least, places);
  }

  lemma Larger(a: nat, b: nat, n: nat)
    ensures a <= b ==> a * n <= b * n
  {
  }

  /** Every reward row is for the value over the places, rounded down, and for at least 100 NIM. */
  ghost predicate PaysTheShare(s: Ledger) {
    forall i :: 0 <= i < |s.trans| && s.trans[i].kind == ClaimPayout ==>
      && s.trans[i].amount * s.spot.maxClaims <= s.spot.totalValue < (s.trans[i].amount + 1) * s.spot.maxClaims
      && s.trans[i].amount >= 10_000_000
  }

  lemma SharesPaid(s: Ledger)
    requires RowsOk(s) && Worth(s)
    ensures PaysTheShare(s)
  {
    forall i | 0 <= i < |s.trans| && s.trans[i].kind == ClaimPayout
      ensures s.trans[i].amount * s.spot.maxClaims <= s.spot.totalValue < (s.trans[i].amount + 1) * s.spot.maxClaims
      ensures s.trans[i].amount >= 10_000_000
    {
      assert RowOk(s, s.trans[i]);
      FloorShare(s.spot.totalValue, s.spot.maxClaims, 10_000_000);
    }
  }

  /** In every run, whatever failed or was retried. */
  lemma RewardIsTheShare(l: Ledger, es: seq<Event>)
    requires Orderly(l, es)
    ensures PaysTheShare(Run(l, es))
  {
    RunCore(l, es);
    RunWorth(l, es);
    SharesPaid(Run(l, es));
  }

  /** A winner with no live attempt is paid its share by the next attempt that goes through. */
  ghost predicate CanBePaid(s: Ledger, c: int) {
    && s.spot.status in {Published, Completed} && c in s.claims && s.claims[c] == ClaimSuccess
    && (forall i :: 0 <= i < |s.trans| && s.trans[i].kind == ClaimPayout && s.trans[i].claimId == c ==> s.trans[i].status == TransFailed)
    ==>
      s.spot.maxClaims > 0 &&
      var share := s.spot.totalValue / s.spot.maxClaims;
      Next(Next(Next(s, PreparePayout(c)), InsertPayout(c, share)), Confirm(|s.trans|, DEPOSIT_ACCOUNT, share)).trans
      == s.trans + [Trans(ClaimPayout, c, share, DEPOSIT_ACCOUNT, TransConfirmed)]
  }

  lemma CoreCanPay(s: Ledger, c: int)
    requires Core(s) && Worth(s)
    ensures CanBePaid(s, c)
  {
    if s.spot.status in {Published, Completed} && c in s.claims && s.claims[c] == ClaimSuccess && !HasActivePayout(s.trans, c) {
      FloorShare(s.spot.totalValue, s.spot.maxClaims, 10_000_000);
      PayoutGoesThrough(s, c, s.spot.totalValue / s.spot.maxClaims);
    }
  }

  /** In every run, however many attempts have failed. */
  lemma WinnerCanBePaid(l: Ledger, es: seq<Event>, c: int)
    requires Orderly(l, es)
    ensures CanBePaid(Run(l, es), c)
  {
    RunCore(l, es);
    RunWorth(l, es);
    CoreCanPay(Run(l, es), c);
  }

  lemma PayoutGoesThrough(s: Ledger, c: int, share: nat)
    requires Core(s) && s.spot.status in {Published, Completed} && c in s.claims && s.claims[c] == ClaimSuccess
    requires !HasActivePayout(s.trans, c) && share == Reward(s.spot) > 0
    ensures Next(Next(Next(s, PreparePayout(c)), InsertPayout(c, share)), Confirm(|s.trans|, DEPOSIT_ACCOUNT, share)).trans
            == s.trans + [Trans(ClaimPayout, c, share, DEPOSIT_ACCOUNT, TransConfirmed)]
  {
    PayoutIsPrepared(s, c, share);
    PayoutIsSent(Next(s, PreparePayout(c)), c, share);
    SentIsConfirmed(Next(Next(s, PreparePayout(c)), InsertPayout(c, share)), s.trans, Intent(ClaimPayout, c, share));
  }

  lemma PayoutIsPrepared(s: Ledger, c: int, share: nat)
    requires RowsOk(s) && c in s.claims && s.claims[c] == ClaimSuccess
    requires !HasActivePayout(s.trans, c) && share == Reward(s.spot) > 0
    ensures var t := Next(s, PreparePayout(c));
            t.spot == s.spot && t.claims == s.claims && t.trans == s.trans && PayoutJob(c, share) in t.payoutJobs
  {
    LatestFailedAmounts(s, c);
  }

  lemma PayoutIsSent(s: Ledger, c: int, share: nat)
    requires PayoutJob(c, share) in s.payoutJobs && c in s.claims && s.spot.status != Banned && !HasActivePayout(s.trans, c)
    ensures Next(s, InsertPayout(c, share)).trans == s.trans + [Intent(ClaimPayout, c, share)]
  {
  }

  /** The chain confirms the last row, an outgoing one. */
  lemma SentIsConfirmed(s: Ledger, rows: Table, t: Trans)
    requires s.trans == rows + [t] && t.kind != FillSpot && t.status == TransPending && t.sender != ""
    ensures Next(s, Confirm(|rows|, t.sender, t.amount)).trans == rows + [t.(status := TransConfirmed)]
  {
    assert s.trans[|rows|] == t;
    assert (rows + [t])[|rows| := t.(status := TransConfirmed)] == rows + [t.(status := TransConfirmed)];
  }

  lemma LatestFailedAmounts(s: Ledger, c: int)
    requires RowsOk(s)
    ensures LatestFailedPayout(s.trans, c) in {0, Reward(s.spot)}
  {
    forall i | 0 <= i < |s.trans| && s.trans[i].kind == ClaimPayout && s.trans[i].claimId == c
      ensures s.trans[i].amount == Reward(s.spot)
    {
      assert RowOk(s, s.trans[i]);
    }
    LatestFailedAmount(s.trans, c, Reward(s.spot));
  }

  // ------------------------------------------------------------------
  // Ban and sweep
  // ------------------------------------------------------------------

  /** A ban fails exactly the claims without a live reward row, and touches nothing else. */
  lemma BanExactly(s: Ledger, c: int)
    requires c in s.claims
    ensures var t := Next(s, Ban);
            && t.spot == s.spot.(status := Banned) && t.trans == s.trans && t.claims.Keys == s.claims.Keys
            && t.claims[c] == if exists i :: 0 <= i < |s.trans| && s.trans[i].kind == ClaimPayout && s.trans[i].claimId == c
                                             && s.trans[i].status in {TransPending, TransConfirmed}
                              then s.claims[c] else ClaimFailed
  {
  }

  /** A sweep is inserted exactly for a banned Spot with nothing undecided in view, no live sweep,
      and for exactly the positive difference in view. */
  lemma SweepExactly(s: Ledger, amount: nat)
    ensures Next(s, InsertSweep(amount)) ==
            if && s.spot.status == Banned
               && (forall i :: InView(s.trans, i) ==> s.trans[i].status != TransPending)
               && (forall i :: 0 <= i < |s.trans| && s.trans[i].kind == PlatFee ==> s.trans[i].status == TransFailed)
               && amount > 0
               && amount as int == Sum(Recent(s.trans), Confirmed(FillSpot)) - Sum(Recent(s.trans), ConfirmedOutgoing())
            then s.(trans := s.trans + [Trans(PlatFee, 0, amount, DEPOSIT_ACCOUNT, TransPending)])
            else s
  {
    var rows := s.trans;
    RecentIsInView(rows);
    assert AnyPending(Recent(rows)) <==> exists i :: InView(rows, i) && rows[i].status == TransPending by {
      if j :| 0 <= j < |Recent(rows)| && Recent(rows)[j].status == TransPending {
        assert InView(rows, Older(rows) + j);
      }
      if i :| InView(rows, i) && rows[i].status == TransPending {
        assert Recent(rows)[i - Older(rows)] == rows[i];
      }
    }
  }
}
