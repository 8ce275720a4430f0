/** When a Prizedraw closes and what its entrants get, written out over claims and rows. */
module PrizedrawOutcomes {
  import opened Ordering
  import opened Sums
  import opened Tables
  import opened Prizedraw
  import opened PrizedrawRuns

  /** Entries that are pending or successful. */
  function Entrants(d: Draw): set<int> {
    set c | c in d.claims && d.claims[c] in {ClaimPending, ClaimSuccess}
  }

  lemma EntrantsCount(d: Draw)
    ensures |Entrants(d)| == |Pendings(d.claims)| + |Successes(d.claims)|
  {
    assert Entrants(d) == Pendings(d.claims) + Successes(d.claims);
    assert Pendings(d.claims) !! Successes(d.claims);
  }

  /** The period is over, or every place is taken. */
  predicate Over(d: Draw, ended: bool) {
    ended || (d.maxEntries > 0 && |Entrants(d)| >= d.maxEntries)
  }

  /** The one step that completes a published Prizedraw is a settlement that finds it over. */
  lemma DrawNeedsTheEnd(d: Draw, e: Event)
    requires d.status == Published && Next(d, e).status == Completed
    ensures e.Settle? && Over(d, e.ended)
  {
    EntrantsCount(d);
  }

  /** Whoever finds a Prizedraw completed can name the settlement that found it over. */
  lemma {:induction false} CompletedWasOver(d: Draw, es: seq<Event>) returns (k: nat)
    requires Opened(d) && Run(d, es).status == Completed
    ensures k < |es| && es[k].Settle? && Run(d, es[..k]).status == Published && Over(Run(d, es[..k]), es[k].ended)
  {
    var n := |es| - 1;
    if Run(d, es[..n]).status == Completed {
      k := CompletedWasOver(d, es[..n]);
      assert es[..n][..k] == es[..k];
    } else {
      k := n;
      DrawNeedsTheEnd(Run(d, es[..n]), es[n]);
    }
  }

  /** A settlement that finds the Prizedraw over draws: pending entries fail, the sample of successes is set
      aside for payment, and the other successes stay as they are. */
  lemma SettlementExactly(d: Draw, ended: bool, eligible: set<int>, sample: set<int>, c: int)
    requires c in d.claims && eligible <= (set x | x in d.claims && d.claims[x] == ClaimSuccess) && sample <= eligible
    requires |eligible| == var wins := |set x | x in d.claims && d.claims[x] == ClaimSuccess|; if wins < 500 then wins else 500
    requires |sample| == var prizes := if d.prizeCount == 0 then 1 else d.prizeCount; if prizes < |eligible| then prizes else |eligible|
    ensures var t := Next(d, Settle(ended, eligible, sample));
            if d.status == Published && Over(d, ended)
            then && t.status == Completed && t.trans == d.trans && t.jobs == d.jobs && t.drawn == sample && t.draws == d.draws + 1
                 && t.claims.Keys == d.claims.Keys
                 && t.claims[c] == match d.claims[c]
                    case ClaimPending => ClaimFailed
                    case ClaimSuccess => if c in sample then ClaimPending else ClaimSuccess
                    case ClaimFailed => ClaimFailed
            else t == d
  {
    EntrantsCount(d);
    assert (set x | x in d.claims && d.claims[x] == ClaimSuccess) == Successes(d.claims);
  }

  /** An entry is accepted exactly under a new positive id, before the draw, while a place is free. */
  lemma EntryExactly(d: Draw, c: int, instant: bool)
    ensures Next(d, Enter(c, instant)) ==
            if c > 0 && c !in d.claims && d.status == Published && (d.maxEntries == 0 || |Entrants(d)| < d.maxEntries)
            then d.(claims := d.claims[c := if instant then ClaimSuccess else ClaimPending])
            else d
  {
    EntrantsCount(d);
  }

  /** A pending entry is decided exactly before the draw; a pending winner is left alone. */
  lemma ResolutionExactly(d: Draw, c: int, passed: bool)
    ensures Next(d, ResolveEntry(c, passed)) ==
            if d.status == Published && c in d.claims && d.claims[c] == ClaimPending
            then d.(claims := d.claims[c := if passed then ClaimSuccess else ClaimFailed])
            else d
  {
  }

  // ------------------------------------------------------------------
  // Winners are paid
  // ------------------------------------------------------------------

  /** The share of a drawn winner: an equal part, and for the smallest id what is left over. */
  function ShareOf(d: Draw, c: int): nat
    requires c in d.drawn
  {
    d.total / |d.drawn| + if forall x :: x in d.drawn ==> c <= x then d.total % |d.drawn| else 0
  }

  lemma ShareIsAllocated(d: Draw, c: int)
    requires c in d.drawn
    ensures Allocation(d.total, d.drawn)[c] == ShareOf(d, c)
  {
    AllocationOf(d.total, d.drawn, c);
    assert Least(d.drawn) in d.drawn;
  }

  /** A waiting winner with no live attempt and a positive share gets it by the next attempt that goes through. */
  ghost predicate CanBePaid(d: Draw, c: int) {
    && d.status == Completed && c in d.claims && d.claims[c] == ClaimPending && c in d.drawn && ShareOf(d, c) > 0
    && (forall i :: 0 <= i < |d.trans| && d.trans[i].claimId == c ==> d.trans[i].status == TransFailed)
    ==>
      var t := Next(Next(Next(d, Retry), InsertPayout(Job(c, ShareOf(d, c)))), Confirm(|d.trans|));
      && t.trans == d.trans + [Trans(ClaimPayout, c, ShareOf(d, c), "", TransConfirmed)]
      && c in t.claims && t.claims[c] == ClaimSuccess
  }

  lemma RetryJobsHave(d: Draw, c: int)
    requires Inv(d) && d.status == Completed && c in d.drawn && c in d.claims && d.claims[c] == ClaimPending
    requires !HasActivePayout(d.trans, c) && ShareOf(d, c) > 0
    ensures Job(c, ShareOf(d, c)) in RetryJobs(d) && RetryClaims(d)[c] == ClaimPending
  {
    RetryAmounts(d, c);
    ShareIsAllocated(d, c);
    assert HasConfirmedPayout(d.trans, c) ==> HasActivePayout(d.trans, c);
    assert c in Pendings(d.claims);
  }

  lemma InvCanPay(d: Draw, c: int)
    requires Inv(d)
    ensures CanBePaid(d, c)
  {
    if && d.status == Completed && c in d.claims && d.claims[c] == ClaimPending && c in d.drawn && ShareOf(d, c) > 0
       && (forall i :: 0 <= i < |d.trans| && d.trans[i].claimId == c ==> d.trans[i].status == TransFailed) {
      RetryJobsHave(d, c);
      JobIsPaid(Next(d, Retry), c, ShareOf(d, c));
    }
  }

  lemma JobIsPaid(d: Draw, c: int, amount: nat)
    requires d.status == Completed && Job(c, amount) in d.jobs && c in d.claims && !HasActivePayout(d.trans, c)
    ensures var t := Next(Next(d, InsertPayout(Job(c, amount))), Confirm(|d.trans|));
            && t.trans == d.trans + [Trans(ClaimPayout, c, amount, "", TransConfirmed)]
            && c in t.claims && t.claims[c] == ClaimSuccess
  {
    var u := Next(d, InsertPayout(Job(c, amount)));
    assert u.trans == d.trans + [Trans(ClaimPayout, c, amount, "", TransPending)];
    assert u.trans[|d.trans|].status == TransPending;
  }

  /** In every run, however many attempts have failed. */
  lemma WinnerCanBePaid(d: Draw, es: seq<Event>, c: int)
    requires Opened(d)
    ensures CanBePaid(Run(d, es), c)
  {
    RunInv(d, es);
    InvCanPay(Run(d, es), c);
  }

  /** A retry prepares exactly the shares of the waiting winners that have no live attempt. */
  lemma RetryExactly(d: Draw, c: int, amount: nat)
    requires Inv(d)
    ensures Job(c, amount) in Next(d, Retry).jobs
            <==> || Job(c, amount) in d.jobs
                 || (d.status == Completed && c in d.claims && d.claims[c] == ClaimPending
                     && (forall i :: 0 <= i < |d.trans| && d.trans[i].claimId == c ==> d.trans[i].status == TransFailed)
                     && c in d.drawn && amount == ShareOf(d, c) > 0)
  {
    if d.status == Completed && c in Pendings(d.claims) {
      assert c in d.drawn;
      RetryAmounts(d, c);
      ShareIsAllocated(d, c);
      assert HasActivePayout(d.trans, c) <==> exists i :: 0 <= i < |d.trans| && d.trans[i].claimId == c && d.trans[i].status != TransFailed;
    }
  }

  /** And in every run nobody waits who has not been drawn. */
  lemma OnlyDrawnWait(d: Draw, es: seq<Event>, c: int)
    requires Opened(d) && Run(d, es).status == Completed && c in Run(d, es).claims && Run(d, es).claims[c] == ClaimPending
    ensures c in Run(d, es).drawn
  {
    RunInv(d, es);
    assert c in Pendings(Run(d, es).claims);
  }
}
