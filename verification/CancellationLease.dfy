/** The durable lease around the cancellation sends of one Spot.

    A call runs under a per-Spot lock that lives in the process; the guard and policy rows
    outlive it. Each event is one commit, or the end of the wrapped workflow. `exclusive` says
    that the lock is shared by all callers; without it calls interleave freely. */
module CancellationLease {
  import opened Options
  import opened Sums
  import opened Tables

  // ------------------------------------------------------------------
  // Which failures may be retried
  // ------------------------------------------------------------------

  datatype LegKind = Refund | Fee | OtherRow

  datatype Leg = Leg(kind: LegKind, status: TransStatus)

  predicate IsFailed(t: Leg, k: LegKind) {
    t.kind == k && t.status == TransFailed
  }

  /** `_failed_cancellation_legs` */
  function FailedCancellationLegs(rows: seq<Leg>): seq<Leg> {
    Filter(rows, (t: Leg) => t.kind in {Refund, Fee} && t.status == TransFailed)
  }

  function FailedRows(rows: seq<Leg>, k: LegKind): seq<Leg> {
    Filter(rows, (t: Leg) => IsFailed(t, k))
  }

  function ActiveRefunds(rows: seq<Leg>): seq<Leg> {
    Filter(rows, (t: Leg) => t.kind == Refund && t.status != TransFailed)
  }

  /** `_single_retryable_failed_refund` */
  function SingleRetryableRefund(rows: seq<Leg>): Option<Leg> {
    var failed := FailedRows(rows, Refund);
    if |failed| != 1 || ActiveRefunds(rows) != [] || FailedRows(rows, Fee) != [] then None else Some(failed[0])
  }

  lemma {:induction false} LegsSplit(rows: seq<Leg>)
    ensures |FailedCancellationLegs(rows)| == |FailedRows(rows, Refund)| + |FailedRows(rows, Fee)|
    ensures FailedRows(rows, Fee) == [] ==> FailedCancellationLegs(rows) == FailedRows(rows, Refund)
  {
    if rows != [] {
      LegsSplit(rows[..|rows| - 1]);
    }
  }

  /** The refund chosen for a retry is the only failed leg there is, and no refund stands beside it. */
  lemma RetryableIsAlone(rows: seq<Leg>)
    requires SingleRetryableRefund(rows).Some?
    ensures FailedCancellationLegs(rows) == [SingleRetryableRefund(rows).value]
    ensures forall i :: 0 <= i < |rows| && rows[i].kind == Refund ==> rows[i].status == TransFailed
  {
    LegsSplit(rows);
    forall i | 0 <= i < |rows| && rows[i].kind == Refund ensures rows[i].status == TransFailed {
      assert rows[i] in rows && (rows[i] in ActiveRefunds(rows) <==> rows[i].status != TransFailed);
    }
  }

  /** Among any other rows, i is the one refund, it has failed, and no fee has. */
  predicate LoneFailedRefund(rows: seq<Leg>, i: int) {
    && 0 <= i < |rows| && rows[i].kind == Refund && rows[i].status == TransFailed
    && (forall j :: 0 <= j < |rows| && rows[j].kind == Refund ==> j == i)
    && (forall j :: 0 <= j < |rows| && rows[j].kind == Fee ==> rows[j].status != TransFailed)
  }

  lemma SomeFailed(rows: seq<Leg>, k: LegKind)
    ensures FailedRows(rows, k) == [] <==> forall j :: 0 <= j < |rows| && rows[j].kind == k ==> rows[j].status != TransFailed
    ensures |FailedRows(rows, k)| == |set j | 0 <= j < |rows| && IsFailed(rows[j], k)|
  {
    var p := (t: Leg) => IsFailed(t, k);
    FilterSize(rows, |rows|, p);
    assert rows[..|rows|] == rows && Chosen(rows, |rows|, p) == set j | 0 <= j < |rows| && IsFailed(rows[j], k);
    forall j | 0 <= j < |rows| && IsFailed(rows[j], k) ensures FailedRows(rows, k) != [] {
      assert rows[j] in FailedRows(rows, k);
    }
    if FailedRows(rows, k) != [] {
      assert FailedRows(rows, k)[0] in FailedRows(rows, k);
    }
  }

  lemma NoneActive(rows: seq<Leg>)
    ensures ActiveRefunds(rows) == [] <==> forall j :: 0 <= j < |rows| && rows[j].kind == Refund ==> rows[j].status == TransFailed
  {
    forall j | 0 <= j < |rows| && rows[j].kind == Refund && rows[j].status != TransFailed ensures ActiveRefunds(rows) != [] {
      assert rows[j] in ActiveRefunds(rows);
    }
    if ActiveRefunds(rows) != [] {
      assert ActiveRefunds(rows)[0] in ActiveRefunds(rows);
    }
  }

  lemma OneElement(s: set<int>, i: int)
    requires i in s && |s| == 1
    ensures s == {i}
  {
    assert |s - {i}| == 0;
  }

  /** A refund may be retried if and only if it is the only one, has failed, and no fee has failed. */
  lemma RetryableExactly(rows: seq<Leg>)
    ensures SingleRetryableRefund(rows).Some? <==> exists i :: LoneFailedRefund(rows, i)
  {
    var indices := set j | 0 <= j < |rows| && IsFailed(rows[j], Refund);
    SomeFailed(rows, Refund);
    SomeFailed(rows, Fee);
    NoneActive(rows);
    if SingleRetryableRefund(rows).Some? {
      var i :| i in indices;
      OneElement(indices, i);
      assert forall j :: 0 <= j < |rows| && rows[j].kind == Refund ==> j in indices;
      assert LoneFailedRefund(rows, i);
    }
    if i :| LoneFailedRefund(rows, i) {
      assert indices == {i};
    }
  }

  /** Failed legs are found if and only if a refund or a fee has failed. */
  lemma FailedLegsExactly(rows: seq<Leg>)
    ensures FailedCancellationLegs(rows) != []
            <==> exists i :: 0 <= i < |rows| && rows[i].kind in {Refund, Fee} && rows[i].status == TransFailed
  {
    if i :| 0 <= i < |rows| && rows[i].kind in {Refund, Fee} && rows[i].status == TransFailed {
      assert rows[i] in FailedCancellationLegs(rows);
    }
    if FailedCancellationLegs(rows) != [] {
      var t := FailedCancellationLegs(rows)[0];
      assert t in FailedCancellationLegs(rows) && t in rows;
    }
  }

  // ------------------------------------------------------------------
  // The protocol
  // ------------------------------------------------------------------

  /** Why a guard row is there. Only `FailedLegs` is recoverable without a person. */
  datatype Guard = InProgress | FailedLegs | Unknown

  datatype Policy = Policy(fee: nat, address: string)

  datatype Outcome = Active | Completed | RolledBack | Ambiguous | Raised | Abandoned

  /** One run of the wrapped workflow, with the fee and address it was given. */
  datatype Attempt = Attempt(policy: Policy, outcome: Outcome)

  datatype Phase = Checking | Recovering | Legs | Snapshotting | Acquiring | Running | RollingBack

  datatype Call = Call(phase: Phase, asked: Policy, failedLegs: bool, proven: bool, policy: Policy, created: bool, run: nat)

  datatype System = System(
    exclusive: bool,
    calls: map<int, Call>,
    guard: Option<Guard>,
    policy: Option<Policy>,
    runs: seq<Attempt>) // history

  datatype Event =
    | Start(call: int, fee: int, address: string)
    | Check(call: int, rows: seq<Leg>, chainSaysFailed: bool)
    | Recover(call: int)
    | CheckLegs(call: int)
    | Snapshot(call: int, valid: bool)
    | Acquire(call: int)
    | Return(call: int, ambiguous: bool)
    | RaiseValueError(call: int)
    | DeletePolicy(call: int)
    | RaiseOther(call: int)
    | Abandon(call: int) // a crash, or the task being cancelled

  predicate At(s: System, c: int, phase: Phase) {
    c in s.calls && s.calls[c].phase == phase && (phase == Running ==> s.calls[c].run < |s.runs|)
  }

  function Go(s: System, c: int, phase: Phase): System
    requires c in s.calls
  {
    s.(calls := s.calls[c := s.calls[c].(phase := phase)])
  }

  function End(s: System, c: int): System {
    s.(calls := s.calls - {c})
  }

  function Conclude(s: System, c: int, outcome: Outcome): System
    requires At(s, c, Running)
  {
    var r := s.calls[c].run;
    s.(runs := s.runs[r := s.runs[r].(outcome := outcome)])
  }

  function Next(s: System, e: Event): System {
    match e
    case Start(c, fee, address) =>
      if c in s.calls || (s.exclusive && s.calls != map[]) then s
      else
        var asked := Policy(if fee > 0 then fee else 0, address);
        s.(calls := s.calls[c := Call(Checking, asked, false, false, asked, false, 0)])
    case Check(c, rows, chainSaysFailed) =>
      if !At(s, c, Checking) then s
      else
        var failedLegs := FailedCancellationLegs(rows) != [];
        var proven := SingleRetryableRefund(rows).Some? && chainSaysFailed;
        var t := s.(calls := s.calls[c := s.calls[c].(failedLegs := failedLegs, proven := proven)]);
        if s.guard == None then Go(t, c, Legs)
        else if s.guard == Some(FailedLegs) && proven then Go(t, c, Recovering)
        else End(s, c)
    case Recover(c) => if At(s, c, Recovering) then Go(s, c, Legs).(guard := None) else s
    case CheckLegs(c) =>
      if !At(s, c, Legs) then s
      else if s.calls[c].failedLegs && !s.calls[c].proven then End(s, c).(guard := Some(FailedLegs))
      else Go(s, c, Snapshotting)
    case Snapshot(c, valid) =>
      if !At(s, c, Snapshotting) then s
      else if s.policy.Some? then
        s.(calls := s.calls[c := s.calls[c].(phase := Acquiring, policy := s.policy.value, created := false)])
      else if valid then
        s.(policy := Some(s.calls[c].asked),
           calls := s.calls[c := s.calls[c].(phase := Acquiring, policy := s.calls[c].asked, created := true)])
      else End(s, c)
    case Acquire(c) =>
      if !At(s, c, Acquiring) then s
      else if s.guard != None then End(s, c)
      else
        s.(guard := Some(InProgress),
           runs := s.runs + [Attempt(s.calls[c].policy, Active)],
           calls := s.calls[c := s.calls[c].(phase := Running, run := |s.runs|)])
    case Return(c, ambiguous) =>
      if !At(s, c, Running) then s
      else if ambiguous then End(Conclude(s, c, Ambiguous), c).(guard := Some(Unknown))
      else End(Conclude(s, c, Completed), c).(guard := None)
    case RaiseValueError(c) =>
      if !At(s, c, Running) then s
      else Go(Conclude(s, c, RolledBack), c, RollingBack).(guard := None)
    case DeletePolicy(c) =>
      if !At(s, c, RollingBack) then s
      else End(s, c).(policy := if s.calls[c].created then None else s.policy)
    case RaiseOther(c) =>
      if !At(s, c, Running) then s
      else End(Conclude(s, c, Raised), c).(guard := Some(Unknown))
    case Abandon(c) =>
      if At(s, c, Running) then End(Conclude(s, c, Abandoned), c) else End(s, c)
  }

  function Run(s: System, es: seq<Event>): System
  {
    if es == [] then s else Next(Run(s, es[..|es| - 1]), es[|es| - 1])
  }

  lemma RunAppend(s: System, es: seq<Event>, e: Event)
    ensures Run(s, es + [e]) == Next(Run(s, es), e)
  {
    assert (es + [e])[..|es|] == es;
  }

  lemma {:induction false} RunTwice(s: System, es: seq<Event>, more: seq<Event>)
    ensures Run(s, es + more) == Run(Run(s, es), more)
  {
    if more == [] {
      assert es + more == es;
    } else {
      var n := |more| - 1;
      RunTwice(s, es, more[..n]);
      assert es + more == es + more[..n] + [more[n]];
      RunAppend(s, es + more[..n], more[n]);
    }
  }

  function Fresh(exclusive: bool): System {
    System(exclusive, map[], None, None, [])
  }

  // ------------------------------------------------------------------
  // The invariant under the lock
  // ------------------------------------------------------------------

  /** The money of such a run may or may not be on the chain. */
  predicate Unsafe(o: Outcome) {
    o !in {Completed, RolledBack}
  }

  ghost predicate LastUnsafe(s: System) {
    s.runs != [] && Unsafe(s.runs[|s.runs| - 1].outcome)
  }

  /** Every run but possibly the last is known to be over. */
  ghost predicate EarlierSafe(s: System) {
    forall i :: 0 <= i < |s.runs| - 1 ==> !Unsafe(s.runs[i].outcome)
  }

  ghost predicate OnePolicy(s: System) {
    forall i :: 0 <= i < |s.runs| && s.runs[i].outcome != RolledBack ==> s.policy == Some(s.runs[i].policy)
  }

  ghost predicate OthersRolledBack(s: System, n: nat) {
    n <= |s.runs| && forall i :: 0 <= i < n ==> s.runs[i].outcome == RolledBack
  }

  ghost predicate CallOk(s: System, k: Call) {
    && (k.phase in {Checking, Recovering, Legs, Snapshotting, Acquiring, RollingBack} ==>
          s.runs != [] ==> s.runs[|s.runs| - 1].outcome != Active)
    && (k.phase == Recovering ==> s.guard == Some(FailedLegs))
    && (k.phase in {Legs, Snapshotting, Acquiring, RollingBack} ==> s.guard == None)
    && (k.phase == Acquiring ==> s.policy == Some(k.policy) && (k.created ==> OthersRolledBack(s, |s.runs|)))
    && (k.phase == Running ==>
          && s.runs != [] && k.run == |s.runs| - 1 && s.runs[k.run].outcome == Active && s.guard == Some(InProgress)
          && (k.created ==> OthersRolledBack(s, k.run)))
    && (k.phase == RollingBack && k.created ==> OthersRolledBack(s, |s.runs|))
  }

  ghost predicate Inv(s: System) {
    && s.exclusive
    && (forall c, d :: c in s.calls && d in s.calls ==> c == d)
    && (forall c :: c in s.calls ==> CallOk(s, s.calls[c]))
    && (s.guard in {Some(InProgress), Some(Unknown)} <==> LastUnsafe(s))
    && (LastUnsafe(s) && s.runs[|s.runs| - 1].outcome == Active ==> exists c :: c in s.calls && s.calls[c].phase == Running)
    && EarlierSafe(s) && OnePolicy(s)
  }

  lemma AcquireInv(s: System, c: int)
    requires Inv(s)
    ensures Inv(Next(s, Acquire(c)))
  {
    var t := Next(s, Acquire(c));
    if At(s, c, Acquiring) && s.guard == None {
      assert CallOk(s, s.calls[c]);
      assert t.calls[c].phase == Running;
    }
  }

  /** The events that end a run, or a call. */
  lemma EndInv(s: System, e: Event)
    requires Inv(s) && (e.Return? || e.RaiseValueError? || e.RaiseOther? || e.Abandon?)
    ensures Inv(Next(s, e))
  {
    if e.call in s.calls {
      assert CallOk(s, s.calls[e.call]);
    } else {
      assert s.calls - {e.call} == s.calls;
    }
  }

  /** The reads and commits before the lease is taken. */
  lemma CheckingInv(s: System, e: Event)
    requires Inv(s) && (e.Start? || e.Check? || e.Recover? || e.CheckLegs?)
    ensures Inv(Next(s, e))
  {
    if c :| c in s.calls {
      assert CallOk(s, s.calls[c]);
    }
  }

  lemma PolicyInv(s: System, e: Event)
    requires Inv(s) && (e.Snapshot? || e.DeletePolicy?)
    ensures Inv(Next(s, e))
  {
    if e.call in s.calls {
      assert CallOk(s, s.calls[e.call]);
    }
  }

  lemma NextInv(s: System, e: Event)
    requires Inv(s)
    ensures Inv(Next(s, e))
  {
    match e
    case Acquire(c) => AcquireInv(s, c);
    case Return(_, _) => EndInv(s, e);
    case RaiseValueError(_) => EndInv(s, e);
    case RaiseOther(_) => EndInv(s, e);
    case Abandon(_) => EndInv(s, e);
    case Snapshot(_, _) => PolicyInv(s, e);
    case DeletePolicy(_) => PolicyInv(s, e);
    case _ => CheckingInv(s, e);
  }

  lemma {:induction false} RunInv(es: seq<Event>)
    ensures Inv(Run(Fresh(true), es))
  {
    if es != [] {
      RunInv(es[..|es| - 1]);
      NextInv(Run(Fresh(true), es[..|es| - 1]), es[|es| - 1]);
    }
  }

  // ------------------------------------------------------------------
  // Results
  // ------------------------------------------------------------------

  /** At most one run is under way, or left in doubt: always the last one to begin. */
  lemma DoubtIsLast(es: seq<Event>, i: nat)
    requires i < |Run(Fresh(true), es).runs| && Unsafe(Run(Fresh(true), es).runs[i].outcome)
    ensures i == |Run(Fresh(true), es).runs| - 1
  {
    RunInv(es);
  }

  ghost predicate InDoubt(s: System) {
    s.runs != [] && s.runs[|s.runs| - 1].outcome in {Ambiguous, Raised, Abandoned}
  }

  lemma DoubtStep(s: System, e: Event)
    requires Inv(s) && InDoubt(s)
    ensures Next(s, e).runs == s.runs
  {
    if c :| c in s.calls {
      assert CallOk(s, s.calls[c]);
    }
  }

  lemma {:induction false} DoubtStays(s: System, more: seq<Event>)
    requires Inv(s) && InDoubt(s)
    ensures Inv(Run(s, more)) && Run(s, more).runs == s.runs
  {
    if more != [] {
      var before := Run(s, more[..|more| - 1]);
      DoubtStays(s, more[..|more| - 1]);
      DoubtStep(before, more[|more| - 1]);
      NextInv(before, more[|more| - 1]);
    }
  }

  /** After a crash, an unexpected exception or an ambiguous send, no run ever begins again. */
  lemma DoubtIsFinal(es: seq<Event>, more: seq<Event>)
    requires InDoubt(Run(Fresh(true), es))
    ensures Run(Fresh(true), es + more).runs == Run(Fresh(true), es).runs
  {
    RunInv(es);
    RunTwice(Fresh(true), es, more);
    DoubtStays(Run(Fresh(true), es), more);
  }

  /** All runs that were not rolled back share one fee and one address. */
  lemma OneFeeAndAddress(es: seq<Event>, i: nat, j: nat)
    requires i < |Run(Fresh(true), es).runs| && j < |Run(Fresh(true), es).runs|
    requires Run(Fresh(true), es).runs[i].outcome != RolledBack && Run(Fresh(true), es).runs[j].outcome != RolledBack
    ensures Run(Fresh(true), es).runs[i].policy == Run(Fresh(true), es).runs[j].policy
  {
    RunInv(es);
  }

  // ------------------------------------------------------------------
  // Without a shared lock
  // ------------------------------------------------------------------

  lemma Then(es: seq<Event>, e: Event) returns (more: seq<Event>)
    ensures Run(Fresh(false), more) == Next(Run(Fresh(false), es), e)
  {
    more := es + [e];
    RunAppend(Fresh(false), es, e);
  }

  const REFUNDED := [Leg(Refund, TransFailed)]

  lemma RefundedIsRetryable()
    ensures FailedCancellationLegs(REFUNDED) != [] && SingleRetryableRefund(REFUNDED).Some?
  {
    assert REFUNDED[..|REFUNDED| - 1] == [];
  }

  const P := Policy(0, "A")
  const DEFERRED := Call(Legs, P, true, false, P, false, 0)
  const FIRST := Call(Running, P, true, true, P, true, 0)

  const WAITING := Call(Snapshotting, P, true, true, P, false, 0)

  lemma TwoWorkersChecked() returns (es: seq<Event>)
    ensures Run(Fresh(false), es) == System(false, map[1 := WAITING, 2 := DEFERRED], None, None, [])
  {
    RefundedIsRetryable();
    es := Then([], Start(1, 0, "A"));
    es := Then(es, Check(1, REFUNDED, true));
    es := Then(es, CheckLegs(1));
    assert Run(Fresh(false), es) == System(false, map[1 := WAITING], None, None, []);
    es := Then(es, Start(2, 0, "A"));
    es := Then(es, Check(2, REFUNDED, false));
  }

  /** One worker runs the workflow while another, which could not prove the failure, is about to block. */
  lemma WorkerRunsAnotherWaits() returns (es: seq<Event>)
    ensures Run(Fresh(false), es) ==
            System(false, map[1 := FIRST, 2 := DEFERRED], Some(InProgress), Some(P), [Attempt(P, Active)])
  {
    es := TwoWorkersChecked();
    es := Then(es, Snapshot(1, true));
    es := Then(es, Acquire(1));
  }

  /** The other worker's block replaces the lease, and a third may then lift it. */
  lemma LeaseIsReplaced() returns (es: seq<Event>)
    ensures Run(Fresh(false), es) ==
            System(false, map[1 := FIRST, 3 := Call(Recovering, P, true, true, P, false, 0)],
                   Some(FailedLegs), Some(P), [Attempt(P, Active)])
  {
    RefundedIsRetryable();
    es := WorkerRunsAnotherWaits();
    es := Then(es, CheckLegs(2));
    assert Run(Fresh(false), es) == System(false, map[1 := FIRST], Some(FailedLegs), Some(P), [Attempt(P, Active)]);
    es := Then(es, Start(3, 0, "A"));
    es := Then(es, Check(3, REFUNDED, true));
  }

  /** The lock is what the lease rests on: callers that do not share it can replace the guard of a
      run in progress by a recoverable one, and a second run begins beside the first. */
  lemma TwoLocksTwoRuns() returns (es: seq<Event>)
    ensures var runs := Run(Fresh(false), es).runs;
            |runs| == 2 && runs[0].outcome == Active && runs[1].outcome == Active
  {
    es := LeaseIsReplaced();
    es := Then(es, Recover(3));
    es := Then(es, CheckLegs(3));
    es := Then(es, Snapshot(3, true));
    es := Then(es, Acquire(3));
  }
}
