/** The guard and policy rows of one Spot, and the guarded submission over them. */
module CancellationStore {
  import opened Options
  import opened Tables
  import opened CancellationLease

  /** How the wrapped workflow came back. */
  datatype Result = Settled | RetryPending | ValueError | OtherError

  /** The commits of one uninterrupted call; those that do not apply change nothing. */
  function FirstHalf(c: int, fee: int, address: string, rows: seq<Leg>, chainSaysFailed: bool): seq<Event> {
    [Start(c, fee, address), Check(c, rows, chainSaysFailed), Recover(c), CheckLegs(c)]
  }

  function Ending(c: int, result: Result): Event {
    match result
    case Settled => Return(c, false)
    case RetryPending => Return(c, true)
    case ValueError => RaiseValueError(c)
    case OtherError => RaiseOther(c)
  }

  function SecondHalf(c: int, valid: bool, result: Result): seq<Event> {
    [Snapshot(c, valid), Acquire(c), Ending(c, result), DeletePolicy(c)]
  }

  lemma RunFour(s: System, es: seq<Event>) returns (s1: System, s2: System, s3: System)
    requires |es| == 4
    ensures s1 == Next(s, es[0]) && s2 == Next(s1, es[1]) && s3 == Next(s2, es[2]) && Run(s, es) == Next(s3, es[3])
  {
    s1, s2, s3 := Run(s, es[..1]), Run(s, es[..2]), Run(s, es[..3]);
    assert es[..1] == [] + [es[0]] && es[..2] == es[..1] + [es[1]] && es[..3] == es[..2] + [es[2]] && es == es[..3] + [es[3]];
    RunAppend(s, [], es[0]);
    RunAppend(s, es[..1], es[1]);
    RunAppend(s, es[..2], es[2]);
    RunAppend(s, es[..3], es[3]);
  }

  function Asked(fee: int, address: string): Policy {
    Policy(if fee > 0 then fee else 0, address)
  }

  predicate Proven(rows: seq<Leg>, chainSaysFailed: bool) {
    SingleRetryableRefund(rows).Some? && chainSaysFailed
  }

  /** The Spot's rows with a single call in one phase. */
  function One(s: System, c: int, k: Call): System {
    s.(calls := map[c := k])
  }

  function Newcomer(asked: Policy): Call {
    Call(Checking, asked, false, false, asked, false, 0)
  }

  lemma EndsOnly(s: System, c: int, k: Call)
    requires s.calls == map[]
    ensures End(One(s, c, k), c) == s
  {
    assert map[c := k] - {c} == map[];
  }

  lemma StartStep(s: System, c: int, fee: int, address: string)
    requires s.calls == map[]
    ensures Next(s, Start(c, fee, address)) == One(s, c, Newcomer(Asked(fee, address)))
  {
  }

  lemma CheckStep(s: System, c: int, asked: Policy, rows: seq<Leg>, chainSaysFailed: bool)
    requires s.calls == map[]
    ensures var k := Newcomer(asked).(failedLegs := FailedCancellationLegs(rows) != [], proven := Proven(rows, chainSaysFailed));
            Next(One(s, c, Newcomer(asked)), Check(c, rows, chainSaysFailed)) ==
            if s.guard == None then One(s, c, k.(phase := Legs))
            else if s.guard == Some(FailedLegs) && k.proven then One(s, c, k.(phase := Recovering))
            else s
  {
    EndsOnly(s, c, Newcomer(asked).(failedLegs := FailedCancellationLegs(rows) != [], proven := Proven(rows, chainSaysFailed)));
  }

  lemma RecoverStep(s: System, c: int, k: Call)
    requires k.phase == Legs || k.phase == Recovering
    ensures Next(One(s, c, k), Recover(c)) == One(if k.phase == Recovering then s.(guard := None) else s, c, k.(phase := Legs))
  {
  }

  lemma CheckLegsStep(s: System, c: int, k: Call)
    requires s.calls == map[] && k.phase == Legs
    ensures Next(One(s, c, k), CheckLegs(c)) ==
            if k.failedLegs && !k.proven then s.(guard := Some(FailedLegs)) else One(s, c, k.(phase := Snapshotting))
  {
    EndsOnly(s, c, k);
  }

  /** What the checks of one call leave behind. */
  lemma FirstHalfOutcome(s: System, c: int, fee: int, address: string, rows: seq<Leg>, chainSaysFailed: bool)
    requires s.exclusive && s.calls == map[]
    ensures var failed, proven := FailedCancellationLegs(rows) != [], Proven(rows, chainSaysFailed);
            Run(s, FirstHalf(c, fee, address, rows, chainSaysFailed)) ==
            if s.guard != None && !(s.guard == Some(FailedLegs) && proven) then s
            else if failed && !proven then s.(guard := Some(FailedLegs))
            else One(s.(guard := None), c, Call(Snapshotting, Asked(fee, address), failed, proven, Asked(fee, address), false, 0))
  {
    var failed, proven := FailedCancellationLegs(rows) != [], Proven(rows, chainSaysFailed);
    var s1, s2, s3 := RunFour(s, FirstHalf(c, fee, address, rows, chainSaysFailed));
    StartStep(s, c, fee, address);
    CheckStep(s, c, Asked(fee, address), rows, chainSaysFailed);
    if s.guard == None || (s.guard == Some(FailedLegs) && proven) {
      var k := Call(Legs, Asked(fee, address), failed, proven, Asked(fee, address), false, 0);
      RecoverStep(s, c, if s.guard == None then k else k.(phase := Recovering));
      assert s.guard == None ==> s.(guard := None) == s;
      CheckLegsStep(s.(guard := None), c, k);
    }
  }

  function RunOutcome(result: Result): Outcome {
    match result
    case Settled => Completed
    case RetryPending => Ambiguous
    case ValueError => RolledBack
    case OtherError => Raised
  }

  lemma SnapshotStep(s: System, c: int, k: Call, valid: bool)
    requires s.calls == map[] && k.phase == Snapshotting
    ensures var used := if s.policy.Some? then s.policy.value else k.asked;
            Next(One(s, c, k), Snapshot(c, valid)) ==
            if s.policy == None && !valid then s
            else One(s.(policy := Some(used)), c, k.(phase := Acquiring, policy := used, created := s.policy == None))
  {
    EndsOnly(s, c, k);
  }

  lemma AcquireStep(s: System, c: int, k: Call)
    requires s.calls == map[] && k.phase == Acquiring && s.guard == None
    ensures Next(One(s, c, k), Acquire(c)) ==
            One(s.(guard := Some(InProgress), runs := s.runs + [Attempt(k.policy, Active)]), c, k.(phase := Running, run := |s.runs|))
  {
  }

  lemma EndingStep(s: System, c: int, k: Call, before: seq<Attempt>, result: Result)
    requires s.calls == map[] && k.phase == Running && k.run == |before| && s.runs == before + [Attempt(k.policy, Active)]
    ensures var t := s.(guard := if result in {Settled, ValueError} then None else Some(Unknown),
                        runs := before + [Attempt(k.policy, RunOutcome(result))]);
            Next(One(s, c, k), Ending(c, result)) == if result == ValueError then One(t, c, k.(phase := RollingBack)) else t
  {
    var t := Conclude(One(s, c, k), c, RunOutcome(result));
    assert t.runs == before + [Attempt(k.policy, RunOutcome(result))];
    EndsOnly(t.(calls := map[]), c, k);
  }

  lemma DeletePolicyStep(s: System, c: int, k: Call)
    requires s.calls == map[] && k.phase == RollingBack
    ensures Next(One(s, c, k), DeletePolicy(c)) == s.(policy := if k.created then None else s.policy)
  {
    EndsOnly(s, c, k);
  }

  /** What sending leaves behind, whichever way the workflow comes back. */
  lemma SecondHalfOutcome(s: System, c: int, k: Call, valid: bool, result: Result)
    requires s.calls == map[] && k.phase == Snapshotting && s.guard == None
    ensures var used := if s.policy.Some? then s.policy.value else k.asked;
            Run(One(s, c, k), SecondHalf(c, valid, result)) ==
            if s.policy == None && !valid then s
            else s.(guard := if result in {Settled, ValueError} then None else Some(Unknown),
                    policy := if s.policy == None && result == ValueError then None else Some(used),
                    runs := s.runs + [Attempt(used, RunOutcome(result))])
  {
    var t1, t2, t3 := RunFour(One(s, c, k), SecondHalf(c, valid, result));
    var used := if s.policy.Some? then s.policy.value else k.asked;
    SnapshotStep(s, c, k, valid);
    if s.policy.Some? || valid {
      var s1, k1 := s.(policy := Some(used)), k.(phase := Acquiring, policy := used, created := s.policy == None);
      AcquireStep(s1, c, k1);
      var s2, k2 := s1.(guard := Some(InProgress), runs := s.runs + [Attempt(used, Active)]), k1.(phase := Running, run := |s.runs|);
      EndingStep(s2, c, k2, s.runs, result);
      var s3 := s2.(guard := if result in {Settled, ValueError} then None else Some(Unknown),
                    runs := s.runs + [Attempt(used, RunOutcome(result))]);
      if result == ValueError {
        DeletePolicyStep(s3, c, k2.(phase := RollingBack));
      }
    }
  }

  /** The guard allows a submission: it is free, or it only reports failed legs and the retry is proven. */
  ghost predicate MayStart(s: System, rows: seq<Leg>, chainSaysFailed: bool) {
    || (s.guard == None && ((exists i :: 0 <= i < |rows| && rows[i].kind in {Refund, Fee} && rows[i].status == TransFailed) ==>
                              chainSaysFailed && exists i :: LoneFailedRefund(rows, i)))
    || (s.guard == Some(FailedLegs) && chainSaysFailed && exists i :: LoneFailedRefund(rows, i))
  }

  lemma SecondHalfAlone(s: System, c: int, valid: bool, result: Result)
    requires s.calls == map[]
    ensures Run(s, SecondHalf(c, valid, result)) == s
  {
    var s1, s2, s3 := RunFour(s, SecondHalf(c, valid, result));
  }

  /** One whole submission, by its rows: it runs exactly when it may start and has a usable policy, under that
      policy; failed legs nobody could prove block the Spot; nothing else changes the guard. */
  lemma SubmissionExactly(s: System, c: int, fee: int, address: string, rows: seq<Leg>, chainSaysFailed: bool, valid: bool, result: Result)
    requires s.exclusive && s.calls == map[]
    ensures var t := Run(s, FirstHalf(c, fee, address, rows, chainSaysFailed) + SecondHalf(c, valid, result));
            var used := if s.policy.Some? then s.policy.value else Policy(if fee > 0 then fee else 0, address);
            && t.calls == map[]
            && t.runs == (if MayStart(s, rows, chainSaysFailed) && (s.policy.Some? || valid)
                          then s.runs + [Attempt(used, RunOutcome(result))] else s.runs)
            && t.guard == (if !MayStart(s, rows, chainSaysFailed) then (if s.guard == None then Some(FailedLegs) else s.guard)
                           else if s.policy == None && !valid then None
                           else if result in {Settled, ValueError} then None else Some(Unknown))
  {
    RetryableExactly(rows);
    FailedLegsExactly(rows);
    RunTwice(s, FirstHalf(c, fee, address, rows, chainSaysFailed), SecondHalf(c, valid, result));
    FirstHalfOutcome(s, c, fee, address, rows, chainSaysFailed);
    var u := Run(s, FirstHalf(c, fee, address, rows, chainSaysFailed));
    if MayStart(s, rows, chainSaysFailed) {
      var failed, proven := FailedCancellationLegs(rows) != [], Proven(rows, chainSaysFailed);
      SecondHalfOutcome(s.(guard := None), c, Call(Snapshotting, Asked(fee, address), failed, proven, Asked(fee, address), false, 0), valid, result);
    } else {
      SecondHalfAlone(u, c, valid, result);
    }
  }

  class Store {
    var guard: Option<Guard>
    var policy: Option<Policy>
    ghost var runs: seq<Attempt>
    ghost var calls: map<int, Call>

    ghost function State(): System
      reads this
    {
      System(true, calls, guard, policy, runs)
    }

    constructor ()
      ensures State() == Fresh(true)
    {
      guard, policy, runs, calls := None, None, [], map[];
    }

    /** `_acquire_guard`: the primary key admits one row. */
    method AcquireGuard() returns (acquired: bool)
      modifies `guard
      ensures acquired <==> old(guard) == None
      ensures guard == if acquired then Some(InProgress) else old(guard)
    {
      acquired := guard == None;
      if acquired {
        guard := Some(InProgress);
      }
    }

    /** `_snapshot_cancellation_policy`; an invalid address raises before anything is written. */
    method SnapshotPolicy(fee: int, address: string, valid: bool) returns (snapshot: Option<Policy>, created: bool)
      modifies `policy
      ensures snapshot == if old(policy).Some? then old(policy)
                          else if valid then Some(Asked(fee, address)) else None
      ensures created <==> old(policy) == None && valid
      ensures policy == if snapshot.Some? then snapshot else old(policy)
    {
      if policy.Some? {
        return policy, false;
      }
      if !valid {
        return None, false;
      }
      policy := Some(Asked(fee, address));
      return policy, true;
    }

    /** The checks of `guarded_submit_spot_cancellation_transactions` before anything is sent. */
    method MaySend(ghost c: int, fee: int, address: string, rows: seq<Leg>, chainSaysFailed: bool) returns (ok: bool)
      requires calls == map[]
      modifies `guard, `calls
      ensures State() == Run(old(State()), FirstHalf(c, fee, address, rows, chainSaysFailed))
      ensures ok <==> At(State(), c, Snapshotting)
      ensures ok ==> guard == None && calls.Keys == {c} && calls[c].asked == Asked(fee, address)
      ensures !ok ==> calls == map[]
    {
      FirstHalfOutcome(State(), c, fee, address, rows, chainSaysFailed);
      var failedLegs := FailedCancellationLegs(rows) != [];
      var proven := SingleRetryableRefund(rows).Some? && chainSaysFailed;
      if guard != None {
        if guard == Some(FailedLegs) && proven {
          guard := None;
        } else {
          return false;
        }
      }
      if failedLegs && !proven {
        guard := Some(FailedLegs);
        return false;
      }
      calls := map[c := Call(Snapshotting, Asked(fee, address), failedLegs, proven, Asked(fee, address), false, 0)];
      return true;
    }

    /** The rest of the submission: lease, workflow, and what each way back leaves behind. */
    method Send(ghost c: int, fee: int, address: string, valid: bool, result: Result)
      requires At(State(), c, Snapshotting) && guard == None && calls.Keys == {c}
      requires calls[c].asked == Asked(fee, address)
      modifies this
      ensures State() == Run(old(State()), SecondHalf(c, valid, result))
      ensures calls == map[]
    {
      assert State() == One(State().(calls := map[]), c, calls[c]) by { assert calls == map[c := calls[c]]; }
      SecondHalfOutcome(State().(calls := map[]), c, calls[c], valid, result);
      var snapshot, created := SnapshotPolicy(fee, address, valid);
      if snapshot == None {
        calls := map[];
        return;
      }
      var acquired := AcquireGuard();
      runs := runs + [Attempt(snapshot.value, RunOutcome(result))];
      calls := map[];
      match result {
        case Settled =>
          guard := None;
        case RetryPending =>
          guard := Some(Unknown);
        case ValueError =>
          guard := None;
          if created {
            policy := None;
          }
        case OtherError =>
          guard := Some(Unknown);
      }
    }

    /** One whole uninterrupted submission. */
    method GuardedSubmit(ghost c: int, fee: int, address: string, rows: seq<Leg>, chainSaysFailed: bool, valid: bool, result: Result)
      requires calls == map[]
      modifies this
      ensures State() == Run(old(State()), FirstHalf(c, fee, address, rows, chainSaysFailed) + SecondHalf(c, valid, result))
      ensures calls == map[]
    {
      RunTwice(State(), FirstHalf(c, fee, address, rows, chainSaysFailed), SecondHalf(c, valid, result));
      var ok := MaySend(c, fee, address, rows, chainSaysFailed);
      if ok {
        Send(c, fee, address, valid, result);
      } else {
        ghost var s1, s2, s3 := RunFour(State(), SecondHalf(c, valid, result));
      }
    }
  }
}
