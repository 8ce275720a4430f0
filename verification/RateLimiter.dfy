/** The sliding-window limiter over one stored list of timestamps, and the maintenance that prunes it. */
module RateLimiter {
  import opened Sums

  const AUTH_RATE_WINDOW: nat := 600
  const CLAIM_AUTHORIZATION_RATE_WINDOW: nat := 600

  /** The stamps after a cutoff, in their order. */
  function Since(stamps: seq<int>, cutoff: int): seq<int>
  {
    if stamps == [] then []
    else
      var init := Since(stamps[..|stamps| - 1], cutoff);
      if stamps[|stamps| - 1] > cutoff then init + [stamps[|stamps| - 1]] else init
  }

  lemma SinceAppend(stamps: seq<int>, x: int, cutoff: int)
    ensures Since(stamps + [x], cutoff) == if x > cutoff then Since(stamps, cutoff) + [x] else Since(stamps, cutoff)
  {
    assert (stamps + [x])[..|stamps|] == stamps;
  }

  function Earliest(stamps: seq<int>): (m: int)
    requires stamps != []
    ensures m in stamps && forall x :: x in stamps ==> m <= x
  {
    if |stamps| == 1 then stamps[0]
    else
      assert stamps == stamps[..|stamps| - 1] + [stamps[|stamps| - 1]];
      var m := Earliest(stamps[..|stamps| - 1]);
      if stamps[|stamps| - 1] < m then stamps[|stamps| - 1] else m
  }

  /** The last `limit` elements, as a negative slice takes them. */
  function Last(stamps: seq<int>, limit: nat): seq<int> {
    if |stamps| <= limit then stamps else stamps[|stamps| - limit..]
  }

  datatype Answer = Answer(allowed: bool, retryAt: int)

  // ------------------------------------------------------------------
  // One bucket over time
  // ------------------------------------------------------------------

  /** `log` is history: the time of every admission. */
  datatype Bucket = Bucket(window: nat, limit: nat, stamps: seq<int>, log: seq<int>)

  datatype Event = Call(now: int) | Prune(now: int)

  function Kept(b: Bucket, now: int): seq<int> {
    Since(b.stamps, now - b.window)
  }

  predicate Admits(b: Bucket, now: int) {
    |Kept(b, now)| < b.limit
  }

  function RetryAt(b: Bucket, now: int): int
    requires Kept(b, now) != []
  {
    Earliest(Kept(b, now)) + b.window + 1
  }

  /** `_prune_value` for a rate bucket; an emptied row is deleted and reads back as empty. */
  function Pruned(stamps: seq<int>, now: int): seq<int> {
    Since(stamps, now - PruneWindow())
  }

  function PruneWindow(): nat {
    if AUTH_RATE_WINDOW > CLAIM_AUTHORIZATION_RATE_WINDOW then AUTH_RATE_WINDOW else CLAIM_AUTHORIZATION_RATE_WINDOW
  }

  function Next(b: Bucket, e: Event): Bucket {
    match e
    case Call(now) =>
      if Admits(b, now)
      then b.(stamps := Last(Kept(b, now) + [now], b.limit), log := b.log + [now])
      else b.(stamps := Last(Kept(b, now), b.limit))
    case Prune(now) => b.(stamps := Pruned(b.stamps, now))
  }

  function Run(b: Bucket, es: seq<Event>): Bucket
  {
    if es == [] then b else Next(Run(b, es[..|es| - 1]), es[|es| - 1])
  }

  function Empty(window: nat, limit: nat): Bucket {
    Bucket(window, limit, [], [])
  }

  // ------------------------------------------------------------------
  // The stored list stands for the whole log
  // ------------------------------------------------------------------

  predicate Ascending(log: seq<int>) {
    forall i, j :: 0 <= i < j < |log| ==> log[i] <= log[j]
  }

  /** From `now` on, the stored list decides exactly as the log of all admissions would. */
  ghost predicate Faithful(b: Bucket, now: int) {
    && Ascending(b.log) && (forall i :: 0 <= i < |b.log| ==> b.log[i] <= now)
    && forall t :: t >= now ==> Kept(b, t) == Since(b.log, t - b.window)
  }

  ghost predicate Spaced(b: Bucket) {
    forall i, j :: 0 <= i <= j < |b.log| && j - i >= b.limit ==> b.log[j] >= b.log[i] + b.window
  }

  lemma {:induction false} SinceTwice(stamps: seq<int>, low: int, high: int)
    requires low <= high
    ensures Since(Since(stamps, low), high) == Since(stamps, high)
  {
    if stamps != [] {
      var n := |stamps| - 1;
      SinceTwice(stamps[..n], low, high);
      var init := Since(stamps[..n], low);
      if stamps[n] > low {
        assert (init + [stamps[n]])[..|init|] == init;
      }
    }
  }

  lemma {:induction false} NoneLive(log: seq<int>, cutoff: int)
    requires forall i :: 0 <= i < |log| ==> log[i] <= cutoff
    ensures Since(log, cutoff) == []
  {
    if log != [] {
      NoneLive(log[..|log| - 1], cutoff);
    }
  }

  /** How many entries of an ascending log are no longer live. */
  function Dead(log: seq<int>, cutoff: int): (k: nat)
    requires Ascending(log)
    ensures k <= |log|
    ensures forall i :: 0 <= i < k ==> log[i] <= cutoff
    ensures forall i :: k <= i < |log| ==> log[i] > cutoff
  {
    if log == [] || log[|log| - 1] <= cutoff then |log| else Dead(log[..|log| - 1], cutoff)
  }

  /** What is live of an ascending log is one of its suffixes. */
  lemma {:induction false} LiveIsSuffix(log: seq<int>, cutoff: int)
    requires Ascending(log)
    ensures Since(log, cutoff) == log[Dead(log, cutoff)..]
  {
    if log == [] || log[|log| - 1] <= cutoff {
      NoneLive(log, cutoff);
    } else {
      var init := log[..|log| - 1];
      LiveIsSuffix(init, cutoff);
      assert init[Dead(init, cutoff)..] + [log[|log| - 1]] == log[Dead(init, cutoff)..];
    }
  }

  /** At most `limit` admissions are live at any time, so trimming the stored list loses nothing. */
  lemma FewLive(b: Bucket, t: int)
    requires Ascending(b.log) && Spaced(b) && forall i :: 0 <= i < |b.log| ==> b.log[i] <= t
    ensures |Since(b.log, t - b.window)| <= b.limit
  {
    LiveIsSuffix(b.log, t - b.window);
    var k := Dead(b.log, t - b.window);
    assert k < |b.log| ==> b.log[k] > t - b.window && b.log[|b.log| - 1] <= t;
  }

  lemma AdmittedKept(b: Bucket, now: int, t: int, u: int)
    requires Faithful(b, now) && now <= t <= u
    ensures Since(Kept(b, t) + [t], u - b.window) == Since(b.log + [t], u - b.window)
  {
    KeptLater(b, now, t, u);
    SinceAppend(Kept(b, t), t, u - b.window);
    SinceAppend(b.log, t, u - b.window);
  }

  lemma KeptLater(b: Bucket, now: int, t: int, u: int)
    requires Faithful(b, now) && now <= t <= u
    ensures Since(Kept(b, t), u - b.window) == Since(b.log, u - b.window)
  {
    SinceTwice(b.stamps, t - b.window, u - b.window);
    assert Kept(b, u) == Since(b.log, u - b.window);
  }

  lemma AdmittedKeeps(b: Bucket, now: int, t: int)
    requires Faithful(b, now) && Spaced(b) && now <= t && Admits(b, t)
    ensures Faithful(Next(b, Call(t)), t) && Spaced(Next(b, Call(t)))
  {
    var c := Next(b, Call(t));
    assert c.stamps == Kept(b, t) + [t];
    forall u | u >= t ensures Kept(c, u) == Since(c.log, u - b.window) {
      AdmittedKept(b, now, t, u);
    }
    assert Kept(b, t) == Since(b.log, t - b.window);
    SpacedAdmission(b, t);
  }

  lemma SpacedAdmission(b: Bucket, t: int)
    requires Ascending(b.log) && Spaced(b) && |Since(b.log, t - b.window)| < b.limit
    ensures Spaced(b.(log := b.log + [t]))
  {
    LiveIsSuffix(b.log, t - b.window);
  }

  lemma RejectedKeeps(b: Bucket, now: int, t: int)
    requires Faithful(b, now) && Spaced(b) && now <= t && !Admits(b, t)
    ensures Faithful(Next(b, Call(t)), t) && Next(b, Call(t)).stamps == Kept(b, t) && |Kept(b, t)| == b.limit
  {
    FewLive(b, t);
    assert Kept(b, t) == Since(b.log, t - b.window);
    var c := Next(b, Call(t));
    forall u | u >= t ensures Kept(c, u) == Since(c.log, u - b.window) {
      SinceTwice(b.stamps, t - b.window, u - b.window);
      assert Kept(b, u) == Since(b.log, u - b.window);
    }
  }

  lemma PruneKeeps(b: Bucket, now: int, t: int)
    requires Faithful(b, now) && now <= t && b.window <= PruneWindow()
    ensures Faithful(Next(b, Prune(t)), t)
  {
    var c := Next(b, Prune(t));
    forall u | u >= t ensures Kept(c, u) == Since(c.log, u - b.window) {
      SinceTwice(b.stamps, t - PruneWindow(), u - b.window);
      assert Kept(b, u) == Since(b.log, u - b.window);
    }
  }

  function Clock(es: seq<Event>): int { if es == [] then 0 else es[|es| - 1].now }

  /** The clock never runs backwards, and maintenance only runs on the windows it knows. */
  ghost predicate Regular(window: nat, es: seq<Event>) {
    es != [] ==>
      var before, e := es[..|es| - 1], es[|es| - 1];
      Regular(window, before) && Clock(before) <= e.now && (e.Prune? ==> window <= PruneWindow())
  }

  lemma {:induction false} RunKeeps(window: nat, limit: nat, es: seq<Event>)
    requires Regular(window, es)
    ensures var b := Run(Empty(window, limit), es);
            b.window == window && b.limit == limit && Faithful(b, Clock(es)) && Spaced(b)
  {
    if es != [] {
      var n := |es| - 1;
      RunKeeps(window, limit, es[..n]);
      var b, now := Run(Empty(window, limit), es[..n]), Clock(es[..n]);
      match es[n]
      case Call(t) => if Admits(b, t) { AdmittedKeeps(b, now, t); } else { RejectedKeeps(b, now, t); }
      case Prune(t) => PruneKeeps(b, now, t);
    }
  }

  // ------------------------------------------------------------------
  // Results
  // ------------------------------------------------------------------

  /** Admissions that fall into one half-open window number at most the limit. */
  lemma NoOverfullWindow(window: nat, limit: nat, es: seq<Event>, i: nat, j: nat)
    requires Regular(window, es)
    requires i <= j < |Run(Empty(window, limit), es).log|
    requires var log := Run(Empty(window, limit), es).log; log[j] < log[i] + window
    ensures j - i + 1 <= limit
  {
    RunKeeps(window, limit, es);
  }

  lemma FaithfulAlike(b: Bucket, now: int, b': Bucket, now': int, t: int)
    requires Faithful(b, now) && Faithful(b', now') && now <= t && now' <= t
    requires b.log == b'.log && b.window == b'.window
    ensures Kept(b, t) == Kept(b', t)
  {
    assert Kept(b, t) == Since(b.log, t - b.window);
  }

  /** Refused calls and maintenance leave no trace: with the same admissions behind them, two
      histories decide the next call alike and name the same retry time. */
  lemma OnlyAdmissionsMatter(window: nat, limit: nat, es: seq<Event>, es': seq<Event>, t: int)
    requires Regular(window, es) && Regular(window, es') && Clock(es) <= t && Clock(es') <= t
    requires Run(Empty(window, limit), es).log == Run(Empty(window, limit), es').log
    ensures Kept(Run(Empty(window, limit), es), t) == Kept(Run(Empty(window, limit), es'), t)
  {
    RunKeeps(window, limit, es);
    RunKeeps(window, limit, es');
    FaithfulAlike(Run(Empty(window, limit), es), Clock(es), Run(Empty(window, limit), es'), Clock(es'), t);
  }

  lemma {:induction false} SinceSize(log: seq<int>, n: nat, cutoff: int)
    requires n <= |log|
    ensures |Since(log[..n], cutoff)| == |Chosen(log, n, x => x > cutoff)|
  {
    if n == 0 {
      assert Chosen(log, n, x => x > cutoff) == {};
    } else {
      SinceSize(log, n - 1, cutoff);
      ChosenStep(log, n - 1, x => x > cutoff);
      assert log[..n] == log[..n - 1] + [log[n - 1]];
      SinceAppend(log[..n - 1], log[n - 1], cutoff);
      assert log[n - 1] <= cutoff ==> Chosen(log, n, x => x > cutoff) == Chosen(log, n - 1, x => x > cutoff);
    }
  }

  /** A call is admitted if and only if fewer than `limit` admissions are younger than the window. */
  ghost predicate CountsTheLog(b: Bucket, t: int) {
    Next(b, Call(t)).log ==
    if |set i | 0 <= i < |b.log| && t - b.log[i] < b.window| < b.limit then b.log + [t] else b.log
  }

  lemma FaithfulCounts(b: Bucket, now: int, t: int)
    requires Faithful(b, now) && now <= t
    ensures CountsTheLog(b, t)
  {
    assert Kept(b, t) == Since(b.log, t - b.window);
    SinceSize(b.log, |b.log|, t - b.window);
    assert b.log[..|b.log|] == b.log;
    assert Chosen(b.log, |b.log|, x => x > t - b.window) == set i | 0 <= i < |b.log| && t - b.log[i] < b.window;
  }

  /** In every run, whatever was refused or pruned. */
  lemma AdmissionExactly(window: nat, limit: nat, es: seq<Event>, t: int)
    requires Regular(window, es) && Clock(es) <= t
    ensures CountsTheLog(Run(Empty(window, limit), es), t)
    ensures Run(Empty(window, limit), es).window == window && Run(Empty(window, limit), es).limit == limit
  {
    RunKeeps(window, limit, es);
    FaithfulCounts(Run(Empty(window, limit), es), Clock(es), t);
  }

  function WithoutPrune(es: seq<Event>): seq<Event>
  {
    if es == [] then []
    else
      var rest := WithoutPrune(es[..|es| - 1]);
      if es[|es| - 1].Prune? then rest else rest + [es[|es| - 1]]
  }

  lemma {:induction false} WithoutPruneRegular(window: nat, es: seq<Event>)
    requires Regular(window, es)
    ensures Regular(window, WithoutPrune(es)) && Clock(WithoutPrune(es)) <= Clock(es)
  {
    if es != [] {
      var rest := WithoutPrune(es[..|es| - 1]);
      WithoutPruneRegular(window, es[..|es| - 1]);
      assert (rest + [es[|es| - 1]])[..|rest|] == rest;
    }
  }

  /** Maintenance pruning never changes which calls are admitted. */
  lemma {:induction false} PruningIsInvisible(window: nat, limit: nat, es: seq<Event>)
    requires Regular(window, es)
    ensures Run(Empty(window, limit), es).log == Run(Empty(window, limit), WithoutPrune(es)).log
  {
    if es != [] {
      var n := |es| - 1;
      PruningIsInvisible(window, limit, es[..n]);
      if es[n].Call? {
        var rest := WithoutPrune(es[..n]);
        assert (rest + [es[n]])[..|rest|] == rest;
        WithoutPruneRegular(window, es[..n]);
        OnlyAdmissionsMatter(window, limit, es[..n], rest, es[n].now);
        RunKeeps(window, limit, es[..n]);
        RunKeeps(window, limit, rest);
      }
    }
  }

  /** After a refusal at t and with no admission since, a call succeeds exactly from one second
      before the announced retry time on. */
  lemma RetryIsExact(window: nat, limit: nat, es: seq<Event>, t: int, more: seq<Event>, u: int)
    requires limit > 0 && Regular(window, es) && Clock(es) <= t <= u && !Admits(Run(Empty(window, limit), es), t)
    requires Regular(window, more) && Clock(more) <= u
    requires Run(Empty(window, limit), more).log == Run(Empty(window, limit), es).log
    ensures Kept(Run(Empty(window, limit), es), t) != []
    ensures Admits(Run(Empty(window, limit), more), u) <==> u >= RetryAt(Run(Empty(window, limit), es), t) - 1
  {
    var b := Run(Empty(window, limit), es);
    RunKeeps(window, limit, es);
    OnlyAdmissionsMatter(window, limit, es, more, u);
    RunKeeps(window, limit, more);
    FreedWhenOldestDies(b, Clock(es), t, u);
  }

  lemma FreedWhenOldestDies(b: Bucket, now: int, t: int, u: int)
    requires Faithful(b, now) && Spaced(b) && now <= t <= u && b.limit > 0 && !Admits(b, t)
    ensures Kept(b, t) != [] && (Admits(b, u) <==> u >= RetryAt(b, t) - 1)
  {
    RejectedKeeps(b, now, t);
    assert Kept(b, t) == Since(b.log, t - b.window) && Kept(b, u) == Since(b.log, u - b.window);
    SuffixShrinks(b.log, t - b.window, u - b.window);
  }

  /** A later cutoff keeps fewer exactly when it has passed the earliest of those kept. */
  lemma SuffixShrinks(log: seq<int>, low: int, high: int)
    requires Ascending(log) && low <= high && Since(log, low) != []
    ensures |Since(log, high)| < |Since(log, low)| <==> high >= Earliest(Since(log, low))
    ensures |Since(log, high)| <= |Since(log, low)|
  {
    LiveIsSuffix(log, low);
    LiveIsSuffix(log, high);
    EarliestIsFirst(log[Dead(log, low)..]);
  }

  lemma EarliestIsFirst(stamps: seq<int>)
    requires stamps != [] && Ascending(stamps)
    ensures Earliest(stamps) == stamps[0]
  {
  }

  // ------------------------------------------------------------------
  // The stored row
  // ------------------------------------------------------------------

  class Row {
    const window: nat
    const limit: nat
    var stamps: seq<int>
    ghost var log: seq<int>

    ghost function State(): Bucket
      reads this
    {
      Bucket(window, limit, stamps, log)
    }

    constructor (window: nat, limit: nat)
      ensures State() == Empty(window, limit)
    {
      this.window, this.limit := window, limit;
      stamps, log := [], [];
    }

    /** `admit_timestamp` */
    method Admit(now: int) returns (answer: Answer)
      requires limit > 0
      modifies `stamps, `log
      ensures State() == Next(old(State()), Call(now))
      ensures answer.allowed <==> Admits(old(State()), now)
      ensures answer.retryAt == if answer.allowed then now else RetryAt(old(State()), now)
    {
      var timestamps: seq<int> := [];
      for i := 0 to |stamps|
        invariant timestamps == Since(stamps[..i], now - window)
      {
        assert stamps[..i + 1][..i] == stamps[..i];
        if stamps[i] > now - window {
          timestamps := timestamps + [stamps[i]];
        }
      }
      assert stamps[..|stamps|] == stamps;
      if |timestamps| >= limit {
        answer := Answer(false, Earliest(timestamps) + window + 1);
        stamps := Last(timestamps, limit);
        return;
      }
      timestamps := timestamps + [now];
      stamps := Last(timestamps, limit);
      log := log + [now];
      answer := Answer(true, now);
    }

    /** The rate-bucket branch of the maintenance pass. */
    method PruneRow(now: int)
      modifies `stamps
      ensures State() == Next(old(State()), Prune(now))
    {
      var cutoff := now - PruneWindow();
      var kept: seq<int> := [];
      for i := 0 to |stamps|
        invariant kept == Since(stamps[..i], cutoff)
      {
        assert stamps[..i + 1][..i] == stamps[..i];
        if stamps[i] > cutoff {
          kept := kept + [stamps[i]];
        }
      }
      assert stamps[..|stamps|] == stamps;
      stamps := kept;
    }
  }
}
