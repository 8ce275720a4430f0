/** The travel check between a user's earlier claims and a new one, and how long its cooldown lasts.

    Distances are measured outside the model; speeds are exact real numbers. */
module TravelCooldown {
  const HARD_BAN_MIN_DISTANCE := 3000.0
  const HARD_BAN_MAX_SPEED := 500.0
  const SOFT_COOLDOWN_MIN_DISTANCE := 1000.0
  const SOFT_COOLDOWN_MAX_SPEED := 75.0

  /** An earlier claim, with its Spot's distance from the target's centre. */
  datatype Anchor = Anchor(claim: int, centreDistance: real, radius: real, observedAt: int)

  function Positive(x: real): real { if x > 0.0 then x else 0.0 }

  function Ceil(x: real): (n: int)
    ensures (n - 1) as real < x <= n as real
  {
    -((-x).Floor)
  }

  function MinimumDistance(a: Anchor, targetRadius: real): real {
    Positive(a.centreDistance - Positive(a.radius) - Positive(targetRadius))
  }

  function Elapsed(a: Anchor, checkedAt: int): (seconds: int)
    ensures seconds >= 1
  {
    if checkedAt - a.observedAt > 1 then checkedAt - a.observedAt else 1
  }

  function Speed(a: Anchor, targetRadius: real, checkedAt: int): real {
    if checkedAt < a.observedAt then 0.0 else MinimumDistance(a, targetRadius) / Elapsed(a, checkedAt) as real
  }

  /** A backwards clock is not evidence against the user. */
  predicate Violates(a: Anchor, targetRadius: real, checkedAt: int, minDistance: real, maxSpeed: real) {
    && checkedAt >= a.observedAt
    && MinimumDistance(a, targetRadius) >= minDistance
    && Speed(a, targetRadius, checkedAt) > maxSpeed
  }

  predicate Hard(a: Anchor, r: real, t: int) { Violates(a, r, t, HARD_BAN_MIN_DISTANCE, HARD_BAN_MAX_SPEED) }

  predicate Soft(a: Anchor, r: real, t: int) { Violates(a, r, t, SOFT_COOLDOWN_MIN_DISTANCE, SOFT_COOLDOWN_MAX_SPEED) }

  function Required(a: Anchor, r: real): int {
    Ceil(MinimumDistance(a, r) / SOFT_COOLDOWN_MAX_SPEED) + 1
  }

  function RetryAt(a: Anchor, r: real, t: int): int {
    if t < a.observedAt then t
    else a.observedAt + if Required(a, r) > 1 then Required(a, r) else 1
  }

  datatype Decision = Allow | NewCooldown(retryAt: int) | Ban(claim: int)

  /** `_trusted_travel_decision`: the fastest hard jump, or else the longest soft cooldown. */
  method Decide(anchors: seq<Anchor>, r: real, t: int) returns (d: Decision)
    ensures d.Ban? <==> exists i :: 0 <= i < |anchors| && Hard(anchors[i], r, t)
    ensures d.Ban? ==> exists i :: 0 <= i < |anchors| && Hard(anchors[i], r, t) && d.claim == anchors[i].claim
                                   && forall j :: 0 <= j < |anchors| && Hard(anchors[j], r, t) ==>
                                                  Speed(anchors[j], r, t) <= Speed(anchors[i], r, t)
    ensures d.Allow? <==> forall i :: 0 <= i < |anchors| ==> !Soft(anchors[i], r, t)
    ensures d.NewCooldown? ==> exists i :: 0 <= i < |anchors| && Soft(anchors[i], r, t) && d.retryAt == RetryAt(anchors[i], r, t)
    ensures d.NewCooldown? ==> forall i :: 0 <= i < |anchors| && Soft(anchors[i], r, t) ==> RetryAt(anchors[i], r, t) <= d.retryAt
  {
    var hard, soft := -1, -1;
    for k := 0 to |anchors|
      invariant -1 <= hard < k && -1 <= soft < k
      invariant hard >= 0 ==> Hard(anchors[hard], r, t)
      invariant forall j :: 0 <= j < k && Hard(anchors[j], r, t) ==> hard >= 0 && Speed(anchors[j], r, t) <= Speed(anchors[hard], r, t)
      invariant soft >= 0 ==> Soft(anchors[soft], r, t)
      invariant forall j :: 0 <= j < k && Soft(anchors[j], r, t) ==> soft >= 0 && RetryAt(anchors[j], r, t) <= RetryAt(anchors[soft], r, t)
    {
      if Hard(anchors[k], r, t) && (hard < 0 || Speed(anchors[k], r, t) > Speed(anchors[hard], r, t)) {
        hard := k;
      }
      if Soft(anchors[k], r, t) && (soft < 0 || RetryAt(anchors[k], r, t) > RetryAt(anchors[soft], r, t)) {
        soft := k;
      }
    }
    if hard >= 0 {
      HardIsSoft(anchors[hard], r, t);
      return Ban(anchors[hard].claim);
    }
    if soft >= 0 {
      return NewCooldown(RetryAt(anchors[soft], r, t));
    }
    return Allow;
  }

  /** A jump worth a ban is always worth a cooldown. */
  lemma HardIsSoft(a: Anchor, r: real, t: int)
    ensures Hard(a, r, t) ==> Soft(a, r, t)
  {
  }

  lemma Divide(d: real, n: int, speed: real)
    requires n >= 1 && speed > 0.0
    ensures d / n as real > speed <==> d / speed > n as real
  {
    var q, p := d / n as real, d / speed;
    assert q * n as real == d && p * speed == d;
    if q > speed {
      assert (q - speed) * n as real > 0.0;
      assert (p - n as real) * speed > 0.0;
    } else {
      assert (speed - q) * n as real >= 0.0;
      assert (n as real - p) * speed >= 0.0;
    }
  }

  /** The last second of a soft violation is two before its retry time. */
  lemma SoftEnds(a: Anchor, r: real, t: int)
    requires a.observedAt <= t
    ensures Soft(a, r, t) <==> MinimumDistance(a, r) >= SOFT_COOLDOWN_MIN_DISTANCE && t <= RetryAt(a, r, t) - 2
  {
    Divide(MinimumDistance(a, r), Elapsed(a, t), SOFT_COOLDOWN_MAX_SPEED);
    if MinimumDistance(a, r) >= SOFT_COOLDOWN_MIN_DISTANCE {
      assert MinimumDistance(a, r) / SOFT_COOLDOWN_MAX_SPEED > 13.0;
    }
  }

  /** A jump is soft, or hard, by the ground between the two areas and the seconds between the two checks. */
  lemma JumpsExactly(a: Anchor, r: real, t: int)
    requires a.radius >= 0.0 && r >= 0.0
    ensures var ground, seconds := a.centreDistance - a.radius - r, if t - a.observedAt < 1 then 1 else t - a.observedAt;
            && (Soft(a, r, t) <==> t >= a.observedAt && ground >= 1000.0 && ground > 75.0 * seconds as real)
            && (Hard(a, r, t) <==> t >= a.observedAt && ground >= 3000.0 && ground > 500.0 * seconds as real)
  {
    var ground, seconds := a.centreDistance - a.radius - r, if t - a.observedAt < 1 then 1 else t - a.observedAt;
    if ground > 0.0 {
      Faster(ground, seconds, 75.0);
      Faster(ground, seconds, 500.0);
    }
  }

  lemma Faster(d: real, n: int, speed: real)
    requires n >= 1
    ensures d / n as real > speed <==> d > speed * n as real
  {
    var q := d / n as real;
    assert q * n as real == d;
    if q > speed {
      assert (q - speed) * n as real > 0.0;
    } else {
      assert (speed - q) * n as real >= 0.0;
    }
  }

  ghost predicate Observed(anchors: seq<Anchor>, t: int) {
    forall i :: 0 <= i < |anchors| ==> anchors[i].observedAt <= t
  }

  ghost predicate Allowed(anchors: seq<Anchor>, r: real, t: int) {
    forall i :: 0 <= i < |anchors| ==> !Soft(anchors[i], r, t)
  }

  /** The announced cooldown is exact up to a second: with the same anchors, a later check is allowed
      if and only if it comes no earlier than one second before the retry time. */
  lemma CooldownIsExact(anchors: seq<Anchor>, r: real, t: int, i: nat, later: int)
    requires Observed(anchors, t) && t <= later && i < |anchors| && Soft(anchors[i], r, t)
    requires forall j :: 0 <= j < |anchors| && Soft(anchors[j], r, t) ==> RetryAt(anchors[j], r, t) <= RetryAt(anchors[i], r, t)
    ensures Allowed(anchors, r, later) <==> later >= RetryAt(anchors[i], r, t) - 1
  {
    SoftEnds(anchors[i], r, t);
    SoftEnds(anchors[i], r, later);
    forall j | 0 <= j < |anchors|
      ensures Soft(anchors[j], r, later) ==> later <= RetryAt(anchors[i], r, t) - 2
    {
      SoftEnds(anchors[j], r, t);
      SoftEnds(anchors[j], r, later);
    }
  }

  /** Waiting never turns a cooldown into a ban. */
  lemma BanDoesNotGrow(a: Anchor, r: real, t: int, later: int)
    requires a.observedAt <= t <= later && Hard(a, r, later)
    ensures Hard(a, r, t)
  {
    Divide(MinimumDistance(a, r), Elapsed(a, t), HARD_BAN_MAX_SPEED);
    Divide(MinimumDistance(a, r), Elapsed(a, later), HARD_BAN_MAX_SPEED);
  }
}
