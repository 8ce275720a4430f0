/** One-time claim codes of a published password Spot, and the capacity they share.

    Several pending claims may race with one code; the first promotion consumes it.
    Each event is one immediate transaction; a refused one rolls back. */
module ClaimCodes {
  import opened Options
  import opened Sums
  import opened Tables

  /** `tried` is history: the code each claim was opened with. */
  datatype Gate = Gate(
    max: nat,
    duration: nat,
    claims: map<int, ClaimStatus>,
    usedBy: map<int, Option<int>>, // CLAIM_CODE rows by id
    attempts: map<int, int>,       // CLAIM_CODE_ATTEMPT rows: claim to code
    tried: map<int, int>)

  datatype Event =
    | Open(claim: int, code: int, allowed: bool)
    | Promote(claim: int)
    | Drop(claim: int)
    | CloseIfFull

  function UsedCodes(usedBy: map<int, Option<int>>): (s: set<int>) {
    set k | k in usedBy && usedBy[k].Some?
  }

  function Full(g: Gate): bool {
    |Successes(g.claims)| >= g.max
  }

  /** Writes a claim status; the cleanup trigger drops the attempt of a terminal claim. */
  function SetStatus(g: Gate, c: int, status: ClaimStatus): Gate {
    g.(claims := g.claims[c := status],
       attempts := if status == ClaimPending then g.attempts else g.attempts - {c})
  }

  /** `fail_pending_standard_duration_claims_if_capacity_full` */
  function CloseFull(g: Gate): Gate {
    if g.duration > 0 && g.max > 0 && Full(g)
    then g.(claims := map c | c in g.claims :: if g.claims[c] == ClaimPending then ClaimFailed else g.claims[c],
            attempts := g.attempts - Pendings(g.claims))
    else g
  }

  /** `promote_pending_claim_to_success_if_capacity_available`, as the code policy wraps it. */
  function CapacityPromote(g: Gate, c: int): Gate {
    if g.max == 0 then SetStatus(g, c, ClaimSuccess)
    else if !Full(g) then CloseFull(SetStatus(g, c, ClaimSuccess))
    else SetStatus(g, c, ClaimFailed)
  }

  function Consume(g: Gate, code: int, c: int): Gate {
    g.(usedBy := g.usedBy[code := Some(c)])
  }

  /** `_release_code_from_claim` */
  function Release(g: Gate, c: int): Gate {
    g.(usedBy := map k | k in g.usedBy :: if g.usedBy[k] == Some(c) then None else g.usedBy[k])
  }

  predicate Consumable(g: Gate, c: int) {
    c in g.attempts && g.attempts[c] in g.usedBy && g.usedBy[g.attempts[c]] in {None, Some(c)}
  }

  /** `promote_pending_claim_to_success_if_code_available` */
  function PromoteWithCode(g: Gate, c: int): Gate {
    if c !in g.claims || g.claims[c] != ClaimPending then g
    else if !Consumable(g, c) then SetStatus(g, c, ClaimFailed)
    else
      var after := CapacityPromote(Consume(g, g.attempts[c], c), c);
      if after.claims[c] == ClaimSuccess then after else Release(after, c)
  }

  /** `is_spot_claim_capacity_available`, the part that concerns successes and codes. */
  predicate HasRoom(g: Gate) {
    && (g.max > 0 ==> !Full(g))
    && (g.usedBy != map[] ==> UsedCodes(g.usedBy) != g.usedBy.Keys)
  }

  predicate CanOpen(g: Gate, c: int, code: int, allowed: bool) {
    && allowed && c !in g.claims
    && HasRoom(g)
    && code in g.usedBy && g.usedBy[code] == None
  }

  function Opened(g: Gate, c: int, code: int): Gate {
    g.(claims := g.claims[c := ClaimPending],
       attempts := g.attempts[c := code],
       tried := g.tried[c := code])
  }

  function Next(g: Gate, e: Event): Gate {
    match e
    case Open(c, code, allowed) =>
      // the instant claim of a Spot without a duration is promoted at once; a refusal rolls everything back
      if !CanOpen(g, c, code, allowed) then g
      else if g.duration > 0 then Opened(g, c, code)
      else
        var after := PromoteWithCode(Opened(g, c, code), c);
        if after.claims[c] == ClaimSuccess then after else g
    case Promote(c) => PromoteWithCode(g, c)
    case Drop(c) => if c in g.claims && g.claims[c] == ClaimPending then SetStatus(g, c, ClaimFailed) else g
    case CloseIfFull => CloseFull(g)
  }

  function Run(g: Gate, es: seq<Event>): Gate
  {
    if es == [] then g else Next(Run(g, es[..|es| - 1]), es[|es| - 1])
  }

  /** A password Spot as `ensure_claim_codes_for_publish` leaves it. */
  ghost predicate Published(g: Gate) {
    && g.max > 0 && |g.usedBy| == g.max && UsedCodes(g.usedBy) == {}
    && g.claims == map[] && g.attempts == map[] && g.tried == map[]
  }

  // ------------------------------------------------------------------
  // The joint invariant
  // ------------------------------------------------------------------

  ghost predicate CodeOk(g: Gate, k: int) {
    k in g.usedBy && g.usedBy[k].Some? ==>
      var c := g.usedBy[k].value;
      c in g.claims && g.claims[c] == ClaimSuccess && c in g.tried && g.tried[c] == k
  }

  ghost predicate ClaimOk(g: Gate, c: int) {
    && c in g.claims && c in g.tried && g.tried[c] in g.usedBy
    && (g.claims[c] == ClaimSuccess ==> g.usedBy[g.tried[c]] == Some(c))
    && (c in g.attempts <==> g.claims[c] == ClaimPending)
    && (c in g.attempts ==> g.attempts[c] == g.tried[c])
  }

  ghost predicate Linked(g: Gate) {
    && (forall k :: k in g.usedBy ==> CodeOk(g, k))
    && (forall c :: c in g.claims ==> ClaimOk(g, c))
    && (forall c :: c in g.attempts || c in g.tried ==> c in g.claims)
  }

  ghost predicate Inv(g: Gate) {
    && g.max > 0 && |g.usedBy| == g.max
    && Linked(g)
    && (g.duration == 0 || Full(g) ==> Pendings(g.claims) == {})
  }

  /** A one-to-one correspondence keeps the number of elements. */
  lemma {:induction false} SameSize<X, Y>(a: set<X>, b: set<Y>, f: map<X, Y>)
    requires forall x :: x in a ==> x in f && f[x] in b
    requires forall x, y :: x in a && y in a && x != y ==> f[x] != f[y]
    requires forall y :: y in b ==> exists x :: x in a && f[x] == y
    ensures |a| == |b|
    decreases a
  {
    if a == {} {
      assert b == {};
    } else {
      var x :| x in a;
      SameSize(a - {x}, b - {f[x]}, f);
    }
  }

  /** Successful claims and used codes are in one-to-one correspondence. */
  lemma UsedAreSuccesses(g: Gate)
    requires Linked(g)
    ensures |UsedCodes(g.usedBy)| == |Successes(g.claims)|
  {
    var used, won := UsedCodes(g.usedBy), Successes(g.claims);
    forall c | c in won ensures c in g.tried && g.tried[c] in used && g.usedBy[g.tried[c]] == Some(c) {
      assert ClaimOk(g, c);
    }
    forall k | k in used ensures exists c :: c in won && g.tried[c] == k {
      assert CodeOk(g, k);
      assert g.usedBy[k].value in won;
    }
    SameSize(won, used, g.tried);
  }

  lemma SetStatusLinked(g: Gate, c: int, status: ClaimStatus)
    requires Linked(g) && c in g.claims && g.claims[c] == ClaimPending
    requires status == ClaimFailed || (status == ClaimSuccess && g.usedBy[g.tried[c]] == None)
    ensures status == ClaimFailed ==> Linked(SetStatus(g, c, status))
    ensures status == ClaimSuccess ==> Linked(SetStatus(Consume(g, g.tried[c], c), c, status))
  {
    var t := if status == ClaimFailed then SetStatus(g, c, status) else SetStatus(Consume(g, g.tried[c], c), c, status);
    assert ClaimOk(g, c);
    forall k | k in t.usedBy ensures CodeOk(t, k) {
      assert CodeOk(g, k);
    }
    forall x | x in t.claims ensures ClaimOk(t, x) {
      assert ClaimOk(g, x);
    }
  }

  lemma CloseFullLinked(g: Gate)
    requires Linked(g)
    ensures Linked(CloseFull(g)) && Successes(CloseFull(g).claims) == Successes(g.claims)
    ensures g.duration > 0 && g.max > 0 && Full(g) ==> Pendings(CloseFull(g).claims) == {}
  {
    var t := CloseFull(g);
    forall k | k in t.usedBy ensures CodeOk(t, k) {
      assert CodeOk(g, k);
    }
    forall x | x in t.claims ensures ClaimOk(t, x) {
      assert ClaimOk(g, x);
    }
  }

  lemma OpenedLinked(g: Gate, c: int, code: int)
    requires Linked(g) && CanOpen(g, c, code, true)
    ensures Linked(Opened(g, c, code))
  {
    var t := Opened(g, c, code);
    forall k | k in t.usedBy ensures CodeOk(t, k) {
      assert CodeOk(g, k);
    }
    forall x | x in t.claims ensures ClaimOk(t, x) {
      if x != c { assert ClaimOk(g, x); }
    }
  }

  /** While a code is unused there is room: the capacity gate never refuses a claim whose code is free. */
  lemma FreeCodeMeansRoom(g: Gate, k: int)
    requires Linked(g) && |g.usedBy| == g.max && k in g.usedBy && g.usedBy[k] == None
    ensures !Full(g)
  {
    UsedAreSuccesses(g);
    assert UsedCodes(g.usedBy) <= g.usedBy.Keys - {k};
    SubsetSize(UsedCodes(g.usedBy), g.usedBy.Keys - {k});
  }

  lemma PendingCanConsume(g: Gate, c: int)
    requires Linked(g) && c in g.claims && g.claims[c] == ClaimPending
    ensures c in g.tried && Consumable(g, c) <==> g.usedBy[g.tried[c]] == None
  {
    assert ClaimOk(g, c);
    assert CodeOk(g, g.tried[c]);
  }

  /** What a promotion does to a pending claim of a well-formed Spot. */
  lemma PromoteCases(g: Gate, c: int)
    requires Linked(g) && |g.usedBy| == g.max > 0 && c in g.claims && g.claims[c] == ClaimPending
    ensures c in g.tried && g.tried[c] in g.usedBy
    ensures PromoteWithCode(g, c) ==
            if g.usedBy[g.tried[c]] == None
            then CloseFull(SetStatus(Consume(g, g.tried[c], c), c, ClaimSuccess))
            else SetStatus(g, c, ClaimFailed)
  {
    PendingCanConsume(g, c);
    assert ClaimOk(g, c);
    if g.usedBy[g.tried[c]] == None {
      FreeCodeMeansRoom(g, g.tried[c]);
    }
  }

  lemma StatusSets(claims: map<int, ClaimStatus>, c: int, status: ClaimStatus)
    requires c in claims && claims[c] == ClaimPending && status != ClaimPending
    ensures Pendings(claims[c := status]) == Pendings(claims) - {c}
    ensures Successes(claims[c := status]) == Successes(claims) + if status == ClaimSuccess then {c} else {}
  {
    var after := claims[c := status];
    assert forall x :: x in after <==> x in claims;
    assert forall x :: x in Pendings(after) <==> x in Pendings(claims) && x != c;
    assert forall x :: x in Successes(after) <==> x in Successes(claims) || (x == c && status == ClaimSuccess);
  }

  lemma PromoteInv(g: Gate, c: int)
    requires Linked(g) && |g.usedBy| == g.max > 0 && c in g.claims && g.claims[c] == ClaimPending
    requires g.duration > 0 ==> Inv(g)
    requires g.duration == 0 ==> Pendings(g.claims) == {c}
    ensures Inv(PromoteWithCode(g, c))
    ensures c in PromoteWithCode(g, c).claims
    ensures PromoteWithCode(g, c).claims[c] == if g.usedBy[g.tried[c]] == None then ClaimSuccess else ClaimFailed
  {
    PromoteCases(g, c);
    if g.usedBy[g.tried[c]] == None {
      var t := SetStatus(Consume(g, g.tried[c], c), c, ClaimSuccess);
      SetStatusLinked(g, c, ClaimSuccess);
      CloseFullLinked(t);
      StatusSets(g.claims, c, ClaimSuccess);
      assert |CloseFull(t).usedBy.Keys| == |g.usedBy.Keys| by { assert CloseFull(t).usedBy.Keys == g.usedBy.Keys; }
    } else {
      SetStatusLinked(g, c, ClaimFailed);
      var t := SetStatus(g, c, ClaimFailed);
      StatusSets(g.claims, c, ClaimFailed);
    }
  }

  lemma OpenInv(g: Gate, c: int, code: int)
    requires Inv(g) && CanOpen(g, c, code, true)
    ensures Inv(Next(g, Open(c, code, true)))
  {
    var t := Opened(g, c, code);
    OpenedLinked(g, c, code);
    assert Successes(t.claims) == Successes(g.claims);
    assert forall x :: x in Pendings(t.claims) <==> x in Pendings(g.claims) || x == c;
    if g.duration == 0 {
      PromoteInv(t, c);
    }
  }

  lemma DropInv(g: Gate, c: int)
    requires Inv(g) && c in g.claims && g.claims[c] == ClaimPending
    ensures Inv(SetStatus(g, c, ClaimFailed))
  {
    SetStatusLinked(g, c, ClaimFailed);
    StatusSets(g.claims, c, ClaimFailed);
  }

  lemma NextInv(g: Gate, e: Event)
    requires Inv(g)
    ensures Inv(Next(g, e))
  {
    match e
    case Open(c, code, allowed) => if CanOpen(g, c, code, allowed) { OpenInv(g, c, code); }
    case Promote(c) =>
      if c in g.claims && g.claims[c] == ClaimPending {
        assert c in Pendings(g.claims);
        PromoteInv(g, c);
      }
    case Drop(c) => if c in g.claims && g.claims[c] == ClaimPending { DropInv(g, c); }
    case CloseIfFull => CloseFullLinked(g);
  }

  lemma {:induction false} RunInv(g: Gate, es: seq<Event>)
    requires Published(g)
    ensures Inv(Run(g, es))
  {
    if es == [] {
      assert forall k :: k in g.usedBy ==> k !in UsedCodes(g.usedBy);
      assert Pendings(g.claims) == {};
    } else {
      RunInv(g, es[..|es| - 1]);
      NextInv(Run(g, es[..|es| - 1]), es[|es| - 1]);
    }
  }

  // ------------------------------------------------------------------
  // Results
  // ------------------------------------------------------------------

  /** Successes never exceed the maximum, and the codes left are exactly the rewards left. */
  lemma CodesMatchCapacity(g: Gate, es: seq<Event>)
    requires Published(g)
    ensures var t := Run(g, es);
            && t.max == g.max && |Successes(t.claims)| <= t.max
            && |t.usedBy.Keys - UsedCodes(t.usedBy)| == t.max - |Successes(t.claims)|
  {
    var t := Run(g, es);
    RunInv(g, es);
    SettingsKept(g, es);
    UsedAreSuccesses(t);
    assert UsedCodes(t.usedBy) <= t.usedBy.Keys;
    assert |t.usedBy.Keys| == |t.usedBy|;
    SubsetSize(UsedCodes(t.usedBy), t.usedBy.Keys);
  }

  /** A code belongs to c exactly when c succeeded with it, and attempts are exactly the pending claims. */
  lemma OwnersAreWinners(g: Gate, es: seq<Event>, k: int, c: int)
    requires Published(g)
    ensures var t := Run(g, es);
            && (k in t.usedBy && t.usedBy[k] == Some(c) <==> c in Successes(t.claims) && c in t.tried && t.tried[c] == k)
            && (c in t.attempts <==> c in Pendings(t.claims))
  {
    var t := Run(g, es);
    RunInv(g, es);
    if c in t.claims { assert ClaimOk(t, c); }
    if k in t.usedBy { assert CodeOk(t, k); }
  }

  /** On a Spot with a waiting period, full capacity leaves nobody waiting. */
  lemma NobodyWaitsWhenFull(g: Gate, es: seq<Event>)
    requires Published(g)
    ensures Full(Run(g, es)) ==> Pendings(Run(g, es).claims) == {}
  {
    RunInv(g, es);
  }

  /** A pending claim whose code is free always succeeds when promoted; one whose code is gone always fails. */
  lemma FirstPromotionWins(g: Gate, es: seq<Event>, c: int)
    requires Published(g) && c in Pendings(Run(g, es).claims)
    ensures var s := Run(g, es);
            var t := Next(s, Promote(c));
            && c in s.tried && s.tried[c] in s.usedBy && c in t.claims
            && (t.claims[c] == ClaimSuccess <==> s.usedBy[s.tried[c]] == None)
            && (t.claims[c] == ClaimFailed <==> s.usedBy[s.tried[c]].Some?)
  {
    RunInv(g, es);
    assert ClaimOk(Run(g, es), c);
    PromoteInv(Run(g, es), c);
  }

  lemma FreeCodeOpensAt(g: Gate, c: int, code: int)
    requires Inv(g) && c !in g.claims && code in g.usedBy && g.usedBy[code] == None
    ensures CanOpen(g, c, code, true)
  {
    FreeCodeMeansRoom(g, code);
    assert code !in UsedCodes(g.usedBy);
  }

  /** A permitted new claim whose code is free is always opened: it waits when there is a waiting period, and
      otherwise wins the code at once. */
  lemma FreeCodeOpens(g: Gate, es: seq<Event>, c: int, code: int)
    requires Published(g) && c !in Run(g, es).claims && code in Run(g, es).usedBy && Run(g, es).usedBy[code] == None
    ensures var s := Run(g, es);
            var t := Next(s, Open(c, code, true));
            && (g.duration > 0 ==> t.claims == s.claims[c := ClaimPending] && t.attempts == s.attempts[c := code] && t.usedBy == s.usedBy)
            && (g.duration == 0 ==> c in t.claims && t.claims[c] == ClaimSuccess && code in t.usedBy && t.usedBy[code] == Some(c))
  {
    var s := Run(g, es);
    RunInv(g, es);
    SettingsKept(g, es);
    FreeCodeOpensAt(s, c, code);
    OpenedLinked(s, c, code);
    PromoteCases(Opened(s, c, code), c);
  }

  /** Without permission, a new identifier or a free code nothing is opened. */
  lemma OnlyFreeCodesOpen(g: Gate, c: int, code: int, allowed: bool)
    requires !allowed || c in g.claims || code !in g.usedBy || g.usedBy[code].Some?
    ensures Next(g, Open(c, code, allowed)) == g
  {
  }

  lemma NextKeepsOwners(g: Gate, e: Event, k: int)
    requires Inv(g) && k in g.usedBy && g.usedBy[k].Some?
    ensures k in Next(g, e).usedBy && Next(g, e).usedBy[k] == g.usedBy[k]
  {
    assert CodeOk(g, k);
    match e
    case Open(c, code, allowed) =>
      if CanOpen(g, c, code, allowed) {
        OpenedLinked(g, c, code);
        PromoteCases(Opened(g, c, code), c);
      }
    case Promote(c) =>
      if c in g.claims && g.claims[c] == ClaimPending {
        PromoteCases(g, c);
      }
    case _ =>
  }

  /** A code once consumed keeps its owner for good. */
  lemma {:induction false} OwnersAreForever(g: Gate, es: seq<Event>, more: seq<Event>, k: int)
    requires Published(g) && k in Run(g, es).usedBy && Run(g, es).usedBy[k].Some?
    ensures k in Run(g, es + more).usedBy && Run(g, es + more).usedBy[k] == Run(g, es).usedBy[k]
  {
    if more == [] {
      assert es + more == es;
    } else {
      var n := |more| - 1;
      OwnersAreForever(g, es, more[..n], k);
      assert (es + more)[..|es + more| - 1] == es + more[..n];
      RunInv(g, es + more[..n]);
      NextKeepsOwners(Run(g, es + more[..n]), more[n], k);
    }
  }

  lemma {:induction false} SettingsKept(g: Gate, es: seq<Event>)
    ensures Run(g, es).max == g.max && Run(g, es).duration == g.duration
  {
    if es != [] {
      SettingsKept(g, es[..|es| - 1]);
    }
  }
}
