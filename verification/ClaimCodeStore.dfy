/** The claim, code and attempt rows of one Spot, updated in place statement by statement. */
module ClaimCodeStore {
  import opened Options
  import opened Ordering
  import opened Sums
  import opened Tables
  import opened ClaimCodes

  method ListUnused(rows: seq<int>, usedBy: map<int, Option<int>>) returns (unused: seq<int>)
    requires Distinct(rows) && Elements(rows) == usedBy.Keys
    ensures Distinct(unused) && Elements(unused) == usedBy.Keys - UsedCodes(usedBy)
  {
    unused := [];
    assert forall i :: 0 <= i < |rows| ==> rows[i] in Elements(rows);
    for i := 0 to |rows|
      invariant Distinct(unused)
      invariant forall k :: k in unused <==> k in rows[..i] && usedBy[k] == None
    {
      if usedBy[rows[i]] == None {
        unused := unused + [rows[i]];
      }
    }
    assert forall k :: k in unused <==> k in Elements(rows) && usedBy[k] == None;
  }

  lemma CountCodes(rows: seq<int>, unused: seq<int>, usedBy: map<int, Option<int>>)
    requires Distinct(rows) && Elements(rows) == usedBy.Keys
    requires Distinct(unused) && Elements(unused) == usedBy.Keys - UsedCodes(usedBy)
    ensures |rows| == |usedBy| && |rows| - |unused| == |UsedCodes(usedBy)|
  {
    DistinctSize(rows);
    DistinctSize(unused);
    assert |usedBy.Keys| == |usedBy|;
    SubsetSize(UsedCodes(usedBy), usedBy.Keys);
  }

  function Trimmed(usedBy: map<int, Option<int>>, doomed: set<int>): map<int, Option<int>> {
    map k | k in usedBy && !(k in doomed && usedBy[k] == None) :: usedBy[k]
  }

  lemma TrimmedCodes(usedBy: map<int, Option<int>>, doomed: set<int>)
    requires doomed <= usedBy.Keys - UsedCodes(usedBy)
    ensures |Trimmed(usedBy, doomed)| == |usedBy| - |doomed|
    ensures UsedCodes(Trimmed(usedBy, doomed)) == UsedCodes(usedBy)
  {
    assert Trimmed(usedBy, doomed).Keys == usedBy.Keys - doomed;
    assert |Trimmed(usedBy, doomed).Keys| == |Trimmed(usedBy, doomed)| && |usedBy.Keys| == |usedBy|;
    SubsetSize(doomed, usedBy.Keys);
  }

  function Extended(usedBy: map<int, Option<int>>, generated: set<int>): map<int, Option<int>> {
    map k | k in usedBy.Keys + generated :: if k in usedBy then usedBy[k] else None
  }

  lemma ExtendedCodes(usedBy: map<int, Option<int>>, generated: set<int>)
    requires generated !! usedBy.Keys
    ensures |Extended(usedBy, generated)| == |usedBy| + |generated|
    ensures UsedCodes(Extended(usedBy, generated)) == UsedCodes(usedBy)
  {
    assert Extended(usedBy, generated).Keys == usedBy.Keys + generated;
    assert |Extended(usedBy, generated).Keys| == |Extended(usedBy, generated)| && |usedBy.Keys| == |usedBy|;
  }

  class Store {
    const max: nat
    const duration: nat
    var claims: map<int, ClaimStatus>
    var usedBy: map<int, Option<int>>
    var attempts: map<int, int>
    ghost var tried: map<int, int>

    ghost function State(): Gate
      reads this
    {
      Gate(max, duration, claims, usedBy, attempts, tried)
    }

    /** A draft with a finite participant count, and whatever codes an older flow left on it. */
    constructor (max: nat, duration: nat, left: map<int, Option<int>>)
      requires max > 0
      ensures State() == Gate(max, duration, map[], left, map[], map[])
    {
      this.max, this.duration := max, duration;
      claims, usedBy, attempts := map[], left, map[];
      tried := map[];
    }

    /** `ensure_claim_codes_for_publish`; `rows` is the order the query lists the codes in. */
    method EnsureCodes(rows: seq<int>, generated: set<int>) returns (ok: bool)
      requires Distinct(rows) && Elements(rows) == usedBy.Keys
      requires generated !! usedBy.Keys && (|rows| < max ==> |generated| == max - |rows|)
      modifies `usedBy
      ensures ok <==> |UsedCodes(old(usedBy))| <= max
      ensures !ok ==> usedBy == old(usedBy)
      ensures ok ==> |usedBy| == max && UsedCodes(usedBy) == UsedCodes(old(usedBy))
      ensures ok ==> forall k :: k in usedBy && k in old(usedBy) ==> usedBy[k] == old(usedBy[k])
      ensures |rows| <= max ==> usedBy.Keys >= old(usedBy).Keys
      ensures |rows| >= max ==> usedBy.Keys <= old(usedBy).Keys
    {
      var unused := ListUnused(rows, usedBy);
      CountCodes(rows, unused, usedBy);
      var usedCount := |rows| - |unused|;
      if usedCount > max {
        return false;
      }
      if |rows| > max {
        DistinctSize(unused[..|rows| - max]);
        TrimmedCodes(usedBy, Elements(unused[..|rows| - max]));
        usedBy := Trimmed(usedBy, Elements(unused[..|rows| - max]));
      } else if |rows| < max {
        ExtendedCodes(usedBy, generated);
        usedBy := Extended(usedBy, generated);
      }
      return true;
    }

    /** `modify_claim_status`, followed by the attempt cleanup trigger. */
    method ModifyStatus(c: int, status: ClaimStatus)
      requires c in claims
      modifies `claims, `attempts
      ensures State() == SetStatus(old(State()), c, status)
    {
      claims := claims[c := status];
      if status == ClaimSuccess || status == ClaimFailed {
        attempts := attempts - {c};
      }
    }

    /** `fail_pending_standard_duration_claims_if_capacity_full` */
    method CloseIfFull()
      modifies `claims, `attempts
      ensures State() == Next(old(State()), Event.CloseIfFull)
    {
      if duration <= 0 || max <= 0 || |Successes(claims)| < max {
        return;
      }
      attempts := attempts - Pendings(claims);
      claims := map c | c in claims :: if claims[c] == ClaimPending then ClaimFailed else claims[c];
    }

    /** `promote_pending_claim_to_success_if_capacity_available`: the final capacity gate. */
    method PromoteIfCapacity(c: int)
      requires c in claims && claims[c] == ClaimPending
      modifies `claims, `attempts
      ensures State() == CapacityPromote(old(State()), c)
    {
      if max <= 0 {
        ModifyStatus(c, ClaimSuccess);
      } else if |Successes(claims)| < max {
        ModifyStatus(c, ClaimSuccess);
        CloseIfFull();
      } else {
        ModifyStatus(c, ClaimFailed);
      }
    }

    /** `promote_pending_claim_to_success_if_code_available` */
    method Promote(c: int)
      modifies `claims, `attempts, `usedBy
      ensures State() == Next(old(State()), Event.Promote(c))
    {
      if c !in claims || claims[c] != ClaimPending {
        return;
      }
      if c !in attempts || attempts[c] !in usedBy {
        ModifyStatus(c, ClaimFailed);
        return;
      }
      var code := attempts[c];
      if usedBy[code] != None && usedBy[code] != Some(c) {
        ModifyStatus(c, ClaimFailed);
        return;
      }
      usedBy := usedBy[code := Some(c)];
      PromoteIfCapacity(c);
      if claims[c] != ClaimSuccess {
        usedBy := map k | k in usedBy :: if usedBy[k] == Some(c) then None else usedBy[k];
      }
    }

    /** `create_claim_attempt_success_only` inside its transaction; `allowed` stands for the other claim rules. */
    method CreateAttempt(c: int, code: int, allowed: bool) returns (ok: bool)
      requires c !in claims
      modifies `claims, `attempts, `usedBy, `tried
      ensures State() == Next(old(State()), Event.Open(c, code, allowed))
      ensures ok <==> c in claims
    {
      if !allowed || (max > 0 && |Successes(claims)| >= max) || (usedBy != map[] && UsedCodes(usedBy) == usedBy.Keys) {
        return false;
      }
      if code !in usedBy || usedBy[code] != None {
        return false;
      }
      var savedClaims, savedAttempts, savedUsedBy := claims, attempts, usedBy;
      ghost var savedTried := tried;
      claims := claims[c := ClaimPending];
      attempts := attempts[c := code];
      tried := tried[c := code];
      if duration <= 0 {
        Promote(c);
        if claims[c] != ClaimSuccess {
          // the ValueError rolls the transaction back
          claims, attempts, usedBy, tried := savedClaims, savedAttempts, savedUsedBy, savedTried;
          return false;
        }
      }
      return true;
    }
  }
}
