/** The APP_METADATA rows of the authorization protocol, one method a transaction. */
module AuthorizationStore {
  import opened Authorization
  import opened Ordering

  const CLEANUP_BATCH: nat := 64

  class Store {
    var records: map<int, Record>
    ghost var requests: map<int, Request>
    ghost var issued: map<int, Record>
    ghost var verified: seq<Passage>
    ghost var reached: seq<Passage>

    ghost function State(): System
      reads this
    {
      System(records, requests, issued, verified, reached)
    }

    constructor ()
      ensures State() == EMPTY
    {
      records, requests, issued, verified, reached := map[], map[], map[], [], [];
    }

    /** `_cleanup_claim_authorizations`: selects the removable rows of one oldest-first batch, then deletes them. */
    method CleanupBatch(rows: seq<int>, now: int) returns (removed: nat)
      requires |rows| <= CLEANUP_BATCH && forall i :: 0 <= i < |rows| ==> rows[i] in records
      requires forall i, j :: 0 <= i < j < |rows| ==> rows[i] != rows[j]
      modifies `records
      ensures State() == Next(old(State()), Cleanup(Elements(rows), now))
      ensures removed <= |rows|
    {
      var cutoff := now - VERIFY_GRACE;
      var removable: seq<int> := [];
      for i := 0 to |rows|
        invariant |removable| <= i
        invariant forall id :: id in removable <==> id in rows[..i] && Removable(records[id], now)
      {
        var r := records[rows[i]];
        if r.status == Issued && r.expiresAt <= now {
          removable := removable + [rows[i]];
        } else if r.status != Issued && r.expiresAt <= cutoff {
          removable := removable + [rows[i]];
        }
      }
      assert rows[..|rows|] == rows;
      for k := 0 to |removable|
        invariant records == map id | id in old(records) && id !in removable[..k] :: old(records)[id]
      {
        assert removable[..k + 1] == removable[..k] + [removable[k]];
        records := records - {removable[k]};
      }
      assert removable[..|removable|] == removable;
      assert forall id :: id in old(records) ==> (id in removable <==> id in Elements(rows) && Removable(old(records)[id], now));
      assert records == Cleaned(old(records), Elements(rows), now);
      removed := |removable|;
    }

    /** The write of `prepare_claim_authorization`, after its cleanup, with a random identifier. */
    method Prepare(id: int, details: Details, wallet: string, now: int)
      requires id !in issued
      modifies `records, `issued
      ensures State() == Next(old(State()), Event.Prepare(id, details, wallet, now))
    {
      var record := Record(Issued, details, wallet, now + AUTHORIZATION_TTL);
      records := records[id := record];
      issued := issued[id := record];
    }

    /** The early, unlocked checks of `guard_http_request`. */
    method Arrive(ghost w: int, id: int, details: Details, sessionWallet: string, now: int) returns (matched: bool)
      requires w !in requests
      modifies `requests
      ensures State() == Next(old(State()), Event.Arrive(w, id, details, sessionWallet, now))
      ensures matched <==> At(State(), w, Matched)
    {
      matched := false;
      if id in records {
        var r := records[id];
        matched := r.status == Issued && r.expiresAt > now && r.details == details;
      }
      requests := requests[w := if matched then Request(id, details, sessionWallet, records[id].wallet, Matched)
                                else Request(id, details, sessionWallet, "", Done)];
    }

    /** Claims the one permitted verification attempt. */
    method BeginVerify(ghost w: int, id: int, now: int) returns (mine: bool)
      requires At(State(), w, Matched) && requests[w].challenge == id
      modifies `records, `requests, `verified
      ensures State() == Next(old(State()), Event.BeginVerify(w, now))
      ensures mine <==> At(State(), w, Verify)
    {
      if id !in records || records[id].status != Issued || records[id].expiresAt <= now {
        requests := requests[w := requests[w].(phase := Done)];
        return false;
      }
      records := records[id := records[id].(status := Verifying)];
      verified := verified + [Passage(w, id, requests[w].details, requests[w].expected, now)];
      requests := requests[w := requests[w].(phase := Verify)];
      return true;
    }

    /** Takes the verified record on to processing, unless cleanup has already removed it. */
    method BeginProcessing(ghost w: int, id: int) returns (mine: bool)
      requires At(State(), w, Admitted) && requests[w].challenge == id
      modifies `records, `requests
      ensures State() == Next(old(State()), Event.BeginProcessing(w))
      ensures mine <==> At(State(), w, InProcess)
    {
      mine := id in records && records[id].status == Verifying;
      if mine {
        records := records[id := records[id].(status := Processing)];
      }
      requests := requests[w := requests[w].(phase := if mine then InProcess else Done)];
    }

    /** `_retire_claim_authorization` */
    method Retire(ghost w: int, id: int)
      requires At(State(), w, Retiring) && requests[w].challenge == id
      modifies `records, `requests
      ensures State() == Next(old(State()), Event.Retire(w))
    {
      records := records - {id};
      requests := requests[w := requests[w].(phase := Done)];
    }
  }
}
