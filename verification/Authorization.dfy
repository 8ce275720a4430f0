/** One-time claim authorizations: concurrent requests, crashes and cleanup over one table of records.

    Every event is one transaction or one external answer, so requests interleave between
    any two of their steps. A request that crashes simply has no further events. */
module Authorization {
  const AUTHORIZATION_TTL: nat := 90
  const VERIFY_GRACE: nat := 300

  datatype Status = Issued | Verifying | Processing

  /** The claim a wallet approves: coordinates in E6, accuracy in centimetres. */
  datatype Details = Details(spot: int, device: string, latitude: int, longitude: int, accuracy: int)

  datatype Record = Record(status: Status, details: Details, wallet: string, expiresAt: int)

  /** Where a request has got to in `guard_http_request`. */
  datatype Phase = Matched | Verify | Admitted | InProcess | AtEndpoint | Retiring | Done

  datatype Request = Request(challenge: int, details: Details, sessionWallet: string, expected: string, phase: Phase)

  /** History entry: which request passed a gate, for which challenge, and when. */
  datatype Passage = Passage(request: int, challenge: int, details: Details, wallet: string, at: int)

  datatype System = System(
    records: map<int, Record>,
    requests: map<int, Request>,
    issued: map<int, Record>,      // history: every record as it was issued
    verified: seq<Passage>,        // history: requests that reached signature verification
    reached: seq<Passage>)         // history: requests that reached the claim endpoint

  datatype Event =
    | Prepare(id: int, details: Details, wallet: string, now: int)
    | Arrive(request: int, challenge: int, details: Details, sessionWallet: string, now: int)
    | BeginVerify(request: int, now: int)
    | Verdict(request: int, signer: string, allowed: bool) // "" when the signature is invalid
    | BeginProcessing(request: int)
    | Decide(request: int, blocked: bool, now: int)
    | Respond(request: int, audited: bool)
    | Retire(request: int)
    | Cleanup(keys: set<int>, now: int)

  predicate IsUsable(records: map<int, Record>, id: int, now: int) {
    id in records && records[id].status == Issued && records[id].expiresAt > now
  }

  /** The record a cleanup pass may delete: a claimed record keeps a grace period. */
  predicate Removable(r: Record, now: int) {
    match r.status
    case Issued => r.expiresAt <= now
    case Verifying => r.expiresAt + VERIFY_GRACE <= now
    case Processing => r.expiresAt + VERIFY_GRACE <= now
  }

  predicate At(s: System, w: int, phase: Phase) {
    w in s.requests && s.requests[w].phase == phase
  }

  function Move(s: System, w: int, phase: Phase): System
    requires w in s.requests
  {
    s.(requests := s.requests[w := s.requests[w].(phase := phase)])
  }

  /** The unlocked read that rejects hopeless requests early. */
  function Arrived(s: System, w: int, id: int, details: Details, sessionWallet: string, now: int): System {
    var q := if IsUsable(s.records, id, now) && s.records[id].details == details
             then Request(id, details, sessionWallet, s.records[id].wallet, Matched)
             else Request(id, details, sessionWallet, "", Done);
    s.(requests := s.requests[w := q])
  }

  function VerifyBegun(s: System, w: int, now: int): System
    requires w in s.requests
  {
    var q := s.requests[w];
    if IsUsable(s.records, q.challenge, now)
    then Move(s, w, Verify).(
           records := s.records[q.challenge := s.records[q.challenge].(status := Verifying)],
           verified := s.verified + [Passage(w, q.challenge, q.details, q.expected, now)])
    else Move(s, w, Done)
  }

  function ProcessingBegun(s: System, w: int): System
    requires w in s.requests
  {
    var id := s.requests[w].challenge;
    if id in s.records && s.records[id].status == Verifying
    then Move(s, w, InProcess).(records := s.records[id := s.records[id].(status := Processing)])
    else Move(s, w, Done)
  }

  function Decided(s: System, w: int, blocked: bool, now: int): System
    requires w in s.requests
  {
    var q := s.requests[w];
    if blocked then Move(s, w, Retiring)
    else Move(s, w, AtEndpoint).(
           reached := s.reached + [Passage(w, q.challenge, q.details, q.sessionWallet, now)])
  }

  function Cleaned(records: map<int, Record>, keys: set<int>, now: int): map<int, Record> {
    map id | id in records && !(id in keys && Removable(records[id], now)) :: records[id]
  }

  function Next(s: System, e: Event): System {
    match e
    case Prepare(id, details, wallet, now) =>
      // the random identifier has never been used before
      if id in s.issued then s
      else
        var r := Record(Issued, details, wallet, now + AUTHORIZATION_TTL);
        s.(records := s.records[id := r], issued := s.issued[id := r])
    case Arrive(w, id, details, sessionWallet, now) =>
      if w in s.requests then s else Arrived(s, w, id, details, sessionWallet, now)
    case BeginVerify(w, now) => if At(s, w, Matched) then VerifyBegun(s, w, now) else s
    case Verdict(w, signer, allowed) =>
      if At(s, w, Verify)
      then Move(s, w, if signer != "" && signer == s.requests[w].expected && s.requests[w].expected == s.requests[w].sessionWallet && allowed
                      then Admitted else Retiring)
      else s
    case BeginProcessing(w) => if At(s, w, Admitted) then ProcessingBegun(s, w) else s
    case Decide(w, blocked, now) => if At(s, w, InProcess) then Decided(s, w, blocked, now) else s
    case Respond(w, audited) => if At(s, w, AtEndpoint) then Move(s, w, if audited then Retiring else Done) else s
    case Retire(w) =>
      if At(s, w, Retiring) then Move(s, w, Done).(records := s.records - {s.requests[w].challenge}) else s
    case Cleanup(keys, now) => s.(records := Cleaned(s.records, keys, now))
  }

  function Run(s: System, es: seq<Event>): System
  {
    if es == [] then s else Next(Run(s, es[..|es| - 1]), es[|es| - 1])
  }

  const EMPTY := System(map[], map[], map[], [], [])
}

/** What holds in every run of the authorization protocol. */
module AuthorizationRuns {
  import opened Authorization

  ghost predicate OneEach(log: seq<Passage>) {
    forall i, j :: 0 <= i < j < |log| ==> log[i].challenge != log[j].challenge
  }

  ghost predicate Passed(log: seq<Passage>, w: int, id: int) {
    exists i :: 0 <= i < |log| && log[i].request == w && log[i].challenge == id
  }

  ghost predicate Claimed(log: seq<Passage>, id: int) {
    exists i :: 0 <= i < |log| && log[i].challenge == id
  }

  /** A passage agrees with the record its challenge was issued as. */
  ghost predicate AsIssued(s: System, p: Passage) {
    && p.challenge in s.issued
    && p.details == s.issued[p.challenge].details
    && p.wallet == s.issued[p.challenge].wallet
  }

  ghost predicate RecordOk(s: System, id: int) {
    && id in s.records && id in s.issued
    && s.records[id].(status := Issued) == s.issued[id]
    && (s.records[id].status == Issued <==> !Claimed(s.verified, id))
  }

  predicate BeforeEndpoint(p: Phase) {
    p in {Matched, Verify, Admitted, InProcess}
  }

  ghost predicate RequestOk(s: System, w: int) {
    && w in s.requests
    && var q := s.requests[w];
       && (q.phase != Done ==> q.challenge in s.issued && q.details == s.issued[q.challenge].details
                               && q.expected == s.issued[q.challenge].wallet)
       && (q.phase in {Admitted, InProcess, AtEndpoint} ==> q.sessionWallet == q.expected)
       && (q.phase !in {Matched, Done} ==> Passed(s.verified, w, q.challenge))
       && (BeforeEndpoint(q.phase) ==> !Passed(s.reached, w, q.challenge))
  }

  ghost predicate VerifiedOk(s: System, p: Passage) {
    AsIssued(s, p) && p.at < s.issued[p.challenge].expiresAt && p.request in s.requests
    && s.requests[p.request].challenge == p.challenge
  }

  ghost predicate ReachedOk(s: System, p: Passage) {
    AsIssued(s, p) && Passed(s.verified, p.request, p.challenge)
  }

  ghost predicate Inv(s: System) {
    && (forall id :: id in s.records ==> RecordOk(s, id))
    && (forall w :: w in s.requests ==> RequestOk(s, w))
    && (forall i :: 0 <= i < |s.verified| ==> VerifiedOk(s, s.verified[i]))
    && (forall i :: 0 <= i < |s.reached| ==> ReachedOk(s, s.reached[i]))
    && OneEach(s.verified) && OneEach(s.reached)
  }

  /** Only one request can have passed the gate for a challenge. */
  lemma OneOwner(log: seq<Passage>, w: int, v: int, id: int)
    requires OneEach(log) && Passed(log, w, id) && Passed(log, v, id)
    ensures w == v
  {
    var i :| 0 <= i < |log| && log[i].request == w && log[i].challenge == id;
    var j :| 0 <= j < |log| && log[j].request == v && log[j].challenge == id;
    assert i < j || j < i || i == j;
  }

  lemma Extended(log: seq<Passage>, p: Passage)
    ensures forall w, id :: Passed(log + [p], w, id) <==> Passed(log, w, id) || (p.request == w && p.challenge == id)
    ensures forall id :: Claimed(log + [p], id) <==> Claimed(log, id) || p.challenge == id
    ensures OneEach(log) && !Claimed(log, p.challenge) ==> OneEach(log + [p])
  {
    var more := log + [p];
    assert more[|log|] == p && forall i :: 0 <= i < |log| ==> more[i] == log[i];
    forall w, id ensures Passed(more, w, id) <==> Passed(log, w, id) || (p.request == w && p.challenge == id) {
      if Passed(log, w, id) {
        var i :| 0 <= i < |log| && log[i].request == w && log[i].challenge == id;
        assert more[i] == log[i];
      }
    }
    forall id ensures Claimed(more, id) <==> Claimed(log, id) || p.challenge == id {
      if Claimed(log, id) {
        var i :| 0 <= i < |log| && log[i].challenge == id;
        assert more[i] == log[i];
      }
    }
  }

  lemma PrepareInv(s: System, e: Event)
    requires Inv(s) && e.Prepare?
    ensures Inv(Next(s, e))
  {
    var t := Next(s, e);
    if e.id !in s.issued {
      forall id | id in t.records ensures RecordOk(t, id) {
        ClaimedWasIssued(s, id);
        if id != e.id {
          assert RecordOk(s, id);
        }
      }
      forall w | w in t.requests ensures RequestOk(t, w) {
        assert RequestOk(s, w);
      }
      forall i | 0 <= i < |t.verified| ensures VerifiedOk(t, t.verified[i]) {
        assert VerifiedOk(s, s.verified[i]);
      }
      forall i | 0 <= i < |t.reached| ensures ReachedOk(t, t.reached[i]) {
        assert ReachedOk(s, s.reached[i]);
      }
    }
  }

  /** Steps that only move one request, or only drop records. */
  lemma QuietInv(s: System, t: System)
    requires Inv(s)
    requires t.issued == s.issued && t.verified == s.verified && t.reached == s.reached
    requires forall id :: id in t.records ==> id in s.records && t.records[id].(status := Issued) == s.records[id].(status := Issued)
                                              && (t.records[id].status == Issued <==> s.records[id].status == Issued)
    requires forall w :: w in s.requests ==> w in t.requests && t.requests[w].challenge == s.requests[w].challenge
    requires forall w :: w in t.requests ==> RequestOk(t, w)
    ensures Inv(t)
  {
    forall id | id in t.records ensures RecordOk(t, id) {
      assert RecordOk(s, id);
    }
    forall i | 0 <= i < |t.verified| ensures VerifiedOk(t, t.verified[i]) {
      assert VerifiedOk(s, s.verified[i]);
    }
    forall i | 0 <= i < |t.reached| ensures ReachedOk(t, t.reached[i]) {
      assert ReachedOk(s, s.reached[i]);
    }
  }

  lemma ArriveInv(s: System, e: Event)
    requires Inv(s) && e.Arrive?
    ensures Inv(Next(s, e))
  {
    var t := Next(s, e);
    if e.request !in s.requests {
      forall w | w in t.requests ensures RequestOk(t, w) {
        if w != e.request {
          assert RequestOk(s, w);
        } else {
          if e.challenge in s.records { assert RecordOk(s, e.challenge); }
          ReachedByKnown(s, w, e.challenge);
        }
      }
      QuietInv(s, t);
    }
  }

  lemma ClaimedWasIssued(s: System, id: int)
    requires Inv(s)
    ensures Claimed(s.verified, id) ==> id in s.issued
  {
    assert forall i :: 0 <= i < |s.verified| ==> VerifiedOk(s, s.verified[i]);
  }

  lemma ReachedByKnown(s: System, w: int, id: int)
    requires Inv(s)
    ensures Passed(s.reached, w, id) ==> w in s.requests
  {
    assert forall i :: 0 <= i < |s.verified| ==> VerifiedOk(s, s.verified[i]);
    assert forall i :: 0 <= i < |s.reached| ==> ReachedOk(s, s.reached[i]);
  }

  lemma BeginVerifyInv(s: System, w: int, now: int)
    requires Inv(s) && At(s, w, Matched)
    ensures Inv(VerifyBegun(s, w, now))
  {
    var t := VerifyBegun(s, w, now);
    var q := s.requests[w];
    assert RequestOk(s, w);
    if IsUsable(s.records, q.challenge, now) {
      assert RecordOk(s, q.challenge);
      var p := Passage(w, q.challenge, q.details, q.expected, now);
      Extended(s.verified, p);
      forall id | id in t.records ensures RecordOk(t, id) {
        assert RecordOk(s, id);
      }
      forall v | v in t.requests ensures RequestOk(t, v) {
        assert RequestOk(s, v);
      }
      forall i | 0 <= i < |t.verified| ensures VerifiedOk(t, t.verified[i]) {
        if i < |s.verified| {
          assert VerifiedOk(s, s.verified[i]);
        }
      }
      forall i | 0 <= i < |t.reached| ensures ReachedOk(t, t.reached[i]) {
        assert ReachedOk(s, s.reached[i]);
      }
    } else {
      MovedInv(s, w, Done);
    }
  }

  lemma MovedInv(s: System, w: int, phase: Phase)
    requires Inv(s) && w in s.requests
    requires phase == Done || (s.requests[w].phase !in {Matched, Done} && phase == Retiring)
             || (At(s, w, Verify) && phase == Admitted && s.requests[w].sessionWallet == s.requests[w].expected)
    ensures Inv(Move(s, w, phase))
  {
    var t := Move(s, w, phase);
    forall v | v in t.requests ensures RequestOk(t, v) {
      assert RequestOk(s, v);
    }
    QuietInv(s, t);
  }

  lemma BeginProcessingInv(s: System, w: int)
    requires Inv(s) && At(s, w, Admitted)
    ensures Inv(ProcessingBegun(s, w))
  {
    var t := ProcessingBegun(s, w);
    forall v | v in t.requests ensures RequestOk(t, v) {
      assert RequestOk(s, v);
    }
    QuietInv(s, t);
  }

  lemma DecideInv(s: System, w: int, blocked: bool, now: int)
    requires Inv(s) && At(s, w, InProcess)
    ensures Inv(Decided(s, w, blocked, now))
  {
    if blocked {
      MovedInv(s, w, Retiring);
    } else {
      var t := Decided(s, w, blocked, now);
      var q := s.requests[w];
      assert RequestOk(s, w);
      Extended(s.reached, Passage(w, q.challenge, q.details, q.sessionWallet, now));
      NobodyElseReached(s, w);
      forall id | id in t.records ensures RecordOk(t, id) {
        assert RecordOk(s, id);
      }
      forall v | v in t.requests ensures RequestOk(t, v) {
        assert RequestOk(s, v);
      }
      forall i | 0 <= i < |t.verified| ensures VerifiedOk(t, t.verified[i]) {
        assert VerifiedOk(s, s.verified[i]);
      }
      forall i | 0 <= i < |t.reached| ensures ReachedOk(t, t.reached[i]) {
        if i < |s.reached| {
          assert ReachedOk(s, s.reached[i]);
        }
      }
    }
  }

  lemma NobodyElseReached(s: System, w: int)
    requires Inv(s) && At(s, w, InProcess)
    ensures !Claimed(s.reached, s.requests[w].challenge)
  {
    var id := s.requests[w].challenge;
    assert RequestOk(s, w);
    if Claimed(s.reached, id) {
      var i :| 0 <= i < |s.reached| && s.reached[i].challenge == id;
      assert ReachedOk(s, s.reached[i]);
      OneOwner(s.verified, w, s.reached[i].request, id);
      assert Passed(s.reached, w, id);
    }
  }

  lemma RetireInv(s: System, w: int)
    requires Inv(s) && At(s, w, Retiring)
    ensures Inv(Next(s, Retire(w)))
  {
    var t := Next(s, Retire(w));
    forall v | v in t.requests ensures RequestOk(t, v) {
      assert RequestOk(s, v);
    }
    QuietInv(s, t);
  }

  lemma CleanupInv(s: System, keys: set<int>, now: int)
    requires Inv(s)
    ensures Inv(Next(s, Cleanup(keys, now)))
  {
    var t := Next(s, Cleanup(keys, now));
    forall v | v in t.requests ensures RequestOk(t, v) {
      assert RequestOk(s, v);
    }
    QuietInv(s, t);
  }

  lemma NextInv(s: System, e: Event)
    requires Inv(s)
    ensures Inv(Next(s, e))
  {
    match e
    case Prepare(_, _, _, _) => PrepareInv(s, e);
    case Arrive(_, _, _, _, _) => ArriveInv(s, e);
    case BeginVerify(w, now) => if At(s, w, Matched) { BeginVerifyInv(s, w, now); }
    case Verdict(w, signer, allowed) =>
      if At(s, w, Verify) {
        if s.requests[w].sessionWallet == s.requests[w].expected { MovedInv(s, w, Admitted); }
        MovedInv(s, w, Retiring);
      }
    case BeginProcessing(w) => if At(s, w, Admitted) { BeginProcessingInv(s, w); }
    case Decide(w, blocked, now) => if At(s, w, InProcess) { DecideInv(s, w, blocked, now); }
    case Respond(w, audited) =>
      if At(s, w, AtEndpoint) {
        MovedInv(s, w, Retiring);
        MovedInv(s, w, Done);
      }
    case Retire(w) => if At(s, w, Retiring) { RetireInv(s, w); }
    case Cleanup(keys, now) => CleanupInv(s, keys, now);
  }

  lemma {:induction false} RunInv(es: seq<Event>)
    ensures Inv(Run(EMPTY, es))
  {
    if es != [] {
      RunInv(es[..|es| - 1]);
      NextInv(Run(EMPTY, es[..|es| - 1]), es[|es| - 1]);
    }
  }

  // ------------------------------------------------------------------
  // Results
  // ------------------------------------------------------------------

  /** Each challenge lets at most one request reach verification, and before it expires. */
  lemma OneVerification(es: seq<Event>, i: nat, j: nat)
    requires i < |Run(EMPTY, es).verified| && j < |Run(EMPTY, es).verified|
    ensures var s := Run(EMPTY, es);
            && (s.verified[i].challenge == s.verified[j].challenge ==> i == j)
            && s.verified[i].challenge in s.issued && s.verified[i].at < s.issued[s.verified[i].challenge].expiresAt
  {
    RunInv(es);
    var s := Run(EMPTY, es);
    assert VerifiedOk(s, s.verified[i]);
  }

  /** Each challenge lets at most one request reach the claim endpoint: the one that verified,
      with the Spot, device, location and wallet the record was issued for. */
  lemma OneClaim(es: seq<Event>, i: nat, j: nat)
    requires i < |Run(EMPTY, es).reached| && j < |Run(EMPTY, es).reached|
    ensures var s := Run(EMPTY, es);
            var p := s.reached[i];
            && (p.challenge == s.reached[j].challenge ==> i == j)
            && Passed(s.verified, p.request, p.challenge)
            && p.challenge in s.issued && p.details == s.issued[p.challenge].details && p.wallet == s.issued[p.challenge].wallet
  {
    RunInv(es);
    var s := Run(EMPTY, es);
    assert ReachedOk(s, s.reached[i]);
  }

  ghost predicate Spent(s: System, id: int) {
    id in s.issued && (id !in s.records || s.records[id].status != Issued)
  }

  lemma SpentStep(s: System, e: Event, id: int)
    requires Spent(s, id)
    ensures Spent(Next(s, e), id)
  {
  }

  /** A challenge that was claimed once, or whose record is gone, is refused for ever. */
  lemma {:induction false} SpentForever(es: seq<Event>, more: seq<Event>, id: int, now: int)
    requires Spent(Run(EMPTY, es), id)
    ensures Spent(Run(EMPTY, es + more), id) && !IsUsable(Run(EMPTY, es + more).records, id, now)
  {
    if more == [] {
      assert es + more == es;
    } else {
      SpentForever(es, more[..|more| - 1], id, now);
      assert (es + more)[..|es + more| - 1] == es + more[..|more| - 1];
      SpentStep(Run(EMPTY, es + more[..|more| - 1]), more[|more| - 1], id);
    }
  }
}

/** What deleting records can change: nothing for expired issued ones, and never anything in favour of a request. */
module AuthorizationCleanup {
  import opened Authorization

  function WithoutCleanup(es: seq<Event>): (kept: seq<Event>)
  {
    if es == [] then []
    else
      var rest := WithoutCleanup(es[..|es| - 1]);
      if es[|es| - 1].Cleanup? then rest else rest + [es[|es| - 1]]
  }

  ghost predicate Among(log: seq<Passage>, all: seq<Passage>) {
    forall i :: 0 <= i < |log| ==> log[i] in all
  }

  /** Request w is as far, or was refused because its record is gone. */
  ghost predicate Behind(s: System, t: System, w: int) {
    && w in s.requests && w in t.requests
    && (s.requests[w] == t.requests[w]
        || (s.requests[w].phase == Done && s.requests[w].challenge == t.requests[w].challenge
            && s.requests[w].challenge in s.issued && s.requests[w].challenge !in s.records))
  }

  /** Everything that happened in s happened in t. */
  ghost predicate Refused(s: System, t: System) {
    && s.issued == t.issued && s.requests.Keys == t.requests.Keys
    && (forall id :: id in s.records ==> id in t.records && s.records[id] == t.records[id])
    && (forall id :: id in t.records ==> id in t.issued)
    && (forall w :: w in s.requests ==> Behind(s, t, w))
    && Among(s.verified, t.verified) && Among(s.reached, t.reached)
  }

  lemma RefusedRecords(s: System, t: System, e: Event)
    requires Refused(s, t) && (e.Prepare? || e.Cleanup?)
    ensures Refused(Next(s, e), if e.Cleanup? then t else Next(t, e))
  {
    var u, v := Next(s, e), if e.Cleanup? then t else Next(t, e);
    forall w | w in u.requests ensures Behind(u, v, w) {
      assert Behind(s, t, w);
    }
  }

  lemma RefusedArrive(s: System, t: System, e: Event)
    requires Refused(s, t) && e.Arrive?
    ensures Refused(Next(s, e), Next(t, e))
  {
    var u, v := Next(s, e), Next(t, e);
    forall w | w in u.requests ensures Behind(u, v, w) {
      if w in s.requests { assert Behind(s, t, w); }
    }
  }

  predicate ByRequest(e: Event, w: int) {
    match e
    case BeginVerify(x, _) => x == w
    case Verdict(x, _, _) => x == w
    case BeginProcessing(x) => x == w
    case Decide(x, _, _) => x == w
    case Respond(x, _) => x == w
    case Retire(x) => x == w
    case _ => false
  }

  /** A request's own step touches only its challenge's record and its own place. */
  lemma OwnStep(t: System, e: Event, w: int)
    requires ByRequest(e, w) && w in t.requests
    ensures var v := Next(t, e);
            && v.issued == t.issued && v.requests.Keys == t.requests.Keys
            && v.requests[w].challenge == t.requests[w].challenge
            && (forall x :: x in t.requests && x != w ==> v.requests[x] == t.requests[x])
            && (forall id :: id in v.records ==> id in t.records)
            && (forall id :: id in t.records && id != t.requests[w].challenge ==> id in v.records && v.records[id] == t.records[id])
            && t.verified <= v.verified && t.reached <= v.reached
  {
  }

  lemma AmongLonger(log: seq<Passage>, all: seq<Passage>, more: seq<Passage>)
    requires Among(log, all) && all <= more
    ensures Among(log, more)
  {
    forall i | 0 <= i < |log| ensures log[i] in more {
      var j :| 0 <= j < |all| && all[j] == log[i];
      assert more[j] == log[i];
    }
  }

  /** A request refused in s may go on in t without overtaking anybody in s. */
  lemma RefusedAlone(s: System, t: System, e: Event, w: int)
    requires Refused(s, t) && ByRequest(e, w) && w in s.requests && s.requests[w] != t.requests[w]
    ensures Next(s, e) == s && Refused(s, Next(t, e))
  {
    var v := Next(t, e);
    assert Behind(s, t, w);
    OwnStep(t, e, w);
    AmongLonger(s.verified, t.verified, v.verified);
    AmongLonger(s.reached, t.reached, v.reached);
    forall x | x in s.requests ensures Behind(s, v, x) {
      assert Behind(s, t, x);
    }
  }

  /** Both requests take the same step, unless the record is gone in s. */
  lemma RefusedTogether(s: System, t: System, e: Event, w: int)
    requires Refused(s, t) && ByRequest(e, w) && w in s.requests && s.requests[w] == t.requests[w]
    ensures Behind(Next(s, e), Next(t, e), w)
  {
    OwnStep(s, e, w);
    OwnStep(t, e, w);
  }

  lemma RefusedTogetherRecords(s: System, t: System, e: Event, w: int)
    requires Refused(s, t) && ByRequest(e, w) && w in s.requests && s.requests[w] == t.requests[w]
    ensures forall id :: id in Next(s, e).records ==> id in Next(t, e).records && Next(s, e).records[id] == Next(t, e).records[id]
  {
  }

  lemma RefusedTogetherLogs(s: System, t: System, e: Event, w: int)
    requires Refused(s, t) && ByRequest(e, w) && w in s.requests && s.requests[w] == t.requests[w]
    ensures Among(Next(s, e).verified, Next(t, e).verified) && Among(Next(s, e).reached, Next(t, e).reached)
  {
    OwnStep(t, e, w);
    AmongLonger(s.verified, t.verified, Next(t, e).verified);
    AmongLonger(s.reached, t.reached, Next(t, e).reached);
  }

  lemma RefusedStep(s: System, t: System, e: Event, w: int)
    requires Refused(s, t) && ByRequest(e, w)
    ensures Refused(Next(s, e), Next(t, e))
  {
    if w !in s.requests {
      assert Next(s, e) == s && Next(t, e) == t;
    } else if s.requests[w] != t.requests[w] {
      RefusedAlone(s, t, e, w);
    } else {
      RefusedTogether(s, t, e, w);
      RefusedTogetherRecords(s, t, e, w);
      RefusedTogetherLogs(s, t, e, w);
      OwnStep(s, e, w);
      OwnStep(t, e, w);
      var u, v := Next(s, e), Next(t, e);
      forall x | x in u.requests ensures Behind(u, v, x) {
        assert Behind(s, t, x);
      }
    }
  }

  /** Cleanup can only refuse: whatever is reached with it is also reached without it. */
  lemma {:induction false} CleanupOnlyRefuses(es: seq<Event>)
    ensures Refused(Run(EMPTY, es), Run(EMPTY, WithoutCleanup(es)))
  {
    if es != [] {
      var n := |es| - 1;
      CleanupOnlyRefuses(es[..n]);
      var s, t := Run(EMPTY, es[..n]), Run(EMPTY, WithoutCleanup(es[..n]));
      RefusedNext(s, t, es[n]);
      WithoutCleanupLast(es);
    }
  }

  lemma WithoutCleanupLast(es: seq<Event>)
    requires es != []
    ensures Run(EMPTY, WithoutCleanup(es)) ==
            (var t := Run(EMPTY, WithoutCleanup(es[..|es| - 1]));
             if es[|es| - 1].Cleanup? then t else Next(t, es[|es| - 1]))
  {
    var rest := WithoutCleanup(es[..|es| - 1]);
    assert (rest + [es[|es| - 1]])[..|rest|] == rest;
  }

  lemma RefusedNext(s: System, t: System, e: Event)
    requires Refused(s, t)
    ensures Refused(Next(s, e), if e.Cleanup? then t else Next(t, e))
  {
    match e
    case Prepare(_, _, _, _) => RefusedRecords(s, t, e);
    case Cleanup(_, _) => RefusedRecords(s, t, e);
    case Arrive(_, _, _, _, _) => RefusedArrive(s, t, e);
    case BeginVerify(w, _) => RefusedStep(s, t, e, w);
    case Verdict(w, _, _) => RefusedStep(s, t, e, w);
    case BeginProcessing(w) => RefusedStep(s, t, e, w);
    case Decide(w, _, _) => RefusedStep(s, t, e, w);
    case Respond(w, _) => RefusedStep(s, t, e, w);
    case Retire(w) => RefusedStep(s, t, e, w);
  }

  // ------------------------------------------------------------------
  // Expired records nobody claimed
  // ------------------------------------------------------------------

  function Clock(es: seq<Event>): (now: int)
  {
    if es == [] then 0
    else match es[|es| - 1]
      case Prepare(_, _, _, now) => now
      case Arrive(_, _, _, _, now) => now
      case BeginVerify(_, now) => now
      case Decide(_, _, now) => now
      case Cleanup(_, now) => now
      case _ => Clock(es[..|es| - 1])
  }

  /** The clock never runs backwards, and cleanup only meets records nobody has claimed. */
  ghost predicate Gentle(es: seq<Event>) {
    es != [] ==>
      var before, e := es[..|es| - 1], es[|es| - 1];
      && Gentle(before) && Clock(before) <= Clock(es)
      && (e.Cleanup? ==> forall id :: id in e.keys && id in Run(EMPTY, before).records && Removable(Run(EMPTY, before).records[id], e.now)
                                      ==> Run(EMPTY, before).records[id].status == Issued)
  }

  /** The two systems differ in dead records only. */
  ghost predicate SameButDead(s: System, t: System, now: int) {
    SameBeside(s, t) && OnlyDead(s, t, now)
  }

  ghost predicate SameBeside(s: System, t: System) {
    s.requests == t.requests && s.issued == t.issued && s.verified == t.verified && s.reached == t.reached
  }

  ghost predicate OnlyDead(s: System, t: System, now: int) {
    && (forall id :: id in s.records ==> id in t.records && s.records[id] == t.records[id])
    && (forall id :: id in t.records && id !in s.records ==> t.records[id].status == Issued && t.records[id].expiresAt <= now)
    && (forall id :: id in t.records ==> id in t.issued)
  }

  ghost predicate Stamped(e: Event, now: int) {
    !e.Cleanup? && (e.Prepare? || e.Arrive? || e.BeginVerify? || e.Decide? ==> e.now == now)
  }

  lemma DeadBeside(s: System, t: System, e: Event, before: int, now: int)
    requires SameButDead(s, t, before) && before <= now && Stamped(e, now)
    ensures SameBeside(Next(s, e), Next(t, e))
  {
  }

  lemma DeadKeepsRecords(s: System, t: System, e: Event, before: int, now: int)
    requires SameButDead(s, t, before) && before <= now && Stamped(e, now)
    ensures var u, v := Next(s, e), Next(t, e); forall id :: id in u.records ==> id in v.records && u.records[id] == v.records[id]
  {
  }

  lemma DeadStaysDead(s: System, t: System, e: Event, before: int, now: int)
    requires SameButDead(s, t, before) && before <= now && Stamped(e, now)
    ensures var u, v := Next(s, e), Next(t, e);
            && (forall id :: id in v.records && id !in u.records ==> v.records[id].status == Issued && v.records[id].expiresAt <= now)
            && (forall id :: id in v.records ==> id in v.issued)
  {
  }

  /** Deleting expired authorizations that were only issued changes no decision, then or later. */
  lemma {:induction false} CleanupOfExpiredIsInvisible(es: seq<Event>)
    requires Gentle(es)
    ensures SameButDead(Run(EMPTY, es), Run(EMPTY, WithoutCleanup(es)), Clock(es))
  {
    if es != [] {
      var n := |es| - 1;
      CleanupOfExpiredIsInvisible(es[..n]);
      WithoutCleanupLast(es);
      if !es[n].Cleanup? {
        DeadBeside(Run(EMPTY, es[..n]), Run(EMPTY, WithoutCleanup(es[..n])), es[n], Clock(es[..n]), Clock(es));
        DeadKeepsRecords(Run(EMPTY, es[..n]), Run(EMPTY, WithoutCleanup(es[..n])), es[n], Clock(es[..n]), Clock(es));
        DeadStaysDead(Run(EMPTY, es[..n]), Run(EMPTY, WithoutCleanup(es[..n])), es[n], Clock(es[..n]), Clock(es));
      }
    }
  }
}
