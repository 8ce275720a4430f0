/** What it takes to reach the claim endpoint, told by the events of the run alone. */
module AuthorizationApproval {
  import opened Authorization
  import opened AuthorizationRuns

  // ------------------------------------------------------------------
  // Nobody arrives without the wallet's signature
  // ------------------------------------------------------------------

  /** The wallet signed for the request and the account checks allowed it. */
  ghost predicate Approved(es: seq<Event>, w: int, wallet: string) {
    wallet != "" && exists k :: 0 <= k < |es| && es[k] == Verdict(w, wallet, true)
  }

  /** And later the location checks let the request through. */
  ghost predicate LetThrough(es: seq<Event>, p: Passage, wallet: string) {
    wallet != "" && exists k, j :: 0 <= k < j < |es| && es[k] == Verdict(p.request, wallet, true) && es[j] == Decide(p.request, false, p.at)
  }

  ghost predicate Vouched(s: System, es: seq<Event>) {
    && (forall w :: w in s.requests && s.requests[w].phase in {Admitted, InProcess} ==> Approved(es, w, s.requests[w].expected))
    && (forall i :: 0 <= i < |s.reached| ==>
          s.reached[i].challenge in s.issued && LetThrough(es, s.reached[i], s.issued[s.reached[i].challenge].wallet))
  }

  lemma ApprovedLonger(es: seq<Event>, e: Event, w: int, wallet: string)
    requires Approved(es, w, wallet)
    ensures Approved(es + [e], w, wallet)
  {
    var k :| 0 <= k < |es| && es[k] == Verdict(w, wallet, true);
    assert (es + [e])[k] == es[k];
  }

  lemma LetThroughLonger(es: seq<Event>, e: Event, p: Passage, wallet: string)
    requires LetThrough(es, p, wallet)
    ensures LetThrough(es + [e], p, wallet)
  {
    var k, j :| 0 <= k < j < |es| && es[k] == Verdict(p.request, wallet, true) && es[j] == Decide(p.request, false, p.at);
    assert (es + [e])[k] == es[k] && (es + [e])[j] == es[j];
  }

  /** A request that comes as far as processing was there already, or has just been approved. */
  lemma AdmittedHow(s: System, e: Event, w: int)
    requires w in Next(s, e).requests && Next(s, e).requests[w].phase in {Admitted, InProcess}
    ensures w in s.requests && Next(s, e).requests[w].expected == s.requests[w].expected
    ensures s.requests[w].phase in {Admitted, InProcess} || (s.requests[w].expected != "" && e == Verdict(w, s.requests[w].expected, true))
  {
  }

  lemma ReachedHow(s: System, e: Event)
    ensures Next(s, e).reached == s.reached
            || (e.Decide? && !e.blocked && At(s, e.request, InProcess)
                && Next(s, e).reached == s.reached + [Passage(e.request, s.requests[e.request].challenge, s.requests[e.request].details,
                                                              s.requests[e.request].sessionWallet, e.now)])
    ensures forall id :: id in s.issued ==> id in Next(s, e).issued && Next(s, e).issued[id] == s.issued[id]
  {
  }

  lemma VouchedRequests(s: System, es: seq<Event>, e: Event, w: int)
    requires Vouched(s, es) && w in Next(s, e).requests && Next(s, e).requests[w].phase in {Admitted, InProcess}
    ensures Approved(es + [e], w, Next(s, e).requests[w].expected)
  {
    AdmittedHow(s, e, w);
    if s.requests[w].phase in {Admitted, InProcess} {
      ApprovedLonger(es, e, w, s.requests[w].expected);
    } else {
      assert (es + [e])[|es|] == e;
    }
  }

  lemma VouchedArrival(s: System, es: seq<Event>, e: Event)
    requires Inv(s) && Vouched(s, es) && e.Decide? && !e.blocked && At(s, e.request, InProcess)
    ensures var q := s.requests[e.request];
            var p := Passage(e.request, q.challenge, q.details, q.sessionWallet, e.now);
            q.challenge in s.issued && LetThrough(es + [e], p, s.issued[q.challenge].wallet)
  {
    var q := s.requests[e.request];
    assert RequestOk(s, e.request) && Approved(es, e.request, q.expected);
    var k :| 0 <= k < |es| && es[k] == Verdict(e.request, q.expected, true);
    assert (es + [e])[k] == es[k] && (es + [e])[|es|] == Decide(e.request, false, e.now);
  }

  lemma VouchedNext(s: System, es: seq<Event>, e: Event)
    requires Inv(s) && Vouched(s, es)
    ensures Vouched(Next(s, e), es + [e])
  {
    var t := Next(s, e);
    forall w | w in t.requests && t.requests[w].phase in {Admitted, InProcess} ensures Approved(es + [e], w, t.requests[w].expected) {
      VouchedRequests(s, es, e, w);
    }
    ReachedHow(s, e);
    forall i | 0 <= i < |t.reached|
      ensures t.reached[i].challenge in t.issued && LetThrough(es + [e], t.reached[i], t.issued[t.reached[i].challenge].wallet)
    {
      if i < |s.reached| {
        LetThroughLonger(es, e, s.reached[i], s.issued[s.reached[i].challenge].wallet);
      } else {
        VouchedArrival(s, es, e);
      }
    }
  }

  lemma {:induction false} RunVouched(es: seq<Event>)
    ensures Vouched(Run(EMPTY, es), es)
  {
    if es != [] {
      var n := |es| - 1;
      RunVouched(es[..n]);
      RunInv(es[..n]);
      VouchedNext(Run(EMPTY, es[..n]), es[..n], es[n]);
      assert es[..n] + [es[n]] == es;
    }
  }

  /** In every run, behind each request that reached the claim endpoint there is a valid signature of the very
      wallet the challenge was issued to, allowed by the account checks, and a later pass of the location checks. */
  lemma SignatureWasValid(es: seq<Event>, i: nat) returns (k: nat, j: nat)
    requires i < |Run(EMPTY, es).reached|
    ensures var s := Run(EMPTY, es);
            var p := s.reached[i];
            && k < j < |es| && p.challenge in s.issued && s.issued[p.challenge].wallet != ""
            && es[k] == Verdict(p.request, s.issued[p.challenge].wallet, true)
            && es[j] == Decide(p.request, false, p.at)
  {
    RunVouched(es);
    var s := Run(EMPTY, es);
    var p := s.reached[i];
    k, j :| 0 <= k < j < |es| && es[k] == Verdict(p.request, s.issued[p.challenge].wallet, true) && es[j] == Decide(p.request, false, p.at);
  }

  // ------------------------------------------------------------------
  // A refusal is final
  // ------------------------------------------------------------------

  ghost predicate NeverReached(s: System, w: int) {
    forall i :: 0 <= i < |s.reached| ==> s.reached[i].request != w
  }

  ghost predicate Turned(s: System, w: int) {
    w in s.requests && s.requests[w].phase in {Retiring, Done} && NeverReached(s, w)
  }

  lemma ReachedIsPassed(s: System, i: nat)
    requires Inv(s) && i < |s.reached|
    ensures var p := s.reached[i];
            p.request in s.requests && s.requests[p.request].challenge == p.challenge && Passed(s.reached, p.request, p.challenge)
  {
    var p := s.reached[i];
    assert ReachedOk(s, p);
    var j :| 0 <= j < |s.verified| && s.verified[j].request == p.request && s.verified[j].challenge == p.challenge;
    assert VerifiedOk(s, s.verified[j]);
  }

  lemma BeforeMeansNot(s: System, w: int)
    requires Inv(s) && w in s.requests && BeforeEndpoint(s.requests[w].phase)
    ensures NeverReached(s, w)
  {
    assert RequestOk(s, w);
    forall i | 0 <= i < |s.reached| ensures s.reached[i].request != w {
      ReachedIsPassed(s, i);
    }
  }

  lemma TurnedStays(s: System, e: Event, w: int)
    requires Turned(s, w)
    ensures Turned(Next(s, e), w)
  {
  }

  lemma {:induction false} TurnedForever(es: seq<Event>, more: seq<Event>, w: int)
    requires Turned(Run(EMPTY, es), w)
    ensures Turned(Run(EMPTY, es + more), w)
  {
    if more == [] {
      assert es + more == es;
    } else {
      TurnedForever(es, more[..|more| - 1], w);
      assert (es + more)[..|es + more| - 1] == es + more[..|more| - 1];
      TurnedStays(Run(EMPTY, es + more[..|more| - 1]), more[|more| - 1], w);
    }
  }

  lemma VerdictTurns(s: System, w: int, signer: string, allowed: bool)
    requires Inv(s) && At(s, w, Verify)
    requires signer == "" || signer != s.issued[s.requests[w].challenge].wallet || signer != s.requests[w].sessionWallet || !allowed
    ensures Turned(Next(s, Verdict(w, signer, allowed)), w)
  {
    assert RequestOk(s, w);
    BeforeMeansNot(s, w);
  }

  /** A request whose signature is invalid, or of another wallet than the challenge's or the session's, or
      whose account is not allowed, never reaches the endpoint, however the run goes on. */
  lemma RefusedSignatureIsFinal(es: seq<Event>, w: int, signer: string, allowed: bool, more: seq<Event>)
    requires At(Run(EMPTY, es), w, Verify) && Run(EMPTY, es).requests[w].challenge in Run(EMPTY, es).issued
    requires var s := Run(EMPTY, es);
             signer == "" || signer != s.issued[s.requests[w].challenge].wallet || signer != s.requests[w].sessionWallet || !allowed
    ensures NeverReached(Run(EMPTY, es + [Verdict(w, signer, allowed)] + more), w)
  {
    RunInv(es);
    VerdictTurns(Run(EMPTY, es), w, signer, allowed);
    assert (es + [Verdict(w, signer, allowed)])[..|es|] == es;
    TurnedForever(es + [Verdict(w, signer, allowed)], more, w);
  }

  /** Nor does one that the location checks block. */
  lemma BlockedIsFinal(es: seq<Event>, w: int, now: int, more: seq<Event>)
    requires At(Run(EMPTY, es), w, InProcess)
    ensures NeverReached(Run(EMPTY, es + [Decide(w, true, now)] + more), w)
  {
    RunInv(es);
    BeforeMeansNot(Run(EMPTY, es), w);
    assert (es + [Decide(w, true, now)])[..|es|] == es;
    assert Turned(Run(EMPTY, es + [Decide(w, true, now)]), w);
    TurnedForever(es + [Decide(w, true, now)], more, w);
  }

  // ------------------------------------------------------------------
  // An honest request gets through
  // ------------------------------------------------------------------

  lemma HonestMatches(s: System, id: int, w: int, d: Details, wallet: string, issued: int, arrived: int)
    requires id !in s.issued && w !in s.requests && arrived < issued + 90
    ensures var t := Next(Next(s, Prepare(id, d, wallet, issued)), Arrive(w, id, d, wallet, arrived));
            && t.reached == s.reached && w in t.requests && t.requests[w] == Request(id, d, wallet, wallet, Matched)
            && id in t.records && t.records[id].status == Issued && t.records[id].expiresAt == issued + 90
  {
  }

  lemma HonestVerifies(s: System, id: int, w: int, d: Details, wallet: string, begun: int)
    requires w in s.requests && s.requests[w] == Request(id, d, wallet, wallet, Matched) && wallet != ""
    requires id in s.records && s.records[id].status == Issued && begun < s.records[id].expiresAt
    ensures var t := Next(Next(s, BeginVerify(w, begun)), Verdict(w, wallet, true));
            && t.reached == s.reached && w in t.requests && t.requests[w] == Request(id, d, wallet, wallet, Admitted)
            && id in t.records && t.records[id].status == Verifying
  {
  }

  lemma HonestProcesses(s: System, id: int, w: int, d: Details, wallet: string, decided: int)
    requires w in s.requests && s.requests[w] == Request(id, d, wallet, wallet, Admitted)
    requires id in s.records && s.records[id].status == Verifying
    ensures Next(Next(s, BeginProcessing(w)), Decide(w, false, decided)).reached == s.reached + [Passage(w, id, d, wallet, decided)]
  {
  }

  /** A fresh challenge, brought back in time with the same claim and a valid signature of the session's wallet. */
  lemma HonestRequestArrives(s: System, id: int, w: int, d: Details, wallet: string, issued: int, arrived: int, begun: int, decided: int)
    requires id !in s.issued && w !in s.requests && wallet != ""
    requires arrived < issued + 90 && begun < issued + 90
    ensures var s1 := Next(Next(s, Prepare(id, d, wallet, issued)), Arrive(w, id, d, wallet, arrived));
            var s2 := Next(Next(s1, BeginVerify(w, begun)), Verdict(w, wallet, true));
            Next(Next(s2, BeginProcessing(w)), Decide(w, false, decided)).reached == s.reached + [Passage(w, id, d, wallet, decided)]
  {
    var s1 := Next(Next(s, Prepare(id, d, wallet, issued)), Arrive(w, id, d, wallet, arrived));
    HonestMatches(s, id, w, d, wallet, issued, arrived);
    HonestVerifies(s1, id, w, d, wallet, begun);
    HonestProcesses(Next(Next(s1, BeginVerify(w, begun)), Verdict(w, wallet, true)), id, w, d, wallet, decided);
  }

  /** After the endpoint has answered, the record is retired, unless its audit was due and could not be stored. */
  lemma AuditedIsRetired(s: System, w: int, audited: bool)
    requires At(s, w, AtEndpoint)
    ensures Next(Next(s, Respond(w, audited)), Retire(w)).records
            == if audited then s.records - {s.requests[w].challenge} else s.records
  {
  }

  /** A cleanup pass deletes exactly the named records that have expired, those claimed already five minutes later. */
  lemma CleanupExactly(s: System, keys: set<int>, now: int, id: int)
    ensures var after := Next(s, Cleanup(keys, now)).records;
            && (id in after <==> id in s.records
                                 && !(id in keys && s.records[id].expiresAt + (if s.records[id].status == Issued then 0 else 300) <= now))
            && (id in after ==> after[id] == s.records[id])
  {
  }
}
