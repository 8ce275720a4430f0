/** The bounded, rotating maintenance pass over ephemeral rows, and why it reaches every one of them.

    Keys stand for metadata keys in their lexicographic order; BEGIN is the empty string. */
module CleanupCursor {
  import Authorization
  import opened Ordering
  import RateLimiter
  import opened Sums

  const BEGIN := -1

  datatype Value = Expiring(expiresAt: int) | Authorized(record: Authorization.Record) | Rate(stamps: seq<int>) | Malformed

  datatype Verdict = Keep | Update(value: Value) | Delete

  /** `_prune_value` */
  function PruneValue(v: Value, now: int): Verdict {
    match v
    case Malformed => Delete
    case Expiring(expiresAt) => if expiresAt <= now then Delete else Keep // challenges and sessions
    case Authorized(record) => if Authorization.Removable(record, now) then Delete else Keep
    case Rate(stamps) =>
      var kept := RateLimiter.Pruned(stamps, now);
      if kept == [] then Delete else if kept != stamps then Update(Rate(kept)) else Keep
  }

  /** `seen` is history: every key a pass has inspected. */
  datatype Table = Table(limit: nat, rows: map<int, Value>, cursor: int, seen: set<int>)

  datatype Event = Pass(now: int) | Remove(keys: set<int>)

  function After(keys: set<int>, cursor: int): set<int> {
    set k | k in keys && k > cursor
  }

  /** `_ephemeral_rows_after_cursor` */
  function PageAfter(keys: set<int>, cursor: int, limit: nat): seq<int> {
    var rows := Ascending(After(keys, cursor));
    if |rows| <= limit then rows else rows[..limit]
  }

  /** The page of one pass: it wraps in the same pass when nothing follows the cursor. */
  function Page(keys: set<int>, cursor: int, limit: nat): seq<int> {
    var page := PageAfter(keys, cursor, limit);
    if page == [] && cursor != BEGIN then PageAfter(keys, BEGIN, limit) else page
  }

  function Cleaned(rows: map<int, Value>, page: seq<int>, now: int): map<int, Value> {
    map k | k in rows && !(k in page && PruneValue(rows[k], now).Delete?) ::
      if k in page && PruneValue(rows[k], now).Update? then PruneValue(rows[k], now).value else rows[k]
  }

  function NextCursor(page: seq<int>): int {
    if page == [] then BEGIN else page[|page| - 1]
  }

  function Next(t: Table, e: Event): Table {
    match e
    case Pass(now) =>
      var page := Page(t.rows.Keys, t.cursor, t.limit);
      t.(rows := Cleaned(t.rows, page, now), cursor := NextCursor(page), seen := t.seen + Elements(page))
    case Remove(keys) => t.(rows := t.rows - keys)
  }

  function Run(t: Table, es: seq<Event>): Table
  {
    if es == [] then t else Next(Run(t, es[..|es| - 1]), es[|es| - 1])
  }

  function Passes(es: seq<Event>): nat
  {
    if es == [] then 0 else Passes(es[..|es| - 1]) + if es[|es| - 1].Pass? then 1 else 0
  }

  // ------------------------------------------------------------------
  // Ranks in a page
  // ------------------------------------------------------------------

  function UpTo(keys: set<int>, c: int): set<int> {
    set k | k in keys && k <= c
  }

  lemma PrefixOfSorted(rows: seq<int>, n: nat, k: int)
    requires 0 < n <= |rows| && forall i, j :: 0 <= i < j < |rows| ==> rows[i] < rows[j]
    ensures k in rows[..n] <==> k in rows && k <= rows[n - 1]
  {
    if k in rows && k <= rows[n - 1] {
      var i :| 0 <= i < |rows| && rows[i] == k;
      assert rows[..n][i] == k;
    }
  }

  /** The first n of a set's elements are those up to the n-th. */
  lemma FirstFew(keys: set<int>, n: nat, k: int)
    requires 0 < n <= |keys|
    ensures k in Ascending(keys)[..n] <==> k in UpTo(keys, Ascending(keys)[n - 1])
    ensures |UpTo(keys, Ascending(keys)[n - 1])| == n
  {
    AscendingSorted(keys);
    SortedPrefixSize(Ascending(keys), n, UpTo(keys, Ascending(keys)[n - 1]));
    PrefixOfSorted(Ascending(keys), n, k);
  }

  lemma SortedPrefixSize(rows: seq<int>, n: nat, first: set<int>)
    requires 0 < n <= |rows| && forall i, j :: 0 <= i < j < |rows| ==> rows[i] < rows[j]
    requires forall k :: k in first <==> k in rows && k <= rows[n - 1]
    ensures |first| == n
  {
    forall k ensures k in Elements(rows[..n]) <==> k in first {
      PrefixOfSorted(rows, n, k);
    }
    assert Elements(rows[..n]) == first;
    DistinctSize(rows[..n]);
  }

  // ------------------------------------------------------------------
  // How long until a key's turn
  // ------------------------------------------------------------------

  /** Pages of a given size needed for n rows: n over the size, rounded up. */
  function Turns(n: nat, limit: nat): nat
    requires limit > 0
  {
    if n == 0 then 0 else if n <= limit then 1 else 1 + Turns(n - limit, limit)
  }

  lemma {:induction false} TurnsIsCeiling(n: nat, limit: nat)
    requires limit > 0
    ensures n <= Turns(n, limit) * limit < n + limit
  {
    if n > limit {
      TurnsIsCeiling(n - limit, limit);
      assert Turns(n, limit) * limit == Turns(n - limit, limit) * limit + limit;
    }
  }

  lemma {:induction false} TurnsGrow(m: nat, n: nat, limit: nat)
    requires limit > 0 && m <= n
    ensures Turns(m, limit) <= Turns(n, limit)
    decreases n
  {
    if m > limit {
      TurnsGrow(m - limit, n - limit, limit);
    }
  }

  lemma {:induction false} TurnsSplit(m: nat, n: nat, limit: nat)
    requires limit > 0
    ensures Turns(m, limit) + Turns(n, limit) <= Turns(m + n, limit) + 1
  {
    if m > limit {
      TurnsSplit(m - limit, n, limit);
    } else {
      TurnsGrow(n, m + n, limit);
    }
  }

  /** Rows between the cursor and k, k included. */
  function Ahead(keys: set<int>, cursor: int, k: int): set<int> {
    UpTo(After(keys, cursor), k)
  }

  /** An upper bound on the passes until k is inspected. */
  function Wait(t: Table, k: int): nat
    requires t.limit > 0
  {
    var keys := t.rows.Keys;
    if k > t.cursor then Turns(|Ahead(keys, t.cursor, k)|, t.limit)
    else Turns(|After(keys, t.cursor)|, t.limit) + Turns(|UpTo(keys, k)|, t.limit)
  }

  /** A page from the cursor either contains k or brings the cursor a whole page closer. */
  lemma PageMoves(keys: set<int>, cursor: int, limit: nat, k: int)
    requires limit > 0 && k in keys && k > cursor
    ensures var page := PageAfter(keys, cursor, limit);
            && page != []
            && (k in page || (cursor < NextCursor(page) < k
                              && |Ahead(keys, NextCursor(page), k)| + limit == |Ahead(keys, cursor, k)|))
  {
    var after := After(keys, cursor);
    var page := PageAfter(keys, cursor, limit);
    assert k in after;
    if |after| <= limit {
      assert page == Ascending(after);
    } else {
      var c := page[limit - 1];
      assert c == Ascending(after)[limit - 1] && c in Ascending(after);
      FirstFew(after, limit, k);
      if k !in page {
        assert Ahead(keys, c, k) == UpTo(after, k) - UpTo(after, c);
        assert UpTo(after, c) <= UpTo(after, k);
      }
    }
  }

  /** A page of other rows brings the cursor closer to the end. */
  lemma PageAdvances(keys: set<int>, cursor: int, limit: nat)
    requires limit > 0 && After(keys, cursor) != {}
    ensures var page := PageAfter(keys, cursor, limit);
            && page != [] && NextCursor(page) > cursor
            && |After(keys, NextCursor(page))| == (if |After(keys, cursor)| <= limit then 0 else |After(keys, cursor)| - limit)
  {
    var after := After(keys, cursor);
    var page := PageAfter(keys, cursor, limit);
    var n := if |after| <= limit then |after| else limit;
    var c := page[|page| - 1];
    assert c == Ascending(after)[n - 1] && c in Ascending(after);
    FirstFew(after, n, c);
    assert After(keys, c) == after - UpTo(after, c);
    assert UpTo(after, c) <= after;
  }

  ghost predicate Proper(t: Table) {
    t.limit > 0 && forall k :: k in t.rows ==> k > BEGIN
  }

  lemma WaitBounds(t: Table, k: int)
    requires Proper(t) && k in t.rows
    ensures 1 <= Wait(t, k) <= Turns(|t.rows|, t.limit) + 1
  {
    var keys := t.rows.Keys;
    assert |keys| == |t.rows|;
    if k > t.cursor {
      assert k in Ahead(keys, t.cursor, k);
      SubsetSize(Ahead(keys, t.cursor, k), keys);
      TurnsGrow(|Ahead(keys, t.cursor, k)|, |keys|, t.limit);
    } else {
      assert k in UpTo(keys, k);
      var both := After(keys, t.cursor) + UpTo(keys, k);
      assert |both| == |After(keys, t.cursor)| + |UpTo(keys, k)| by {
        assert After(keys, t.cursor) !! UpTo(keys, k);
      }
      SubsetSize(both, keys);
      TurnsSplit(|After(keys, t.cursor)|, |UpTo(keys, k)|, t.limit);
      TurnsGrow(|both|, |keys|, t.limit);
    }
  }

  lemma WaitShrinks(t: Table, u: Table, k: int)
    requires t.limit == u.limit > 0 && t.cursor == u.cursor && u.rows.Keys <= t.rows.Keys
    ensures Wait(u, k) <= Wait(t, k)
  {
    SubsetSize(Ahead(u.rows.Keys, t.cursor, k), Ahead(t.rows.Keys, t.cursor, k));
    SubsetSize(After(u.rows.Keys, t.cursor), After(t.rows.Keys, t.cursor));
    SubsetSize(UpTo(u.rows.Keys, k), UpTo(t.rows.Keys, k));
    TurnsGrow(|Ahead(u.rows.Keys, t.cursor, k)|, |Ahead(t.rows.Keys, t.cursor, k)|, t.limit);
    TurnsGrow(|After(u.rows.Keys, t.cursor)|, |After(t.rows.Keys, t.cursor)|, t.limit);
    TurnsGrow(|UpTo(u.rows.Keys, k)|, |UpTo(t.rows.Keys, k)|, t.limit);
  }

  /** Each pass inspects k or brings its turn a pass closer. */
  lemma CursorMoves(t: Table, k: int)
    requires Proper(t) && k in t.rows
    ensures var page := Page(t.rows.Keys, t.cursor, t.limit);
            k in page || Wait(t.(cursor := NextCursor(page)), k) + 1 <= Wait(t, k)
  {
    var keys := t.rows.Keys;
    if k > t.cursor {
      PageMoves(keys, t.cursor, t.limit, k);
      var c := NextCursor(PageAfter(keys, t.cursor, t.limit));
      assert c < k ==> k in Ahead(keys, c, k);
    } else if After(keys, t.cursor) == {} {
      assert PageAfter(keys, t.cursor, t.limit) == [];
      PageMoves(keys, BEGIN, t.limit, k);
      var c := NextCursor(PageAfter(keys, BEGIN, t.limit));
      assert Ahead(keys, BEGIN, k) == UpTo(keys, k);
      assert c < k ==> k in Ahead(keys, c, k);
    } else {
      PageAdvances(keys, t.cursor, t.limit);
    }
  }

  lemma StepCloser(t: Table, e: Event, k: int)
    requires Proper(t) && k in Next(t, e).rows
    ensures Proper(Next(t, e)) && Next(t, e).limit == t.limit && k in t.rows
    ensures k in Next(t, e).seen || Wait(Next(t, e), k) + (if e.Pass? then 1 else 0) <= Wait(t, k)
  {
    var u := Next(t, e);
    if e.Pass? {
      CursorMoves(t, k);
      var page := Page(t.rows.Keys, t.cursor, t.limit);
      assert u.rows.Keys <= t.rows.Keys;
      WaitShrinks(t.(cursor := NextCursor(page)), u, k);
    } else {
      WaitShrinks(t, u, k);
    }
  }

  lemma {:induction false} TurnComes(t: Table, es: seq<Event>, k: int)
    requires Proper(t) && k in Run(t, es).rows
    ensures Proper(Run(t, es)) && k in t.rows
    ensures k in Run(t, es).seen || Wait(Run(t, es), k) + Passes(es) <= Wait(t, k)
  {
    if es != [] {
      var n := |es| - 1;
      var s := Run(t, es[..n]);
      assert k in Next(s, es[n]).rows && k in s.rows;
      TurnComes(t, es[..n], k);
      StepCloser(s, es[n], k);
    }
  }

  // ------------------------------------------------------------------
  // Results
  // ------------------------------------------------------------------

  /** From any cursor, with rows only ever deleted, each of n rows that stays is inspected within
      ceil(n / limit) + 1 passes. */
  lemma EveryRowIsReached(t: Table, es: seq<Event>, k: int)
    requires Proper(t) && k in Run(t, es).rows
    requires Passes(es) >= Turns(|t.rows|, t.limit) + 1
    ensures k in Run(t, es).seen
  {
    TurnComes(t, es, k);
    WaitBounds(t, k);
    WaitBounds(Run(t, es), k);
  }

  ghost predicate DeletableFrom(v: Value, since: int) {
    forall now :: now >= since ==> PruneValue(v, now).Delete?
  }

  ghost predicate PassesFrom(es: seq<Event>, since: int) {
    forall i :: 0 <= i < |es| && es[i].Pass? ==> es[i].now >= since
  }

  lemma {:induction false} UntouchedWhileThere(t: Table, es: seq<Event>, k: int, since: int)
    requires k in Run(t, es).rows && t.seen == {} && PassesFrom(es, since)
    requires k in t.rows && DeletableFrom(t.rows[k], since)
    ensures Run(t, es).rows[k] == t.rows[k] && k !in Run(t, es).seen
  {
    if es != [] {
      var n := |es| - 1;
      var s := Run(t, es[..n]);
      assert k in Next(s, es[n]).rows && k in s.rows;
      UntouchedWhileThere(t, es[..n], k, since);
      if es[n].Pass? {
        assert PruneValue(s.rows[k], es[n].now).Delete?;
      }
    }
  }

  /** A row that is expired for good is gone after ceil(n / limit) + 1 passes. */
  lemma ExpiredRowsGo(t: Table, es: seq<Event>, k: int, since: int)
    requires Proper(t) && t.seen == {} && k in t.rows && DeletableFrom(t.rows[k], since) && PassesFrom(es, since)
    requires Passes(es) >= Turns(|t.rows|, t.limit) + 1
    ensures k !in Run(t, es).rows
  {
    if k in Run(t, es).rows {
      UntouchedWhileThere(t, es, k, since);
      EveryRowIsReached(t, es, k);
    }
  }

  /** Sessions, challenges and authorizations that have expired stay deletable. */
  lemma ExpiryIsForGood(v: Value, now: int)
    requires !v.Rate? && PruneValue(v, now).Delete?
    ensures DeletableFrom(v, now)
  {
  }

  /** When a row stops being of use: a session or challenge at its end, an authorization at its end too, but
      five minutes later once it has been claimed. */
  predicate EndsAt(v: Value, at: int) {
    match v
    case Malformed => true
    case Expiring(expiresAt) => expiresAt <= at
    case Authorized(r) => r.expiresAt + (if r.status == Authorization.Issued then 0 else 300) <= at
    case Rate(stamps) => stamps == []
  }

  /** So every such row is gone after ceil(n / limit) + 1 passes made from then on. */
  lemma EndedRowsGo(t: Table, es: seq<Event>, k: int, at: int)
    requires Proper(t) && t.seen == {} && k in t.rows && EndsAt(t.rows[k], at) && PassesFrom(es, at)
    requires Passes(es) >= Turns(|t.rows|, t.limit) + 1
    ensures k !in Run(t, es).rows
  {
    assert DeletableFrom(t.rows[k], at);
    ExpiredRowsGo(t, es, k, at);
  }

  lemma {:induction false} SinceMembers(stamps: seq<int>, cutoff: int, x: int)
    ensures x in RateLimiter.Since(stamps, cutoff) <==> x in stamps && x > cutoff
  {
    if stamps != [] {
      var init := stamps[..|stamps| - 1];
      SinceMembers(init, cutoff, x);
      assert stamps == init + [stamps[|stamps| - 1]];
    }
  }

  /** What one pass does to a row it inspects: a row that has ended goes; of a rate bucket the stamps of ten
      minutes and more go, and with the last of them the row; anything else stays as it is. */
  lemma InspectionExactly(rows: map<int, Value>, page: seq<int>, now: int, k: int, x: int)
    requires k in rows && k in page
    ensures var after := Cleaned(rows, page, now);
            && (!rows[k].Rate? ==> (k in after <==> !EndsAt(rows[k], now)) && (k in after ==> after[k] == rows[k]))
            && (rows[k].Rate? ==>
                  && (k in after ==> after[k].Rate? && (x in after[k].stamps <==> x in rows[k].stamps && now - x < 600))
                  && (k !in after ==> !(x in rows[k].stamps && now - x < 600)))
  {
    if rows[k].Rate? {
      SinceMembers(rows[k].stamps, now - 600, x);
    }
  }

  /** What a request finds under a key: an unexpired session or challenge, or a usable authorization. */
  predicate Usable(rows: map<int, Value>, k: int, now: int) {
    && k in rows
    && match rows[k]
       case Expiring(expiresAt) => expiresAt > now
       case Authorized(record) => record.status == Authorization.Issued && record.expiresAt > now
       case _ => false
  }

  lemma CleaningHidesNothing(rows: map<int, Value>, page: seq<int>, at: int, k: int, now: int)
    requires at <= now
    ensures Usable(Cleaned(rows, page, at), k, now) == Usable(rows, k, now)
  {
    if k in rows && k in page {
      assert rows[k].Rate? || !PruneValue(rows[k], at).Update?;
    }
  }

  /** Passes made so far never change what a request finds now or later. */
  lemma {:induction false} PassesHideNothing(t: Table, es: seq<Event>, k: int, now: int)
    requires forall i :: 0 <= i < |es| ==> es[i].Pass? && es[i].now <= now
    ensures Usable(Run(t, es).rows, k, now) == Usable(t.rows, k, now)
  {
    if es != [] {
      var n := |es| - 1;
      var s := Run(t, es[..n]);
      PassesHideNothing(t, es[..n], k, now);
      CleaningHidesNothing(s.rows, Page(s.rows.Keys, s.cursor, s.limit), es[n].now, k, now);
    }
  }

  // ------------------------------------------------------------------
  // The stored rows
  // ------------------------------------------------------------------

  lemma CleanedStep(rows: map<int, Value>, page: seq<int>, k: int, now: int)
    requires k in rows && k !in page
    ensures k in Cleaned(rows, page, now) && Cleaned(rows, page, now)[k] == rows[k]
    ensures Cleaned(rows, page + [k], now) ==
            match PruneValue(rows[k], now)
            case Keep => Cleaned(rows, page, now)
            case Update(v) => Cleaned(rows, page, now)[k := v]
            case Delete => Cleaned(rows, page, now) - {k}
  {
    assert forall x :: x in page + [k] <==> x in page || x == k;
  }

  lemma PageIsDistinct(keys: set<int>, cursor: int, limit: nat)
    ensures Distinct(Page(keys, cursor, limit)) && forall k :: k in Page(keys, cursor, limit) ==> k in keys
  {
    AscendingSorted(After(keys, cursor));
    AscendingSorted(After(keys, BEGIN));
    assert forall k :: k in PageAfter(keys, cursor, limit) ==> k in Ascending(After(keys, cursor));
    assert forall k :: k in PageAfter(keys, BEGIN, limit) ==> k in Ascending(After(keys, BEGIN));
  }

  class Store {
    const limit: nat
    var rows: map<int, Value>
    var cursor: int
    ghost var seen: set<int>

    ghost function State(): Table
      reads this
    {
      Table(limit, rows, cursor, seen)
    }

    constructor (limit: int, rows: map<int, Value>)
      ensures State() == Table(if limit > 1 then limit else 1, rows, BEGIN, {})
    {
      this.limit := if limit > 1 then limit else 1;
      this.rows, cursor, seen := rows, BEGIN, {};
    }

    /** Keeps, prunes or deletes the rows of one page. */
    method InspectPage(page: seq<int>, now: int) returns (checked: nat)
      requires Distinct(page) && forall k :: k in page ==> k in rows
      modifies `rows
      ensures rows == Cleaned(old(rows), page, now) && checked == |page|
    {
      checked := 0;
      ghost var before := rows;
      for i := 0 to |page|
        invariant rows == Cleaned(before, page[..i], now) && checked == i
      {
        var k := page[i];
        assert page[..i + 1] == page[..i] + [k];
        CleanedStep(before, page[..i], k, now);
        checked := checked + 1;
        match PruneValue(rows[k], now) {
          case Keep =>
          case Update(v) => rows := rows[k := v];
          case Delete => rows := rows - {k};
        }
      }
      assert page[..|page|] == page;
    }

    /** `cleanup_expired_claim_security_metadata` inside its transaction. */
    method CleanupPass(now: int) returns (checked: nat, wrapped: bool)
      modifies this
      ensures State() == Next(old(State()), Pass(now))
      ensures checked == |Page(old(rows).Keys, old(cursor), limit)| <= limit
      ensures wrapped <==> old(cursor) != BEGIN && PageAfter(old(rows).Keys, old(cursor), limit) == []
    {
      var page := PageAfter(rows.Keys, cursor, limit);
      wrapped := page == [] && cursor != BEGIN;
      if wrapped {
        page := PageAfter(rows.Keys, BEGIN, limit);
      }
      PageIsDistinct(rows.Keys, cursor, limit);
      checked := InspectPage(page, now);
      seen := seen + Elements(page);
      cursor := if page != [] then page[|page| - 1] else BEGIN;
    }
  }
}
