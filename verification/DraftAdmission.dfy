/** Admission of draft Spots: a rolling budget of deposit-key derivations, and one key sequence. */
module DraftAdmission {
  import opened Options
  import opened Sums

  const DRAFT_CREATION_WINDOW: nat := 3600
  const DRAFT_RESERVATION_STALE: nat := 300
  const DRAFT_CREATION_LIMIT_PER_USER: nat := 10
  const DRAFT_CREATION_GLOBAL_LIMIT: nat := 200

  datatype Row = Row(user: int, key: nat, consumed: bool, createdAt: int)

  /** History entry: one reservation turned into a derivation. */
  datatype Use = Use(id: nat, user: int, key: nat, createdAt: int)

  datatype Desk = Desk(
    rows: map<nat, Row>,
    nextId: nat,        // AUTOINCREMENT
    nextKey: nat,       // the metadata counter
    handed: seq<nat>,   // history: every key index handed out
    used: seq<Use>,     // history: every consumed reservation
    released: set<nat>) // history: admissions given back because their Spot is funded

  /** `funded` names the deposit keys of Spots whose confirmed deposits cover value and fee. */
  datatype Event =
    | Reserve(user: int, now: int, funded: set<nat>)
    | Consume(id: nat, user: int)
    | AllocateKey // the undated key allocation of other Spot writes

  function Funded(d: Desk, funded: set<nat>): set<nat> {
    set id | id in d.rows && d.rows[id].consumed && d.rows[id].key in funded
  }

  predicate Expired(r: Row, now: int) {
    if r.consumed then r.createdAt <= now - DRAFT_CREATION_WINDOW else r.createdAt <= now - DRAFT_RESERVATION_STALE
  }

  /** `release_fully_funded_draft_admissions` */
  function Release(d: Desk, funded: set<nat>): Desk {
    d.(rows := d.rows - Funded(d, funded), released := d.released + Funded(d, funded))
  }

  function PruneExpired(d: Desk, now: int): Desk {
    d.(rows := map id | id in d.rows && !Expired(d.rows[id], now) :: d.rows[id])
  }

  function OfUser(rows: map<nat, Row>, user: int): set<nat> {
    set id | id in rows && rows[id].user == user
  }

  predicate HasRoom(d: Desk, user: int) {
    |d.rows| < DRAFT_CREATION_GLOBAL_LIMIT && |OfUser(d.rows, user)| < DRAFT_CREATION_LIMIT_PER_USER
  }

  function Admit(d: Desk, user: int, now: int): Desk {
    d.(rows := d.rows[d.nextId := Row(user, d.nextKey, false, now)],
       nextId := d.nextId + 1,
       nextKey := d.nextKey + 1,
       handed := d.handed + [d.nextKey])
  }

  predicate CanConsume(d: Desk, id: nat, user: int) {
    id in d.rows && d.rows[id].user == user && !d.rows[id].consumed
  }

  function Next(d: Desk, e: Event): Desk {
    match e
    case Reserve(user, now, funded) =>
      var ready := PruneExpired(Release(d, funded), now);
      if HasRoom(ready, user) then Admit(ready, user, now) else ready
    case Consume(id, user) =>
      if CanConsume(d, id, user)
      then
        var r := d.rows[id];
        d.(rows := d.rows[id := r.(consumed := true)], used := d.used + [Use(id, user, r.key, r.createdAt)])
      else d
    case AllocateKey => d.(nextKey := d.nextKey + 1, handed := d.handed + [d.nextKey])
  }

  function Run(d: Desk, es: seq<Event>): Desk
  {
    if es == [] then d else Next(Run(d, es[..|es| - 1]), es[|es| - 1])
  }

  /** An empty table, with the counter past every key of an existing Spot. */
  function Start(firstKey: nat): Desk {
    Desk(map[], 0, firstKey, [], [], {})
  }

  function Clock(es: seq<Event>): int
  {
    if es == [] then 0
    else if es[|es| - 1].Reserve? then es[|es| - 1].now
    else Clock(es[..|es| - 1])
  }

  /** The clock never runs backwards. */
  ghost predicate Ordered(es: seq<Event>) {
    es != [] ==> Ordered(es[..|es| - 1]) && Clock(es[..|es| - 1]) <= Clock(es)
  }

  // ------------------------------------------------------------------
  // The invariant
  // ------------------------------------------------------------------

  ghost predicate RowOk(d: Desk, id: nat) {
    id in d.rows && id < d.nextId && d.rows[id].key < d.nextKey && d.rows[id].key in d.handed
  }

  ghost predicate UseOk(d: Desk, u: Use, now: int) {
    && u.id < d.nextId && u.key < d.nextKey
    && (u.id in d.rows ==> d.rows[u.id] == Row(u.user, u.key, true, u.createdAt))
    && (u.id in d.rows || u.id in d.released || u.createdAt <= now - DRAFT_CREATION_WINDOW)
  }

  ghost predicate Budgeted(d: Desk) {
    |d.rows| <= DRAFT_CREATION_GLOBAL_LIMIT
    && forall user :: |OfUser(d.rows, user)| <= DRAFT_CREATION_LIMIT_PER_USER
  }

  ghost predicate Inv(d: Desk, now: int) {
    && (forall id :: id in d.rows ==> RowOk(d, id))
    && (forall i :: 0 <= i < |d.used| ==> UseOk(d, d.used[i], now))
    && (forall i, j :: 0 <= i < j < |d.used| ==> d.used[i].id != d.used[j].id)
    && (forall i :: 0 <= i < |d.handed| ==> d.handed[i] < d.nextKey)
    && (forall i, j :: 0 <= i < j < |d.handed| ==> d.handed[i] < d.handed[j])
    && Budgeted(d)
  }

  lemma FewerRows(d: Desk, rows: map<nat, Row>)
    requires Budgeted(d) && rows.Keys <= d.rows.Keys && forall id :: id in rows ==> rows[id] == d.rows[id]
    ensures Budgeted(d.(rows := rows))
  {
    assert |rows| == |rows.Keys| && |d.rows| == |d.rows.Keys|;
    SubsetSize(rows.Keys, d.rows.Keys);
    forall user ensures |OfUser(rows, user)| <= DRAFT_CREATION_LIMIT_PER_USER {
      SubsetSize(OfUser(rows, user), OfUser(d.rows, user));
    }
  }

  lemma ReleaseInv(d: Desk, now: int, funded: set<nat>)
    requires Inv(d, now)
    ensures Inv(Release(d, funded), now)
  {
    var e := Release(d, funded);
    FewerRows(d, e.rows);
    forall id | id in e.rows ensures RowOk(e, id) {
      assert RowOk(d, id);
    }
    forall i | 0 <= i < |e.used| ensures UseOk(e, e.used[i], now) {
      assert UseOk(d, d.used[i], now);
    }
  }

  lemma PruneInv(d: Desk, before: int, now: int)
    requires Inv(d, before) && before <= now
    ensures Inv(PruneExpired(d, now), now)
  {
    var e := PruneExpired(d, now);
    FewerRows(d, e.rows);
    forall id | id in e.rows ensures RowOk(e, id) {
      assert RowOk(d, id);
    }
    forall i | 0 <= i < |e.used| ensures UseOk(e, e.used[i], now) {
      assert UseOk(d, d.used[i], before);
    }
  }

  lemma AdmitBudget(d: Desk, user: int, now: int)
    requires Budgeted(d) && HasRoom(d, user) && d.nextId !in d.rows
    ensures Budgeted(Admit(d, user, now))
  {
    var e := Admit(d, user, now);
    assert e.rows.Keys == d.rows.Keys + {d.nextId} && |e.rows.Keys| == |e.rows| && |d.rows.Keys| == |d.rows|;
    forall u ensures |OfUser(e.rows, u)| <= DRAFT_CREATION_LIMIT_PER_USER {
      AdmitOfUser(d, user, now, u);
    }
  }

  lemma AdmitOfUser(d: Desk, user: int, now: int, u: int)
    requires d.nextId !in d.rows
    ensures |OfUser(Admit(d, user, now).rows, u)| == |OfUser(d.rows, u)| + if u == user then 1 else 0
  {
    assert OfUser(Admit(d, user, now).rows, u) == OfUser(d.rows, u) + if u == user then {d.nextId} else {};
  }

  lemma AdmitInv(d: Desk, user: int, now: int)
    requires Inv(d, now) && HasRoom(d, user)
    ensures Inv(Admit(d, user, now), now)
  {
    var e := Admit(d, user, now);
    assert d.nextId in d.rows ==> RowOk(d, d.nextId);
    AdmitBudget(d, user, now);
    forall id | id in e.rows ensures RowOk(e, id) {
      if id != d.nextId { assert RowOk(d, id); }
      assert e.handed[|d.handed|] == d.nextKey;
    }
    forall i | 0 <= i < |e.used| ensures UseOk(e, e.used[i], now) {
      assert UseOk(d, d.used[i], now);
    }
  }

  lemma ConsumeBudget(d: Desk, id: nat, user: int)
    requires Budgeted(d) && CanConsume(d, id, user)
    ensures Budgeted(Next(d, Consume(id, user)))
  {
    var rows := Next(d, Consume(id, user)).rows;
    assert rows.Keys == d.rows.Keys && |rows.Keys| == |rows| && |d.rows.Keys| == |d.rows|;
    forall u ensures |OfUser(rows, u)| <= DRAFT_CREATION_LIMIT_PER_USER {
      assert OfUser(rows, u) == OfUser(d.rows, u);
    }
  }

  lemma ConsumeInv(d: Desk, now: int, id: nat, user: int)
    requires Inv(d, now) && CanConsume(d, id, user)
    ensures Inv(Next(d, Consume(id, user)), now)
  {
    var e := Next(d, Consume(id, user));
    assert RowOk(d, id);
    ConsumeBudget(d, id, user);
    forall x | x in e.rows ensures RowOk(e, x) {
      assert RowOk(d, x);
    }
    forall i | 0 <= i < |e.used| ensures UseOk(e, e.used[i], now) {
      if i < |d.used| { assert UseOk(d, d.used[i], now); }
    }
    forall i | 0 <= i < |d.used| ensures d.used[i].id != id {
      assert UseOk(d, d.used[i], now);
    }
  }

  lemma AllocateInv(d: Desk, now: int)
    requires Inv(d, now)
    ensures Inv(Next(d, AllocateKey), now)
  {
    var e := Next(d, AllocateKey);
    forall id | id in e.rows ensures RowOk(e, id) {
      assert RowOk(d, id);
      var i :| 0 <= i < |d.handed| && d.handed[i] == d.rows[id].key;
      assert e.handed[i] == d.rows[id].key;
    }
    forall i | 0 <= i < |e.used| ensures UseOk(e, e.used[i], now) {
      assert UseOk(d, d.used[i], now);
    }
  }

  lemma {:induction false} RunInv(firstKey: nat, es: seq<Event>)
    requires Ordered(es)
    ensures Inv(Run(Start(firstKey), es), Clock(es))
  {
    if es != [] {
      var n := |es| - 1;
      RunInv(firstKey, es[..n]);
      var d, before := Run(Start(firstKey), es[..n]), Clock(es[..n]);
      match es[n]
      case Reserve(user, now, funded) =>
        ReleaseInv(d, before, funded);
        PruneInv(Release(d, funded), before, now);
        var ready := PruneExpired(Release(d, funded), now);
        if HasRoom(ready, user) { AdmitInv(ready, user, now); }
      case Consume(id, user) => if CanConsume(d, id, user) { ConsumeInv(d, before, id, user); }
      case AllocateKey => AllocateInv(d, before);
    }
  }

  // ------------------------------------------------------------------
  // Results
  // ------------------------------------------------------------------

  /** Key indexes are handed out strictly ascending, so none is ever handed out twice. */
  lemma KeysAscend(firstKey: nat, es: seq<Event>, i: nat, j: nat)
    requires Ordered(es) && i < j < |Run(Start(firstKey), es).handed|
    ensures Run(Start(firstKey), es).handed[i] < Run(Start(firstKey), es).handed[j]
  {
    RunInv(firstKey, es);
  }

  /** A reservation is consumed at most once. */
  lemma ConsumedOnce(firstKey: nat, es: seq<Event>, i: nat, j: nat)
    requires Ordered(es) && i < |Run(Start(firstKey), es).used| && j < |Run(Start(firstKey), es).used|
    requires Run(Start(firstKey), es).used[i].id == Run(Start(firstKey), es).used[j].id
    ensures i == j
  {
    RunInv(firstKey, es);
    assert i < j || j < i || i == j;
  }

  /** The consumed, unfunded reservations made within the hour before t. */
  function Charged(d: Desk, t: int): set<Use> {
    set u | u in d.used && u.createdAt > t - DRAFT_CREATION_WINDOW && u.id !in d.released
  }

  function ChargedTo(d: Desk, t: int, user: int): set<Use> {
    set u | u in Charged(d, t) && u.user == user
  }

  /** Uses with different ids are as many as the ids that hold them. */
  lemma {:induction false} AsManyIds(uses: set<Use>, ids: set<nat>)
    requires forall u :: u in uses ==> u.id in ids
    requires forall u, v :: u in uses && v in uses && u.id == v.id ==> u == v
    ensures |uses| <= |ids|
    decreases uses
  {
    if uses != {} {
      var u :| u in uses;
      AsManyIds(uses - {u}, ids - {u.id});
    }
  }

  /** Within any rolling hour, the derivations not yet paid for stay within both limits. */
  lemma HourlyBudgetHolds(firstKey: nat, es: seq<Event>, t: int, user: int)
    requires Ordered(es) && Clock(es) <= t
    ensures |Charged(Run(Start(firstKey), es), t)| <= DRAFT_CREATION_GLOBAL_LIMIT
    ensures |ChargedTo(Run(Start(firstKey), es), t, user)| <= DRAFT_CREATION_LIMIT_PER_USER
  {
    var d := Run(Start(firstKey), es);
    RunInv(firstKey, es);
    forall u | u in Charged(d, t) ensures u.id in d.rows && d.rows[u.id].user == u.user {
      var i :| 0 <= i < |d.used| && d.used[i] == u;
      assert UseOk(d, d.used[i], Clock(es));
    }
    assert |d.rows.Keys| == |d.rows|;
    AsManyIds(Charged(d, t), d.rows.Keys);
    AsManyIds(ChargedTo(d, t, user), OfUser(d.rows, user));
  }

  /** Admissions that still count at `now`: younger than an hour and not yet paid for when they became a Spot,
      or younger than five minutes. */
  function Counting(d: Desk, now: int, funded: set<nat>): map<nat, Row> {
    map id | id in d.rows
             && (if d.rows[id].consumed then d.rows[id].key !in funded && now - d.rows[id].createdAt < 3600
                 else now - d.rows[id].createdAt < 300)
      :: d.rows[id]
  }

  /** A draft is admitted exactly while fewer than 200 admissions count, fewer than ten of them the user's. */
  lemma AdmissionExactly(d: Desk, user: int, now: int, funded: set<nat>)
    ensures var rows := Counting(d, now, funded);
            Next(d, Reserve(user, now, funded)).rows ==
            if |rows| < 200 && |set id | id in rows && rows[id].user == user| < 10
            then rows[d.nextId := Row(user, d.nextKey, false, now)] else rows
  {
    ReadyRows(d, now, funded);
    ByUser(Counting(d, now, funded), user);
  }

  /** A reservation is consumed exactly by its own user, and once. */
  lemma ConsumptionExactly(d: Desk, id: nat, user: int)
    ensures Next(d, Consume(id, user)) ==
            if id in d.rows && d.rows[id].user == user && !d.rows[id].consumed
            then d.(rows := d.rows[id := Row(user, d.rows[id].key, true, d.rows[id].createdAt)],
                    used := d.used + [Use(id, user, d.rows[id].key, d.rows[id].createdAt)])
            else d
  {
  }

  lemma ReadyRows(d: Desk, now: int, funded: set<nat>)
    ensures PruneExpired(Release(d, funded), now).rows == Counting(d, now, funded)
  {
    var rows := PruneExpired(Release(d, funded), now).rows;
    assert forall id :: id in rows <==> id in Counting(d, now, funded);
  }

  lemma ByUser(rows: map<nat, Row>, user: int)
    ensures OfUser(rows, user) == set id | id in rows && rows[id].user == user
  {
  }

  // ------------------------------------------------------------------
  // The stored rows
  // ------------------------------------------------------------------

  class Store {
    var rows: map<nat, Row>
    var nextId: nat
    var nextKey: nat
    ghost var handed: seq<nat>
    ghost var used: seq<Use>
    ghost var released: set<nat>

    ghost function State(): Desk
      reads this
    {
      Desk(rows, nextId, nextKey, handed, used, released)
    }

    constructor (firstKey: nat)
      ensures State() == Start(firstKey)
    {
      rows, nextId, nextKey := map[], 0, firstKey;
      handed, used, released := [], [], {};
    }

    /** `_next_spot_deposit_key_index` */
    method NextKey() returns (key: nat)
      modifies `nextKey, `handed
      ensures State() == Next(old(State()), AllocateKey)
      ensures key == old(nextKey)
    {
      key := nextKey;
      nextKey := nextKey + 1;
      handed := handed + [key];
    }

    /** `reserve_draft_creation`, behind the release of funded admissions; nothing is inserted at a limit. */
    method ReserveDraft(user: int, now: int, funded: set<nat>) returns (reservation: Option<nat>)
      modifies this
      ensures State() == Next(old(State()), Reserve(user, now, funded))
      ensures reservation.Some? <==> HasRoom(PruneExpired(Release(old(State()), funded), now), user)
      ensures reservation.Some? ==> reservation.value == old(nextId) && rows[old(nextId)] == Row(user, old(nextKey), false, now)
    {
      var paid := set id | id in rows && rows[id].consumed && rows[id].key in funded;
      rows := rows - paid;
      released := released + paid;
      assert State() == Release(old(State()), funded);
      rows := map id | id in rows && !Expired(rows[id], now) :: rows[id];
      assert State() == PruneExpired(Release(old(State()), funded), now);
      var userTotal := |OfUser(rows, user)|;
      if |rows| >= DRAFT_CREATION_GLOBAL_LIMIT || userTotal >= DRAFT_CREATION_LIMIT_PER_USER {
        return None;
      }
      var key := NextKey();
      var id := nextId;
      rows := rows[id := Row(user, key, false, now)];
      nextId := id + 1;
      return Some(id);
    }

    /** `consume_draft_creation`; false where the source raises. */
    method ConsumeDraft(id: nat, user: int) returns (ok: bool)
      modifies `rows, `used
      ensures State() == Next(old(State()), Consume(id, user))
      ensures ok <==> CanConsume(old(State()), id, user)
    {
      if id !in rows || rows[id].user != user || rows[id].consumed {
        return false;
      }
      used := used + [Use(id, user, rows[id].key, rows[id].createdAt)];
      rows := rows[id := rows[id].(consumed := true)];
      return true;
    }
  }
}
