/** In-memory snapshots: when the Spot lists go stale, and why refreshing one transaction is a rebuild. */
module Caches {
  import opened Options
  import opened Ordering

  // ------------------------------------------------------------------
  // Sorting by a key, then by id
  // ------------------------------------------------------------------

  predicate Before(key: int -> int, a: int, b: int) {
    key(a) < key(b) || (key(a) == key(b) && a < b)
  }

  /** What `sorted` returns for the ids of a dictionary under the key (key(id), id). */
  ghost predicate IsSorted(ids: seq<int>, keys: set<int>, key: int -> int) {
    && Elements(ids) == keys
    && forall i, j :: 0 <= i < j < |ids| ==> Before(key, ids[i], ids[j])
  }

  lemma SortedTail(ids: seq<int>, keys: set<int>, key: int -> int)
    requires IsSorted(ids, keys, key) && ids != []
    ensures ids[0] in keys && IsSorted(ids[1..], keys - {ids[0]}, key)
    ensures forall k :: k in keys && k != ids[0] ==> Before(key, ids[0], k)
  {
    forall k ensures k in ids[1..] <==> k in keys && k != ids[0] {
      if k in keys && k != ids[0] {
        var i :| 0 <= i < |ids| && ids[i] == k;
        assert ids[1..][i - 1] == k;
      }
    }
    assert Elements(ids[1..]) == keys - {ids[0]};
  }

  lemma NoElements(ids: seq<int>)
    ensures Elements(ids) == {} <==> ids == []
  {
    assert ids != [] ==> ids[0] in Elements(ids);
  }

  /** Sorting has one result: two rebuilds from the same rows list them alike. */
  lemma {:induction false} SortedOnce(a: seq<int>, b: seq<int>, keys: set<int>, key: int -> int)
    requires IsSorted(a, keys, key) && IsSorted(b, keys, key)
    ensures a == b
  {
    if a == [] {
      assert keys == {};
      NoElements(b);
    } else {
      assert a[0] in Elements(b);
      SortedTail(a, keys, key);
      SortedTail(b, keys, key);
      SortedOnce(a[1..], b[1..], keys - {a[0]}, key);
    }
  }

  /** One id put in its place. */
  function Inserted(ids: seq<int>, id: int, key: int -> int): seq<int>
  {
    if ids == [] || Before(key, id, ids[0]) then [id] + ids else [ids[0]] + Inserted(ids[1..], id, key)
  }

  lemma {:induction false} InsertedElements(ids: seq<int>, id: int, key: int -> int)
    ensures Elements(Inserted(ids, id, key)) == Elements(ids) + {id}
  {
    if ids == [] || Before(key, id, ids[0]) {
      ElementsPrepend(id, ids);
    } else {
      InsertedElements(ids[1..], id, key);
      ElementsPrepend(ids[0], Inserted(ids[1..], id, key));
      ElementsPrepend(ids[0], ids[1..]);
      assert ids == [ids[0]] + ids[1..];
    }
  }

  lemma ElementsPrepend(first: int, tail: seq<int>)
    ensures Elements([first] + tail) == {first} + Elements(tail)
  {
  }

  lemma {:induction false} InsertedSorted(ids: seq<int>, keys: set<int>, id: int, key: int -> int)
    requires IsSorted(ids, keys, key) && id !in keys
    ensures IsSorted(Inserted(ids, id, key), keys + {id}, key)
  {
    InsertedElements(ids, id, key);
    if ids == [] {
    } else if Before(key, id, ids[0]) {
      InsertedFirst(ids, keys, id, key);
    } else {
      assert ids[0] in Elements(ids);
      SortedTail(ids, keys, key);
      InsertedSorted(ids[1..], keys - {ids[0]}, id, key);
      Prepended(ids[0], Inserted(ids[1..], id, key), keys - {ids[0]} + {id}, key);
    }
  }

  lemma InsertedFirst(ids: seq<int>, keys: set<int>, id: int, key: int -> int)
    requires IsSorted(ids, keys, key) && ids != [] && Before(key, id, ids[0])
    ensures forall i, j :: 0 <= i < j < |[id] + ids| ==> Before(key, ([id] + ids)[i], ([id] + ids)[j])
  {
    forall j | 0 <= j < |ids| ensures Before(key, id, ids[j]) {
      assert j > 0 ==> Before(key, ids[0], ids[j]);
    }
  }

  lemma Prepended(first: int, tail: seq<int>, keys: set<int>, key: int -> int)
    requires IsSorted(tail, keys, key) && forall k :: k in keys ==> Before(key, first, k)
    ensures forall i, j :: 0 <= i < j < |[first] + tail| ==> Before(key, ([first] + tail)[i], ([first] + tail)[j])
  {
    forall j | 0 <= j < |tail| ensures Before(key, first, tail[j]) {
      assert tail[j] in Elements(tail);
    }
  }

  // ------------------------------------------------------------------
  // The Spot lists
  // ------------------------------------------------------------------

  datatype Spot = Spot(startsAt: Option<int>, endsAfter: Option<int>)

  datatype SpotSnapshot = SpotSnapshot(ids: seq<int>, current: seq<int>, upcoming: seq<int>, nextTransition: Option<int>)

  function EndsAt(s: Spot): Option<int> {
    if s.startsAt.None? || s.endsAfter.None? then None else Some(s.startsAt.value + s.endsAfter.value)
  }

  predicate IsCurrent(s: Spot, now: int) { s.startsAt.None? || s.startsAt.value <= now }

  predicate IsUpcoming(s: Spot, now: int) { s.startsAt.Some? && s.startsAt.value > now }

  predicate Expired(s: Spot, now: int) { EndsAt(s).Some? && EndsAt(s).value <= now }

  predicate Known(ids: seq<int>, spots: map<int, Spot>) {
    forall i :: 0 <= i < |ids| ==> ids[i] in spots
  }

  function CurrentIds(ids: seq<int>, spots: map<int, Spot>, now: int): seq<int>
    requires Known(ids, spots)
  {
    if ids == [] then []
    else
      var init := CurrentIds(ids[..|ids| - 1], spots, now);
      if IsCurrent(spots[ids[|ids| - 1]], now) then init + [ids[|ids| - 1]] else init
  }

  function UpcomingIds(ids: seq<int>, spots: map<int, Spot>, now: int): seq<int>
    requires Known(ids, spots)
  {
    if ids == [] then []
    else
      var init := UpcomingIds(ids[..|ids| - 1], spots, now);
      if IsUpcoming(spots[ids[|ids| - 1]], now) then init + [ids[|ids| - 1]] else init
  }

  /** A moment after now at which a Spot starts or ends. */
  predicate Transition(s: Spot, now: int, at: int) {
    at > now && (s.startsAt == Some(at) || EndsAt(s) == Some(at))
  }

  ghost predicate IsNext(ids: seq<int>, spots: map<int, Spot>, now: int, next: Option<int>)
    requires Known(ids, spots)
  {
    && (next.Some? ==> exists i :: 0 <= i < |ids| && Transition(spots[ids[i]], now, next.value))
    && forall i, at :: 0 <= i < |ids| && Transition(spots[ids[i]], now, at) ==> next.Some? && next.value <= at
  }

  function Sooner(next: Option<int>, at: int): Option<int> {
    if next.None? || at < next.value then Some(at) else next
  }

  /** `_rebuild_spot_indexes`, given the sorted ids. */
  method Rebuild(ids: seq<int>, spots: map<int, Spot>, now: int) returns (snapshot: SpotSnapshot)
    requires Known(ids, spots)
    ensures snapshot.ids == ids && snapshot.current == CurrentIds(ids, spots, now) && snapshot.upcoming == UpcomingIds(ids, spots, now)
    ensures IsNext(ids, spots, now, snapshot.nextTransition)
  {
    var current, upcoming: seq<int>, next: Option<int> := [], [], None;
    for i := 0 to |ids|
      invariant current == CurrentIds(ids[..i], spots, now) && upcoming == UpcomingIds(ids[..i], spots, now)
      invariant next.Some? ==> exists k :: 0 <= k < i && Transition(spots[ids[k]], now, next.value)
      invariant forall k, at :: 0 <= k < i && Transition(spots[ids[k]], now, at) ==> next.Some? && next.value <= at
    {
      assert ids[..i + 1][..i] == ids[..i];
      var spot := spots[ids[i]];
      if IsCurrent(spot, now) {
        current := current + [ids[i]];
      }
      if IsUpcoming(spot, now) {
        upcoming := upcoming + [ids[i]];
      }
      if spot.startsAt.Some? && spot.startsAt.value > now {
        next := Sooner(next, spot.startsAt.value);
      }
      var endsAt := EndsAt(spot);
      if endsAt.Some? && endsAt.value > now {
        next := Sooner(next, endsAt.value);
      }
    }
    assert ids[..|ids|] == ids;
    snapshot := SpotSnapshot(ids, current, upcoming, next);
  }

  /** The lists a rebuild would give, and no Spot that should have left the cache. */
  ghost predicate StillRight(ids: seq<int>, spots: map<int, Spot>, now: int, t: int)
    requires Known(ids, spots)
  {
    && CurrentIds(ids, spots, t) == CurrentIds(ids, spots, now)
    && UpcomingIds(ids, spots, t) == UpcomingIds(ids, spots, now)
    && forall i :: 0 <= i < |ids| ==> !Expired(spots[ids[i]], t)
  }

  lemma {:induction false} ListsFollowPredicate(ids: seq<int>, spots: map<int, Spot>, now: int, t: int)
    requires Known(ids, spots)
    requires forall i :: 0 <= i < |ids| ==> (IsCurrent(spots[ids[i]], t) <==> IsCurrent(spots[ids[i]], now))
    ensures CurrentIds(ids, spots, t) == CurrentIds(ids, spots, now)
    ensures UpcomingIds(ids, spots, t) == UpcomingIds(ids, spots, now)
  {
    if ids != [] {
      ListsFollowPredicate(ids[..|ids| - 1], spots, now, t);
    }
  }

  lemma {:induction false} CurrentMembers(ids: seq<int>, spots: map<int, Spot>, now: int, id: int)
    requires Known(ids, spots)
    ensures id in CurrentIds(ids, spots, now) <==> id in ids && IsCurrent(spots[id], now)
    ensures id in UpcomingIds(ids, spots, now) <==> id in ids && !IsCurrent(spots[id], now)
  {
    if ids != [] {
      CurrentMembers(ids[..|ids| - 1], spots, now, id);
      assert ids == ids[..|ids| - 1] + [ids[|ids| - 1]];
    }
  }

  /** The timer is exact: the cached lists equal a rebuild at t, with nothing expired, if and only if
      the next transition has not come. */
  lemma TimerIsExact(ids: seq<int>, spots: map<int, Spot>, now: int, t: int, next: Option<int>)
    requires Known(ids, spots) && now <= t && IsNext(ids, spots, now, next)
    requires forall i :: 0 <= i < |ids| ==> !Expired(spots[ids[i]], now)
    ensures StillRight(ids, spots, now, t) <==> next.None? || t < next.value
  {
    if next.None? || t < next.value {
      forall i | 0 <= i < |ids|
        ensures (IsCurrent(spots[ids[i]], t) <==> IsCurrent(spots[ids[i]], now)) && !Expired(spots[ids[i]], t)
      {
        var s := spots[ids[i]];
        assert s.startsAt.Some? && s.startsAt.value > now ==> Transition(s, now, s.startsAt.value);
        assert EndsAt(s).Some? && EndsAt(s).value > now ==> Transition(s, now, EndsAt(s).value);
      }
      ListsFollowPredicate(ids, spots, now, t);
    } else {
      var i :| 0 <= i < |ids| && Transition(spots[ids[i]], now, next.value);
      CurrentMembers(ids, spots, now, ids[i]);
      CurrentMembers(ids, spots, t, ids[i]);
    }
  }

  /** Current and upcoming share out the cached Spots. */
  lemma ListsPartition(ids: seq<int>, spots: map<int, Spot>, now: int, id: int)
    requires Known(ids, spots)
    ensures id in ids <==> id in CurrentIds(ids, spots, now) || id in UpcomingIds(ids, spots, now)
    ensures !(id in CurrentIds(ids, spots, now) && id in UpcomingIds(ids, spots, now))
  {
    CurrentMembers(ids, spots, now, id);
  }

  predicate StartedBy(s: Spot, t: int) { s.startsAt.Some? ==> s.startsAt.value <= t }

  predicate EndedBy(s: Spot, t: int) { s.startsAt.Some? && s.endsAfter.Some? && s.startsAt.value + s.endsAfter.value <= t }

  /** The lists by the clock: current Spots have no start or have started, upcoming ones have not. */
  lemma ListsByTheClock(ids: seq<int>, spots: map<int, Spot>, now: int, id: int)
    requires Known(ids, spots)
    ensures id in CurrentIds(ids, spots, now) <==> id in ids && StartedBy(spots[id], now)
    ensures id in UpcomingIds(ids, spots, now) <==> id in ids && !StartedBy(spots[id], now)
  {
    CurrentMembers(ids, spots, now, id);
  }

  /** The timer by the clock: until it rings no Spot starts and none ends; when it rings, one does. */
  lemma TimerByTheClock(ids: seq<int>, spots: map<int, Spot>, now: int, t: int, next: Option<int>)
    requires Known(ids, spots) && now <= t && IsNext(ids, spots, now, next)
    requires forall i :: 0 <= i < |ids| ==> !EndedBy(spots[ids[i]], now)
    ensures next.None? || t < next.value
            <==> forall i :: 0 <= i < |ids| ==> StartedBy(spots[ids[i]], t) == StartedBy(spots[ids[i]], now) && !EndedBy(spots[ids[i]], t)
  {
    if next.None? || t < next.value {
      forall i | 0 <= i < |ids|
        ensures StartedBy(spots[ids[i]], t) == StartedBy(spots[ids[i]], now) && !EndedBy(spots[ids[i]], t)
      {
        var s := spots[ids[i]];
        assert s.startsAt.Some? && s.startsAt.value > now ==> Transition(s, now, s.startsAt.value);
        assert EndsAt(s).Some? && EndsAt(s).value > now ==> Transition(s, now, EndsAt(s).value);
      }
    } else {
      var i :| 0 <= i < |ids| && Transition(spots[ids[i]], now, next.value);
    }
  }

  // ------------------------------------------------------------------
  // Pending transactions
  // ------------------------------------------------------------------

  datatype Row = Row(createdAt: int, hash: string, pending: bool)

  datatype PendingSnapshot = PendingSnapshot(byId: map<int, Row>, ids: seq<int>, byHash: map<string, int>)

  function CreatedAt(byId: map<int, Row>): int -> int {
    id => if id in byId then byId[id].createdAt else 0
  }

  /** `_build_pending_transaction_snapshot`: the order and the hash index of its rows. */
  ghost predicate IsBuilt(s: PendingSnapshot) {
    && IsSorted(s.ids, s.byId.Keys, CreatedAt(s.byId))
    && (forall h :: h in s.byHash ==> s.byHash[h] in s.byId && s.byId[s.byHash[h]].hash == h && h != "")
    && forall id :: id in s.byId && s.byId[id].hash != "" ==> s.byId[id].hash in s.byHash
  }

  /** `_build_pending_transaction_snapshot`, for a dictionary that lists its ids in any order. */
  method BuildPending(byId: map<int, Row>, order: seq<int>) returns (s: PendingSnapshot)
    requires Distinct(order) && Elements(order) == byId.Keys
    ensures s.byId == byId && IsBuilt(s)
  {
    var ids: seq<int>, byHash: map<string, int> := [], map[];
    for i := 0 to |order|
      invariant IsSorted(ids, Elements(order[..i]), CreatedAt(byId))
      invariant forall h :: h in byHash ==> byHash[h] in byId && byId[byHash[h]].hash == h && h != ""
      invariant forall k :: 0 <= k < i && byId[order[k]].hash != "" ==> byId[order[k]].hash in byHash
    {
      var id := order[i];
      assert id in Elements(order);
      assert order[..i + 1] == order[..i] + [id];
      assert Elements(order[..i + 1]) == Elements(order[..i]) + {id};
      InsertedSorted(ids, Elements(order[..i]), id, CreatedAt(byId));
      ids := Inserted(ids, id, CreatedAt(byId));
      if byId[id].hash != "" {
        byHash := byHash[byId[id].hash := id];
      }
    }
    assert order[..|order|] == order;
    forall id | id in byId && byId[id].hash != "" ensures byId[id].hash in byHash {
      assert id in Elements(order);
    }
    s := PendingSnapshot(byId, ids, byHash);
  }

  /** `build_pending_transaction_cache_snapshot`: every table has a snapshot. */
  method RebuildPending(table: map<int, Row>) returns (s: PendingSnapshot)
    ensures s.byId == Pending(table) && IsBuilt(s)
  {
    var order := Ascending(Pending(table).Keys);
    AscendingSorted(Pending(table).Keys);
    s := BuildPending(Pending(table), order);
  }

  ghost predicate UniqueHashes(byId: map<int, Row>) {
    forall a, b :: a in byId && b in byId && byId[a].hash == byId[b].hash != "" ==> a == b
  }

  function Pending(table: map<int, Row>): map<int, Row> {
    map id | id in table && table[id].pending :: table[id]
  }

  /** The membership change of `refresh_cached_pending_transaction`. */
  function Refreshed(byId: map<int, Row>, table: map<int, Row>, id: int): map<int, Row> {
    if id in table && table[id].pending then byId[id := table[id]] else byId - {id}
  }

  /** Two snapshots of the same rows are the same snapshot. */
  lemma BuiltOnce(s: PendingSnapshot, t: PendingSnapshot)
    requires IsBuilt(s) && IsBuilt(t) && s.byId == t.byId && UniqueHashes(s.byId)
    ensures s == t
  {
    SortedOnce(s.ids, t.ids, s.byId.Keys, CreatedAt(s.byId));
    assert s.byHash.Keys == t.byHash.Keys;
  }

  datatype Event = Write(id: int, row: Option<Row>) | RefreshOne(id: int)

  /** `stale` is history: ids written since they were last refreshed. */
  datatype Cache = Cache(table: map<int, Row>, byId: map<int, Row>, stale: set<int>)

  function Next(c: Cache, e: Event): Cache {
    match e
    case Write(id, row) => c.(table := if row.Some? then c.table[id := row.value] else c.table - {id}, stale := c.stale + {id})
    case RefreshOne(id) => c.(byId := Refreshed(c.byId, c.table, id), stale := c.stale - {id})
  }

  function Run(c: Cache, es: seq<Event>): Cache
  {
    if es == [] then c else Next(Run(c, es[..|es| - 1]), es[|es| - 1])
  }

  /** Off the stale ids, the cache holds exactly the pending rows. */
  ghost predicate Agrees(c: Cache) {
    forall id :: id !in c.stale ==>
      && (id in c.byId <==> id in Pending(c.table))
      && (id in c.byId ==> c.byId[id] == c.table[id])
  }

  lemma {:induction false} RunAgrees(c: Cache, es: seq<Event>)
    requires Agrees(c)
    ensures Agrees(Run(c, es))
  {
    if es != [] {
      RunAgrees(c, es[..|es| - 1]);
    }
  }

  /** Once every written id has been refreshed, the targeted refreshes have built what a full rebuild
      would: the same rows, the same order, the same hash index. */
  lemma RefreshingIsRebuilding(c: Cache, es: seq<Event>, mine: PendingSnapshot, rebuilt: PendingSnapshot)
    requires Agrees(c) && Run(c, es).stale == {}
    requires IsBuilt(mine) && mine.byId == Run(c, es).byId
    requires IsBuilt(rebuilt) && rebuilt.byId == Pending(Run(c, es).table) && UniqueHashes(rebuilt.byId)
    ensures mine == rebuilt
  {
    RunAgrees(c, es);
    assert mine.byId == rebuilt.byId;
    BuiltOnce(mine, rebuilt);
  }
}
