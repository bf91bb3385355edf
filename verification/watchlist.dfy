/**
 * The watchlist handlers as operations on the watched-asteroid collection
 * and on each user's `watchlist` id array, with ownership checks that
 * answer 404 and a uniqueness check on (user, asteroid).
 */
module Watchlist {
  import opened Wrappers
  import opened Listing
  import opened Models
  import Risk

  /** The watched-asteroid collection in store order, each user's id array, and the next fresh id. */
  datatype WatchStore = WatchStore(
    items: seq<WatchedAsteroid>,
    userLists: map<UserId, seq<RecordId>>,
    nextId: RecordId)

  /** A user's `watchlist` array; a user without one has an empty array. */
  function UserList(st: WatchStore, u: UserId): seq<RecordId>
  {
    if u in st.userLists then st.userLists[u] else []
  }

  predicate UniqueIds(items: seq<WatchedAsteroid>)
  {
    forall i, j :: 0 <= i < j < |items| ==> items[i].id != items[j].id
  }

  /** The compound unique index on (userId, asteroidId). */
  predicate UniquePairs(items: seq<WatchedAsteroid>)
  {
    forall i, j :: 0 <= i < j < |items| ==>
      items[i].userId != items[j].userId || items[i].asteroidId != items[j].asteroidId
  }

  /** The store invariant: unique ids and pairs, valid records, ids issued below `nextId`. */
  predicate Valid(st: WatchStore)
  {
    && UniqueIds(st.items)
    && UniquePairs(st.items)
    && (forall i :: 0 <= i < |st.items| ==> st.items[i].id < st.nextId && WatchedValid(st.items[i]))
    && (forall u, k :: u in st.userLists && 0 <= k < |st.userLists[u]| ==> st.userLists[u][k] < st.nextId)
  }

  /** `u` already watches `asteroidId`. */
  predicate Watching(st: WatchStore, u: UserId, asteroidId: string)
  {
    exists i :: 0 <= i < |st.items| && st.items[i].userId == u && st.items[i].asteroidId == asteroidId
  }

  /** Record `id` exists and belongs to `u`. */
  predicate Owns(st: WatchStore, u: UserId, id: RecordId)
  {
    exists i :: 0 <= i < |st.items| && st.items[i].id == id && st.items[i].userId == u
  }

  function IsPair(u: UserId, asteroidId: string): WatchedAsteroid -> bool
  {
    (w: WatchedAsteroid) => w.userId == u && w.asteroidId == asteroidId
  }

  function IsOwnedRecord(u: UserId, id: RecordId): WatchedAsteroid -> bool
  {
    (w: WatchedAsteroid) => w.id == id && w.userId == u
  }

  function OwnedBy(u: UserId): WatchedAsteroid -> bool
  {
    (w: WatchedAsteroid) => w.userId == u
  }

  function AddedAt(w: WatchedAsteroid): int
  {
    w.addedAt
  }

  function IsNot(id: RecordId): RecordId -> bool
  {
    (x: RecordId) => x != id
  }

  /** `getWatchlist`: exactly the caller's records, most recently added first. */
  function GetWatchlist(st: WatchStore, u: UserId): (r: seq<WatchedAsteroid>)
    ensures forall w :: w in r <==> w in st.items && w.userId == u
    ensures |r| == |Filter(st.items, OwnedBy(u))|
    ensures NewestFirst(r, AddedAt)
  {
    var owned := Filter(st.items, OwnedBy(u));
    var r := SortNewestFirst(owned, AddedAt);
    SameElements(r, owned);
    assert forall w :: OwnedBy(u)(w) <==> w.userId == u;
    r
  }

  /**
   * `addToWatchlist`: 400 for a missing id or an existing pair, a provider
   * failure or a failed validation is a 500, otherwise the new record is
   * appended and its id pushed onto the caller's array.
   */
  function AddToWatchlist(st: WatchStore, u: UserId, asteroidId: Option<string>, fetch: Lookup, now: int)
    : (r: Result<(WatchStore, WatchedAsteroid), ApiError>)
    ensures asteroidId.None? || asteroidId == Some("") ==> r == Err(BadRequest)
    ensures asteroidId.Some? && asteroidId.value != "" && Watching(st, u, asteroidId.value) ==> r == Err(BadRequest)
    ensures r.Ok? <==>
      && asteroidId.Some? && asteroidId.value != ""
      && !Watching(st, u, asteroidId.value)
      && fetch(asteroidId.value).Ok?
      && fetch(asteroidId.value).value.name != ""
    ensures r.Err? && r.error != BadRequest ==> r.error == ServerError
    ensures r.Ok? ==>
      var (st', w) := r.value;
      var snap := fetch(asteroidId.value).value;
      && st'.items == st.items + [w]
      && w.id == st.nextId && st'.nextId == st.nextId + 1
      && w.userId == u && w.asteroidId == asteroidId.value
      && w.asteroidName == snap.name && w.asteroidData == snap
      && w.riskScore == Risk.GetDetailedRiskAnalysis(snap).score
      && w.riskLevel == Risk.GetDetailedRiskAnalysis(snap).level
      && w.alertSettings == DefaultAlertSettings
      && w.addedAt == now && w.lastChecked == now
      && UserList(st', u) == UserList(st, u) + [w.id]
      && (forall v :: v != u ==> UserList(st', v) == UserList(st, v))
    ensures r.Ok? && Valid(st) ==> Valid(r.value.0)
  {
    if asteroidId.None? || asteroidId.value == "" then Err(BadRequest)
    else
      var aid := asteroidId.value;
      match IndexWhere(st.items, IsPair(u, aid))
      case Some(_) => Err(BadRequest)
      case None =>
        match fetch(aid)
        case Err(_) => Err(ServerError)
        case Ok(snap) =>
          match CreateWatched(st.nextId, u, aid, snap, now)
          case Err(e) => Err(e)
          case Ok(w) =>
            Ok((WatchStore(st.items + [w], st.userLists[u := UserList(st, u) + [w.id]], st.nextId + 1), w))
  }

  /**
   * `removeFromWatchlist`: 404 unless the caller owns the record; otherwise
   * exactly that record is deleted and its id pulled from the caller's array.
   */
  function RemoveFromWatchlist(st: WatchStore, u: UserId, id: RecordId): (r: Result<WatchStore, ApiError>)
    ensures r.Err? <==> !Owns(st, u, id)
    ensures r.Err? ==> r.error == NotFound
    ensures r.Ok? ==> |r.value.items| == |st.items| - 1 && r.value.nextId == st.nextId
    ensures r.Ok? && UniqueIds(st.items) ==>
      forall w :: w in r.value.items <==> w in st.items && w.id != id
    ensures r.Ok? ==> forall x :: x in UserList(r.value, u) <==> x in UserList(st, u) && x != id
    ensures r.Ok? ==> forall v :: v != u ==> UserList(r.value, v) == UserList(st, v)
    ensures r.Ok? && Valid(st) ==> Valid(r.value)
  {
    match IndexWhere(st.items, IsOwnedRecord(u, id))
    case None => Err(NotFound)
    case Some(i) =>
      var st' := WatchStore(RemoveAt(st.items, i), st.userLists[u := Filter(UserList(st, u), IsNot(id))], st.nextId);
      RemovalKeepsOthers(st.items, i);
      assert Valid(st) ==> Valid(st') by {
        if Valid(st) {
          RemovalPreservesValid(st, u, id, i);
        }
      }
      Ok(st')
  }

  /** Deleting position `i` keeps exactly the records with another id, when ids are unique. */
  lemma RemovalKeepsOthers(items: seq<WatchedAsteroid>, i: nat)
    requires i < |items|
    ensures forall w :: w in RemoveAt(items, i) ==> w in items
    ensures UniqueIds(items) ==>
      forall w :: w in RemoveAt(items, i) <==> w in items && w.id != items[i].id
  {
    var r := RemoveAt(items, i);
    forall w | w in r ensures w in items {
      var k :| 0 <= k < |r| && r[k] == w;
      if k < i { assert items[k] == w; } else { assert items[k + 1] == w; }
    }
    if UniqueIds(items) {
      forall w | w in items && w.id != items[i].id ensures w in r {
        var k :| 0 <= k < |items| && items[k] == w;
        if k < i { assert r[k] == w; } else { assert r[k - 1] == w; }
      }
      forall w | w in r ensures w.id != items[i].id {
        var k :| 0 <= k < |r| && r[k] == w;
        if k < i { assert items[k] == w; } else { assert items[k + 1] == w; }
      }
    }
  }

  lemma RemovalPreservesValid(st: WatchStore, u: UserId, id: RecordId, i: nat)
    requires Valid(st) && i < |st.items|
    ensures Valid(WatchStore(RemoveAt(st.items, i), st.userLists[u := Filter(UserList(st, u), IsNot(id))], st.nextId))
  {
    var r := RemoveAt(st.items, i);
    assert forall k :: 0 <= k < |r| ==> r[k] == st.items[if k < i then k else k + 1];
    var l := Filter(UserList(st, u), IsNot(id));
    forall k | 0 <= k < |l| ensures l[k] < st.nextId {
      assert l[k] in l;
    }
  }

  /**
   * One settings field of the request body: left out (`undefined`), `null`,
   * a value the schema casts to `value`, or a value it cannot cast.
   */
  datatype Patch<T> = Absent | Null | Given(value: T) | Uncastable

  /** The stored field after an assignment that `save()` accepts: `undefined` keeps it. */
  function Patched<T>(p: Patch<T>, stored: Option<T>): Option<T>
  {
    match p
    case Absent => stored
    case Null => None
    case Given(v) => Some(v)
    case Uncastable => stored
  }

  /**
   * `updateAlertSettings`: 404 unless the caller owns the record; a field
   * the schema cannot cast makes `save()` reject, which the handler answers
   * with 500 and nothing is stored; otherwise only the fields present in
   * the body change, `null` included, and only on that record.
   */
  function UpdateAlertSettings(st: WatchStore, u: UserId, id: RecordId, notify: Patch<bool>, threshold: Patch<real>)
    : (r: Result<(WatchStore, WatchedAsteroid), ApiError>)
    ensures r.Err? <==> !Owns(st, u, id) || notify.Uncastable? || threshold.Uncastable?
    ensures !Owns(st, u, id) ==> r == Err(NotFound)
    ensures Owns(st, u, id) && (notify.Uncastable? || threshold.Uncastable?) ==> r == Err(ServerError)
    ensures r.Ok? ==>
      var (st', w') := r.value;
      && st'.userLists == st.userLists && st'.nextId == st.nextId
      && (exists i :: 0 <= i < |st.items| && st.items[i].id == id && st.items[i].userId == u
           && st'.items == st.items[i := w']
           && w' == st.items[i].(alertSettings := w'.alertSettings)
           && (notify.Absent? ==> w'.alertSettings.notifyOnApproach == st.items[i].alertSettings.notifyOnApproach)
           && (notify.Null? ==> w'.alertSettings.notifyOnApproach.None?)
           && (notify.Given? ==> w'.alertSettings.notifyOnApproach == Some(notify.value))
           && (threshold.Absent? ==> w'.alertSettings.distanceThreshold == st.items[i].alertSettings.distanceThreshold)
           && (threshold.Null? ==> w'.alertSettings.distanceThreshold.None?)
           && (threshold.Given? ==> w'.alertSettings.distanceThreshold == Some(threshold.value)))
    ensures r.Ok? && Valid(st) ==> Valid(r.value.0)
  {
    match IndexWhere(st.items, IsOwnedRecord(u, id))
    case None => Err(NotFound)
    case Some(i) =>
      if notify.Uncastable? || threshold.Uncastable? then Err(ServerError)
      else
        var w := st.items[i];
        var settings := AlertSettings(
          Patched(notify, w.alertSettings.notifyOnApproach),
          Patched(threshold, w.alertSettings.distanceThreshold));
        var w' := w.(alertSettings := settings);
        Ok((st.(items := st.items[i := w']), w'))
  }

  /** Watching the same asteroid twice: the second request is a 400 and changes nothing. */
  lemma SecondAddIsRejected(st: WatchStore, u: UserId, aid: string, fetch: Lookup, now: int, later: int)
    requires aid != "" && !Watching(st, u, aid)
    requires fetch(aid).Ok? && fetch(aid).value.name != ""
    ensures AddToWatchlist(AddToWatchlist(st, u, Some(aid), fetch, now).value.0, u, Some(aid), fetch, later) == Err(BadRequest)
  {
    var (st1, w) := AddToWatchlist(st, u, Some(aid), fetch, now).value;
    assert st1.items[|st.items|] == w;
    assert Watching(st1, u, aid);
  }

  /** Removing a record nobody owns, or one that another user owns, is a 404. */
  lemma RemoveOfForeignRecordIsNotFound(st: WatchStore, u: UserId, id: RecordId)
    requires forall i :: 0 <= i < |st.items| && st.items[i].id == id ==> st.items[i].userId != u
    ensures RemoveFromWatchlist(st, u, id) == Err(NotFound)
  {
  }

  /** Adding an asteroid and then removing the new record restores the records and the caller's array. */
  lemma AddThenRemoveRestores(st: WatchStore, u: UserId, aid: string, fetch: Lookup, now: int)
    requires Valid(st)
    requires aid != "" && !Watching(st, u, aid)
    requires fetch(aid).Ok? && fetch(aid).value.name != ""
    ensures var (st1, w) := AddToWatchlist(st, u, Some(aid), fetch, now).value;
      var r := RemoveFromWatchlist(st1, u, w.id);
      && r.Ok?
      && r.value.items == st.items
      && UserList(r.value, u) == UserList(st, u)
  {
    assert AddToWatchlist(st, u, Some(aid), fetch, now).Ok?;
    var (st1, w) := AddToWatchlist(st, u, Some(aid), fetch, now).value;
    RemoveAppended(st, st1, u, w);
  }

  /** Removing a record just appended for `u` undoes the append on the records and on `u`'s array. */
  lemma RemoveAppended(st: WatchStore, st1: WatchStore, u: UserId, w: WatchedAsteroid)
    requires Valid(st) && w.id == st.nextId && w.userId == u
    requires st1.items == st.items + [w]
    requires UserList(st1, u) == UserList(st, u) + [w.id]
    ensures var r := RemoveFromWatchlist(st1, u, w.id);
      && r.Ok?
      && r.value.items == st.items
      && UserList(r.value, u) == UserList(st, u)
  {
    assert st1.items[|st.items|] == w;
    var idx := IndexWhere(st1.items, IsOwnedRecord(u, w.id));
    assert idx.Some? && idx.value == |st.items| by {
      forall k | 0 <= k < |st.items| ensures !IsOwnedRecord(u, w.id)(st1.items[k]) {
        assert st1.items[k] == st.items[k];
      }
    }
    var r := RemoveFromWatchlist(st1, u, w.id);
    assert r.value.items == RemoveAt(st1.items, |st.items|);
    assert RemoveAt(st1.items, |st.items|) == st.items;
    FilterAppend(UserList(st, u), [w.id], IsNot(w.id));
    FilterKeepsAll(UserList(st, u), IsNot(w.id));
    assert Filter([w.id], IsNot(w.id)) == [];
  }

  /** An update that names no field leaves the store as it was. */
  lemma EmptyPatchChangesNothing(st: WatchStore, u: UserId, id: RecordId)
    requires Owns(st, u, id)
    ensures UpdateAlertSettings(st, u, id, Absent, Absent).Ok?
    ensures UpdateAlertSettings(st, u, id, Absent, Absent).value.0 == st
  {
    var i := IndexWhere(st.items, IsOwnedRecord(u, id)).value;
    assert st.items[i := st.items[i]] == st.items;
  }

  /** Applying the same settings patch twice is the same as applying it once. */
  lemma PatchIsIdempotent(st: WatchStore, u: UserId, id: RecordId, notify: Patch<bool>, threshold: Patch<real>)
    requires Owns(st, u, id) && !notify.Uncastable? && !threshold.Uncastable?
    ensures var st1 := UpdateAlertSettings(st, u, id, notify, threshold).value.0;
      UpdateAlertSettings(st1, u, id, notify, threshold).Ok?
      && UpdateAlertSettings(st1, u, id, notify, threshold).value.0 == st1
  {
    var st1 := UpdateAlertSettings(st, u, id, notify, threshold).value.0;
    var i := IndexWhere(st.items, IsOwnedRecord(u, id)).value;
    forall k | 0 <= k < i ensures !IsOwnedRecord(u, id)(st1.items[k]) {
      assert st1.items[k] == st.items[k];
    }
    assert IsOwnedRecord(u, id)(st1.items[i]);
    assert IndexWhere(st1.items, IsOwnedRecord(u, id)) == Some(i);
    assert st1.items[i := st1.items[i]] == st1.items;
  }
}
