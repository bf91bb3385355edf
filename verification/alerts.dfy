/**
 * The alert handlers as operations on the alert collection: a per-user
 * listing (newest first, at most 100, optionally unread only), mark one or
 * all as read, delete; plus `Alert.create` as the scheduler uses it.
 */
module Alerts {
  import opened Wrappers
  import opened Listing
  import opened Models

  /** The alert collection in insertion order and the next fresh id. */
  datatype AlertStore = AlertStore(log: seq<Alert>, nextId: RecordId)

  /** The most alerts one listing returns. */
  const ListingLimit: nat := 100

  /** The store invariant: unique ids issued below `nextId`, required fields present. */
  predicate Valid(st: AlertStore)
  {
    && (forall i :: 0 <= i < |st.log| ==> st.log[i].id < st.nextId && AlertValid(st.log[i]))
    && (forall i, j :: 0 <= i < j < |st.log| ==> st.log[i].id != st.log[j].id)
  }

  /** Alert `id` exists and belongs to `u`. */
  predicate Owns(st: AlertStore, u: UserId, id: RecordId)
  {
    exists i :: 0 <= i < |st.log| && st.log[i].id == id && st.log[i].userId == u
  }

  function CreatedAt(a: Alert): int
  {
    a.createdAt
  }

  function IsOwnedAlert(u: UserId, id: RecordId): Alert -> bool
  {
    (a: Alert) => a.id == id && a.userId == u
  }

  /** The listing's query: the caller's alerts, and only unread ones when asked. */
  function ListingQuery(u: UserId, unreadOnly: bool): Alert -> bool
  {
    (a: Alert) => a.userId == u && (unreadOnly ==> !a.isRead)
  }

  /**
   * `Alert.create`: a storage fault or a missing required field fails and
   * writes nothing; otherwise the alert is appended with a fresh id.
   */
  function CreateAlert(st: AlertStore, d: AlertDraft, now: int, fault: bool): (r: Result<(AlertStore, Alert), ApiError>)
    ensures r.Ok? <==> !fault && DraftValid(d)
    ensures r.Ok? ==>
      var (st', a) := r.value;
      && st'.log == st.log + [a]
      && st'.nextId == st.nextId + 1
      && a == NewAlert(d, st.nextId, now)
    ensures r.Ok? && Valid(st) ==> Valid(r.value.0)
    ensures r.Err? ==> r.error == ServerError
  {
    if fault || !DraftValid(d) then Err(ServerError)
    else
      var a := NewAlert(d, st.nextId, now);
      Ok((AlertStore(st.log + [a], st.nextId + 1), a))
  }

  /**
   * `getAlerts`: the caller's alerts, unread only exactly when the query
   * parameter is the string "true"; newest first, at most 100, and no
   * matching alert left out is newer than one returned.
   */
  function GetAlerts(st: AlertStore, u: UserId, unread: Option<string>): (r: seq<Alert>)
    ensures forall a :: a in r ==> a in st.log && a.userId == u
    ensures unread == Some("true") ==> forall a :: a in r ==> !a.isRead
    ensures |r| == Min(ListingLimit, |Filter(st.log, ListingQuery(u, unread == Some("true")))|)
    ensures NewestFirst(r, CreatedAt)
    ensures forall a, b ::
      a in st.log && a.userId == u && (unread == Some("true") ==> !a.isRead) && a !in r && b in r
      ==> a.createdAt <= b.createdAt
  {
    var unreadOnly := unread == Some("true");
    var query := ListingQuery(u, unreadOnly);
    assert forall a :: query(a) <==> a.userId == u && (unreadOnly ==> !a.isRead);
    var r := Newest(st.log, query, CreatedAt, ListingLimit);
    assert forall a :: a in r ==> a in st.log && a.userId == u && (unreadOnly ==> !a.isRead) by {
      forall a | a in r ensures a in st.log && a.userId == u && (unreadOnly ==> !a.isRead) {
        assert query(a);
      }
    }
    assert forall a, b :: a in st.log && a.userId == u && (unreadOnly ==> !a.isRead) && a !in r && b in r ==>
        a.createdAt <= b.createdAt by {
      forall a, b | a in st.log && a.userId == u && (unreadOnly ==> !a.isRead) && a !in r && b in r
        ensures a.createdAt <= b.createdAt
      {
        assert query(a);
        assert CreatedAt(a) <= CreatedAt(b);
      }
    }
    r
  }

  /** Of two listed alerts with different times, the later one is listed first. */
  lemma LaterAlertListedFirst(st: AlertStore, u: UserId, unread: Option<string>, i: nat, j: nat)
    requires i < |GetAlerts(st, u, unread)| && j < |GetAlerts(st, u, unread)|
    requires GetAlerts(st, u, unread)[i].createdAt < GetAlerts(st, u, unread)[j].createdAt
    ensures j < i
  {
    var r := GetAlerts(st, u, unread);
    LaterListedFirst(r, CreatedAt, i, j);
  }

  /** `markAsRead`: 404 unless the caller owns the alert; otherwise only its read flag is set. */
  function MarkAsRead(st: AlertStore, u: UserId, id: RecordId): (r: Result<(AlertStore, Alert), ApiError>)
    ensures r.Err? <==> !Owns(st, u, id)
    ensures r.Err? ==> r.error == NotFound
    ensures r.Ok? ==>
      var (st', a) := r.value;
      && st'.nextId == st.nextId
      && a.isRead && a.id == id && a.userId == u
      && exists i :: 0 <= i < |st.log| && st'.log == st.log[i := a] && a == st.log[i].(isRead := true)
    ensures r.Ok? && Valid(st) ==> Valid(r.value.0)
  {
    match IndexWhere(st.log, IsOwnedAlert(u, id))
    case None => Err(NotFound)
    case Some(i) =>
      var a := st.log[i].(isRead := true);
      Ok((st.(log := st.log[i := a]), a))
  }

  /** `deleteAlert`: 404 unless the caller owns the alert; otherwise exactly that alert is removed. */
  function DeleteAlert(st: AlertStore, u: UserId, id: RecordId): (r: Result<AlertStore, ApiError>)
    ensures r.Err? <==> !Owns(st, u, id)
    ensures r.Err? ==> r.error == NotFound
    ensures r.Ok? ==> |r.value.log| == |st.log| - 1 && r.value.nextId == st.nextId
    ensures r.Ok? && Valid(st) ==> forall a :: a in r.value.log <==> a in st.log && a.id != id
    ensures r.Ok? && Valid(st) ==> Valid(r.value)
  {
    match IndexWhere(st.log, IsOwnedAlert(u, id))
    case None => Err(NotFound)
    case Some(i) =>
      var st' := st.(log := RemoveAt(st.log, i));
      assert Valid(st) ==> Valid(st') && forall a :: a in st'.log <==> a in st.log && a.id != id by {
        if Valid(st) {
          DeletionKeepsOthers(st, i);
        }
      }
      Ok(st')
  }

  lemma DeletionKeepsOthers(st: AlertStore, i: nat)
    requires Valid(st) && i < |st.log|
    ensures Valid(st.(log := RemoveAt(st.log, i)))
    ensures forall a :: a in RemoveAt(st.log, i) <==> a in st.log && a.id != st.log[i].id
  {
    var r := RemoveAt(st.log, i);
    assert forall k :: 0 <= k < |r| ==> r[k] == st.log[if k < i then k else k + 1];
    forall a | a in st.log && a.id != st.log[i].id ensures a in r {
      var k :| 0 <= k < |st.log| && st.log[k] == a;
      if k < i { assert r[k] == a; } else { assert r[k - 1] == a; }
    }
  }

  /**
   * `markAllAsRead`: every alert of the caller is read afterwards, nothing
   * but read flags changes, and other users' alerts are untouched.
   */
  function MarkAllAsRead(st: AlertStore, u: UserId): (r: AlertStore)
    ensures |r.log| == |st.log| && r.nextId == st.nextId
    ensures forall i :: 0 <= i < |r.log| && r.log[i].userId == u ==> r.log[i].isRead
    ensures forall i :: 0 <= i < |r.log| ==> r.log[i] == st.log[i].(isRead := r.log[i].isRead)
    ensures forall i :: 0 <= i < |r.log| && (st.log[i].userId != u || st.log[i].isRead) ==> r.log[i] == st.log[i]
    ensures Valid(st) ==> Valid(r)
  {
    var log := seq(|st.log|, i requires 0 <= i < |st.log| =>
      if st.log[i].userId == u && !st.log[i].isRead then st.log[i].(isRead := true) else st.log[i]);
    st.(log := log)
  }

  /** Marking the same alert read twice is the same as marking it once. */
  lemma MarkAsReadIsIdempotent(st: AlertStore, u: UserId, id: RecordId)
    requires MarkAsRead(st, u, id).Ok?
    ensures var st1 := MarkAsRead(st, u, id).value.0;
      MarkAsRead(st1, u, id).Ok? && MarkAsRead(st1, u, id).value.0 == st1
  {
    var st1 := MarkAsRead(st, u, id).value.0;
    var i := IndexWhere(st.log, IsOwnedAlert(u, id)).value;
    forall k | 0 <= k < i ensures !IsOwnedAlert(u, id)(st1.log[k]) {
      assert st1.log[k] == st.log[k];
    }
    assert IsOwnedAlert(u, id)(st1.log[i]);
    assert IndexWhere(st1.log, IsOwnedAlert(u, id)) == Some(i);
    assert st1.log[i := st1.log[i].(isRead := true)] == st1.log;
  }

  /** A second `markAllAsRead` changes nothing. */
  lemma MarkAllAsReadIsIdempotent(st: AlertStore, u: UserId)
    ensures MarkAllAsRead(MarkAllAsRead(st, u), u) == MarkAllAsRead(st, u)
  {
    var once := MarkAllAsRead(st, u);
    var twice := MarkAllAsRead(once, u);
    assert forall i :: 0 <= i < |once.log| ==> twice.log[i] == once.log[i];
  }

  /** Right after `markAllAsRead` the caller's unread listing is empty. */
  lemma UnreadListingEmptyAfterMarkAll(st: AlertStore, u: UserId)
    ensures GetAlerts(MarkAllAsRead(st, u), u, Some("true")) == []
  {
  }
}
