/**
 * The real-time chat relay: connections join and leave per-asteroid rooms,
 * a join replays the room's recent history, and a send persists the message
 * before broadcasting it to the members of that asteroid's room.
 */
module Chat {
  import opened Wrappers
  import opened Listing
  import opened Models

  /** A socket connection. */
  type ConnId = nat

  /** The most messages a join replays. */
  const HistoryLimit: nat := 50

  /** Room membership, the persisted message log in insertion order, and the next fresh id. */
  datatype Relay = Relay(rooms: map<string, set<ConnId>>, log: seq<ChatMessage>, nextId: RecordId)

  /** What a connection is sent. */
  datatype Event =
    | PreviousMessages(messages: seq<ChatMessage>)
    | NewMessage(message: ChatMessage)
    | MessageError

  /** One emit: an event and the connections it reaches. */
  datatype Delivery = Delivery(to: set<ConnId>, event: Event)

  /** The room of an asteroid. */
  function RoomName(asteroidId: string): string
  {
    "asteroid-" + asteroidId
  }

  /** Different asteroids never share a room. */
  lemma RoomNameInjective(a: string, b: string)
    requires RoomName(a) == RoomName(b)
    ensures a == b
  {
    var prefix := "asteroid-";
    assert a == RoomName(a)[|prefix|..];
    assert b == RoomName(b)[|prefix|..];
  }

  /** The connections in `room`; a room nobody joined is empty. */
  function Members(relay: Relay, room: string): set<ConnId>
  {
    if room in relay.rooms then relay.rooms[room] else {}
  }

  function MessageCreatedAt(m: ChatMessage): int
  {
    m.createdAt
  }

  function ForAsteroid(asteroidId: string): ChatMessage -> bool
  {
    (m: ChatMessage) => m.asteroidId == asteroidId
  }

  /**
   * The history a join replays: at most 50 of the asteroid's messages, the
   * most recent ones, oldest first.
   */
  function History(log: seq<ChatMessage>, asteroidId: string): (h: seq<ChatMessage>)
    ensures |h| == Min(HistoryLimit, |Filter(log, ForAsteroid(asteroidId))|)
    ensures forall m :: m in h ==> m in log && m.asteroidId == asteroidId
    ensures OldestFirst(h, MessageCreatedAt)
    ensures forall m, n :: m in log && m.asteroidId == asteroidId && m !in h && n in h ==> m.createdAt <= n.createdAt
  {
    var query := ForAsteroid(asteroidId);
    assert forall m :: query(m) <==> m.asteroidId == asteroidId;
    var h := RecentOldestFirst(log, query, MessageCreatedAt, HistoryLimit);
    assert forall m, n :: m in log && m.asteroidId == asteroidId && m !in h && n in h ==> m.createdAt <= n.createdAt by {
      forall m, n | m in log && m.asteroidId == asteroidId && m !in h && n in h
        ensures m.createdAt <= n.createdAt
      {
        assert query(m);
        assert MessageCreatedAt(m) <= MessageCreatedAt(n);
      }
    }
    h
  }

  /**
   * `join-asteroid`: the connection is put into the asteroid's room; unless
   * reading the history fails, it alone is sent that history. A failed read
   * sends nothing and the connection stays in the room.
   */
  function JoinAsteroid(relay: Relay, conn: ConnId, asteroidId: string, historyFails: bool)
    : (r: (Relay, seq<Delivery>))
    ensures Members(r.0, RoomName(asteroidId)) == Members(relay, RoomName(asteroidId)) + {conn}
    ensures forall room :: room != RoomName(asteroidId) ==> Members(r.0, room) == Members(relay, room)
    ensures r.0.log == relay.log && r.0.nextId == relay.nextId
    ensures historyFails ==> r.1 == []
    ensures !historyFails ==> r.1 == [Delivery({conn}, PreviousMessages(History(relay.log, asteroidId)))]
  {
    var room := RoomName(asteroidId);
    var relay' := relay.(rooms := relay.rooms[room := Members(relay, room) + {conn}]);
    if historyFails then (relay', [])
    else (relay', [Delivery({conn}, PreviousMessages(History(relay.log, asteroidId)))])
  }

  /** `leave-asteroid`: the connection leaves that room and no other. */
  function LeaveAsteroid(relay: Relay, conn: ConnId, asteroidId: string): (r: Relay)
    ensures Members(r, RoomName(asteroidId)) == Members(relay, RoomName(asteroidId)) - {conn}
    ensures forall room :: room != RoomName(asteroidId) ==> Members(r, room) == Members(relay, room)
    ensures r.log == relay.log && r.nextId == relay.nextId
  {
    var room := RoomName(asteroidId);
    relay.(rooms := relay.rooms[room := Members(relay, room) - {conn}])
  }

  /**
   * `send-message`: a message the schema accepts and the store writes is
   * appended with a fresh id and the time of sending, then broadcast to the
   * asteroid's room; otherwise only the sender gets `message-error` and
   * nothing is stored. The sender need not be in the room.
   */
  function SendMessage(relay: Relay, conn: ConnId, d: ChatDraft, now: int, writeFails: bool)
    : (r: (Relay, seq<Delivery>))
    ensures r.0.rooms == relay.rooms
    ensures |r.1| == 1
    ensures !writeFails && ChatDraftValid(d) ==>
      var m := ChatMessage(relay.nextId, d.userId.value, d.userName, d.asteroidId, d.message, now);
      && r.0.log == relay.log + [m]
      && r.0.nextId == relay.nextId + 1
      && r.1[0] == Delivery(Members(relay, RoomName(d.asteroidId)), NewMessage(m))
    ensures writeFails || !ChatDraftValid(d) ==> r.0 == relay && r.1 == [Delivery({conn}, MessageError)]
  {
    if writeFails || !ChatDraftValid(d) then (relay, [Delivery({conn}, MessageError)])
    else
      var m := ChatMessage(relay.nextId, d.userId.value, d.userName, d.asteroidId, d.message, now);
      (relay.(log := relay.log + [m], nextId := relay.nextId + 1),
       [Delivery(Members(relay, RoomName(d.asteroidId)), NewMessage(m))])
  }

  /** A closed connection is in no room afterwards; every other membership stays. */
  function Disconnect(relay: Relay, conn: ConnId): (r: Relay)
    ensures forall room :: Members(r, room) == Members(relay, room) - {conn}
    ensures r.log == relay.log && r.nextId == relay.nextId
  {
    relay.(rooms := map room | room in relay.rooms :: relay.rooms[room] - {conn})
  }

  /** What the schema demands of a stored message: every required string present, text at most 500 code units. */
  predicate MessageValid(m: ChatMessage)
  {
    && m.userName != ""
    && m.asteroidId != ""
    && m.message != ""
    && Utf16Length(m.message) <= MaxMessageLength
  }

  /** The store invariant: ids issued below `nextId` and unique, every message valid. */
  predicate Valid(relay: Relay)
  {
    && (forall i :: 0 <= i < |relay.log| ==> relay.log[i].id < relay.nextId && MessageValid(relay.log[i]))
    && (forall i, j :: 0 <= i < j < |relay.log| ==> relay.log[i].id != relay.log[j].id)
  }

  /** A send keeps the invariant whether it is stored or refused. */
  lemma SendKeepsValid(relay: Relay, conn: ConnId, d: ChatDraft, now: int, writeFails: bool)
    requires Valid(relay)
    ensures Valid(SendMessage(relay, conn, d, now, writeFails).0)
  {
  }

  /** Joining and then leaving the same room restores every membership except the connection's own. */
  lemma JoinThenLeave(relay: Relay, conn: ConnId, asteroidId: string, historyFails: bool)
    ensures var r := LeaveAsteroid(JoinAsteroid(relay, conn, asteroidId, historyFails).0, conn, asteroidId);
      forall room :: Members(r, room) == if room == RoomName(asteroidId) then Members(relay, room) - {conn}
        else Members(relay, room)
  {
  }

  /** Leaving twice is leaving once. */
  lemma LeaveIsIdempotent(relay: Relay, conn: ConnId, asteroidId: string)
    ensures var once := LeaveAsteroid(relay, conn, asteroidId);
      forall room :: Members(LeaveAsteroid(once, conn, asteroidId), room) == Members(once, room)
  {
  }

  /** A message newer than every logged one ends the history of its asteroid once appended. */
  lemma NewestMessageEndsHistory(log: seq<ChatMessage>, m: ChatMessage)
    requires forall i :: 0 <= i < |log| ==> log[i].createdAt < m.createdAt
    ensures var h := History(log + [m], m.asteroidId);
      |h| > 0 && h[|h| - 1] == m
  {
    NewestEndsRecent(log, m, ForAsteroid(m.asteroidId), MessageCreatedAt, HistoryLimit);
  }

  /**
   * A message sent at a time later than every stored one is replayed to the
   * next connection that joins its asteroid's room, as the last entry.
   */
  lemma SentMessageIsReplayed(relay: Relay, conn: ConnId, d: ChatDraft, now: int)
    requires ChatDraftValid(d)
    requires forall i :: 0 <= i < |relay.log| ==> relay.log[i].createdAt < now
    ensures var sent := SendMessage(relay, conn, d, now, false);
      var m := sent.1[0].event.message;
      var h := History(sent.0.log, d.asteroidId);
      |h| > 0 && h[|h| - 1] == m
  {
    var m := ChatMessage(relay.nextId, d.userId.value, d.userName, d.asteroidId, d.message, now);
    NewestMessageEndsHistory(relay.log, m);
  }

  /** A 501-character message is refused: only the sender hears of it and nothing is stored. */
  lemma OversizedMessageIsRefused(relay: Relay, conn: ConnId, d: ChatDraft, now: int)
    requires |d.message| == 501
    requires forall i :: 0 <= i < |d.message| ==> d.message[i] as int <= 0xFFFF
    ensures SendMessage(relay, conn, d, now, false) == (relay, [Delivery({conn}, MessageError)])
  {
  }

  /** A broadcast for asteroid `a` reaches nobody who only joined asteroid `b`'s room. */
  lemma BroadcastStaysInRoom(relay: Relay, conn: ConnId, d: ChatDraft, now: int, b: string, c: ConnId)
    requires ChatDraftValid(d) && b != d.asteroidId
    requires c in Members(relay, RoomName(b)) && c !in Members(relay, RoomName(d.asteroidId))
    ensures c !in SendMessage(relay, conn, d, now, false).1[0].to
  {
  }
}
