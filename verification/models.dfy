/**
 * The three persisted record kinds (watched asteroid, alert, chat message)
 * with their schema defaults and required-field checks, and the error
 * outcomes the HTTP handlers report.
 */
module Models {
  import opened Wrappers
  import Risk

  type UserId = nat
  type RecordId = nat

  /** The outcomes a handler reports instead of a success body: 400, 404 and 500. */
  datatype ApiError = BadRequest | NotFound | ServerError

  /** A failed call to the external asteroid data provider. */
  datatype GatewayError = GatewayError

  /** The provider's single-object lookup, an external call that may fail. */
  type Lookup = string -> Result<Risk.Snapshot, GatewayError>

  /* ---------------- watched asteroid ---------------- */

  /**
   * The record's alert settings. Neither path is required, so a stored
   * `null` is kept; it is `None` here.
   */
  datatype AlertSettings = AlertSettings(notifyOnApproach: Option<bool>, distanceThreshold: Option<real>)

  /** Notify on approach, within 0.05 AU. */
  const DefaultAlertSettings: AlertSettings := AlertSettings(Some(true), Some(0.05))

  /** JavaScript truthiness of the stored flag: a `null` flag is falsy. */
  predicate NotifiesOnApproach(s: AlertSettings)
  {
    s.notifyOnApproach == Some(true)
  }

  /** The threshold as a `<=` comparison reads it: a `null` threshold converts to 0. */
  function ThresholdValue(s: AlertSettings): (t: real)
    ensures s.distanceThreshold.Some? ==> t == s.distanceThreshold.value
    ensures s.distanceThreshold.None? ==> t == 0.0
  {
    match s.distanceThreshold
    case None => 0.0
    case Some(t) => t
  }

  datatype WatchedAsteroid = WatchedAsteroid(
    id: RecordId,
    userId: UserId,
    asteroidId: string,
    asteroidName: string,
    asteroidData: Risk.Snapshot,
    riskScore: int,
    riskLevel: Risk.Level,
    alertSettings: AlertSettings,
    addedAt: int,
    lastChecked: int)

  /** What the schema checks of a watched record: required strings present, score in [0, 100]. */
  predicate WatchedValid(w: WatchedAsteroid)
  {
    && w.asteroidId != ""
    && w.asteroidName != ""
    && 0 <= w.riskScore <= Risk.MaxScore
  }

  /**
   * `WatchedAsteroid.create` for a fetched snapshot: name, score and level
   * come from the snapshot and its analysis, the rest from the schema
   * defaults; it fails validation when a required string is empty.
   */
  function CreateWatched(id: RecordId, userId: UserId, asteroidId: string, snap: Risk.Snapshot, now: int)
    : (r: Result<WatchedAsteroid, ApiError>)
    ensures r.Ok? <==> asteroidId != "" && snap.name != ""
    ensures r.Ok? ==> WatchedValid(r.value)
    ensures r.Ok? ==>
      && r.value.id == id && r.value.userId == userId && r.value.asteroidId == asteroidId
      && r.value.asteroidName == snap.name && r.value.asteroidData == snap
      && r.value.riskScore == Risk.GetDetailedRiskAnalysis(snap).score
      && r.value.riskLevel == Risk.GetDetailedRiskAnalysis(snap).level
    ensures r.Ok? ==> NotifiesOnApproach(r.value.alertSettings) && r.value.alertSettings.distanceThreshold == Some(0.05)
    ensures r.Ok? ==> r.value.addedAt == now && r.value.lastChecked == now
    ensures r.Err? ==> r.error == ServerError
  {
    var analysis := Risk.GetDetailedRiskAnalysis(snap);
    var w := WatchedAsteroid(id, userId, asteroidId, snap.name, snap, analysis.score, analysis.level,
      DefaultAlertSettings, now, now);
    if asteroidId == "" || snap.name == "" then Err(ServerError) else Ok(w)
  }

  /* ---------------- alert ---------------- */

  datatype AlertType = CLOSE_APPROACH | RISK_INCREASE | NEW_DATA | CUSTOM

  datatype Severity = INFO | WARNING | CRITICAL

  /** The message text, kept as the values the alert templates interpolate into it. */
  datatype AlertMessage =
    | RiskIncreaseMessage(name: string, newScore: int)
    | CloseApproachMessage(name: string, missDistanceAU: real, date: Option<string>)
    | TextMessage(text: string)

  /** The two templates always render non-empty text; free text must not be empty. */
  predicate MessagePresent(m: AlertMessage)
  {
    m.TextMessage? ==> m.text != ""
  }

  /** The fields a caller passes to `Alert.create`; a missing severity is `None`. */
  datatype AlertDraft = AlertDraft(
    userId: UserId,
    asteroidId: string,
    asteroidName: string,
    alertType: AlertType,
    message: AlertMessage,
    severity: Option<Severity>)

  datatype Alert = Alert(
    id: RecordId,
    userId: UserId,
    asteroidId: string,
    asteroidName: string,
    alertType: AlertType,
    message: AlertMessage,
    severity: Severity,
    isRead: bool,
    createdAt: int)

  /** The schema's required fields of an alert. */
  predicate DraftValid(d: AlertDraft)
  {
    d.asteroidId != "" && d.asteroidName != "" && MessagePresent(d.message)
  }

  predicate AlertValid(a: Alert)
  {
    a.asteroidId != "" && a.asteroidName != "" && MessagePresent(a.message)
  }

  /**
   * `Alert.create` for a valid draft: every given field is copied, severity
   * defaults to INFO, the alert starts unread and is stamped with `now`.
   */
  function NewAlert(d: AlertDraft, id: RecordId, now: int): (a: Alert)
    ensures DraftValid(d) <==> AlertValid(a)
    ensures a.userId == d.userId && a.asteroidId == d.asteroidId && a.asteroidName == d.asteroidName
    ensures a.alertType == d.alertType && a.message == d.message
    ensures d.severity.None? ==> a.severity == INFO
    ensures d.severity.Some? ==> a.severity == d.severity.value
    ensures !a.isRead && a.createdAt == now && a.id == id
  {
    var severity := match d.severity
      case None => INFO
      case Some(s) => s;
    Alert(id, d.userId, d.asteroidId, d.asteroidName, d.alertType, d.message, severity, false, now)
  }

  /* ---------------- chat message ---------------- */

  /** The schema's `maxlength` on a chat message. */
  const MaxMessageLength: nat := 500

  /**
   * JavaScript string length: characters outside the Basic Multilingual
   * Plane take two UTF-16 code units.
   */
  function Utf16Length(s: string): (n: nat)
    ensures |s| <= n <= 2 * |s|
    ensures (forall i :: 0 <= i < |s| ==> s[i] as int <= 0xFFFF) ==> n == |s|
  {
    if |s| == 0 then 0
    else (if s[0] as int > 0xFFFF then 2 else 1) + Utf16Length(s[1..])
  }

  /** The `send-message` payload; a missing user id is `None`. */
  datatype ChatDraft = ChatDraft(userId: Option<UserId>, userName: string, asteroidId: string, message: string)

  datatype ChatMessage = ChatMessage(
    id: RecordId,
    userId: UserId,
    userName: string,
    asteroidId: string,
    message: string,
    createdAt: int)

  /** The schema's checks on a chat message: all fields required, text at most 500 code units. */
  predicate ChatDraftValid(d: ChatDraft)
  {
    && d.userId.Some?
    && d.userName != ""
    && d.asteroidId != ""
    && d.message != ""
    && Utf16Length(d.message) <= MaxMessageLength
  }

  /** A message of 501 ordinary characters fails validation; one of 500 passes. */
  lemma ChatLengthBoundary(userId: UserId, name: string, asteroidId: string, body: string)
    requires name != "" && asteroidId != ""
    requires forall i :: 0 <= i < |body| ==> body[i] as int <= 0xFFFF
    ensures |body| == 501 ==> !ChatDraftValid(ChatDraft(Some(userId), name, asteroidId, body))
    ensures 0 < |body| <= 500 ==> ChatDraftValid(ChatDraft(Some(userId), name, asteroidId, body))
  {
  }

  /** An empty message fails validation whatever the other fields. */
  lemma EmptyChatMessageRejected(d: ChatDraft)
    requires d.message == ""
    ensures !ChatDraftValid(d)
  {
  }
}
