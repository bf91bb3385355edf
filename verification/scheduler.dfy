/**
 * One run of the periodic watch check: every watched record, in store
 * order, is re-fetched, re-scored and compared with its stored score;
 * alerts are written under two independent triggers and the record is
 * saved. Each record runs inside its own failure boundary.
 */
module Scheduler {
  import opened Wrappers
  import Listing
  import opened Models
  import Risk
  import Watchlist
  import Alerts

  /**
   * What the outside world answers during one run: the provider lookup made
   * for each record, which alert writes and record saves hit a storage fault,
   * and whether loading the record set fails. The lookup is keyed by record
   * as well as asteroid, since every record makes its own call: two records
   * of the same asteroid may get different answers.
   */
  datatype Env = Env(
    fetch: (RecordId, string) -> Result<Risk.Snapshot, GatewayError>,
    alertFails: (RecordId, AlertType) -> bool,
    saveFails: RecordId -> bool,
    loadFails: bool)

  /**
   * The times a run reads: `Date.now` at each alert write, indexed by the
   * id that alert receives (ids are issued in write order), and `new Date()`
   * at each record's check, indexed by the record's id.
   */
  datatype Clock = Clock(alertAt: RecordId -> int, checkedAt: RecordId -> int)

  /** Later writes read a later time. */
  ghost predicate Ticking(clock: Clock)
  {
    forall i: RecordId, j: RecordId :: i < j ==> clock.alertAt(i) < clock.alertAt(j)
  }

  /** The risk trigger: strictly more than ten points above the stored score. */
  predicate RiskIncreased(previous: int, current: int)
  {
    current > previous + 10
  }

  /** JavaScript truthiness of the reported miss distance: present and not zero. */
  predicate Truthy(d: Option<real>)
  {
    d.Some? && d.value != 0.0
  }

  /** The close-approach trigger. */
  predicate CloseApproachDue(settings: AlertSettings, missDistance: Option<real>)
  {
    NotifiesOnApproach(settings) && Truthy(missDistance) && missDistance.value <= ThresholdValue(settings)
  }

  /**
   * A stored `null` flag, or a stored `null` threshold against a positive
   * miss distance, switches the close-approach trigger off.
   */
  lemma NullSettingsSilenceCloseApproach(settings: AlertSettings, missDistance: Option<real>)
    requires settings.notifyOnApproach.None? ||
      (settings.distanceThreshold.None? && missDistance.Some? && missDistance.value > 0.0)
    ensures !CloseApproachDue(settings, missDistance)
  {
  }

  function RiskIncreaseDraft(w: WatchedAsteroid, ra: Risk.RiskAnalysis): AlertDraft
  {
    var severity := if ra.level == Risk.Level.CRITICAL then Severity.CRITICAL else Severity.WARNING;
    AlertDraft(w.userId, w.asteroidId, w.asteroidName, RISK_INCREASE,
      RiskIncreaseMessage(w.asteroidName, ra.score), Some(severity))
  }

  function CloseApproachDraft(w: WatchedAsteroid, ra: Risk.RiskAnalysis): AlertDraft
    requires ra.factors.missDistance.Some?
  {
    AlertDraft(w.userId, w.asteroidId, w.asteroidName, CLOSE_APPROACH,
      CloseApproachMessage(w.asteroidName, ra.factors.missDistance.value, ra.factors.closeApproachDate),
      Some(Severity.WARNING))
  }

  /** Whether `Alert.create` of `d` for record `w` succeeds. */
  predicate WriteSucceeds(env: Env, w: WatchedAsteroid, d: AlertDraft)
  {
    !env.alertFails(w.id, d.alertType) && DraftValid(d)
  }

  /** The risk alert is due and writing it throws. */
  predicate RiskWriteFails(w: WatchedAsteroid, ra: Risk.RiskAnalysis, env: Env)
  {
    RiskIncreased(w.riskScore, ra.score) && !WriteSucceeds(env, w, RiskIncreaseDraft(w, ra))
  }

  /** The close-approach alert is due and writing it throws. */
  predicate CloseWriteFails(w: WatchedAsteroid, ra: Risk.RiskAnalysis, env: Env)
  {
    CloseApproachDue(w.alertSettings, ra.factors.missDistance) && !WriteSucceeds(env, w, CloseApproachDraft(w, ra))
  }

  /** Whether the per-record `try` ends in its `catch`, once the record has been fetched and scored. */
  predicate AnalysedFails(w: WatchedAsteroid, ra: Risk.RiskAnalysis, env: Env)
  {
    RiskWriteFails(w, ra, env) || CloseWriteFails(w, ra, env) || env.saveFails(w.id)
  }

  /** The answer to the lookup record `w` makes for its own asteroid. */
  function FetchOf(w: WatchedAsteroid, env: Env): Result<Risk.Snapshot, GatewayError>
  {
    env.fetch(w.id, w.asteroidId)
  }

  /** Whether the per-record `try` ends in its `catch`. */
  predicate ItemFails(w: WatchedAsteroid, env: Env)
  {
    match FetchOf(w, env)
    case Err(_) => true
    case Ok(snap) => AnalysedFails(w, Risk.GetDetailedRiskAnalysis(snap), env)
  }

  /** The record as a successful check saves it. */
  function Refreshed(w: WatchedAsteroid, snap: Risk.Snapshot, clock: Clock): WatchedAsteroid
  {
    var ra := Risk.GetDetailedRiskAnalysis(snap);
    w.(riskScore := ra.score, riskLevel := ra.level, asteroidData := snap, lastChecked := clock.checkedAt(w.id))
  }

  /** The record as the store holds it after the check. */
  function Stored(w: WatchedAsteroid, env: Env, clock: Clock): WatchedAsteroid
  {
    if ItemFails(w, env) then w else Refreshed(w, FetchOf(w, env).value, clock)
  }

  /**
   * The alerts a check writes once the record is scored, in order: the risk
   * alert when the score jumped and its write succeeds, then the
   * close-approach alert when it is due, the risk write did not throw, and
   * its own write succeeds.
   */
  function AnalysedDrafts(w: WatchedAsteroid, ra: Risk.RiskAnalysis, env: Env): (r: seq<AlertDraft>)
    ensures |r| <= 2
    ensures forall d :: d in r ==>
      && d.userId == w.userId && d.asteroidId == w.asteroidId && d.asteroidName == w.asteroidName
      && d.alertType in {RISK_INCREASE, CLOSE_APPROACH}
      && !env.alertFails(w.id, d.alertType) && DraftValid(d)
  {
    var risk :=
      if RiskIncreased(w.riskScore, ra.score) && WriteSucceeds(env, w, RiskIncreaseDraft(w, ra))
      then [RiskIncreaseDraft(w, ra)] else [];
    risk + (if RiskWriteFails(w, ra, env) then [] else CloseDrafts(w, ra, env))
  }

  /** The close-approach alert a check writes once the risk write did not throw. */
  function CloseDrafts(w: WatchedAsteroid, ra: Risk.RiskAnalysis, env: Env): seq<AlertDraft>
  {
    if CloseApproachDue(w.alertSettings, ra.factors.missDistance) && WriteSucceeds(env, w, CloseApproachDraft(w, ra))
    then [CloseApproachDraft(w, ra)] else []
  }

  /** The alerts a check of `w` writes; none when the lookup fails. */
  function WrittenDrafts(w: WatchedAsteroid, env: Env): (r: seq<AlertDraft>)
    ensures |r| <= 2
    ensures FetchOf(w, env).Err? ==> r == []
    ensures forall d :: d in r ==>
      && d.userId == w.userId && d.asteroidId == w.asteroidId && d.asteroidName == w.asteroidName
      && d.alertType in {RISK_INCREASE, CLOSE_APPROACH}
  {
    match FetchOf(w, env)
    case Err(_) => []
    case Ok(snap) => AnalysedDrafts(w, Risk.GetDetailedRiskAnalysis(snap), env)
  }

  /** Drafts as stored: consecutive ids from `firstId`, each stamped with the time of its own write. */
  function Stamp(ds: seq<AlertDraft>, firstId: RecordId, clock: Clock): (r: seq<Alert>)
    ensures |r| == |ds|
    ensures forall i :: 0 <= i < |ds| ==> r[i] == NewAlert(ds[i], firstId + i, clock.alertAt(firstId + i))
  {
    seq(|ds|, i requires 0 <= i < |ds| => NewAlert(ds[i], firstId + i, clock.alertAt(firstId + i)))
  }

  /** Stamping two batches one after the other numbers them as one batch. */
  lemma StampAppend(a: seq<AlertDraft>, b: seq<AlertDraft>, firstId: RecordId, secondId: RecordId, clock: Clock)
    requires secondId == firstId + |a|
    ensures Stamp(a + b, firstId, clock) == Stamp(a, firstId, clock) + Stamp(b, secondId, clock)
  {
  }

  /**
   * With a ticking clock, a batch stamped after `prior` is chronological:
   * each of its alerts is later than every alert before it in the log.
   */
  lemma StampIsChronological(prior: seq<Alert>, ds: seq<AlertDraft>, firstId: RecordId, clock: Clock)
    requires Ticking(clock)
    requires forall i :: 0 <= i < |prior| ==> prior[i].createdAt < clock.alertAt(firstId)
    ensures var log := prior + Stamp(ds, firstId, clock);
      forall i, j :: 0 <= i < j < |log| && |prior| <= j ==> log[i].createdAt < log[j].createdAt
  {
    var stamped := Stamp(ds, firstId, clock);
    var log := prior + stamped;
    forall i, j | 0 <= i < j < |log| && |prior| <= j
      ensures log[i].createdAt < log[j].createdAt
    {
      var k := j - |prior|;
      assert log[j] == stamped[k];
      assert log[j].createdAt == clock.alertAt(firstId + k);
      if i < |prior| {
        assert log[i] == prior[i];
        if k > 0 {
          assert clock.alertAt(firstId) < clock.alertAt(firstId + k);
        }
      } else {
        assert log[i] == stamped[i - |prior|];
        assert clock.alertAt(firstId + (i - |prior|)) < clock.alertAt(firstId + k);
      }
    }
  }

  /**
   * One guarded `Alert.create`: nothing happens unless the alert is due;
   * a due write either appends the stamped alert or fails.
   */
  function WriteStep(st: Alerts.AlertStore, due: bool, d: AlertDraft, clock: Clock, fault: bool)
    : (r: Result<Alerts.AlertStore, ApiError>)
    ensures r.Ok? <==> !due || (!fault && DraftValid(d))
    ensures r.Ok? ==> r.value.log == st.log + Stamp(if due then [d] else [], st.nextId, clock)
    ensures r.Ok? ==> r.value.nextId == st.nextId + (if due then 1 else 0)
    ensures r.Ok? && Alerts.Valid(st) ==> Alerts.Valid(r.value)
  {
    if !due then Ok(st)
    else
      match Alerts.CreateAlert(st, d, clock.alertAt(st.nextId), fault)
      case Ok((st', _)) => Ok(st')
      case Err(e) => Err(e)
  }

  datatype ItemResult = ItemResult(stored: WatchedAsteroid, alerts: Alerts.AlertStore, failed: bool)

  /**
   * The per-record `try` after the fetch, for the analysis `ra` of `snap`.
   * The previous score is the stored one, read before anything is
   * overwritten; a throwing alert write skips the rest, including the save,
   * but keeps any alert already written.
   */
  function CheckAnalysed(w: WatchedAsteroid, snap: Risk.Snapshot, ra: Risk.RiskAnalysis,
                         alerts: Alerts.AlertStore, env: Env, clock: Clock): (r: ItemResult)
    ensures r.alerts.log == alerts.log + Stamp(AnalysedDrafts(w, ra, env), alerts.nextId, clock)
    ensures r.alerts.nextId == alerts.nextId + |AnalysedDrafts(w, ra, env)|
    ensures r.failed == AnalysedFails(w, ra, env)
    ensures r.stored == if r.failed then w
      else w.(riskScore := ra.score, riskLevel := ra.level, asteroidData := snap, lastChecked := clock.checkedAt(w.id))
    ensures Alerts.Valid(alerts) ==> Alerts.Valid(r.alerts)
  {
    var riskDraft := RiskIncreaseDraft(w, ra);
    var riskDue := RiskIncreased(w.riskScore, ra.score);
    match WriteStep(alerts, riskDue, riskDraft, clock, env.alertFails(w.id, RISK_INCREASE))
    case Err(_) => ItemResult(w, alerts, true)
    case Ok(alerts1) =>
      var risk := if riskDue then [riskDraft] else [];
      assert AnalysedDrafts(w, ra, env) == risk + CloseDrafts(w, ra, env);
      StampAppend(risk, CloseDrafts(w, ra, env), alerts.nextId, alerts1.nextId, clock);
      CloseAndSave(w, snap, ra, alerts1, env, clock)
  }

  /** The rest of the `try` once the risk write did not throw: the close-approach write, then the save. */
  function CloseAndSave(w: WatchedAsteroid, snap: Risk.Snapshot, ra: Risk.RiskAnalysis,
                        alerts: Alerts.AlertStore, env: Env, clock: Clock): (r: ItemResult)
    ensures r.alerts.log == alerts.log + Stamp(CloseDrafts(w, ra, env), alerts.nextId, clock)
    ensures r.alerts.nextId == alerts.nextId + |CloseDrafts(w, ra, env)|
    ensures r.failed == (CloseWriteFails(w, ra, env) || env.saveFails(w.id))
    ensures r.stored == if r.failed then w
      else w.(riskScore := ra.score, riskLevel := ra.level, asteroidData := snap, lastChecked := clock.checkedAt(w.id))
    ensures Alerts.Valid(alerts) ==> Alerts.Valid(r.alerts)
  {
    var closeDue := CloseApproachDue(w.alertSettings, ra.factors.missDistance);
    var closeDraft := if closeDue then CloseApproachDraft(w, ra) else RiskIncreaseDraft(w, ra);
    match WriteStep(alerts, closeDue, closeDraft, clock, env.alertFails(w.id, CLOSE_APPROACH))
    case Err(_) => ItemResult(w, alerts, true)
    case Ok(alerts2) =>
      if env.saveFails(w.id) then ItemResult(w, alerts2, true)
      else ItemResult(w.(riskScore := ra.score, riskLevel := ra.level, asteroidData := snap, lastChecked := clock.checkedAt(w.id)),
                      alerts2, false)
  }

  /** The per-record `try`: a failed lookup is caught before anything is written. */
  function CheckItem(w: WatchedAsteroid, alerts: Alerts.AlertStore, env: Env, clock: Clock): (r: ItemResult)
    ensures r.alerts.log == alerts.log + Stamp(WrittenDrafts(w, env), alerts.nextId, clock)
    ensures r.alerts.nextId == alerts.nextId + |WrittenDrafts(w, env)|
    ensures r.failed == ItemFails(w, env)
    ensures r.stored == Stored(w, env, clock)
    ensures Alerts.Valid(alerts) ==> Alerts.Valid(r.alerts)
  {
    match FetchOf(w, env)
    case Err(_) => ItemResult(w, alerts, true)
    case Ok(snap) => CheckAnalysed(w, snap, Risk.GetDetailedRiskAnalysis(snap), alerts, env, clock)
  }

  /* ---------------- the alert triggers, per record ---------------- */

  /** The drafts of type `t` a check of `w` writes. */
  predicate WritesAlertOfType(w: WatchedAsteroid, env: Env, t: AlertType)
  {
    exists d :: d in WrittenDrafts(w, env) && d.alertType == t
  }

  /**
   * For a record the schema accepts, a risk alert is written exactly when
   * the lookup succeeds, the new score exceeds the stored one by more than
   * ten, and the write does not fault; its severity is CRITICAL exactly
   * when the new level is CRITICAL, WARNING otherwise.
   */
  lemma RiskAlertWrittenIff(w: WatchedAsteroid, env: Env)
    requires WatchedValid(w)
    ensures WritesAlertOfType(w, env, RISK_INCREASE) <==>
      && FetchOf(w, env).Ok?
      && Risk.GetDetailedRiskAnalysis(FetchOf(w, env).value).score > w.riskScore + 10
      && !env.alertFails(w.id, RISK_INCREASE)
    ensures forall d :: d in WrittenDrafts(w, env) && d.alertType == RISK_INCREASE ==>
      var level := Risk.GetDetailedRiskAnalysis(FetchOf(w, env).value).level;
      && d.message == RiskIncreaseMessage(w.asteroidName, Risk.GetDetailedRiskAnalysis(FetchOf(w, env).value).score)
      && (d.severity == Some(Severity.CRITICAL) <==> level == Risk.Level.CRITICAL)
      && (d.severity == Some(Severity.WARNING) <==> level != Risk.Level.CRITICAL)
  {
    if FetchOf(w, env).Ok? {
      var ra := Risk.GetDetailedRiskAnalysis(FetchOf(w, env).value);
      var ds := AnalysedDrafts(w, ra, env);
      if RiskIncreased(w.riskScore, ra.score) && !env.alertFails(w.id, RISK_INCREASE) {
        assert ds[0] == RiskIncreaseDraft(w, ra);
      }
    }
  }

  /**
   * For a record the schema accepts, a close-approach alert is written
   * exactly when the lookup succeeds, no risk write threw before it,
   * approach notifications are on (a stored `null` counts as off), the
   * closest miss distance is present, non-zero and within the record's
   * threshold (a stored `null` reads as 0), and the write does not fault;
   * it always carries WARNING.
   */
  lemma CloseAlertWrittenIff(w: WatchedAsteroid, env: Env)
    requires WatchedValid(w)
    ensures WritesAlertOfType(w, env, CLOSE_APPROACH) <==>
      && FetchOf(w, env).Ok?
      && var ra := Risk.GetDetailedRiskAnalysis(FetchOf(w, env).value);
      && !(ra.score > w.riskScore + 10 && env.alertFails(w.id, RISK_INCREASE))
      && w.alertSettings.notifyOnApproach == Some(true)
      && ra.factors.missDistance.Some? && ra.factors.missDistance.value != 0.0
      && ra.factors.missDistance.value <= (if w.alertSettings.distanceThreshold.Some? then w.alertSettings.distanceThreshold.value else 0.0)
      && !env.alertFails(w.id, CLOSE_APPROACH)
    ensures forall d :: d in WrittenDrafts(w, env) && d.alertType == CLOSE_APPROACH ==>
      d.severity == Some(Severity.WARNING)
  {
    if FetchOf(w, env).Ok? {
      var ra := Risk.GetDetailedRiskAnalysis(FetchOf(w, env).value);
      var ds := AnalysedDrafts(w, ra, env);
      if !RiskWriteFails(w, ra, env) && CloseApproachDue(w.alertSettings, ra.factors.missDistance)
         && !env.alertFails(w.id, CLOSE_APPROACH) {
        assert ds[|ds| - 1] == CloseApproachDraft(w, ra);
      }
    }
  }

  /**
   * Because the stored score is overwritten by the saved check, running the
   * check again against the same provider data raises no second risk alert.
   */
  lemma NoRepeatedRiskAlert(w: WatchedAsteroid, env: Env, clock: Clock)
    requires !ItemFails(w, env)
    ensures !WritesAlertOfType(Stored(w, env, clock), env, RISK_INCREASE)
  {
    var w' := Stored(w, env, clock);
    var ra := Risk.GetDetailedRiskAnalysis(FetchOf(w, env).value);
    assert w'.asteroidId == w.asteroidId && w'.riskScore == ra.score;
    assert !RiskIncreased(w'.riskScore, ra.score);
  }

  /* ---------------- one run over all records ---------------- */

  /** The alerts a run over `items` writes, record by record in store order. */
  function AllDrafts(items: seq<WatchedAsteroid>, env: Env): (r: seq<AlertDraft>)
    ensures |r| <= 2 * |items|
    ensures forall d :: d in r ==>
      exists i :: 0 <= i < |items| && d.userId == items[i].userId && d.asteroidId == items[i].asteroidId
  {
    if |items| == 0 then []
    else
      var rest := AllDrafts(items[1..], env);
      assert forall d :: d in rest ==>
        exists i :: 0 <= i < |items| && d.userId == items[i].userId && d.asteroidId == items[i].asteroidId by {
        forall d | d in rest
          ensures exists i :: 0 <= i < |items| && d.userId == items[i].userId && d.asteroidId == items[i].asteroidId
        {
          var j :| 0 <= j < |items[1..]| && d.userId == items[1..][j].userId && d.asteroidId == items[1..][j].asteroidId;
          assert items[1..][j] == items[j + 1];
        }
      }
      WrittenDrafts(items[0], env) + rest
  }

  function FailsUnder(env: Env): WatchedAsteroid -> bool
  {
    (w: WatchedAsteroid) => ItemFails(w, env)
  }

  /** How many records end in their `catch`. */
  function CountFailures(items: seq<WatchedAsteroid>, env: Env): (n: nat)
    ensures n <= |items|
    ensures n == 0 <==> forall i :: 0 <= i < |items| ==> !ItemFails(items[i], env)
  {
    var fails := FailsUnder(env);
    assert forall w :: fails(w) == ItemFails(w, env);
    Listing.CountWhere(items, fails)
  }

  datatype TickState = TickState(items: seq<WatchedAsteroid>, alerts: Alerts.AlertStore, failed: nat)

  /**
   * The `for` loop of a run: each record is checked inside its own failure
   * boundary, so a failing record neither stops the loop nor affects any
   * other record, and the alerts it wrote before failing stay.
   */
  function RunItems(items: seq<WatchedAsteroid>, alerts: Alerts.AlertStore, env: Env, clock: Clock): (r: TickState)
    ensures |r.items| == |items|
    ensures forall i :: 0 <= i < |items| ==> r.items[i] == Stored(items[i], env, clock)
    ensures r.failed == CountFailures(items, env)
    ensures r.alerts.log == alerts.log + Stamp(AllDrafts(items, env), alerts.nextId, clock)
    ensures r.alerts.nextId == alerts.nextId + |AllDrafts(items, env)|
    ensures Alerts.Valid(alerts) ==> Alerts.Valid(r.alerts)
  {
    if |items| == 0 then TickState([], alerts, 0)
    else
      var first := CheckItem(items[0], alerts, env, clock);
      var rest := RunItems(items[1..], first.alerts, env, clock);
      RunStepItems(items, (x: WatchedAsteroid) => Stored(x, env, clock), first.stored, rest.items);
      RunStepAlerts(alerts, clock, WrittenDrafts(items[0], env), AllDrafts(items[1..], env), first.alerts, rest.alerts);
      TickState([first.stored] + rest.items, rest.alerts, (if first.failed then 1 else 0) + rest.failed)
  }

  /**
   * With a ticking clock, the alerts a run writes are stamped in write
   * order, each later than every alert already in the log; so the
   * newest-first listing shows a later record's alert before an earlier one's.
   */
  lemma RunAlertsAreChronological(items: seq<WatchedAsteroid>, alerts: Alerts.AlertStore, env: Env, clock: Clock)
    requires Ticking(clock)
    requires forall i :: 0 <= i < |alerts.log| ==> alerts.log[i].createdAt < clock.alertAt(alerts.nextId)
    ensures var log := RunItems(items, alerts, env, clock).alerts.log;
      forall i, j :: 0 <= i < j < |log| && |alerts.log| <= j ==> log[i].createdAt < log[j].createdAt
  {
    StampIsChronological(alerts.log, AllDrafts(items, env), alerts.nextId, clock);
  }

  /** One step of the loop, for the records: the first record's check followed by the run over the rest. */
  lemma RunStepItems(items: seq<WatchedAsteroid>, f: WatchedAsteroid -> WatchedAsteroid, first: WatchedAsteroid, rest: seq<WatchedAsteroid>)
    requires |items| > 0 && first == f(items[0])
    requires |rest| == |items| - 1
    requires forall i :: 0 <= i < |items[1..]| ==> rest[i] == f(items[1..][i])
    ensures forall i :: 0 <= i < |items| ==> ([first] + rest)[i] == f(items[i])
  {
    assert forall i :: 1 <= i < |items| ==> items[i] == items[1..][i - 1];
  }

  /** One step of the loop, for the alerts: the first record's writes come before the rest's. */
  lemma RunStepAlerts(alerts: Alerts.AlertStore, clock: Clock, mine: seq<AlertDraft>, theirs: seq<AlertDraft>,
                      first: Alerts.AlertStore, rest: Alerts.AlertStore)
    requires first.log == alerts.log + Stamp(mine, alerts.nextId, clock)
    requires first.nextId == alerts.nextId + |mine|
    requires rest.log == first.log + Stamp(theirs, first.nextId, clock)
    requires rest.nextId == first.nextId + |theirs|
    ensures rest.log == alerts.log + Stamp(mine + theirs, alerts.nextId, clock)
    ensures rest.nextId == alerts.nextId + |mine + theirs|
  {
    StampAppend(mine, theirs, alerts.nextId, first.nextId, clock);
  }

  /** The watch store and alert store after a run, and how many records the loop visited. */
  datatype TickOutcome = TickOutcome(
    watch: Watchlist.WatchStore, alerts: Alerts.AlertStore, processed: nat, failed: nat)

  /**
   * `checkWatchedAsteroids`: when loading the records fails, the outer
   * `catch` ends the run with nothing changed; otherwise every record is
   * replaced by its checked version, the id arrays are untouched, and both
   * stores keep their invariants.
   */
  function CheckWatchedAsteroids(watch: Watchlist.WatchStore, alerts: Alerts.AlertStore, env: Env, clock: Clock)
    : (r: TickOutcome)
    ensures env.loadFails ==> r == TickOutcome(watch, alerts, 0, 0)
    ensures !env.loadFails ==>
      && r.processed == |watch.items|
      && |r.watch.items| == |watch.items|
      && (forall i :: 0 <= i < |watch.items| ==> r.watch.items[i] == Stored(watch.items[i], env, clock))
      && r.watch.userLists == watch.userLists && r.watch.nextId == watch.nextId
      && r.failed == CountFailures(watch.items, env)
      && r.alerts.log == alerts.log + Stamp(AllDrafts(watch.items, env), alerts.nextId, clock)
    ensures Watchlist.Valid(watch) && Alerts.Valid(alerts) ==> Watchlist.Valid(r.watch) && Alerts.Valid(r.alerts)
  {
    if env.loadFails then TickOutcome(watch, alerts, 0, 0)
    else
      var run := RunItems(watch.items, alerts, env, clock);
      var watch' := watch.(items := run.items);
      assert Watchlist.Valid(watch) ==> Watchlist.Valid(watch') by {
        if Watchlist.Valid(watch) {
          StoredKeepsValid(watch, watch', env, clock);
        }
      }
      TickOutcome(watch', run.alerts, |watch.items|, run.failed)
  }

  /** A check changes only the score, level, snapshot and check time, and keeps a valid record valid. */
  lemma StoredKeepsIdentity(w: WatchedAsteroid, env: Env, clock: Clock)
    ensures var s := Stored(w, env, clock);
      && s.id == w.id && s.userId == w.userId && s.asteroidId == w.asteroidId
      && s.asteroidName == w.asteroidName && s.alertSettings == w.alertSettings && s.addedAt == w.addedAt
    ensures WatchedValid(w) ==> WatchedValid(Stored(w, env, clock))
  {
  }

  lemma StoredKeepsValid(watch: Watchlist.WatchStore, watch': Watchlist.WatchStore, env: Env, clock: Clock)
    requires Watchlist.Valid(watch)
    requires watch'.userLists == watch.userLists && watch'.nextId == watch.nextId
    requires |watch'.items| == |watch.items|
    requires forall i :: 0 <= i < |watch.items| ==> watch'.items[i] == Stored(watch.items[i], env, clock)
    ensures Watchlist.Valid(watch')
  {
    forall i | 0 <= i < |watch.items| {
      StoredKeepsIdentity(watch.items[i], env, clock);
    }
  }

  /**
   * A run over three records where the middle lookup fails: that record is
   * left as it was and is the only failure counted, while the records on
   * either side are still refreshed.
   */
  lemma FailingRecordIsIsolated(a: WatchedAsteroid, b: WatchedAsteroid, c: WatchedAsteroid,
                                alerts: Alerts.AlertStore, env: Env, clock: Clock)
    requires FetchOf(b, env).Err?
    requires !ItemFails(a, env) && !ItemFails(c, env)
    ensures var run := RunItems([a, b, c], alerts, env, clock);
      && run.failed == 1
      && run.items == [Stored(a, env, clock), b, Stored(c, env, clock)]
  {
    var items := [a, b, c];
    assert items[1..] == [b, c] && items[1..][1..] == [c] && items[1..][1..][1..] == [];
    assert CountFailures([c], env) == 0;
    assert CountFailures([b, c], env) == 1;
    var run := RunItems(items, alerts, env, clock);
    assert run.items[1] == b;
  }

  /** The record whose lookup fails writes nothing; the others' alerts keep their order. */
  lemma FailingRecordWritesNothing(a: WatchedAsteroid, b: WatchedAsteroid, c: WatchedAsteroid, env: Env)
    requires FetchOf(b, env).Err?
    ensures AllDrafts([a, b, c], env) == WrittenDrafts(a, env) + WrittenDrafts(c, env)
  {
    var items := [a, b, c];
    assert items[1..] == [b, c] && items[1..][1..] == [c] && items[1..][1..][1..] == [];
    assert AllDrafts([c], env) == WrittenDrafts(c, env) + AllDrafts([], env);
    assert AllDrafts([b, c], env) == WrittenDrafts(b, env) + AllDrafts([c], env);
  }

  /**
   * One record's lookup can fail while another record of the same asteroid
   * is refreshed in the same run: the environment that fails only the first
   * record's call.
   */
  lemma LookupFailsPerRecord(a: WatchedAsteroid, b: WatchedAsteroid, snap: Risk.Snapshot, clock: Clock)
    returns (env: Env)
    requires a.id != b.id && WatchedValid(b)
    ensures ItemFails(a, env) && !ItemFails(b, env)
    ensures Stored(a, env, clock) == a && Stored(b, env, clock) == Refreshed(b, snap, clock)
    ensures WrittenDrafts(a, env) == []
  {
    env := Env((id: RecordId, _: string) => if id == a.id then Err(GatewayError) else Ok(snap),
               (_: RecordId, _: AlertType) => false, (_: RecordId) => false, false);
    var ra := Risk.GetDetailedRiskAnalysis(snap);
    assert DraftValid(RiskIncreaseDraft(b, ra));
  }
}
