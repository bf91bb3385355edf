/**
 * The heuristic risk score of a near-Earth object: four tiered factors
 * (hazard flag, closest miss distance, average diameter, velocity) added
 * into a score of at most 100, plus the level tier of that score.
 */
module Risk {
  import opened Wrappers

  /** One close-approach record, its numeric strings already parsed. */
  datatype Approach = Approach(missDistanceAU: real, velocityKmS: real, date: Option<string>)

  /** The provider's minimum and maximum diameter estimate, in metres. */
  datatype DiameterRange = DiameterRange(minMeters: real, maxMeters: real)

  /**
   * The provider's object record, reduced to the fields the backend reads.
   * A missing `close_approach_data` array is the empty sequence; a missing
   * `estimated_diameter.meters` is `None`.
   */
  datatype Snapshot = Snapshot(
    id: string,
    name: string,
    hazardous: bool,
    diameterMeters: Option<DiameterRange>,
    approaches: seq<Approach>)

  datatype Level = LOW | MEDIUM | HIGH | CRITICAL

  datatype RiskScore = RiskScore(score: int, level: Level)

  /** The breakdown reported next to the score; JavaScript `null` is `None`. */
  datatype Factors = Factors(
    isHazardous: bool,
    missDistance: Option<real>,
    diameter: Option<real>,
    velocity: Option<real>,
    closeApproachDate: Option<string>)

  datatype RiskAnalysis = RiskAnalysis(score: int, level: Level, factors: Factors)

  const MaxScore: int := 100

  /** The level tiers; each tier includes its lower bound. */
  function LevelOf(score: int): (l: Level)
    ensures l == CRITICAL <==> 75 <= score
    ensures l == HIGH <==> 50 <= score < 75
    ensures l == MEDIUM <==> 25 <= score < 50
    ensures l == LOW <==> score < 25
  {
    if score >= 75 then CRITICAL
    else if score >= 50 then HIGH
    else if score >= 25 then MEDIUM
    else LOW
  }

  function HazardPoints(hazardous: bool): (p: nat)
    ensures p in {0, 40}
  {
    if hazardous then 40 else 0
  }

  /** Closer is riskier; every bound is inclusive. */
  function DistancePoints(au: real): (p: nat)
    ensures p in {5, 10, 20, 30}
  {
    if au <= 0.05 then 30
    else if au <= 0.1 then 20
    else if au <= 0.2 then 10
    else 5
  }

  function AverageDiameter(d: DiameterRange): real
  {
    (d.minMeters + d.maxMeters) / 2.0
  }

  /** Larger is riskier; every bound is strict. */
  function DiameterPoints(avgMeters: real): (p: nat)
    ensures p in {5, 10, 15, 20}
  {
    if avgMeters > 1000.0 then 20
    else if avgMeters > 500.0 then 15
    else if avgMeters > 100.0 then 10
    else 5
  }

  /** Faster is riskier; every bound is strict. */
  function VelocityPoints(kmPerSecond: real): (p: nat)
    ensures p in {3, 5, 7, 10}
  {
    if kmPerSecond > 30.0 then 10
    else if kmPerSecond > 20.0 then 7
    else if kmPerSecond > 10.0 then 5
    else 3
  }

  /** `k` is the record the closest-approach `reduce` keeps: a minimum, and the first one. */
  predicate IsFirstClosest(aps: seq<Approach>, k: nat)
  {
    && k < |aps|
    && (forall i :: 0 <= i < |aps| ==> aps[k].missDistanceAU <= aps[i].missDistanceAU)
    && (forall i :: 0 <= i < k ==> aps[k].missDistanceAU < aps[i].missDistanceAU)
  }

  /**
   * The left fold of `reduce` without an initial value: the accumulator
   * starts at the first record and a later record replaces it only when it
   * is strictly closer.
   */
  function ClosestIndex(aps: seq<Approach>): (k: nat)
    requires |aps| > 0
    ensures IsFirstClosest(aps, k)
    decreases |aps|
  {
    if |aps| == 1 then 0
    else
      var k := ClosestIndex(aps[..|aps| - 1]);
      if aps[|aps| - 1].missDistanceAU < aps[k].missDistanceAU then |aps| - 1 else k
  }

  /** The closest-approach record is determined by the first-minimum property alone. */
  lemma FirstClosestIsUnique(aps: seq<Approach>, j: nat, k: nat)
    requires IsFirstClosest(aps, j) && IsFirstClosest(aps, k)
    ensures j == k
  {
    assert aps[j].missDistanceAU == aps[k].missDistanceAU;
  }

  /** The `reduce` as the loop it runs; it finds the record the left fold keeps. */
  method FindClosest(aps: seq<Approach>) returns (k: nat)
    requires |aps| > 0
    ensures IsFirstClosest(aps, k)
    ensures k == ClosestIndex(aps)
  {
    k := 0;
    var i := 1;
    while i < |aps|
      invariant 1 <= i <= |aps|
      invariant IsFirstClosest(aps[..i], k)
    {
      if aps[i].missDistanceAU < aps[k].missDistanceAU {
        k := i;
      }
      i := i + 1;
    }
    assert aps[..i] == aps;
    FirstClosestIsUnique(aps, k, ClosestIndex(aps));
  }

  function DistanceContribution(s: Snapshot): (p: nat)
    ensures p in {0, 5, 10, 20, 30}
    ensures p == 0 <==> |s.approaches| == 0
    ensures |s.approaches| > 0 ==> p == DistancePoints(s.approaches[ClosestIndex(s.approaches)].missDistanceAU)
  {
    if |s.approaches| > 0 then DistancePoints(s.approaches[ClosestIndex(s.approaches)].missDistanceAU)
    else 0
  }

  function DiameterContribution(s: Snapshot): (p: nat)
    ensures p in {0, 5, 10, 15, 20}
    ensures p == 0 <==> s.diameterMeters.None?
    ensures s.diameterMeters.Some? ==> p == DiameterPoints(AverageDiameter(s.diameterMeters.value))
  {
    match s.diameterMeters
    case None => 0
    case Some(d) => DiameterPoints(AverageDiameter(d))
  }

  /** Velocity is read from the FIRST record, not the closest one. */
  function VelocityContribution(s: Snapshot): (p: nat)
    ensures p in {0, 3, 5, 7, 10}
    ensures p == 0 <==> |s.approaches| == 0
    ensures |s.approaches| > 0 ==> p == VelocityPoints(s.approaches[0].velocityKmS)
  {
    if |s.approaches| > 0 then VelocityPoints(s.approaches[0].velocityKmS) else 0
  }

  /** The uncapped sum `calculateRiskScore` accumulates in its `score`. */
  function RawScore(s: Snapshot): nat
  {
    HazardPoints(s.hazardous) + DistanceContribution(s) + DiameterContribution(s) + VelocityContribution(s)
  }

  /**
   * `calculateRiskScore`: the level is taken from the uncapped sum and the
   * score is capped at 100; the sum never exceeds 100, so the cap never
   * changes it and the level is the tier of the returned score.
   */
  function CalculateRiskScore(s: Snapshot): (r: RiskScore)
    ensures 0 <= r.score <= MaxScore
    ensures r.score == RawScore(s)
    ensures r.level == LevelOf(r.score)
  {
    var raw := RawScore(s);
    RiskScore(Min(raw, MaxScore), LevelOf(raw))
  }

  /**
   * `getDetailedRiskAnalysis`: the score and level of `calculateRiskScore`,
   * and the factor breakdown read from the closest record.
   */
  function GetDetailedRiskAnalysis(s: Snapshot): (r: RiskAnalysis)
    ensures r.score == CalculateRiskScore(s).score && r.level == CalculateRiskScore(s).level
    ensures r.factors.isHazardous == s.hazardous
    ensures r.factors.missDistance.Some? <==> |s.approaches| > 0
    ensures r.factors.velocity.Some? <==> |s.approaches| > 0
    ensures |s.approaches| > 0 ==>
      exists k: nat :: IsFirstClosest(s.approaches, k)
        && r.factors.missDistance == Some(s.approaches[k].missDistanceAU)
        && r.factors.velocity == Some(s.approaches[k].velocityKmS)
        && r.factors.closeApproachDate == s.approaches[k].date
    ensures |s.approaches| == 0 ==> r.factors.closeApproachDate.None?
    ensures r.factors.diameter.Some? <==> s.diameterMeters.Some?
    ensures s.diameterMeters.Some? ==>
      r.factors.diameter.value == (s.diameterMeters.value.minMeters + s.diameterMeters.value.maxMeters) / 2.0
  {
    var rs := CalculateRiskScore(s);
    var diameter := match s.diameterMeters
      case None => None
      case Some(d) => Some(AverageDiameter(d));
    if |s.approaches| == 0 then
      RiskAnalysis(rs.score, rs.level, Factors(s.hazardous, None, diameter, None, None))
    else
      var c := s.approaches[ClosestIndex(s.approaches)];
      RiskAnalysis(rs.score, rs.level,
        Factors(s.hazardous, Some(c.missDistanceAU), diameter, Some(c.velocityKmS), c.date))
  }

  /** All other fields equal, the hazard flag is worth exactly 40 points. */
  lemma HazardAddsForty(s: Snapshot)
    ensures CalculateRiskScore(s.(hazardous := true)).score == CalculateRiskScore(s.(hazardous := false)).score + 40
  {
  }

  /** Without close-approach records only the hazard flag and the diameter score. */
  lemma NoApproachesScoresOnlyHazardAndDiameter(s: Snapshot)
    requires |s.approaches| == 0
    ensures CalculateRiskScore(s).score == HazardPoints(s.hazardous) + DiameterContribution(s)
    ensures GetDetailedRiskAnalysis(s).factors.missDistance.None?
    ensures GetDetailedRiskAnalysis(s).factors.velocity.None?
  {
  }

  /** Without a metre diameter the score is hazard plus distance plus velocity. */
  lemma NoDiameterScoresNothingForSize(s: Snapshot)
    requires s.diameterMeters.None?
    ensures CalculateRiskScore(s).score == HazardPoints(s.hazardous) + DistanceContribution(s) + VelocityContribution(s)
    ensures GetDetailedRiskAnalysis(s).factors.diameter.None?
  {
  }

  /** The closest record depends only on the miss distances of the records. */
  lemma {:induction false} ClosestIndexReadsOnlyDistances(a: seq<Approach>, b: seq<Approach>)
    requires |a| == |b| > 0
    requires forall i :: 0 <= i < |a| ==> a[i].missDistanceAU == b[i].missDistanceAU
    ensures ClosestIndex(a) == ClosestIndex(b)
    decreases |a|
  {
    if |a| > 1 {
      ClosestIndexReadsOnlyDistances(a[..|a| - 1], b[..|b| - 1]);
    }
  }

  /**
   * The velocity points come from the first record only: two snapshots that
   * agree on everything except the velocities of later records score alike.
   */
  lemma VelocityReadsOnlyFirstRecord(s: Snapshot, t: Snapshot)
    requires s.hazardous == t.hazardous && s.diameterMeters == t.diameterMeters
    requires |s.approaches| == |t.approaches| > 0
    requires forall i :: 0 <= i < |s.approaches| ==> s.approaches[i].missDistanceAU == t.approaches[i].missDistanceAU
    requires s.approaches[0].velocityKmS == t.approaches[0].velocityKmS
    ensures CalculateRiskScore(s) == CalculateRiskScore(t)
  {
    ClosestIndexReadsOnlyDistances(s.approaches, t.approaches);
  }

  /**
   * The score reads velocity from the first record while the reported
   * factor reads it from the closest one: here 35 km/s scores 10 points
   * while the breakdown reports 5 km/s.
   */
  lemma VelocityFactorDiffersFromScoredVelocity()
    ensures var s := Snapshot("2000433", "433 Eros", false, None,
      [Approach(0.3, 35.0, Some("2025-Jan-01")), Approach(0.01, 5.0, Some("2025-Feb-01"))]);
      && VelocityContribution(s) == 10
      && GetDetailedRiskAnalysis(s).factors.velocity == Some(5.0)
      && GetDetailedRiskAnalysis(s).factors.missDistance == Some(0.01)
  {
    var s := Snapshot("2000433", "433 Eros", false, None,
      [Approach(0.3, 35.0, Some("2025-Jan-01")), Approach(0.01, 5.0, Some("2025-Feb-01"))]);
    assert ClosestIndex(s.approaches[..1]) == 0;
    assert ClosestIndex(s.approaches) == 1;
  }

  /** Distance tiers include their bounds; diameter and velocity tiers exclude theirs. */
  lemma TierBoundaries()
    ensures DistancePoints(0.05) == 30 && DistancePoints(0.1) == 20 && DistancePoints(0.2) == 10
    ensures DiameterPoints(1000.0) == 15 && DiameterPoints(500.0) == 10 && DiameterPoints(100.0) == 5
    ensures VelocityPoints(30.0) == 7 && VelocityPoints(20.0) == 5 && VelocityPoints(10.0) == 3
    ensures LevelOf(75) == CRITICAL && LevelOf(74) == HIGH && LevelOf(50) == HIGH
    ensures LevelOf(49) == MEDIUM && LevelOf(25) == MEDIUM && LevelOf(24) == LOW
  {
  }

  /** Each factor's points never decrease as the object gets closer, larger or faster. */
  lemma TiersAreMonotone(a: real, b: real)
    requires a <= b
    ensures DistancePoints(a) >= DistancePoints(b)
    ensures DiameterPoints(a) <= DiameterPoints(b)
    ensures VelocityPoints(a) <= VelocityPoints(b)
  {
  }

  /** Hazardous, 0.03 AU, 1200 m, 35 km/s: 40 + 30 + 20 + 10 = 100, CRITICAL. */
  lemma ScenarioMaximalRisk()
    ensures var s := Snapshot("1", "A", true, Some(DiameterRange(1100.0, 1300.0)), [Approach(0.03, 35.0, None)]);
      CalculateRiskScore(s) == RiskScore(100, CRITICAL)
  {
    var aps := [Approach(0.03, 35.0, None)];
    assert ClosestIndex(aps) == 0;
  }

  /** Not hazardous, 0.15 AU, 80 m, 8 km/s: 0 + 10 + 5 + 3 = 18, LOW. */
  lemma ScenarioLowRisk()
    ensures var s := Snapshot("2", "B", false, Some(DiameterRange(60.0, 100.0)), [Approach(0.15, 8.0, None)]);
      CalculateRiskScore(s) == RiskScore(18, LOW)
  {
    var aps := [Approach(0.15, 8.0, None)];
    assert ClosestIndex(aps) == 0;
  }
}
