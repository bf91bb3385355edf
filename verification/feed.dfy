/**
 * The asteroid read handlers: each object the provider returns is passed
 * through unchanged with its risk analysis attached, and the enclosing
 * response (date buckets, page information) keeps its shape.
 */
module Feed {
  import opened Wrappers
  import opened Models
  import Risk

  /** A provider object with the `risk_analysis` field added beside its own fields. */
  datatype AnnotatedNeo = AnnotatedNeo(neo: Risk.Snapshot, riskAnalysis: Risk.RiskAnalysis)

  /** A feed response: the element count and the objects bucketed by date. */
  datatype FeedData<T> = FeedData(elementCount: int, buckets: map<string, seq<T>>)

  /** The provider's paging information, passed through untouched. */
  datatype PageInfo = PageInfo(size: int, totalElements: int, totalPages: int, number: int)

  /** A browse response: page information and one page of objects. */
  datatype BrowseData<T> = BrowseData(page: PageInfo, objects: seq<T>)

  /** The provider's feed call for a start and end date. */
  type FeedGateway = (string, string) -> Result<FeedData<Risk.Snapshot>, GatewayError>

  /** The provider's browse call for a page number and size. */
  type BrowseGateway = (int, int) -> Result<BrowseData<Risk.Snapshot>, GatewayError>

  /** The page a browse asks for when the query names none. */
  const DefaultPage: int := 0

  /** The page size a browse asks for when the query names none. */
  const DefaultSize: int := 20

  function Annotate(neo: Risk.Snapshot): AnnotatedNeo
  {
    AnnotatedNeo(neo, Risk.GetDetailedRiskAnalysis(neo))
  }

  /** The provider object an annotated one was built from. */
  function Strip(a: AnnotatedNeo): Risk.Snapshot
  {
    a.neo
  }

  /** An annotated object carries the detailed analysis of its own data. */
  predicate Consistent(a: AnnotatedNeo)
  {
    a.riskAnalysis == Risk.GetDetailedRiskAnalysis(a.neo)
  }

  /** The attached analysis reports the object's risk score and level and its own hazard flag. */
  lemma ConsistentReportsRiskScore(a: AnnotatedNeo)
    requires Consistent(a)
    ensures a.riskAnalysis.score == Risk.CalculateRiskScore(a.neo).score
    ensures a.riskAnalysis.level == Risk.CalculateRiskScore(a.neo).level
    ensures a.riskAnalysis.factors.isHazardous == a.neo.hazardous
  {
  }

  /** The `map` over one list: same length, same order, every object annotated. */
  function AnnotateAll(s: seq<Risk.Snapshot>): (r: seq<AnnotatedNeo>)
    ensures |r| == |s|
    ensures forall i :: 0 <= i < |s| ==> Strip(r[i]) == s[i] && Consistent(r[i])
  {
    seq(|s|, i requires 0 <= i < |s| => Annotate(s[i]))
  }

  function StripAll(s: seq<AnnotatedNeo>): (r: seq<Risk.Snapshot>)
    ensures |r| == |s|
    ensures forall i :: 0 <= i < |s| ==> r[i] == Strip(s[i])
  {
    seq(|s|, i requires 0 <= i < |s| => Strip(s[i]))
  }

  /** Removing the added field gives back exactly the provider's list. */
  lemma StripAnnotateAll(s: seq<Risk.Snapshot>)
    ensures StripAll(AnnotateAll(s)) == s
  {
  }

  /** The loop over date buckets: the same dates, each bucket annotated in place. */
  function AnnotateBuckets(m: map<string, seq<Risk.Snapshot>>): (r: map<string, seq<AnnotatedNeo>>)
    ensures r.Keys == m.Keys
    ensures forall date :: date in m ==> |r[date]| == |m[date]| && StripAll(r[date]) == m[date]
  {
    map date | date in m :: AnnotateAll(m[date])
  }

  function AnnotateFeed(f: FeedData<Risk.Snapshot>): (r: FeedData<AnnotatedNeo>)
    ensures r.elementCount == f.elementCount
    ensures r.buckets.Keys == f.buckets.Keys
    ensures forall date :: date in f.buckets ==> |r.buckets[date]| == |f.buckets[date]|
    ensures forall date, i :: date in f.buckets && 0 <= i < |f.buckets[date]| ==>
      Strip(r.buckets[date][i]) == f.buckets[date][i] && Consistent(r.buckets[date][i])
  {
    FeedData(f.elementCount, AnnotateBuckets(f.buckets))
  }

  function StripFeed(f: FeedData<AnnotatedNeo>): FeedData<Risk.Snapshot>
  {
    FeedData(f.elementCount, map date | date in f.buckets :: StripAll(f.buckets[date]))
  }

  /** Removing the added field from every bucket gives back exactly the provider's feed. */
  lemma StripAnnotateFeed(f: FeedData<Risk.Snapshot>)
    ensures StripFeed(AnnotateFeed(f)) == f
  {
    var r := StripFeed(AnnotateFeed(f));
    assert r.buckets.Keys == f.buckets.Keys;
    forall date | date in f.buckets ensures r.buckets[date] == f.buckets[date] {
      StripAnnotateAll(f.buckets[date]);
    }
  }

  /** A date query parameter: an absent or empty one (both falsy) means today. */
  function DateOrToday(q: Option<string>, today: string): (d: string)
    ensures q.Some? && q.value != "" ==> d == q.value
    ensures q.None? || q.value == "" ==> d == today
  {
    if q.Some? && q.value != "" then q.value else today
  }

  /** A numeric query parameter with its default; present values arrive already parsed. */
  function IntOr(q: Option<int>, default: int): (n: int)
    ensures q.Some? ==> n == q.value
    ensures q.None? ==> n == default
  {
    if q.Some? then q.value else default
  }

  /**
   * `getAsteroidFeed`: the provider is asked for the given dates, today
   * standing in for a missing one; its failure is a 500, otherwise its
   * answer comes back with every object annotated.
   */
  function GetAsteroidFeed(startDate: Option<string>, endDate: Option<string>, today: string, gateway: FeedGateway)
    : (r: Result<FeedData<AnnotatedNeo>, ApiError>)
    ensures var answer := gateway(DateOrToday(startDate, today), DateOrToday(endDate, today));
      && (r.Ok? <==> answer.Ok?)
      && (r.Ok? ==> StripFeed(r.value) == answer.value)
      && (r.Err? ==> r.error == ServerError)
    ensures r.Ok? ==> forall date, i :: date in r.value.buckets && 0 <= i < |r.value.buckets[date]| ==>
      Consistent(r.value.buckets[date][i])
  {
    match gateway(DateOrToday(startDate, today), DateOrToday(endDate, today))
    case Err(_) => Err(ServerError)
    case Ok(f) =>
      StripAnnotateFeed(f);
      Ok(AnnotateFeed(f))
  }

  /** `getAsteroidById`: the object with its analysis, or a 500 when the lookup fails. */
  function GetAsteroidById(id: string, lookup: Lookup): (r: Result<AnnotatedNeo, ApiError>)
    ensures r.Ok? <==> lookup(id).Ok?
    ensures r.Ok? ==> Strip(r.value) == lookup(id).value && Consistent(r.value)
    ensures r.Err? ==> r.error == ServerError
  {
    match lookup(id)
    case Err(_) => Err(ServerError)
    case Ok(neo) => Ok(Annotate(neo))
  }

  /**
   * `browseAsteroids`: the provider is asked for the page and size given,
   * 0 and 20 when absent; the page information passes through and every
   * object on the page is annotated.
   */
  function BrowseAsteroids(page: Option<int>, size: Option<int>, gateway: BrowseGateway)
    : (r: Result<BrowseData<AnnotatedNeo>, ApiError>)
    ensures var answer := gateway(IntOr(page, DefaultPage), IntOr(size, DefaultSize));
      && (r.Ok? <==> answer.Ok?)
      && (r.Ok? ==> r.value.page == answer.value.page && StripAll(r.value.objects) == answer.value.objects)
      && (r.Err? ==> r.error == ServerError)
    ensures r.Ok? ==> forall i :: 0 <= i < |r.value.objects| ==> Consistent(r.value.objects[i])
  {
    match gateway(IntOr(page, DefaultPage), IntOr(size, DefaultSize))
    case Err(_) => Err(ServerError)
    case Ok(b) =>
      StripAnnotateAll(b.objects);
      Ok(BrowseData(b.page, AnnotateAll(b.objects)))
  }

  /** A browse without parameters asks the provider for the first page of twenty. */
  lemma BrowseDefaults(gateway: BrowseGateway)
    ensures BrowseAsteroids(None, None, gateway).Ok? <==> gateway(0, 20).Ok?
    ensures BrowseAsteroids(None, None, gateway).Ok? ==>
      StripAll(BrowseAsteroids(None, None, gateway).value.objects) == gateway(0, 20).value.objects
  {
  }

  /** A feed without dates asks the provider for today alone. */
  lemma FeedDefaultsToToday(today: string, gateway: FeedGateway)
    ensures GetAsteroidFeed(None, None, today, gateway).Ok? <==> gateway(today, today).Ok?
    ensures GetAsteroidFeed(Some(""), None, today, gateway) == GetAsteroidFeed(None, None, today, gateway)
  {
  }
}
