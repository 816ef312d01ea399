/** One metric fetch: the monitoring response (several series, each with
    aggregated points) is flattened into one datapoint list, and the unit and
    resolution of the answer are taken from the series. */
module MetricFetch {
  import opened Results
  import opened Resources
  import opened MetricQuery

  /** A sample: time in seconds and the aggregated value. */
  datatype Datapoint = Datapoint(timestamp: int, value: real)

  /** One series of the monitoring response. An unset point list is the empty list. */
  datatype RawSeries = RawSeries(points: seq<Datapoint>, unit: Option<string>, resolution: Option<string>)

  /** The unit and resolution attached to an answer. */
  datatype SeriesMeta = SeriesMeta(unit: Option<string>, resolution: Option<string>)

  /** The monitoring service: answers a request with series, or raises. */
  type Summarize = SummarizeRequest -> Result<seq<RawSeries>>

  /** The answer for one metric. `compartmentId` is absent in the tenancy-wide
      server's answer; `meta` is absent when the response held no series. */
  datatype MetricData = MetricData(
    instanceId: string,
    metricName: string,
    namespace: string,
    compartmentId: Option<string>,
    window: TimeWindow,
    datapoints: seq<Datapoint>,
    meta: Option<SeriesMeta>)

  /** All points of all series, series after series, each in response order. */
  function Flatten(series: seq<RawSeries>): seq<Datapoint> {
    if |series| == 0 then [] else series[0].points + Flatten(series[1..])
  }

  /** The sum of the per-series point counts. */
  function TotalPoints(series: seq<RawSeries>): nat {
    if |series| == 0 then 0 else |series[0].points| + TotalPoints(series[1..])
  }

  /** Metadata of the last series, none when there is no series. */
  function LastMeta(series: seq<RawSeries>): Option<SeriesMeta> {
    if |series| == 0 then None
    else Some(SeriesMeta(series[|series| - 1].unit, series[|series| - 1].resolution))
  }

  /** Flattening neither drops nor invents points. */
  lemma {:induction false} FlattenLength(series: seq<RawSeries>)
    ensures |Flatten(series)| == TotalPoints(series)
  {
    if |series| > 0 {
      FlattenLength(series[1..]);
    }
  }

  lemma {:induction false} FlattenAppend(a: seq<RawSeries>, b: seq<RawSeries>)
    ensures Flatten(a + b) == Flatten(a) + Flatten(b)
  {
    if |a| == 0 {
      assert a + b == b;
    } else {
      assert (a + b)[0] == a[0];
      assert (a + b)[1..] == a[1..] + b;
      FlattenAppend(a[1..], b);
    }
  }

  /** Point `j` of series `i` sits in the flat list right after all the
      points of the series before it: no sorting, no deduplication. */
  lemma FlattenAt(series: seq<RawSeries>, i: nat, j: nat)
    requires i < |series| && j < |series[i].points|
    ensures TotalPoints(series[..i]) + j < |Flatten(series)|
    ensures Flatten(series)[TotalPoints(series[..i]) + j] == series[i].points[j]
  {
    assert series == series[..i] + series[i..];
    FlattenAppend(series[..i], series[i..]);
    FlattenLength(series[..i]);
    assert series[i..][0] == series[i];
  }

  /** The nested loop over the response: points are appended one by one and
      the metadata is overwritten on every pass over a series. */
  method FlattenResponse(series: seq<RawSeries>) returns (points: seq<Datapoint>, meta: Option<SeriesMeta>)
    ensures points == Flatten(series)
    ensures |points| == TotalPoints(series)
    ensures meta.None? <==> |series| == 0
    ensures meta.Some? ==>
      meta.value.unit == series[|series| - 1].unit && meta.value.resolution == series[|series| - 1].resolution
  {
    points := [];
    meta := None;
    var i := 0;
    while i < |series|
      invariant 0 <= i <= |series|
      invariant points == Flatten(series[..i])
      invariant meta == LastMeta(series[..i])
    {
      var pts := series[i].points;
      var j := 0;
      while j < |pts|
        invariant 0 <= j <= |pts|
        invariant points == Flatten(series[..i]) + pts[..j]
      {
        points := points + [pts[j]];
        j := j + 1;
      }
      assert pts[..j] == pts;
      meta := Some(SeriesMeta(series[i].unit, series[i].resolution));
      assert series[..i + 1] == series[..i] + [series[i]];
      FlattenAppend(series[..i], [series[i]]);
      assert Flatten([series[i]]) == pts + Flatten([]);
      i := i + 1;
    }
    assert series[..i] == series;
    FlattenLength(series);
  }

  /** The answer built from one successful response. */
  function Normalize(
    instanceId: string,
    metric: string,
    compartmentId: Option<string>,
    req: SummarizeRequest,
    series: seq<RawSeries>): MetricData
  {
    MetricData(instanceId, metric, Namespace, compartmentId, req.window, Flatten(series), LastMeta(series))
  }

  /** One metric of one instance, authorised against the given compartment.
      A look-back the datetime type cannot represent raises before any request
      is made; a raised monitoring call is raised again with its text. */
  function HttpMetricData(
    summarize: Summarize,
    instanceId: string,
    metric: string,
    compartmentId: string,
    hoursBack: int,
    now: int): (r: Result<MetricData>)
    ensures LookBack(now, hoursBack).Err? ==> r == Err(LookBack(now, hoursBack).msg)
    ensures LookBack(now, hoursBack).Ok? ==>
      var req := MetricRequest(instanceId, metric, compartmentId, LookBack(now, hoursBack).value);
      && (r.Err? <==> summarize(req).Err?)
      && (r.Err? ==> r.msg == summarize(req).msg)
      && (r.Ok? ==>
            && r.value.instanceId == instanceId && r.value.metricName == metric
            && r.value.namespace == Namespace
            && r.value.compartmentId == Some(compartmentId)
            && r.value.window == req.window
            && r.value.window.end == now
            && r.value.window.end - r.value.window.start == hoursBack * SecondsPerHour
            && r.value.datapoints == Flatten(summarize(req).value)
            && r.value.meta == LastMeta(summarize(req).value))
  {
    match LookBack(now, hoursBack)
    case Err(m) => Err(m)
    case Ok(window) =>
      var req := MetricRequest(instanceId, metric, compartmentId, window);
      match summarize(req)
      case Err(m) => Err(m)
      case Ok(series) => Ok(Normalize(instanceId, metric, Some(compartmentId), req, series))
  }

  /** The tenancy-wide server's fetch: always authorised against the tenancy,
      whatever compartment the instance lives in. The window is computed
      first, so an unrepresentable look-back raises before the tenancy is
      read; a configuration without a tenancy then raises before any request
      is made. */
  function ServerMetricData(
    summarize: Summarize,
    tenancy: Option<string>,
    instanceId: string,
    metric: string,
    hoursBack: int,
    now: int): (r: Result<MetricData>)
    ensures LookBack(now, hoursBack).Err? ==> r == Err(LookBack(now, hoursBack).msg)
    ensures LookBack(now, hoursBack).Ok? && tenancy.None? ==> r == Err(MissingTenancy)
    ensures LookBack(now, hoursBack).Ok? && tenancy.Some? ==>
      var req := MetricRequest(instanceId, metric, tenancy.value, LookBack(now, hoursBack).value);
      && req.compartmentId == tenancy.value
      && (r.Err? <==> summarize(req).Err?)
      && (r.Err? ==> r.msg == summarize(req).msg)
      && (r.Ok? ==>
            && r.value.instanceId == instanceId && r.value.metricName == metric
            && r.value.namespace == Namespace
            && r.value.compartmentId.None?
            && r.value.window == req.window
            && r.value.window.end == now
            && r.value.window.end - r.value.window.start == hoursBack * SecondsPerHour
            && r.value.datapoints == Flatten(summarize(req).value)
            && r.value.meta == LastMeta(summarize(req).value))
  {
    match LookBack(now, hoursBack)
    case Err(m) => Err(m)
    case Ok(window) =>
      match tenancy
      case None => Err(MissingTenancy)
      case Some(t) =>
        var req := MetricRequest(instanceId, metric, t, window);
        match summarize(req)
        case Err(m) => Err(m)
        case Ok(series) => Ok(Normalize(instanceId, metric, None, req, series))
  }

  /** An unrepresentable look-back fails every metric of both servers alike. */
  lemma BadWindowFailsEveryMetric(
    summarize: Summarize,
    tenancy: Option<string>,
    instanceId: string,
    compartmentId: string,
    hoursBack: int,
    now: int)
    requires LookBack(now, hoursBack).Err?
    ensures forall m :: HttpMetricData(summarize, instanceId, m, compartmentId, hoursBack, now) == Err(LookBack(now, hoursBack).msg)
    ensures forall m :: ServerMetricData(summarize, tenancy, instanceId, m, hoursBack, now) == Err(LookBack(now, hoursBack).msg)
  {
  }

  /** The last series of the response that has any point. */
  function LastNonEmpty(series: seq<RawSeries>): (r: Option<RawSeries>)
    ensures r.Some? ==> r.value in series && |r.value.points| > 0
  {
    if |series| == 0 then None
    else if |series[|series| - 1].points| > 0 then Some(series[|series| - 1])
    else LastNonEmpty(series[..|series| - 1])
  }

  /** The last flattened point is the last point of the last series that has
      points; the flat list is empty exactly when no series has any. */
  lemma {:induction false} FlattenLast(series: seq<RawSeries>)
    ensures |Flatten(series)| == 0 <==> LastNonEmpty(series).None?
    ensures |Flatten(series)| > 0 ==>
      var s := LastNonEmpty(series).value;
      Flatten(series)[|Flatten(series)| - 1] == s.points[|s.points| - 1]
  {
    if |series| > 0 {
      var init := series[..|series| - 1];
      var last := series[|series| - 1];
      assert series == init + [last];
      FlattenAppend(init, [last]);
      assert Flatten([last]) == last.points + Flatten([]);
      FlattenLast(init);
    }
  }
}
