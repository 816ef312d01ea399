/** The multi-metric view of both servers: the fixed target metrics, the
    aggregation that fetches each of them with per-metric failure isolation,
    and the single-metric endpoint's name check. */
module MetricApi {
  import opened Results
  import opened MetricQuery
  import opened MetricFetch
  import Seqs

  /** The metrics both servers fetch, in fetch order. */
  const TargetMetrics: seq<string> := ["CpuUtilization", "DiskIopsRead", "DiskIopsWritten", "LoadAverage", "MemoryUtilization"]

  /** One key of the aggregated map: the series, or the error text of its fetch. */
  datatype MetricEntry = MetricEntry(name: string, outcome: Result<MetricData>)

  /** The aggregated answer; `metrics` is the insertion-ordered map.
      `compartmentId` is absent in the tenancy-wide server's answer. */
  datatype AllMetrics = AllMetrics(
    instanceId: string,
    compartmentId: Option<string>,
    metrics: seq<MetricEntry>,
    timestamp: int)

  function Names(entries: seq<MetricEntry>): seq<string> {
    Seqs.Map((e: MetricEntry) => e.name, entries)
  }

  /** Entries whose names agree position by position with `names` have exactly those keys. */
  lemma NamesAre(entries: seq<MetricEntry>, names: seq<string>)
    requires |entries| == |names|
    requires forall k :: 0 <= k < |entries| ==> entries[k].name == names[k]
    ensures Names(entries) == names
  {
  }

  predicate DistinctNames(entries: seq<MetricEntry>) {
    forall i, j :: 0 <= i < j < |entries| ==> entries[i].name != entries[j].name
  }

  /** Key lookup in the ordered map (`dict.get`). */
  function Lookup(entries: seq<MetricEntry>, name: string): Option<Result<MetricData>> {
    if |entries| == 0 then None
    else if entries[0].name == name then Some(entries[0].outcome)
    else Lookup(entries[1..], name)
  }

  /** With distinct keys, looking up the key at position `i` finds the entry at `i`. */
  lemma {:induction false} LookupAt(entries: seq<MetricEntry>, i: nat)
    requires DistinctNames(entries)
    requires i < |entries|
    ensures Lookup(entries, entries[i].name) == Some(entries[i].outcome)
  {
    if i > 0 {
      assert entries[0].name != entries[i].name;
      assert entries[1..][i - 1] == entries[i];
      LookupAt(entries[1..], i - 1);
    }
  }

  /** A name that is not a key is not found. */
  lemma {:induction false} LookupMissing(entries: seq<MetricEntry>, name: string)
    requires name !in Names(entries)
    ensures Lookup(entries, name) == None
  {
    if |entries| > 0 {
      assert Names(entries[1..]) == Names(entries)[1..];
      LookupMissing(entries[1..], name);
    }
  }

  /** The target names are pairwise different, so the aggregated map has exactly one key per target. */
  lemma TargetMetricsDistinct(entries: seq<MetricEntry>)
    requires Names(entries) == TargetMetrics
    ensures DistinctNames(entries)
  {
    forall i, j | 0 <= i < j < |entries| ensures entries[i].name != entries[j].name {
      assert entries[i].name == TargetMetrics[i] && entries[j].name == TargetMetrics[j];
    }
  }

  /** In an aggregated map every target metric is found with its own entry,
      and nothing else is found. */
  lemma AggregatedLookup(entries: seq<MetricEntry>, name: string)
    requires Names(entries) == TargetMetrics
    ensures name in TargetMetrics <==> Lookup(entries, name).Some?
    ensures forall i :: 0 <= i < |entries| ==> Lookup(entries, TargetMetrics[i]) == Some(entries[i].outcome)
  {
    TargetMetricsDistinct(entries);
    forall i | 0 <= i < |entries| ensures Lookup(entries, TargetMetrics[i]) == Some(entries[i].outcome) {
      LookupAt(entries, i);
    }
    if name !in TargetMetrics {
      LookupMissing(entries, name);
    } else {
      var i :| 0 <= i < |TargetMetrics| && TargetMetrics[i] == name;
    }
  }

  /** Every metric is fetched in turn; a fetch that raises is recorded under
      its own key as an error and the remaining metrics are still fetched. */
  method FetchAll(fetch: string -> Result<MetricData>, metrics: seq<string>) returns (entries: seq<MetricEntry>)
    ensures Names(entries) == metrics
    ensures |entries| == |metrics|
    ensures forall i :: 0 <= i < |entries| ==> entries[i].outcome == fetch(metrics[i])
  {
    entries := [];
    for i := 0 to |metrics|
      invariant |entries| == i
      invariant forall k :: 0 <= k < i ==> entries[k] == MetricEntry(metrics[k], fetch(metrics[k]))
    {
      entries := entries + [MetricEntry(metrics[i], fetch(metrics[i]))];
    }
    NamesAre(entries, metrics);
  }

  /** The per-compartment aggregation: the target metrics, each fetched
      against the given compartment. */
  method HttpAllMetrics(
    summarize: Summarize,
    instanceId: string,
    compartmentId: string,
    hoursBack: int,
    now: int,
    stamp: int) returns (r: AllMetrics)
    ensures r.instanceId == instanceId && r.compartmentId == Some(compartmentId) && r.timestamp == stamp
    ensures Names(r.metrics) == TargetMetrics
    ensures forall i :: 0 <= i < |r.metrics| ==>
      r.metrics[i].outcome == HttpMetricData(summarize, instanceId, TargetMetrics[i], compartmentId, hoursBack, now)
    ensures LookBack(now, hoursBack).Err? ==>
      forall i :: 0 <= i < |r.metrics| ==> r.metrics[i].outcome == Err(LookBack(now, hoursBack).msg)
  {
    var entries := FetchAll(m => HttpMetricData(summarize, instanceId, m, compartmentId, hoursBack, now), TargetMetrics);
    r := AllMetrics(instanceId, Some(compartmentId), entries, stamp);
    if LookBack(now, hoursBack).Err? {
      BadWindowFailsEveryMetric(summarize, None, instanceId, compartmentId, hoursBack, now);
    }
  }

  /** The tenancy-wide variant: same isolation, every fetch scoped to the tenancy. */
  method ServerAllMetrics(
    summarize: Summarize,
    tenancy: Option<string>,
    instanceId: string,
    hoursBack: int,
    now: int,
    stamp: int) returns (r: AllMetrics)
    ensures r.instanceId == instanceId && r.compartmentId.None? && r.timestamp == stamp
    ensures Names(r.metrics) == TargetMetrics
    ensures forall i :: 0 <= i < |r.metrics| ==>
      r.metrics[i].outcome == ServerMetricData(summarize, tenancy, instanceId, TargetMetrics[i], hoursBack, now)
    ensures LookBack(now, hoursBack).Err? ==>
      forall i :: 0 <= i < |r.metrics| ==> r.metrics[i].outcome == Err(LookBack(now, hoursBack).msg)
  {
    var entries := FetchAll(m => ServerMetricData(summarize, tenancy, instanceId, m, hoursBack, now), TargetMetrics);
    r := AllMetrics(instanceId, None, entries, stamp);
    if LookBack(now, hoursBack).Err? {
      BadWindowFailsEveryMetric(summarize, tenancy, instanceId, "", hoursBack, now);
    }
  }

  /** An HTTP answer: a body, or a status with its detail text. */
  datatype Response = Body(data: MetricData) | Failure(status: int, detail: string)

  const InvalidMetricDetail := "Invalid metric name. Available: ['CpuUtilization', 'DiskIopsRead', 'DiskIopsWritten', 'LoadAverage', 'MemoryUtilization']"

  /** The single-metric endpoint as written: the 400 raised for an unknown
      name is caught by the handler's own catch-all and re-raised as a 500
      whose detail is the rendered 400 ("400: " followed by its detail). */
  function GetInstanceMetricAsWritten(
    summarize: Summarize,
    instanceId: string,
    metric: string,
    compartmentId: string,
    hoursBack: int,
    now: int): (r: Response)
    ensures metric !in TargetMetrics ==> r == Failure(500, "400: " + InvalidMetricDetail)
    ensures metric in TargetMetrics ==>
      var fetched := HttpMetricData(summarize, instanceId, metric, compartmentId, hoursBack, now);
      && (r.Body? <==> fetched.Ok?)
      && (r.Body? ==> r.data == fetched.value)
      && (r.Failure? ==> r == Failure(500, fetched.msg))
  {
    if metric !in TargetMetrics then Failure(500, "400: " + InvalidMetricDetail)
    else match HttpMetricData(summarize, instanceId, metric, compartmentId, hoursBack, now)
      case Ok(d) => Body(d)
      case Err(m) => Failure(500, m)
  }

  /** The endpoint as evidently intended: an unknown name is a client error,
      answered before any fetch; a failed fetch is a server error. */
  function GetInstanceMetric(
    summarize: Summarize,
    instanceId: string,
    metric: string,
    compartmentId: string,
    hoursBack: int,
    now: int): (r: Response)
    ensures r.Failure? && r.status == 400 <==> metric !in TargetMetrics
    ensures metric !in TargetMetrics ==> r.detail == InvalidMetricDetail
    ensures metric in TargetMetrics ==>
      var fetched := HttpMetricData(summarize, instanceId, metric, compartmentId, hoursBack, now);
      && (r.Body? <==> fetched.Ok?)
      && (r.Body? ==> r.data == fetched.value)
      && (r.Failure? ==> r == Failure(500, fetched.msg))
  {
    if metric !in TargetMetrics then Failure(400, InvalidMetricDetail)
    else match HttpMetricData(summarize, instanceId, metric, compartmentId, hoursBack, now)
      case Ok(d) => Body(d)
      case Err(m) => Failure(500, m)
  }

  /** A request for a metric outside the target list ("DiskBytesRead") is
      answered 500 as written, where a client error (400) is intended. */
  lemma UnknownMetricAnswered500(summarize: Summarize)
    ensures GetInstanceMetricAsWritten(summarize, "i", "DiskBytesRead", "c", 1, 0).status == 500
    ensures GetInstanceMetric(summarize, "i", "DiskBytesRead", "c", 1, 0).status == 400
  {
    assert "DiskBytesRead" !in TargetMetrics;
  }
}
