/** The decision rules of the dashboard: which value of a metric is shown,
    the health bands, the RUNNING filter, the text context handed to the
    assistant and the metric catalog used for the detail view. */
module Dashboard {
  import opened Results
  import opened Resources
  import opened MetricQuery
  import opened MetricFetch
  import opened MetricApi
  import Seqs

  /** The value shown for a metric: the value of its last datapoint; absent
      for a missing key, an error entry, or an empty datapoint list. */
  function LatestValue(entry: Option<Result<MetricData>>): (v: Option<real>)
    ensures v.Some? <==> entry.Some? && entry.value.Ok? && |entry.value.value.datapoints| > 0
    ensures v.Some? ==>
      var dps := entry.value.value.datapoints;
      v.value == dps[|dps| - 1].value
  {
    match entry
    case None => None
    case Some(Err(_)) => None
    case Some(Ok(d)) =>
      if |d.datapoints| == 0 then None else Some(d.datapoints[|d.datapoints| - 1].value)
  }

  /** The shown value of an answer whose points are a flattened response. */
  lemma LatestOfFlattened(d: MetricData, series: seq<RawSeries>)
    requires d.datapoints == Flatten(series)
    ensures
      var v := LatestValue(Some(Ok(d)));
      && (v.None? <==> LastNonEmpty(series).None?)
      && (v.Some? ==> v.value == LastNonEmpty(series).value.points[|LastNonEmpty(series).value.points| - 1].value)
  {
    FlattenLast(series);
  }

  /** For a fetched metric, nothing is shown when the look-back or the
      monitoring call fails; otherwise the shown value is the last point of
      the last series of the response that has any point, and it is absent
      exactly when no series of the response has a point. */
  lemma LatestOfFetched(
    summarize: Summarize,
    instanceId: string,
    metric: string,
    compartmentId: string,
    hoursBack: int,
    now: int)
    ensures
      var v := LatestValue(Some(HttpMetricData(summarize, instanceId, metric, compartmentId, hoursBack, now)));
      LookBack(now, hoursBack).Err? ==> v.None?
    ensures LookBack(now, hoursBack).Ok? ==>
      var response := summarize(MetricRequest(instanceId, metric, compartmentId, LookBack(now, hoursBack).value));
      var v := LatestValue(Some(HttpMetricData(summarize, instanceId, metric, compartmentId, hoursBack, now)));
      && (response.Err? ==> v.None?)
      && (response.Ok? ==>
            && (v.None? <==> LastNonEmpty(response.value).None?)
            && (v.Some? ==> v.value == LastNonEmpty(response.value).value.points[|LastNonEmpty(response.value).value.points| - 1].value))
  {
    var fetched := HttpMetricData(summarize, instanceId, metric, compartmentId, hoursBack, now);
    if LookBack(now, hoursBack).Ok? {
      var response := summarize(MetricRequest(instanceId, metric, compartmentId, LookBack(now, hoursBack).value));
      if response.Ok? {
        LatestOfFlattened(fetched.value, response.value);
      }
    }
  }

  /** Health of one gauge; the order of the constructors is the order of severity. */
  datatype Health = NotAvailable | Normal | Moderate | High

  /** Values above `high` are high, else above `moderate` are moderate. */
  datatype Bands = Bands(moderate: real, high: real)

  const CpuBands := Bands(60.0, 80.0)
  const MemoryBands := Bands(70.0, 85.0)
  const LoadBands := Bands(1.0, 2.0)

  function Classify(v: Option<real>, b: Bands): Health {
    match v
    case None => NotAvailable
    case Some(x) => if x > b.high then High else if x > b.moderate then Moderate else Normal
  }

  function CpuHealth(v: Option<real>): (h: Health)
    ensures h == NotAvailable <==> v.None?
    ensures v.Some? ==> (h == High <==> v.value > 80.0)
    ensures v.Some? ==> (h == Moderate <==> 60.0 < v.value <= 80.0)
    ensures v.Some? ==> (h == Normal <==> v.value <= 60.0)
  {
    Classify(v, CpuBands)
  }

  function MemoryHealth(v: Option<real>): (h: Health)
    ensures h == NotAvailable <==> v.None?
    ensures v.Some? ==> (h == High <==> v.value > 85.0)
    ensures v.Some? ==> (h == Moderate <==> 70.0 < v.value <= 85.0)
    ensures v.Some? ==> (h == Normal <==> v.value <= 70.0)
  {
    Classify(v, MemoryBands)
  }

  function LoadHealth(v: Option<real>): (h: Health)
    ensures h == NotAvailable <==> v.None?
    ensures v.Some? ==> (h == High <==> v.value > 2.0)
    ensures v.Some? ==> (h == Moderate <==> 1.0 < v.value <= 2.0)
    ensures v.Some? ==> (h == Normal <==> v.value <= 1.0)
  {
    Classify(v, LoadBands)
  }

  function Severity(h: Health): nat {
    match h
    case NotAvailable => 0
    case Normal => 1
    case Moderate => 2
    case High => 3
  }

  /** With ordered bands, a larger value is never judged less severe. */
  lemma ClassifyMonotone(b: Bands, x: real, y: real)
    requires b.moderate <= b.high
    requires x <= y
    ensures Severity(Classify(Some(x), b)) <= Severity(Classify(Some(y), b))
  {
  }

  /** The instances whose state is RUNNING, in their original order. */
  function RunningInstances(instances: seq<Instance>): (r: seq<Instance>)
    ensures |r| <= |instances|
    ensures forall i :: i in r <==> i in instances && i.lifecycleState == Running
  {
    var r := Seqs.Filter(IsRunning, instances);
    assert forall i :: i in instances && IsRunning(i) ==> i in r by {
      forall i | i in instances && IsRunning(i) ensures i in r {
        Seqs.FilterComplete(IsRunning, instances, i);
      }
    }
    r
  }

  /** The RUNNING filter keeps relative order. */
  lemma RunningAppend(a: seq<Instance>, b: seq<Instance>)
    ensures RunningInstances(a + b) == RunningInstances(a) + RunningInstances(b)
  {
    Seqs.FilterAppend(IsRunning, a, b);
  }

  /** A list with only RUNNING instances is kept whole. */
  lemma RunningKeepsAllRunning(instances: seq<Instance>)
    requires forall i :: i in instances ==> i.lifecycleState == Running
    ensures RunningInstances(instances) == instances
  {
    Seqs.FilterKeepsAll(IsRunning, instances);
  }

  const NoDataText := "No data available"

  /** The unit text of an entry: empty when the answer has no unit key (no
      series), the text "None" when the key holds no value. */
  function UnitText(meta: Option<SeriesMeta>): string {
    match meta
    case None => ""
    case Some(m) => match m.unit
      case None => "None"
      case Some(u) => u
  }

  /** One context line per metric; `fmt` renders a value with two decimals. */
  function MetricLine(e: MetricEntry, fmt: real -> string): string {
    match LatestValue(Some(e.outcome))
    case Some(v) => e.name + ": " + fmt(v) + " " + UnitText(e.outcome.value.meta)
    case None => e.name + ": " + NoDataText
  }

  /** The context handed to the assistant: three header lines describing the
      instance, then one line per metric in map order. */
  function ContextLines(inst: Instance, entries: seq<MetricEntry>, fmt: real -> string): (r: seq<string>)
    ensures |r| == 3 + |entries|
    ensures r[0] == "Instance: " + inst.displayName
    ensures r[1] == "Shape: " + inst.shape
    ensures r[2] == "Availability Domain: " + inst.availabilityDomain
    ensures forall i :: 0 <= i < |entries| ==> r[3 + i] == MetricLine(entries[i], fmt)
  {
    ["Instance: " + inst.displayName, "Shape: " + inst.shape, "Availability Domain: " + inst.availabilityDomain]
      + Seqs.Map((e: MetricEntry) => MetricLine(e, fmt), entries)
  }

  /** On an aggregated map the context has a line for each target metric, in
      fetch order, and each line reports exactly the value the dashboard shows
      for that metric; an error entry reads as "No data available". */
  lemma ContextAgreesWithDashboard(inst: Instance, entries: seq<MetricEntry>, fmt: real -> string, i: nat)
    requires Names(entries) == TargetMetrics
    requires i < |TargetMetrics|
    ensures |ContextLines(inst, entries, fmt)| == 3 + |TargetMetrics|
    ensures
      var line := ContextLines(inst, entries, fmt)[3 + i];
      var found := Lookup(entries, TargetMetrics[i]);
      var v := LatestValue(found);
      && (v.None? ==> line == TargetMetrics[i] + ": " + NoDataText)
      && (v.Some? ==> line == TargetMetrics[i] + ": " + fmt(v.value) + " " + UnitText(found.value.value.meta))
    ensures entries[i].outcome.Err? ==> ContextLines(inst, entries, fmt)[3 + i] == TargetMetrics[i] + ": " + NoDataText
  {
    AggregatedLookup(entries, TargetMetrics[i]);
    assert entries[i].name == TargetMetrics[i];
  }

  /** The detail-view catalog used when the backend gives none. */
  const FallbackMetrics: seq<string> := ["CpuUtilization", "MemoryUtilization", "LoadAverage", "DiskIopsRead", "DiskIopsWritten"]

  /** The backend catalog when it is present and non-empty, else the fallback. */
  function MetricCatalog(backend: Option<seq<string>>): (r: seq<string>)
    ensures |r| > 0
    ensures backend.Some? && |backend.value| > 0 ==> r == backend.value
    ensures backend.None? || backend.value == [] ==> r == FallbackMetrics
  {
    if backend.Some? && |backend.value| > 0 then backend.value else FallbackMetrics
  }

  /** The fallback names the same five metrics the servers fetch, in a different order. */
  lemma FallbackNamesTargets()
    ensures multiset(FallbackMetrics) == multiset(TargetMetrics)
    ensures FallbackMetrics != TargetMetrics
  {
    assert FallbackMetrics[1] != TargetMetrics[1];
  }
}
