/** The monitoring query both servers send for one metric of one instance:
    the query text, the fixed namespace and resolution, and the look-back
    window ending at the current time. */
module MetricQuery {
  import opened Results

  const Namespace := "oci_computeagent"
  const Resolution := "1m"
  const SecondsPerHour := 3600

  /** Text between the metric name and the resource id. */
  const QueryInfix := "[1m]{resourceId = \""
  /** Text after the resource id. */
  const QuerySuffix := "\"}.mean()"

  /** Mean over one-minute buckets of `metric`, restricted to one resource. */
  function BuildQuery(metric: string, resourceId: string): string {
    metric + QueryInfix + resourceId + QuerySuffix
  }

  datatype QueryParts = QueryParts(metric: string, resourceId: string)

  /** Position of the first occurrence of `c` in `s`, if any. */
  function FirstIndex(s: string, c: char): (r: Option<nat>)
    ensures r.None? <==> c !in s
    ensures r.Some? ==> r.value < |s| && s[r.value] == c && c !in s[..r.value]
  {
    if |s| == 0 then None
    else if s[0] == c then Some(0)
    else match FirstIndex(s[1..], c)
      case None => None
      case Some(k) =>
        assert s[..k + 1] == [s[0]] + s[1..][..k];
        Some(k + 1)
  }

  /** The middle of `s` when it starts with `pre` and ends with `post`. */
  function Between(s: string, pre: string, post: string): Option<string> {
    if |s| >= |pre| + |post| && s[..|pre|] == pre && s[|s| - |post|..] == post
    then Some(s[|pre|..|s| - |post|])
    else None
  }

  lemma BetweenExact(s: string, pre: string, post: string, mid: string)
    ensures Between(s, pre, post) == Some(mid) <==> s == pre + mid + post
  {
    if s == pre + mid + post {
      assert s[..|pre|] == pre;
      assert s[|s| - |post|..] == post;
      assert s[|pre|..|s| - |post|] == mid;
    }
    if Between(s, pre, post) == Some(mid) {
      assert s == s[..|pre|] + s[|pre|..|s| - |post|] + s[|s| - |post|..];
    }
  }

  /** Reads a query back into its metric name and resource id: the metric is
      everything before the first '[', and the rest must be the fixed infix,
      the id and the fixed suffix. */
  function ParseQuery(q: string): Option<QueryParts> {
    match FirstIndex(q, '[')
    case None => None
    case Some(k) =>
      match Between(q[k..], QueryInfix, QuerySuffix)
      case None => None
      case Some(id) => Some(QueryParts(q[..k], id))
  }

  /** The first '[' of `prefix + tail` is at the end of `prefix` when the
      prefix has none and the tail starts with one. */
  lemma {:induction false} FirstIndexAfterPrefix(prefix: string, tail: string)
    requires '[' !in prefix
    requires |tail| > 0 && tail[0] == '['
    ensures FirstIndex(prefix + tail, '[') == Some(|prefix|)
  {
    if |prefix| > 0 {
      assert (prefix + tail)[0] == prefix[0];
      assert (prefix + tail)[1..] == prefix[1..] + tail;
      assert '[' !in prefix[1..] by {
        forall i | 0 <= i < |prefix[1..]| ensures prefix[1..][i] != '[' {
          assert prefix[1..][i] == prefix[i + 1];
        }
      }
      FirstIndexAfterPrefix(prefix[1..], tail);
    } else {
      assert prefix + tail == tail;
    }
  }

  /** Building then parsing recovers the metric name and the resource id,
      for any metric name without '['. */
  lemma ParseBuild(metric: string, resourceId: string)
    requires '[' !in metric
    ensures ParseQuery(BuildQuery(metric, resourceId)) == Some(QueryParts(metric, resourceId))
  {
    var q := BuildQuery(metric, resourceId);
    var tail := QueryInfix + resourceId + QuerySuffix;
    assert q == metric + tail;
    FirstIndexAfterPrefix(metric, tail);
    assert q[|metric|..] == tail && q[..|metric|] == metric;
    BetweenExact(tail, QueryInfix, QuerySuffix, resourceId);
  }

  /** An accepted text splits at its first '[' into the metric name and the
      fixed infix, id and suffix. */
  lemma ParsedPieces(q: string, parts: QueryParts) returns (k: nat)
    requires ParseQuery(q) == Some(parts)
    ensures k <= |q| && q[..k] == parts.metric && '[' !in parts.metric
    ensures q[k..] == QueryInfix + parts.resourceId + QuerySuffix
  {
    match FirstIndex(q, '[')
    case None =>
      assert false;
    case Some(i) =>
      k := i;
      BetweenExact(q[k..], QueryInfix, QuerySuffix, parts.resourceId);
  }

  /** Every text the parser accepts is exactly the query built from its parts. */
  lemma BuildParse(q: string, parts: QueryParts)
    requires ParseQuery(q) == Some(parts)
    ensures '[' !in parts.metric
    ensures BuildQuery(parts.metric, parts.resourceId) == q
  {
    var k := ParsedPieces(q, parts);
    var tail := QueryInfix + parts.resourceId + QuerySuffix;
    assert q == parts.metric + tail by {
      assert q == q[..k] + q[k..];
    }
    assert parts.metric + tail == BuildQuery(parts.metric, parts.resourceId);
  }

  /** A time window in seconds since 1970-01-01T00:00:00. */
  datatype TimeWindow = TimeWindow(start: int, end: int)

  /** The first and last whole second a Python datetime can hold
      (0001-01-01T00:00:00 and 9999-12-31T23:59:59). */
  const DatetimeMin := -62135596800
  const DatetimeMax := 253402300799

  /** A timedelta holds at most this many days either way. */
  const MaxDeltaDays := 999999999
  /** Day counts beyond a C int cannot even be converted. */
  const CIntMin := -2147483648
  const CIntMax := 2147483647

  const DateOutOfRange := "date value out of range"
  const IntTooLarge := "Python int too large to convert to C int"

  predicate InDatetimeRange(t: int) {
    DatetimeMin <= t <= DatetimeMax
  }

  /** The normalised day count of `timedelta(hours=hoursBack)`: the floor of hoursBack / 24. */
  function DeltaDays(hoursBack: int): int {
    hoursBack / 24
  }

  /** Decimal text of a natural number. */
  function NatText(n: nat): string {
    if n < 10 then ["0123456789"[n]] else NatText(n / 10) + ["0123456789"[n % 10]]
  }

  /** The number a string of decimal digits denotes. */
  function DigitsValue(s: string): int {
    if |s| == 0 then 0 else DigitsValue(s[..|s| - 1]) * 10 + (s[|s| - 1] as int - '0' as int)
  }

  /** The decimal text of a natural number is a non-empty run of digits,
      without a leading zero, that denotes the number. */
  lemma {:induction false} NatTextDenotes(n: nat)
    ensures |NatText(n)| > 0 && DigitsValue(NatText(n)) == n
    ensures forall i :: 0 <= i < |NatText(n)| ==> '0' <= NatText(n)[i] <= '9'
    ensures NatText(n)[0] == '0' <==> n == 0
  {
    if n < 10 {
      assert NatText(n) == ["0123456789"[n]];
    } else {
      NatTextDenotes(n / 10);
      var t := NatText(n / 10);
      var s := t + ["0123456789"[n % 10]];
      assert NatText(n) == s;
      assert s[..|s| - 1] == t;
    }
  }

  /** Decimal text of an integer, with a leading '-' when negative. */
  function IntText(i: int): string {
    if i < 0 then "-" + NatText(-i) else NatText(i)
  }

  /** The error raised when `timedelta(hours=hoursBack)` cannot be built, if it cannot. */
  function DeltaError(hoursBack: int): Option<string> {
    var days := DeltaDays(hoursBack);
    if days < CIntMin || days > CIntMax then Some(IntTooLarge)
    else if days < -MaxDeltaDays || days > MaxDeltaDays then Some(DaysTooLarge(days))
    else None
  }

  /** Text of the OverflowError for a day count beyond a timedelta's range. */
  function DaysTooLarge(days: int): string {
    "days=" + IntText(days) + "; must have magnitude <= 999999999"
  }

  /** The window ending at `now` and reaching `hoursBack` hours into the past.
      `now` is the clock reading truncated to whole seconds, so the start is
      representable exactly when its truncation is. The look-back fails, with
      Python's OverflowError text, when the timedelta cannot be built or when
      the start falls outside the datetime range. */
  function LookBack(now: int, hoursBack: int): (r: Result<TimeWindow>)
    ensures r.Ok? <==> DeltaError(hoursBack).None? && InDatetimeRange(now - hoursBack * SecondsPerHour)
    ensures r.Ok? ==> r.value.end == now && r.value.end - r.value.start == hoursBack * SecondsPerHour
    ensures DeltaError(hoursBack).Some? ==> r == Err(DeltaError(hoursBack).value)
    ensures DeltaError(hoursBack).None? && r.Err? ==> r.msg == DateOutOfRange
  {
    match DeltaError(hoursBack)
    case Some(m) => Err(m)
    case None =>
      var start := now - hoursBack * SecondsPerHour;
      if InDatetimeRange(start) then Ok(TimeWindow(start, now)) else Err(DateOutOfRange)
  }

  /** Every look-back the dashboard's slider offers (1 to 24 hours) succeeds
      once the clock is at least a day past the earliest datetime. */
  lemma DashboardLookBackSucceeds(now: int, hoursBack: int)
    requires 1 <= hoursBack <= 24
    requires DatetimeMin + 24 * SecondsPerHour <= now <= DatetimeMax
    ensures LookBack(now, hoursBack).Ok?
  {
    assert DeltaDays(hoursBack) <= 1;
  }

  /** At 2026-10-10T00:00:00, a billion hours back is before year 1. */
  lemma BillionHoursBackFails()
    ensures LookBack(1791590400, 1000000000) == Err(DateOutOfRange)
  {
    assert DeltaDays(1000000000) == 41666666;
    assert DeltaError(1000000000) == None;
  }

  /** Thirty billion hours is 1250000000 days, past what a timedelta holds. */
  lemma ThirtyBillionHoursFails()
    ensures LookBack(1791590400, 30000000000) == Err(DaysTooLarge(1250000000))
  {
    assert DeltaDays(30000000000) == 1250000000;
  }

  /** Sixty billion hours is more days than a C int holds. */
  lemma SixtyBillionHoursFails()
    ensures LookBack(1791590400, 60000000000) == Err(IntTooLarge)
  {
    assert DeltaDays(60000000000) == 2500000000;
  }

  /** A negative look-back reaches forward; far enough, it passes year 9999. */
  lemma FarFutureWindowFails()
    ensures LookBack(1791590400, -100000000) == Err(DateOutOfRange)
  {
    assert DeltaDays(-100000000) == -4166667;
    assert DeltaError(-100000000) == None;
  }

  /** What is handed to the monitoring service for one metric. */
  datatype SummarizeRequest = SummarizeRequest(
    compartmentId: string,
    namespace: string,
    query: string,
    window: TimeWindow,
    resolution: string)

  /** The request for `metric` of `instanceId` over `window`, authorised against `scope`. */
  function MetricRequest(instanceId: string, metric: string, scope: string, window: TimeWindow): (req: SummarizeRequest)
    ensures req.compartmentId == scope && req.window == window
    ensures req.namespace == Namespace && req.resolution == Resolution
    ensures '[' !in metric ==> ParseQuery(req.query) == Some(QueryParts(metric, instanceId))
  {
    assert '[' !in metric ==> ParseQuery(BuildQuery(metric, instanceId)) == Some(QueryParts(metric, instanceId)) by {
      if '[' !in metric {
        ParseBuild(metric, instanceId);
      }
    }
    SummarizeRequest(scope, Namespace, BuildQuery(metric, instanceId), window, Resolution)
  }
}
