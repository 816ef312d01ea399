# OCI compute-metrics service: verified model of the core

This project models the pure logic underneath an Oracle Cloud Infrastructure
compute-metrics monitor. The monitor has two FastAPI back ends and a Streamlit
dashboard:

- `http_server.py` is the per-compartment server.
- `server.py` is the tenancy-wide server.
- `app.py` is the dashboard.

The cloud SDK calls become explicit inputs. Each is a function from its
request to `Ok(data)` or `Err(text)`, where `Err` stands for a raised
exception and carries its text. Every operation is then a pure function over
sequences.

Modules:

- `Results`: `Option` and `Result`.
- `Seqs`: order-preserving filter and projection, with their lemmas.
- `Resources`: the SDK's compartment and instance records, and the ACTIVE filter.
- `HttpDirectory`: compartment assembly and instance listing of `http_server.py`.
- `ServerDirectory`: compartment assembly and multi-compartment instance fan-out of `server.py`.
- `MetricQuery`: query text with a parser as its inverse, fixed namespace and resolution, look-back window, request record.
- `MetricFetch`: flattening of the monitoring response and the per-metric fetch of both servers.
- `MetricApi`: target metric list, aggregation with per-metric failure isolation, single-metric endpoint's name check.
- `Dashboard`: the rules inside the dashboard's `main` (latest value, health bands, RUNNING filter, assistant context, fallback catalog).

Modelling choices:

- Time is an integer number of seconds. The current time is a parameter.
- The configuration's tenancy is an `Option<string>`. A missing entry behaves like Python's `KeyError('tenancy')`, whose text is `'tenancy'`. In the running program this branch is unreachable. Client setup already reads `config['tenancy']` (http_server.py:69 and :84, server.py:56) and re-raises any failure (http_server.py:94, server.py:62), so no service object exists without a tenancy. The instance-principal configuration always has the key (http_server.py:76). The `None` case models what each method would do on its own, such as the `return []` path of `get_all_compartments`.
- An optional id counts as "not given" when absent or empty, as Python truthiness does.
- The monitoring service receives the whole request record. The contracts can therefore say which namespace, query, window and compartment scope were sent.

Behaviour of the code that the model keeps:

- The flattened datapoints are the concatenation of the series in response order. They are neither sorted nor deduplicated.
- `unit` and `resolution` come from the last series, not the first.
- The per-compartment server names its root entry `root (tenancy)` and adds it only when the parent is the tenancy.
- The tenancy-wide server never raises from compartment listing.
- There is no counter-to-rate conversion in the code. Disk IOPS are shown raw, so no rate deriver is modelled.

## Model

| member | source | states |
|---|---|---|
| HttpDirectory.GetCompartments | http_server.py:96-141 | Fails with the KeyError text exactly when the configuration has no tenancy. The effective parent is the tenancy when no parent is given. The root entry (tenancy id, "root (tenancy)", ACTIVE) leads exactly when the effective parent is the tenancy. If the sub-listing raises, only that root part remains (empty for another parent). Otherwise the rest is the ACTIVE entries of the listing |
| HttpDirectory.RootIffParentIsTenancy | http_server.py:99-113 | If the subtree listing does not report the tenancy itself, the answer starts with the root entry if and only if the effective parent equals the tenancy |
| HttpDirectory.ActiveEntries | http_server.py:124-131 | Every produced entry is ACTIVE with a non-empty description (an unset or empty description becomes "No description"). There is at most one entry per listed compartment |
| HttpDirectory.ActiveEntriesExact | http_server.py:124-131 | An entry appears exactly when it is the projection of a listed compartment whose state is ACTIVE |
| HttpDirectory.ActiveEntriesAppend | http_server.py:124-131 | Entries follow the listing order: the entries of a concatenated listing are the concatenation of the entries |
| HttpDirectory.GetComputeInstances | http_server.py:149-174 | One record per listed instance, in listing order, with no lifecycle filtering. A raised listing error is raised again with its text |
| Resources.ActiveOnlyExact | server.py:90-91 | A listed compartment survives the lifecycle check exactly when its state is ACTIVE |
| Resources.ActiveOnlyAppend | server.py:90-91 | The lifecycle check keeps the listing order |
| ServerDirectory.GetAllCompartments | server.py:64-106 | The answer is empty exactly when no id is given and the tenancy cannot be read. Otherwise the root entry ("root") with the effective id comes first, whether or not that id is the tenancy. A failed sub-listing leaves only the root. A successful one appends the ACTIVE compartments in listing order |
| ServerDirectory.ActiveServerEntriesExact | server.py:90-96 | A non-root entry appears exactly when it is the projection of a listed ACTIVE compartment |
| ServerDirectory.ActiveServerEntriesAppend | server.py:90-96 | Non-root entries follow the listing order |
| ServerDirectory.TagAll | server.py:128-152 | A compartment whose listing raises contributes no record. Otherwise there is one record per listed instance, in order, each tagged with the compartment's name |
| ServerDirectory.CollectAppend | server.py:120-147 | The fan-out is a union in compartment order: collecting over a concatenation concatenates the results |
| ServerDirectory.SkipsFailedCompartment | server.py:150-152 | A compartment whose listing raises contributes nothing, and the compartments before and after it are still collected |
| ServerDirectory.CollectExact | server.py:120-147 | A record is collected exactly when its instance was listed for one of the compartments and it carries that compartment's name |
| ServerDirectory.GetComputeInstances | server.py:108-159 | With an id, only that compartment is listed and every record is tagged "specified". Without one, the result is the fan-out over the compartments of the tenancy-wide assembly: each compartment's listed instances once each, in listing order, tagged with its name, compartment after compartment in assembly order (with `CollectAppend` and `SkipsFailedCompartment`). A record is present exactly when its instance was listed for one of those compartments |
| MetricQuery.ParseBuild | http_server.py:190 | Parsing the built query text recovers the metric name and the resource id, for every metric name without '[' |
| MetricQuery.ParsedPieces | http_server.py:190 | An accepted query text splits at its first '[' into a metric name without '[' and the fixed infix, resource id and fixed suffix |
| MetricQuery.BuildParse | server.py:170 | Every text the parser accepts is exactly the query built from the parsed metric name and resource id |
| MetricQuery.LookBack | http_server.py:183-184 | The window ends at the current time and spans exactly hours_back hours (3600 seconds each), with its start inside Python's datetime range (years 1 to 9999). It fails exactly when the timedelta cannot be built or the start leaves that range. The failure carries the OverflowError text: "Python int too large to convert to C int", "days=<d>; must have magnitude <= 999999999" or "date value out of range" |
| MetricQuery.DashboardLookBackSucceeds | http_server.py:183-184 | Every look-back the dashboard offers (1 to 24 hours) succeeds at any time at least a day after the earliest datetime |
| MetricQuery.BillionHoursBackFails | http_server.py:183-184 | At 2026-10-10, a look-back of a billion hours fails with "date value out of range" |
| MetricQuery.ThirtyBillionHoursFails | http_server.py:183-184 | Thirty billion hours is 1250000000 days, which fails with the timedelta's days-magnitude message |
| MetricQuery.SixtyBillionHoursFails | http_server.py:183-184 | Sixty billion hours is more days than a C int, which fails with the C int conversion message |
| MetricQuery.FarFutureWindowFails | server.py:164-165 | A negative look-back of a hundred million hours puts the start past year 9999, which fails with "date value out of range" |
| MetricQuery.NatTextDenotes | server.py:165 | The day count in the timedelta's overflow message is a non-empty run of digits with no leading zero, and it denotes the count |
| MetricQuery.MetricRequest | http_server.py:189-204 | The request uses the given compartment as its authorisation scope, namespace oci_computeagent and resolution 1m. Its query parses back to the metric and instance. It carries the given window |
| MetricFetch.FlattenResponse | http_server.py:217-228 | The nested loop's datapoints are the in-order concatenation of every series' aggregated points, and their number is the sum of the per-series counts. The unit and resolution are those of the last series, and absent when there is no series |
| MetricFetch.FlattenLength | http_server.py:217-224 | Flattening keeps every point: the flat length is the sum of the per-series lengths |
| MetricFetch.FlattenAt | http_server.py:217-224 | Point j of series i sits right after all the points of the earlier series: no sorting and no deduplication |
| MetricFetch.FlattenLast | server.py:195-202 | The flat list is empty exactly when no series has a point. Otherwise its last point is the last point of the last non-empty series |
| MetricFetch.HttpMetricData | http_server.py:180-235 | A look-back that cannot be represented fails with its OverflowError text before any request is made. Otherwise the fetch fails, with the upstream text, exactly when the monitoring call for the built request raises. On success the answer carries the instance, metric, namespace and the given compartment. Its window is the one sent, ending now and spanning hours_back hours. Its datapoints are the flattened response and its metadata that of the last series |
| MetricFetch.ServerMetricData | server.py:161-213 | The same fetch authorised against the tenancy, whatever the instance's compartment, with no compartment in the answer. An unrepresentable look-back fails first, because the window is computed before the tenancy is read. A configuration without a tenancy then fails with the KeyError text |
| MetricApi.FetchAll | http_server.py:242-250 | The fetch loop records one key per requested metric, in order, each holding that metric's own fetch outcome, so a raised fetch never stops the loop or changes another key |
| MetricApi.HttpAllMetrics | http_server.py:237-261 | The answer's map has exactly the five target metrics as keys, in fetch order. Each value is that metric's own fetch outcome, series or error text, so one failure never affects another metric. An unrepresentable look-back makes all five values that error |
| MetricApi.ServerAllMetrics | server.py:215-238 | Same isolation for the tenancy-wide server: one key per target metric, each holding its own tenancy-scoped fetch outcome. An unrepresentable look-back makes all five values that error |
| MetricApi.TargetMetricsDistinct | http_server.py:48-54 | The five target names are pairwise different, so the aggregated map has exactly one key per target metric |
| MetricApi.AggregatedLookup | http_server.py:242-250 | Looking a target metric up in the aggregated map finds its own entry. A name outside the targets is not found |
| MetricApi.GetInstanceMetricAsWritten | http_server.py:288-298 | As written, a name outside the targets is answered with status 500 (the rendered 400 as detail) without a fetch. A known name gives the fetched series, or a 500 with the upstream text |
| MetricApi.GetInstanceMetric | http_server.py:292-293 | Corrected: the answer is a 400 exactly for names outside the targets, decided before any fetch. Known names behave as written |
| MetricApi.UnknownMetricAnswered500 | http_server.py:292-298 | For the unknown name "DiskBytesRead", the code as written answers 500 while the intended answer is 400 |
| Dashboard.LatestValue | app.py:339-345 | The shown value is the value of the last datapoint. It is absent for a missing key, an error entry or an empty datapoint list |
| Dashboard.LatestOfFetched | app.py:340-341 | Nothing is shown when the look-back or the monitoring call fails. Otherwise the shown value is the last point of the last response series that has points, and it is absent exactly when no series has a point |
| Dashboard.CpuHealth | app.py:400-408 | Above 80 is high, above 60 up to 80 is moderate, 60 or below is normal. An absent value is "not available" |
| Dashboard.MemoryHealth | app.py:411-419 | Above 85 is high, above 70 up to 85 is moderate, 70 or below is normal. An absent value is "not available" |
| Dashboard.LoadHealth | app.py:422-430 | Above 2.0 is high, above 1.0 up to 2.0 is moderate, 1.0 or below is normal. An absent value is "not available" |
| Dashboard.ClassifyMonotone | app.py:399-430 | With ordered bands, a larger value is never judged less severe |
| Dashboard.RunningInstances | app.py:261 | An instance is kept exactly when it is listed and its state is RUNNING |
| Dashboard.RunningAppend | app.py:261 | The RUNNING filter keeps the original order |
| Dashboard.RunningKeepsAllRunning | app.py:261 | A list of RUNNING instances is kept whole |
| Dashboard.ContextLines | app.py:510-525 | The context is three header lines (instance, shape, availability domain), then one line per metric in map order |
| Dashboard.ContextAgreesWithDashboard | app.py:515-523 | On an aggregated map the context has eight lines. Each metric line reads "name: value unit" with the value the dashboard shows for that metric, or "name: No data available" when none is shown. Error entries always give the no-data line |
| Dashboard.MetricCatalog | app.py:440-445 | The catalog is never empty. It is the backend's list when that is present and non-empty, else the five fixed names |
| Dashboard.FallbackNamesTargets | app.py:442-445 | The fallback names the same five metrics the servers fetch, in a different order |

## Left out

- Client construction and authentication (instance principal or config file), argument parsing and `.env` loading: SDK plumbing with no logic to verify.
- FastAPI routing, CORS, uvicorn and the HTTP wrappers of the other endpoints: transport only. The metric-name check of the per-compartment server is the one HTTP rule modelled.
- The tenancy-wide server's single-metric endpoint (server.py:265-275): it has the same name check, and the same 400-to-500 conversion, as the endpoint modelled.
- Logging: it has no effect on results.
- Clock reads and ISO-8601 rendering: times are integer seconds. `now` is the UTC clock truncated to whole seconds. Sub-second precision is dropped, and that does not change whether a look-back is representable: hours_back hours is a whole number of seconds, and the datetime range starts and ends on whole seconds. The end time is a clock reading and is taken to be inside the datetime range. Each aggregator gets one `now` for all five fetches, while the source reads the clock again for every fetch. The answer's own `timestamp` is a parameter.
- HttpDirectory.GetComputeInstances: the record copies the listed fields, and because timestamps stay in seconds the record equals the listed value. The `isoformat` call on `time_created` is not modelled.
- Number formatting (`:.1f`, `:.2f`, `:.0f`): an opaque `fmt` parameter renders a value in the assistant context.
- Streamlit rendering, plotly charts, pandas statistics and the timestamp sort done only for plotting: display only.
- The auto-refresh sleep loop, the NVIDIA NIM call and the prompt texts: external I/O.
- The newline join of the context lines: formatting only. The lines themselves are modelled.
- The dashboard's HTTP client helpers (app.py:40-138): network calls to the back end.
- Listing pagination: the SDK returns one page per call and the source reads only `response.data`. The listing inputs stand for that one page.
- Server-side request filters (`lifecycle_state="ACTIVE"` on the per-compartment compartment listing, `lifecycle_state="RUNNING"` on the tenancy-wide instance listing): they belong to the service and are part of the listing inputs. The code's own ACTIVE check is modelled.
- Unset aggregated-point lists and unset datapoint values: an unset list is treated as the empty list, which the code handles the same way. Values are `real`, so there is no NaN and no missing value.
- A counter-to-rate conversion and timestamp sorting or deduplication of datapoints: the code has neither.
- HttpDirectory.RootIffParentIsTenancy: the "only if" direction assumes the subtree listing never reports the tenancy itself. Without that, a listed compartment could look exactly like the root entry.

## Findings

| source | as written | input that shows it | evidently intended | confidence | as-written member | corrected member |
|---|---|---|---|---|---|---|
| http_server.py:292-298 | The 400 raised for an unknown metric name is inside the `try`. The catch-all `except Exception` catches it and raises a 500 whose detail is the rendered 400. This assumes Starlette's `HTTPException` renders as "status: detail" | metric name "DiskBytesRead" | answer 400 with the "Invalid metric name" detail | not executed | MetricApi.GetInstanceMetricAsWritten, MetricApi.UnknownMetricAnswered500 | MetricApi.GetInstanceMetric |
