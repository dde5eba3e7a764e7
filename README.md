# Fixture CPU component: command handling

This project models the command-handling half of `FixtureCpuComponent`, the test
fixture component of the Lucid agent that reports CPU metrics over MQTT. It covers
four things:

- `cmd/reset` and `cmd/ping`, which read a `request_id` and acknowledge;
- `cmd/cfg/set`, which validates a partial configuration, commits `logs_enabled`
  and merges per-metric telemetry settings into a copy of the stored metrics map,
  then commits that copy and publishes cfg and a correlated result;
- the telemetry configuration installed at start;
- the advertised capabilities.

The files are:

- `json.dfy` holds the values `json.loads` produces and the Python dict operations
  the handlers use. A dict is an ordered member list, as a Python dict is:
  `{**a, **b}`, `d[k] = v`, `d.get(k, default)`, `k in d`, `bool(v)` and
  `type(v).__name__`.
- `errors.dfy` holds the exceptions the handlers can meet and the text `str(exc)`
  gives for each.
- `coerce.dfy` holds `int(v)` and `float(v)` for decoded values, including Python's
  string grammar for both.
- `telemetry.dfy` holds the per-metric logic of `cmd/cfg/set` as functions:
  - resolving one entry, by a shallow override then backfill for a metric that has
    a dict entry, and by coerced construction otherwise;
  - the loop over `telemetry.metrics`;
  - the backfill of metrics that exist in state.

  It also holds the two loops as methods proved equal to those functions, and the
  invariant they keep: exactly the metrics in state have an entry, and every entry
  has the three fields.
- `commands.dfy` holds the three handlers as functions of the stored configuration
  and the inbound payload, and the properties of their results.
- `component.dfy` holds the component as a class. Its `logsEnabled` and `metrics`
  fields are updated in place, and an `outbox` records, in order, what it hands to
  the publisher. Its handler methods are proved to do exactly what the functions in
  `commands.dfy` say.

The metrics that exist in state are the keys of the state payload, `cpu_percent`
and `load` (`STATE_METRICS`). The functions take that set as a parameter
(`available`).

Some behaviours of the code are easy to miss, and the model keeps them:

- A decoded payload that is not a JSON object makes `payload.get` raise
  AttributeError. Nothing catches it, so it escapes the handler (`Escaped` in
  `CfgSet`, `raised` in the methods). This holds for reset and ping as well, so
  even reset does not always publish a result.
- `logs_enabled` is committed before `telemetry` is checked, so a request refused
  for its `telemetry` keeps its new `logs_enabled`.
- For a metric that already has a dict entry, the supplied fields are stored as
  given, without coercion. An `interval_s` of `"abc"` or `-1` is kept; nothing
  checks that it is a positive number.
- In a well-formed configuration every metric in state has a dict entry. So a
  non-dict value for such a metric always fails with TypeError
  (`'bool' object is not a mapping`); see `ScalarForKnownMetricFails`. The
  `bool(metric_cfg)` branch is reachable only for a metric with no dict entry. Such
  shape errors are not checked one by one: they surface as exceptions, and the
  exception handler reports `str(exc)`.
- `applied` echoes the raw `telemetry` sub-object, not the merged map.

## Model

| member | source | states |
|---|---|---|
| Json.Truthy | src/lucid_component_fixture_cpu/component.py:150 | `bool(v)` is false exactly for None, False, 0, 0.0, `""`, `[]` and `{}`; every other value, NaN included, is true |
| Json.TypeName | src/lucid_component_fixture_cpu/component.py:204-207 | `type(v).__name__` names exactly the value's kind: `NoneType`, `bool`, `int`, `float`, `str`, `list` or `dict` |
| Json.Lookup | src/lucid_component_fixture_cpu/component.py:169-175 | `k in d` holds exactly when the lookup finds a value, and the value found is the value of a member with that key |
| Json.Get | src/lucid_component_fixture_cpu/component.py:131 | `d.get(k, default)` is the stored value when the key is present and the default otherwise |
| Json.Put | src/lucid_component_fixture_cpu/component.py:209-214 | assigning to a key leaves the dict with its old keys plus that key |
| Json.PutLookup | src/lucid_component_fixture_cpu/component.py:209-214 | after `d[k] = v`, `d[k]` reads `v` and every other key reads as before |
| Json.PutDistinct | src/lucid_component_fixture_cpu/component.py:209-214 | assignment keeps the keys of a dict distinct |
| Json.PutAppends | src/lucid_component_fixture_cpu/component.py:234 | assigning a key the dict lacks appends the member at the end |
| Json.Merge | src/lucid_component_fixture_cpu/component.py:204-207 | `{**a, **b}` has exactly the keys of `a` and of `b` |
| Json.MergeLookup | src/lucid_component_fixture_cpu/component.py:204-207 | `{**a, **b}` reads every key of `b` from `b` and every other key from `a` |
| Json.MergeDistinct | src/lucid_component_fixture_cpu/component.py:204-207 | `{**a, **b}` has distinct keys when `a` has |
| PyErrors.Message | src/lucid_component_fixture_cpu/component.py:246-254 | the error text reported for every exception is non-empty |
| PyErrors.Repr | src/lucid_component_fixture_cpu/component.py:219-220 | the literal quoted in a ValueError's text is enclosed in matching quotes |
| PyErrors.EscapedRoundTrip | src/lucid_component_fixture_cpu/component.py:219-220 | escaping a string for either quote character loses nothing: reading the escapes back gives the string |
| PyErrors.ReprRoundTrip | src/lucid_component_fixture_cpu/component.py:219-220 | the text between the quotes of `repr(s)` reads back as `s` |
| PyErrors.FloatLiteralMessageQuotesText | src/lucid_component_fixture_cpu/component.py:220 | `float(s)`'s ValueError text is its fixed prefix followed by a quotation of `s` that reads back as `s` |
| PyErrors.IntLiteralMessageQuotesText | src/lucid_component_fixture_cpu/component.py:219 | `int(s)`'s ValueError text is its fixed prefix followed by a quotation of `s` that reads back as `s`, cut to its first 200 characters when `repr(s)` is longer |
| Coerce.ToInt | src/lucid_component_fixture_cpu/component.py:219 | `int(v)`: an int is kept, a bool is 0 or 1, a finite float truncates toward zero, infinity raises OverflowError and NaN raises ValueError, a string succeeds exactly when it parses, with the parsed value, and otherwise raises ValueError with its text, and any other value raises TypeError naming its type |
| Coerce.ToFloat | src/lucid_component_fixture_cpu/component.py:220 | `float(v)`: a float is kept, a bool becomes 0.0 or 1.0, an int becomes the same number exactly when its magnitude is below `2**1024 - 2**970` and raises OverflowError otherwise, a string succeeds exactly when it parses, with the parsed value, and otherwise raises ValueError with its text, and any other value raises TypeError naming its type |
| Coerce.IntRoundTrip | src/lucid_component_fixture_cpu/component.py:219 | the model's `int` literal parser reads back every integer numeral the model's `ShowInt` writes |
| Coerce.FloatOfIntLiteral | src/lucid_component_fixture_cpu/component.py:220 | `float(str(i))` is the float of value `i` for every integer |
| Coerce.IntTextRoundTrip | src/lucid_component_fixture_cpu/component.py:219 | the coercion `int(v)` of a JSON string holding the numeral `ShowInt(i)` gives `i` back |
| Coerce.NoBreakSpaceIsWhitespace | src/lucid_component_fixture_cpu/component.py:219 | a no-break space and a space around a numeral are stripped by `int` |
| Coerce.IntRefusesSeparator | src/lucid_component_fixture_cpu/component.py:219 | the ASCII separator `\x1c` is not stripped, so `int` raises ValueError for `"\x1c5"` |
| Coerce.FloatRefusesSeparator | src/lucid_component_fixture_cpu/component.py:220 | the ASCII separator `\x1f` is not stripped, so `float` raises ValueError for `"\x1f7"` |
| Coerce.FloatTextOfInt | src/lucid_component_fixture_cpu/component.py:220 | the coercion `float(v)` of a JSON string `str(i)` gives the float of value `i` |
| TelemetryConfig.FillMissing | src/lucid_component_fixture_cpu/component.py:208-214 | the backfilled entry has its old keys plus the three fields |
| TelemetryConfig.FillMissingLookup | src/lucid_component_fixture_cpu/component.py:208-214 | a field that was present keeps its value; a missing one reads `False`, `2` or `2.0` |
| TelemetryConfig.FillMissingDistinct | src/lucid_component_fixture_cpu/component.py:208-214 | backfilling keeps the entry's keys distinct |
| TelemetryConfig.Resolve | src/lucid_component_fixture_cpu/component.py:202-221 | a dict entry merged with a non-dict raises TypeError; a non-dict value for a metric without a dict entry gives `enabled=bool(value)` with interval 2 and threshold 2.0; otherwise `bool`, `int`, `float` are applied with defaults, and the first to raise decides the error |
| TelemetryConfig.ResolveOverridesThenFills | src/lucid_component_fixture_cpu/component.py:202-214 | the merged entry has the old keys, the supplied keys and the three fields; each supplied key takes the supplied value, other old keys keep their value, and missing fields get their defaults |
| TelemetryConfig.ResolveComplete | src/lucid_component_fixture_cpu/component.py:202-221 | every entry built or merged has the three fields and distinct keys |
| TelemetryConfig.EntryComplete | src/lucid_component_fixture_cpu/component.py:217-221 | an entry built afresh has exactly the three fields |
| TelemetryConfig.MergeFrom | src/lucid_component_fixture_cpu/component.py:194-221 | after the loop the map has its old keys plus the requested names that exist in state, and no other key |
| TelemetryConfig.MergeMetrics | src/lucid_component_fixture_cpu/component.py:194-221 | the loop over `telemetry.metrics`, with skip and early failure, computes `MergeFrom` |
| TelemetryConfig.MergeFromEntries | src/lucid_component_fixture_cpu/component.py:195-221 | a requested name that exists in state holds what `Resolve` makes of its value and old entry; every other name keeps its entry; a name is present exactly when it was before or was requested and exists in state |
| TelemetryConfig.MergeFromFailure | src/lucid_component_fixture_cpu/component.py:195-221 | the loop fails exactly when some requested metric in state raises, and it reports the exception of the first such entry in request order |
| TelemetryConfig.MergeFromComplete | src/lucid_component_fixture_cpu/component.py:195-221 | the loop keeps every entry complete |
| TelemetryConfig.BackfillAvailable | src/lucid_component_fixture_cpu/component.py:223-230 | the backfill loop adds the disabled default entry for each metric in state that has none and changes nothing else |
| TelemetryConfig.UpdateTelemetry | src/lucid_component_fixture_cpu/component.py:190-233 | when `telemetry.metrics` is missing or not a dict the copy is stored unchanged; after a merge the keys are the old ones plus the metrics in state, and no name outside the state is ever added |
| TelemetryConfig.UpdateTelemetryEntries | src/lucid_component_fixture_cpu/component.py:194-230 | every entry after the update: a requested metric in state is resolved, an unmentioned metric in state without an entry is the disabled default, and every other entry is kept |
| TelemetryConfig.UpdatePreservesWellFormed | src/lucid_component_fixture_cpu/component.py:194-233 | a successful update keeps the invariant that exactly the metrics in state have complete entries |
| TelemetryConfig.ScalarForKnownMetricFails | src/lucid_component_fixture_cpu/component.py:202-207 | in a well-formed configuration a non-dict value for a metric in state always makes the update fail |
| TelemetryConfig.InitialWellFormed | src/lucid_component_fixture_cpu/component.py:92-106 | the configuration installed at start satisfies the invariant |
| Commands.RequestIdOf | src/lucid_component_fixture_cpu/component.py:127-133 | an empty or undecodable payload gives `""`; an object gives the value of its `request_id` when it has one and `""` otherwise; the extraction raises exactly for a decoded non-object |
| Commands.Acknowledge | src/lucid_component_fixture_cpu/component.py:127-143 | the result is always `ok=True`, `error=None`, with the payload's request id; it fails only for a decoded non-object |
| Commands.CfgRequestOf | src/lucid_component_fixture_cpu/component.py:147-153 | the request id and any exception are those of `RequestIdOf`; an empty or undecodable payload gives `{}`; for an object a truthy `set` is passed through as it is and a missing or falsy one reads as `{}` |
| Commands.AcknowledgeEchoesRequestId | src/lucid_component_fixture_cpu/component.py:127-143 | whatever `request_id` a client puts into a dict payload comes back in the reset or ping result |
| Commands.CfgRequestOfBuilt | src/lucid_component_fixture_cpu/component.py:147-153 | the `request_id` and truthy `set` a client puts into a dict payload are exactly what `cfg/set` works on |
| Commands.ApplySet | src/lucid_component_fixture_cpu/component.py:165-245 | the result carries the request id; cfg is republished exactly when the result is ok; a failure has `applied=None`, an error text and the old metrics; no metric outside the state is added |
| Commands.ApplyTelemetrySet | src/lucid_component_fixture_cpu/component.py:173-245 | the same guarantees for the `telemetry` branch |
| Commands.CfgSet | src/lucid_component_fixture_cpu/component.py:145-254 | an exception escapes exactly for a decoded non-object; otherwise the result is for `cfg/set` with the request id, cfg is republished exactly when ok, and a failure keeps the metrics and reports an error with `applied=None` |
| Commands.SetNotObjectRejected | src/lucid_component_fixture_cpu/component.py:155-163 | a truthy non-dict `set` is refused with "payload 'set' must be an object"; nothing changes and cfg is not republished |
| Commands.FalsySetIsEmptyRequest | src/lucid_component_fixture_cpu/component.py:150 | a missing or falsy `set` succeeds, changes nothing and applies nothing |
| Commands.MalformedPayloadIsEmptyRequest | src/lucid_component_fixture_cpu/component.py:127-154 | an empty or undecodable payload gives request id `""` and success, for reset, ping and cfg/set alike |
| Commands.TelemetryNotObjectRejected | src/lucid_component_fixture_cpu/component.py:169-184 | a non-dict `telemetry` is refused with "telemetry must be an object"; metrics unchanged, cfg not republished, and `logs_enabled` already applied |
| Commands.MergeFailureKeepsMetrics | src/lucid_component_fixture_cpu/component.py:191-254 | an exception during the merge is reported with its text, and the metrics stay those from before the request |
| Commands.SuccessfulUpdate | src/lucid_component_fixture_cpu/component.py:233-245 | a successful update stores the merged metrics, republishes cfg and echoes `logs_enabled` as a bool and the raw `telemetry` in `applied` |
| Commands.NoTelemetrySucceeds | src/lucid_component_fixture_cpu/component.py:165-243 | without `telemetry` the request succeeds; `applied` is `None` exactly when `logs_enabled` is not given either, and otherwise is `{"logs_enabled": bool(v)}` |
| Commands.CfgSetKeySet | src/lucid_component_fixture_cpu/component.py:186-230 | after a successful update with a `metrics` dict the keys are exactly the old keys plus the metrics in state |
| Commands.CfgSetPreservesWellFormed | src/lucid_component_fixture_cpu/component.py:145-254 | every `cfg/set` keeps the stored configuration well formed |
| Commands.DisableCpuPercentExample | src/lucid_component_fixture_cpu/component.py:92-106 | from the start configuration, disabling `cpu_percent` keeps its interval and threshold and leaves `load` as it was |
| Commands.UnknownMetricExample | src/lucid_component_fixture_cpu/component.py:196-199 | a metric that does not exist in state is ignored and the request still succeeds |
| Component.ApplyTelemetry | src/lucid_component_fixture_cpu/component.py:190-230 | the merge loop then the backfill loop on a copy computes `UpdateTelemetry` |
| Component.FixtureCpu.PublishAllRetained | src/lucid_component_fixture_cpu/component.py:86-108 | publishes metadata with capabilities `reset`, `ping`, then status, state and cfg; installs both metrics enabled every 2 s at threshold 2.0; the invariant holds afterwards |
| Component.FixtureCpu.OnCmdReset | src/lucid_component_fixture_cpu/component.py:127-134 | publishes exactly the `Acknowledge` result, or lets the exception escape and publishes nothing |
| Component.FixtureCpu.OnCmdPing | src/lucid_component_fixture_cpu/component.py:136-143 | publishes exactly the `Acknowledge` result, or lets the exception escape and publishes nothing |
| Component.FixtureCpu.OnCmdCfgSet | src/lucid_component_fixture_cpu/component.py:145-254 | leaves the fields as `CfgSet` says; publishes cfg (when republished) and then the result; changes nothing when an exception escapes; keeps the invariant |
| Component.FixtureCpu.ApplySetDict | src/lucid_component_fixture_cpu/component.py:165-245 | commits `logs_enabled`, then does as `ApplySet` says |
| Component.FixtureCpu.CommitTelemetry | src/lucid_component_fixture_cpu/component.py:173-245 | commits the merged copy only on success, and publishes as `ApplyTelemetrySet` says |

## Left out

- The sampling thread and its start and stop (`_run_loop`, `_start`, `_stop`): they are concurrency, and their gating calls belong to the base class.
- The psutil measurements in `get_state_payload`: they come from a foreign library. Only its key set, `STATE_METRICS`, is kept, so `StateMessage` carries only the metric names.
- The base-class publishers (`publish_metadata`, `publish_status`, `publish_state`, `publish_cfg`, `publish_result`, `publish_cfg_set_result`), `set_telemetry_config` and `should_publish_telemetry`: `lucid_component_base` is not part of this model. Publishing is recorded in `outbox`. `CfgMessage` carries the stored configuration, not the document `publish_cfg` builds from it. An exception raised by a publisher is not modelled.
- `set_telemetry_config({"metrics": ...})`: modelled as assigning `metrics`. Any other key the base class kept in the telemetry configuration is not modelled.
- Timestamps (`_utc_iso`) and the log calls: they are clock and I/O.
- The JSON text decoder: `Inbound` records only whether the payload was empty, undecodable or decoded to a value. An integer of more than 4300 digits makes `json.loads` raise a plain ValueError (CPython 3.11 and 3.10.7, not a JSONDecodeError), which would escape all three handlers; `Inbound` cannot express it.
- Handling of an escaping exception by the base-class dispatcher: the model only returns the exception.
- The order of the stored metrics map: `Metrics` is a Dafny `map`, so the order in which a republished cfg lists metrics is not modelled.
- Duplicate keys in a JSON text: `json.loads` keeps the last value, and the lemmas about request dicts require distinct keys, as a decoded dict has.
- Coerce.ToFloat: finite values are exact reals, so rounding to binary64 and overflow of a string to infinity (`float("1e400")`) are not modelled; the OverflowError for a too-large int is. Only ASCII digits are accepted in strings, while Python also accepts other Unicode decimal digits.
- Coerce.ToInt: only ASCII digits are accepted in strings, while Python also accepts other Unicode decimal digits; a float argument is an exact real, as in `ToFloat`. The 4300-digit limit of CPython 3.11 and 3.10.7 is not modelled: there `int(s)` raises ValueError ("Exceeds the limit (4300 digits) for integer string conversion") for a longer literal, and `str(i)` raises for a longer integer, so `IntRoundTrip` and `IntTextRoundTrip` hold in CPython only up to that limit.
- PyErrors.Repr: non-printable characters are not escaped as Python's `repr` escapes them.
- PyErrors.Message: its own contract states only that the text is non-empty; the texts themselves are given by its definition, and `FloatLiteralMessageQuotesText` and `IntLiteralMessageQuotesText` state what the ValueError texts quote.
- `metadata()` beyond the capabilities: its other fields come from the base class.
