/**
  The three command handlers of the fixture CPU component as functions of the stored
  configuration and the inbound payload: `cmd/reset` and `cmd/ping` (`Acknowledge`)
  and `cmd/cfg/set` (`CfgSet`). Each yields the command result to publish, or the
  exception that escapes the handler because the decoded payload has no `get`.
 */
module Commands {
  import opened Wrappers
  import opened Json
  import opened PyErrors
  import opened TelemetryConfig

  /** An inbound payload: empty, not decodable as JSON, or what `json.loads` returned. */
  datatype Inbound = Empty | Undecodable | Decoded(value: Json)

  /** What a handler hands to the publisher as `evt/<action>/result` (the timestamp is not modelled). */
  datatype CommandResult = CommandResult(
    action: string,
    requestId: Json,
    ok: bool,
    applied: Option<Json>,
    error: Option<string>)

  /** The configuration a `cfg/set` reads and writes: the logs flag and the metrics map. */
  datatype Config = Config(logsEnabled: bool, metrics: Metrics)

  /** The outcome of `cfg/set`: an escaping exception, or the new configuration, whether cfg is republished, and the result. */
  datatype Handling =
    | Escaped(exception: Exception)
    | Handled(config: Config, republished: bool, result: CommandResult)

  const CFG_SET := "cfg/set"
  const SET_NOT_OBJECT := "payload 'set' must be an object"
  const TELEMETRY_NOT_OBJECT := "telemetry must be an object"

  const NO_REQUEST_ID := JStr("")

  /** The `request_id` of a payload: `""` when it is empty or undecodable or has none. */
  function RequestIdOf(p: Inbound): (r: Result<Json, Exception>)
    ensures p.Empty? || p.Undecodable? ==> r == Ok(NO_REQUEST_ID)
    ensures p.Decoded? && p.value.JObj? && "request_id" in Keys(p.value.members) ==>
      r.Ok? && Some(r.value) == Lookup(p.value.members, "request_id")
    ensures p.Decoded? && p.value.JObj? && "request_id" !in Keys(p.value.members) ==> r == Ok(NO_REQUEST_ID)
    ensures r.Err? <==> p.Decoded? && !p.value.JObj?
  {
    match p
    case Empty => Ok(Get([], "request_id", NO_REQUEST_ID))
    case Undecodable => Ok(NO_REQUEST_ID)
    case Decoded(JObj(ms)) => Ok(Get(ms, "request_id", NO_REQUEST_ID))
    case Decoded(v) => Err(NoAttribute(TypeName(v), "get"))
  }

  /** The result `cmd/reset` and `cmd/ping` publish: always a success carrying the request id. */
  function Acknowledge(action: string, p: Inbound): (r: Result<CommandResult, Exception>)
    ensures r.Ok? ==> r.value.action == action && r.value.ok && r.value.error == None && r.value.applied == None
    ensures r.Ok? ==> RequestIdOf(p) == Ok(r.value.requestId)
    ensures (p.Empty? || p.Undecodable?) ==> r.Ok? && r.value.requestId == NO_REQUEST_ID
    ensures r.Err? <==> p.Decoded? && !p.value.JObj?
  {
    match RequestIdOf(p)
    case Err(e) => Err(e)
    case Ok(id) => Ok(CommandResult(action, id, true, None, None))
  }

  /** The request id and the `set` value of a `cfg/set` payload, `payload.get("set") or {}`. */
  function CfgRequestOf(p: Inbound): (r: Result<(Json, Json), Exception>)
    ensures r.Ok? == RequestIdOf(p).Ok? && (r.Ok? ==> r.value.0 == RequestIdOf(p).value)
    ensures r.Err? ==> RequestIdOf(p) == Err(r.error)
    ensures p.Empty? || p.Undecodable? ==> r == Ok((NO_REQUEST_ID, JObj([])))
    ensures p.Decoded? && p.value.JObj? ==>
      var setValue := Get(p.value.members, "set", JNull);
      && (Truthy(setValue) ==> r.Ok? && r.value.1 == setValue)
      && (!Truthy(setValue) ==> r.Ok? && r.value.1 == JObj([]))
  {
    match p
    case Empty => Ok((NO_REQUEST_ID, JObj([])))
    case Undecodable => Ok((NO_REQUEST_ID, JObj([])))
    case Decoded(JObj(ms)) =>
      var s := Get(ms, "set", JNull);
      Ok((Get(ms, "request_id", NO_REQUEST_ID), if Truthy(s) then s else JObj([])))
    case Decoded(v) => Err(NoAttribute(TypeName(v), "get"))
  }

  function Failed(requestId: Json, message: string): CommandResult {
    CommandResult(CFG_SET, requestId, false, None, Some(message))
  }

  /** A successful `cfg/set` result; an empty `applied` dict is reported as `None`. */
  function Succeeded(requestId: Json, applied: Members): CommandResult {
    CommandResult(CFG_SET, requestId, true, if applied == [] then None else Some(JObj(applied)), None)
  }

  /** `logs_enabled` is given: the flag is set to its truth value before `telemetry` is looked at. */
  function LogsAfter(cfg: Config, setDict: Members): bool {
    if "logs_enabled" in Keys(setDict) then Truthy(Lookup(setDict, "logs_enabled").value) else cfg.logsEnabled
  }

  /** The `applied` entry for `logs_enabled`, written when the key is given. */
  function AppliedLogs(cfg: Config, setDict: Members): Members {
    if "logs_enabled" in Keys(setDict) then [("logs_enabled", JBool(LogsAfter(cfg, setDict)))] else []
  }

  /** `cfg/set` once `set` is known to be a dict. */
  function ApplySet(cfg: Config, requestId: Json, setDict: Members, available: set<string>): (h: Handling)
    ensures h.Handled? && h.result.action == CFG_SET && h.result.requestId == requestId
    ensures h.republished <==> h.result.ok
    ensures h.result.ok ==> h.result.error == None
    ensures !h.result.ok ==> h.result.applied == None && h.result.error.Some? && h.config.metrics == cfg.metrics
    ensures h.config.metrics.Keys - cfg.metrics.Keys <= available
  {
    var afterLogs := cfg.(logsEnabled := LogsAfter(cfg, setDict));
    var applied := AppliedLogs(cfg, setDict);
    if "telemetry" !in Keys(setDict) then
      Handled(afterLogs, true, Succeeded(requestId, applied))
    else
      ApplyTelemetrySet(afterLogs, requestId, applied, Lookup(setDict, "telemetry").value, available)
  }

  /** The `telemetry` branch of `cfg/set`, once `logs_enabled` has been applied to `cfg`. */
  function ApplyTelemetrySet(cfg: Config, requestId: Json, applied: Members, telemetry: Json, available: set<string>): (h: Handling)
    ensures h.Handled? && h.result.action == CFG_SET && h.result.requestId == requestId
    ensures h.republished <==> h.result.ok
    ensures h.result.ok ==> h.result.error == None
    ensures !h.result.ok ==> h.result.applied == None && h.result.error.Some? && h.config.metrics == cfg.metrics
    ensures h.config.metrics.Keys - cfg.metrics.Keys <= available
  {
    if !telemetry.JObj? then
      Handled(cfg, false, Failed(requestId, TELEMETRY_NOT_OBJECT))
    else
      match UpdateTelemetry(cfg.metrics, telemetry.members, available)
      case Err(e) => Handled(cfg, false, Failed(requestId, Message(e)))
      case Ok(m) => Handled(cfg.(metrics := m), true, Succeeded(requestId, applied + [("telemetry", telemetry)]))
  }

  /**
    `cmd/cfg/set` against the stored configuration `cfg`, with `available` the metrics
    that exist in state.
   */
  function CfgSet(cfg: Config, p: Inbound, available: set<string>): (h: Handling)
    ensures h.Escaped? <==> p.Decoded? && !p.value.JObj?
    ensures h.Handled? ==> h.result.action == CFG_SET && RequestIdOf(p) == Ok(h.result.requestId)
    ensures h.Handled? ==> (h.republished <==> h.result.ok)
    ensures h.Handled? && h.result.ok ==> h.result.error == None
    ensures h.Handled? && !h.result.ok ==>
      h.result.applied == None && h.result.error.Some? && h.config.metrics == cfg.metrics
    ensures h.Handled? ==> h.config.metrics.Keys - cfg.metrics.Keys <= available
  {
    match CfgRequestOf(p)
    case Err(e) => Escaped(e)
    case Ok((requestId, setValue)) =>
      if !setValue.JObj? then Handled(cfg, false, Failed(requestId, SET_NOT_OBJECT))
      else ApplySet(cfg, requestId, setValue.members, available)
  }

  /** A `set` that is truthy but not a dict is refused: nothing changes and cfg is not republished. */
  lemma SetNotObjectRejected(cfg: Config, payload: Members, available: set<string>)
    requires Truthy(Get(payload, "set", JNull)) && !Get(payload, "set", JNull).JObj?
    ensures CfgSet(cfg, Decoded(JObj(payload)), available)
      == Handled(cfg, false, CommandResult(CFG_SET, Get(payload, "request_id", NO_REQUEST_ID), false, None, Some(SET_NOT_OBJECT)))
  {
  }

  /** A missing or falsy `set` is an empty request: it succeeds, changes nothing, applies nothing and republishes cfg. */
  lemma FalsySetIsEmptyRequest(cfg: Config, payload: Members, available: set<string>)
    requires !Truthy(Get(payload, "set", JNull))
    ensures CfgSet(cfg, Decoded(JObj(payload)), available)
      == Handled(cfg, true, CommandResult(CFG_SET, Get(payload, "request_id", NO_REQUEST_ID), true, None, None))
  {
  }

  /** An empty or undecodable payload is handled as `{}`: request id `""`, nothing applied, cfg republished. */
  lemma MalformedPayloadIsEmptyRequest(cfg: Config, p: Inbound, available: set<string>)
    requires p.Empty? || p.Undecodable?
    ensures CfgSet(cfg, p, available) == Handled(cfg, true, CommandResult(CFG_SET, NO_REQUEST_ID, true, None, None))
    ensures Acknowledge("reset", p) == Ok(CommandResult("reset", NO_REQUEST_ID, true, None, None))
    ensures Acknowledge("ping", p) == Ok(CommandResult("ping", NO_REQUEST_ID, true, None, None))
  {
  }

  /** Whatever `request_id` a client puts into a dict payload comes back in the acknowledgement. */
  lemma AcknowledgeEchoesRequestId(action: string, payload: Members, id: Json)
    ensures Acknowledge(action, Decoded(JObj(Put(payload, "request_id", id))))
         == Ok(CommandResult(action, id, true, None, None))
  {
    PutLookup(payload, "request_id", id, "request_id");
  }

  /** A client's `request_id` and truthy `set` are what a `cfg/set` works on. */
  lemma CfgRequestOfBuilt(payload: Members, id: Json, setValue: Json)
    requires Truthy(setValue)
    ensures CfgRequestOf(Decoded(JObj(Put(Put(payload, "request_id", id), "set", setValue)))) == Ok((id, setValue))
  {
    PutLookup(payload, "request_id", id, "request_id");
    PutLookup(Put(payload, "request_id", id), "set", setValue, "request_id");
    PutLookup(Put(payload, "request_id", id), "set", setValue, "set");
  }

  /**
    `telemetry` that is not a dict is refused and the metrics and cfg stay as they were;
    a `logs_enabled` of the same request has nevertheless been applied.
   */
  lemma TelemetryNotObjectRejected(cfg: Config, p: Inbound, requestId: Json, setDict: Members, available: set<string>)
    requires CfgRequestOf(p) == Ok((requestId, JObj(setDict)))
    requires "telemetry" in Keys(setDict) && !Lookup(setDict, "telemetry").value.JObj?
    ensures CfgSet(cfg, p, available)
      == Handled(Config(LogsAfter(cfg, setDict), cfg.metrics), false, Failed(requestId, TELEMETRY_NOT_OBJECT))
    ensures "logs_enabled" in Keys(setDict) ==>
      CfgSet(cfg, p, available).config.logsEnabled == Truthy(Lookup(setDict, "logs_enabled").value)
  {
  }

  /**
    An exception while merging is reported with its text; the metrics are those from
    before the request, cfg is not republished, and `logs_enabled` stays applied.
   */
  lemma MergeFailureKeepsMetrics(cfg: Config, p: Inbound, requestId: Json, setDict: Members, telemetry: Members, available: set<string>)
    requires CfgRequestOf(p) == Ok((requestId, JObj(setDict)))
    requires Lookup(setDict, "telemetry") == Some(JObj(telemetry))
    requires UpdateTelemetry(cfg.metrics, telemetry, available).Err?
    ensures CfgSet(cfg, p, available)
      == Handled(Config(LogsAfter(cfg, setDict), cfg.metrics), false,
                 Failed(requestId, Message(UpdateTelemetry(cfg.metrics, telemetry, available).error)))
  {
  }

  /**
    A successful update stores the merged metrics, republishes cfg and echoes in
    `applied` the boolean `logs_enabled`, when given, and the raw `telemetry` dict.
   */
  lemma SuccessfulUpdate(cfg: Config, p: Inbound, requestId: Json, setDict: Members, telemetry: Members, available: set<string>)
    requires CfgRequestOf(p) == Ok((requestId, JObj(setDict)))
    requires Lookup(setDict, "telemetry") == Some(JObj(telemetry))
    requires UpdateTelemetry(cfg.metrics, telemetry, available).Ok?
    ensures var h := CfgSet(cfg, p, available);
      && h == Handled(Config(LogsAfter(cfg, setDict), UpdateTelemetry(cfg.metrics, telemetry, available).value), true, h.result)
      && h.result.ok && h.result.error == None
      && h.result.applied == Some(JObj(
           (if "logs_enabled" in Keys(setDict) then [("logs_enabled", JBool(LogsAfter(cfg, setDict)))] else [])
           + [("telemetry", JObj(telemetry))]))
  {
  }

  /**
    A request without `telemetry` succeeds; `applied` is `None` exactly when `logs_enabled`
    is not given, and otherwise holds only `logs_enabled` as a bool.
   */
  lemma NoTelemetrySucceeds(cfg: Config, p: Inbound, requestId: Json, setDict: Members, available: set<string>)
    requires CfgRequestOf(p) == Ok((requestId, JObj(setDict)))
    requires "telemetry" !in Keys(setDict)
    ensures var h := CfgSet(cfg, p, available);
      && h == Handled(Config(LogsAfter(cfg, setDict), cfg.metrics), true, h.result)
      && h.result.ok
      && (h.result.applied == None <==> "logs_enabled" !in Keys(setDict))
      && ("logs_enabled" in Keys(setDict) ==>
            h.result.applied == Some(JObj([("logs_enabled", JBool(Truthy(Lookup(setDict, "logs_enabled").value)))])))
  {
  }

  /**
    After a successful update where `telemetry.metrics` is a dict the metrics map has
    exactly the metrics it had and those that exist in state; a name that does not
    exist in state is never added, by any request.
   */
  lemma CfgSetKeySet(cfg: Config, p: Inbound, requestId: Json, setDict: Members, telemetry: Members, available: set<string>)
    requires CfgRequestOf(p) == Ok((requestId, JObj(setDict)))
    requires Lookup(setDict, "telemetry") == Some(JObj(telemetry)) && HasMetricsObject(telemetry)
    requires CfgSet(cfg, p, available).Handled? && CfgSet(cfg, p, available).result.ok
    ensures CfgSet(cfg, p, available).config.metrics.Keys == cfg.metrics.Keys + available
  {
  }

  /** Every `cfg/set` keeps the stored configuration well formed. */
  lemma CfgSetPreservesWellFormed(cfg: Config, p: Inbound, available: set<string>)
    requires WellFormed(cfg.metrics, available)
    ensures CfgSet(cfg, p, available).Handled? ==> WellFormed(CfgSet(cfg, p, available).config.metrics, available)
  {
    var r := CfgRequestOf(p);
    if r.Ok? && r.value.1.JObj? {
      var setDict := r.value.1.members;
      if "telemetry" in Keys(setDict) {
        var telemetry := Lookup(setDict, "telemetry").value;
        if telemetry.JObj? {
          UpdatePreservesWellFormed(cfg.metrics, telemetry.members, available);
        }
      }
    }
  }

  /** The request `{"set": {"telemetry": {"metrics": M}}}` with metrics dict `M`. */
  function MetricsRequest(m: Members): Inbound {
    Decoded(JObj([("set", JObj([("telemetry", JObj([("metrics", JObj(m))]))]))]))
  }

  /**
    From the start configuration, `{"cpu_percent": {"enabled": false}}` disables that
    metric and keeps its interval and threshold; `load` is untouched.
   */
  lemma DisableCpuPercentExample()
    ensures var m := [("cpu_percent", JObj([(ENABLED, JBool(false))]))];
      CfgSet(Config(true, INITIAL_METRICS), MetricsRequest(m), STATE_METRICS)
        == Handled(Config(true, INITIAL_METRICS["cpu_percent" := Entry(false, DEFAULT_INTERVAL, DEFAULT_THRESHOLD)]), true,
                   CommandResult(CFG_SET, NO_REQUEST_ID, true,
                                 Some(JObj([("telemetry", JObj([("metrics", JObj(m))]))])), None))
  {
    var supplied := [(ENABLED, JBool(false))];
    var m := [("cpu_percent", JObj(supplied))];
    var telemetry := [("metrics", JObj(m))];
    var setDict := [("telemetry", JObj(telemetry))];
    assert CfgRequestOf(MetricsRequest(m)) == Ok((NO_REQUEST_ID, JObj(setDict)));
    assert Lookup(setDict, "telemetry") == Some(JObj(telemetry));
    assert Lookup(telemetry, "metrics") == Some(JObj(m));
    var disabled := Entry(false, DEFAULT_INTERVAL, DEFAULT_THRESHOLD);
    assert Merge(INITIAL_METRICS["cpu_percent"].members, supplied) == disabled.members;
    EntryComplete(false, DEFAULT_INTERVAL, DEFAULT_THRESHOLD);
    assert FillMissing(disabled.members) == disabled.members;
    assert Resolve(Existing(INITIAL_METRICS, "cpu_percent"), JObj(supplied)) == Ok(disabled);
    var merged := INITIAL_METRICS["cpu_percent" := disabled];
    assert MergeFrom(INITIAL_METRICS, m, STATE_METRICS) == Ok(merged);
    assert Backfilled(merged, STATE_METRICS) == merged;
    assert UpdateTelemetry(INITIAL_METRICS, telemetry, STATE_METRICS) == Ok(merged);
    var cfg := Config(true, INITIAL_METRICS);
    assert AppliedLogs(cfg, setDict) == [] && LogsAfter(cfg, setDict);
    assert "telemetry" in Keys(setDict);
    assert CfgSet(cfg, MetricsRequest(m), STATE_METRICS) == ApplySet(cfg, NO_REQUEST_ID, setDict, STATE_METRICS);
    assert AppliedLogs(cfg, setDict) + [("telemetry", JObj(telemetry))] == [("telemetry", JObj(telemetry))];
    assert cfg.(logsEnabled := LogsAfter(cfg, setDict)).(metrics := merged) == Config(true, merged);
    assert ApplySet(cfg, NO_REQUEST_ID, setDict, STATE_METRICS)
      == Handled(Config(true, merged), true, Succeeded(NO_REQUEST_ID, [("telemetry", JObj(telemetry))]));
  }

  /** From the start configuration, a metric that does not exist in state is ignored and the request still succeeds. */
  lemma UnknownMetricExample()
    ensures var m := [("bogus_metric", JObj([(ENABLED, JBool(true))]))];
      var h := CfgSet(Config(true, INITIAL_METRICS), MetricsRequest(m), STATE_METRICS);
      h.Handled? && h.config == Config(true, INITIAL_METRICS) && h.result.ok
  {
    var m := [("bogus_metric", JObj([(ENABLED, JBool(true))]))];
    var telemetry := [("metrics", JObj(m))];
    var setDict := [("telemetry", JObj(telemetry))];
    assert CfgRequestOf(MetricsRequest(m)) == Ok((NO_REQUEST_ID, JObj(setDict)));
    assert Lookup(setDict, "telemetry") == Some(JObj(telemetry));
    assert Lookup(telemetry, "metrics") == Some(JObj(m));
    assert MergeFrom(INITIAL_METRICS, m, STATE_METRICS) == Ok(INITIAL_METRICS);
    assert Backfilled(INITIAL_METRICS, STATE_METRICS) == INITIAL_METRICS;
  }
}
