/**
  The fixture CPU component as an object: the stored configuration it updates in
  place and the messages it hands to the publisher, in order. The base-class
  publishers are modelled by appending to `outbox`.
 */
module Component {
  import opened Wrappers
  import opened Json
  import opened PyErrors
  import opened TelemetryConfig
  import opened Commands

  /** The commands advertised in the retained metadata. */
  const CAPABILITIES: seq<string> := ["reset", "ping"]

  /** What the component publishes; the payload fields the base class adds are not modelled. */
  datatype Outbound =
    | MetadataMessage(capabilities: seq<string>)
    | StatusMessage
    | StateMessage(metricNames: set<string>)
    | CfgMessage(logsEnabled: bool, metrics: Metrics)
    | ResultMessage(result: CommandResult)

  /**
    The `telemetry` branch on a copy of the stored metrics: the merge loop and the
    backfill loop when `telemetry.metrics` is a dict, the copy unchanged otherwise.
   */
  method ApplyTelemetry(stored: Metrics, telemetry: Members) returns (r: Result<Metrics, Exception>)
    ensures r == UpdateTelemetry(stored, telemetry, STATE_METRICS)
  {
    var current := stored;
    var updates := Lookup(telemetry, "metrics");
    if updates.Some? && updates.value.JObj? {
      var merged := MergeMetrics(current, updates.value.members, STATE_METRICS);
      if merged.Err? {
        return Err(merged.error);
      }
      current := BackfillAvailable(merged.value, STATE_METRICS);
    }
    return Ok(current);
  }

  class FixtureCpu {
    var logsEnabled: bool
    var metrics: Metrics
    var outbox: seq<Outbound>

    /** The part of the object a `cfg/set` reads and writes. */
    function Stored(): Config
      reads this
    {
      Config(logsEnabled, metrics)
    }

    /** Every metric of the state has a complete entry, and no other metric has one. */
    ghost predicate Valid()
      reads this
    {
      WellFormed(metrics, STATE_METRICS)
    }

    /** A component whose base class starts with the given logs flag and telemetry metrics. */
    constructor(initialLogs: bool, initialMetrics: Metrics)
      ensures logsEnabled == initialLogs && metrics == initialMetrics && outbox == []
    {
      logsEnabled := initialLogs;
      metrics := initialMetrics;
      outbox := [];
    }

    /**
      On start: metadata (with the capabilities), status and state are published, the
      telemetry configuration is set to both metrics enabled every 2 s at a 2 % change
      threshold, and cfg is published.
     */
    method PublishAllRetained()
      modifies this
      ensures logsEnabled == old(logsEnabled) && metrics == INITIAL_METRICS
      ensures outbox == old(outbox) + [MetadataMessage(CAPABILITIES), StatusMessage,
                                       StateMessage(STATE_METRICS), CfgMessage(logsEnabled, INITIAL_METRICS)]
      ensures Valid()
    {
      outbox := outbox + [MetadataMessage(CAPABILITIES), StatusMessage, StateMessage(STATE_METRICS)];
      metrics := INITIAL_METRICS;
      outbox := outbox + [CfgMessage(logsEnabled, metrics)];
      InitialWellFormed();
    }

    /** The request id extraction shared by `cmd/reset` and `cmd/ping`, then the success result. */
    method Acknowledgement(action: string, p: Inbound) returns (raised: Option<Exception>)
      modifies this`outbox
      ensures match Acknowledge(action, p)
        case Ok(r) => raised == None && outbox == old(outbox) + [ResultMessage(r)]
        case Err(e) => raised == Some(e) && outbox == old(outbox)
    {
      var requestId := RequestIdOf(p);
      if requestId.Err? {
        return Some(requestId.error);
      }
      outbox := outbox + [ResultMessage(CommandResult(action, requestId.value, true, None, None))];
      return None;
    }

    /** `cmd/reset`: publishes a success result with the request id; nothing else changes. */
    method OnCmdReset(p: Inbound) returns (raised: Option<Exception>)
      modifies this`outbox
      ensures match Acknowledge("reset", p)
        case Ok(r) => raised == None && outbox == old(outbox) + [ResultMessage(r)]
        case Err(e) => raised == Some(e) && outbox == old(outbox)
    {
      raised := Acknowledgement("reset", p);
    }

    /** `cmd/ping`: publishes a success result with the request id; nothing else changes. */
    method OnCmdPing(p: Inbound) returns (raised: Option<Exception>)
      modifies this`outbox
      ensures match Acknowledge("ping", p)
        case Ok(r) => raised == None && outbox == old(outbox) + [ResultMessage(r)]
        case Err(e) => raised == Some(e) && outbox == old(outbox)
    {
      raised := Acknowledgement("ping", p);
    }

    /**
      `cmd/cfg/set`: applies `logs_enabled` at once, merges `telemetry.metrics` into a
      copy of the metrics and stores the copy only when every entry succeeded; on success
      cfg is republished before the result.
     */
    method OnCmdCfgSet(p: Inbound) returns (raised: Option<Exception>)
      modifies this
      ensures match CfgSet(old(Stored()), p, STATE_METRICS)
        case Escaped(e) => raised == Some(e) && Stored() == old(Stored()) && outbox == old(outbox)
        case Handled(c, republished, r) =>
          && raised == None && Stored() == c
          && outbox == old(outbox) + (if republished then [CfgMessage(c.logsEnabled, c.metrics)] else []) + [ResultMessage(r)]
      ensures old(Valid()) ==> Valid()
    {
      if Valid() {
        CfgSetPreservesWellFormed(Stored(), p, STATE_METRICS);
      }
      var request := CfgRequestOf(p);
      if request.Err? {
        return Some(request.error);
      }
      var (requestId, setValue) := request.value;
      if !setValue.JObj? {
        Publish(false, Failed(requestId, SET_NOT_OBJECT));
        return None;
      }
      ApplySetDict(requestId, setValue.members);
      return None;
    }

    /** `cmd/cfg/set` once `set` is known to be a dict. */
    method ApplySetDict(requestId: Json, setDict: Members)
      modifies this
      ensures match ApplySet(old(Stored()), requestId, setDict, STATE_METRICS)
        case Handled(c, republished, r) =>
          && Stored() == c
          && outbox == old(outbox) + (if republished then [CfgMessage(c.logsEnabled, c.metrics)] else []) + [ResultMessage(r)]
        case Escaped(_) => false
    {
      ghost var before := Stored();
      var applied: Members := [];
      if "logs_enabled" in Keys(setDict) {
        logsEnabled := Truthy(Lookup(setDict, "logs_enabled").value);
        applied := Put(applied, "logs_enabled", JBool(logsEnabled));
      }
      assert logsEnabled == LogsAfter(before, setDict) && applied == AppliedLogs(before, setDict);
      if "telemetry" in Keys(setDict) {
        CommitTelemetry(requestId, Lookup(setDict, "telemetry").value, applied);
      } else {
        Publish(true, Succeeded(requestId, applied));
      }
    }

    /**
      The `telemetry` branch: a dict is merged into a copy of the metrics, the copy is
      committed, and cfg and the result are published; otherwise only the failure is.
     */
    method CommitTelemetry(requestId: Json, telemetry: Json, applied: Members)
      requires "telemetry" !in Keys(applied)
      modifies this`metrics, this`outbox
      ensures match ApplyTelemetrySet(old(Stored()), requestId, applied, telemetry, STATE_METRICS)
        case Handled(c, republished, r) =>
          && Stored() == c
          && outbox == old(outbox) + (if republished then [CfgMessage(c.logsEnabled, c.metrics)] else []) + [ResultMessage(r)]
        case Escaped(_) => false
    {
      ghost var h := ApplyTelemetrySet(Stored(), requestId, applied, telemetry, STATE_METRICS);
      var republish := false;
      var result: CommandResult;
      if !telemetry.JObj? {
        result := Failed(requestId, TELEMETRY_NOT_OBJECT);
      } else {
        var updated := ApplyTelemetry(metrics, telemetry.members);
        if updated.Err? {
          result := Failed(requestId, PyErrors.Message(updated.error));
        } else {
          PutAppends(applied, "telemetry", telemetry);
          metrics := updated.value;
          republish, result := true, Succeeded(requestId, Put(applied, "telemetry", telemetry));
        }
      }
      assert h == Handled(Stored(), republish, result);
      Publish(republish, result);
    }

    /** Publishes cfg, when asked to, and then the result. */
    method Publish(republish: bool, result: CommandResult)
      modifies this`outbox
      ensures outbox == old(outbox) + (if republish then [CfgMessage(logsEnabled, metrics)] else []) + [ResultMessage(result)]
    {
      if republish {
        outbox := outbox + [CfgMessage(logsEnabled, metrics)];
      }
      outbox := outbox + [ResultMessage(result)];
    }
  }
}
