/**
  The per-metric telemetry configuration of the fixture CPU component and the
  validate-and-merge step `cmd/cfg/set` applies to it: what becomes of one metric's
  entry (`Resolve`), the loop over `telemetry.metrics` in document order (`MergeFrom`,
  run by `MergeMetrics`), the backfill of metrics that exist in state but have no entry
  (`Backfilled`, run by `BackfillAvailable`), and the whole `telemetry` branch
  (`UpdateTelemetry`).
 */
module TelemetryConfig {
  import opened Wrappers
  import opened Json
  import opened PyErrors
  import opened Coerce

  type Metrics = map<string, Json>

  const ENABLED := "enabled"
  const INTERVAL_S := "interval_s"
  const CHANGE_THRESHOLD_PERCENT := "change_threshold_percent"

  /** The three fields every metric entry is given. */
  const REQUIRED_FIELDS: set<string> := {ENABLED, INTERVAL_S, CHANGE_THRESHOLD_PERCENT}

  const DEFAULT_INTERVAL := JInt(2)
  const DEFAULT_THRESHOLD := JFloat(Finite(2.0))

  /** The key set of the state payload: the metrics that exist in state. */
  const STATE_METRICS: set<string> := {"cpu_percent", "load"}

  /** A metric entry holding exactly the three fields, in the order the component writes them. */
  function Entry(enabled: bool, interval: Json, threshold: Json): Json {
    JObj([(ENABLED, JBool(enabled)), (INTERVAL_S, interval), (CHANGE_THRESHOLD_PERCENT, threshold)])
  }

  /** The entry a metric that exists in state but was never configured receives. */
  const BACKFILL_ENTRY := Entry(false, DEFAULT_INTERVAL, DEFAULT_THRESHOLD)

  /** The configuration installed when the retained topics are first published. */
  const INITIAL_METRICS: Metrics := map[
    "cpu_percent" := Entry(true, JInt(2), JFloat(Finite(2.0))),
    "load" := Entry(true, JInt(2), JFloat(Finite(2.0)))
  ]

  /** A metric entry as every path of the component leaves it: a dict that has the three fields. */
  predicate IsCompleteEntry(v: Json) {
    v.JObj? && REQUIRED_FIELDS <= Keys(v.members) && DistinctKeys(v.members)
  }

  /**
    The invariant of the stored configuration: exactly the metrics that exist in state
    have an entry, and each entry is complete.
   */
  predicate WellFormed(metrics: Metrics, available: set<string>) {
    && metrics.Keys == available
    && forall name :: name in metrics ==> IsCompleteEntry(metrics[name])
  }

  /** The value a missing field is filled with after a merge. */
  function FieldDefault(k: string): Option<Json> {
    if k == ENABLED then Some(JBool(false))
    else if k == INTERVAL_S then Some(DEFAULT_INTERVAL)
    else if k == CHANGE_THRESHOLD_PERCENT then Some(DEFAULT_THRESHOLD)
    else None
  }

  /** Gives each of the three fields that is missing its default value, in field order. */
  function FillMissing(ms: Members): (r: Members)
    ensures Keys(r) == Keys(ms) + REQUIRED_FIELDS
  {
    var a := if ENABLED in Keys(ms) then ms else Put(ms, ENABLED, JBool(false));
    var b := if INTERVAL_S in Keys(a) then a else Put(a, INTERVAL_S, DEFAULT_INTERVAL);
    if CHANGE_THRESHOLD_PERCENT in Keys(b) then b else Put(b, CHANGE_THRESHOLD_PERCENT, DEFAULT_THRESHOLD)
  }

  /** The current entry of a metric, if it has one. */
  function Existing(metrics: Metrics, name: string): Option<Json> {
    if name in metrics then Some(metrics[name]) else None
  }

  /**
    The new entry of a metric that exists in state, given its current entry and the
    value the request supplies for it. A current dict entry is overridden by the
    supplied dict and then backfilled; otherwise an entry is built afresh from the
    supplied value by `bool`, `int` and `float`, which raise in that order.
   */
  function Resolve(existing: Option<Json>, supplied: Json): (r: Result<Json, Exception>)
    ensures existing.Some? && existing.value.JObj? && !supplied.JObj? ==>
      r == Err(NotAMapping(TypeName(supplied)))
    ensures existing.Some? && existing.value.JObj? && supplied.JObj? ==> r.Ok? && r.value.JObj?
    ensures !(existing.Some? && existing.value.JObj?) && !supplied.JObj? ==>
      r == Ok(Entry(Truthy(supplied), DEFAULT_INTERVAL, DEFAULT_THRESHOLD))
    ensures !(existing.Some? && existing.value.JObj?) && supplied.JObj? ==>
      var ms := supplied.members;
      var interval := ToInt(Get(ms, INTERVAL_S, DEFAULT_INTERVAL));
      var threshold := ToFloat(Get(ms, CHANGE_THRESHOLD_PERCENT, DEFAULT_THRESHOLD));
      && (r.Ok? <==> interval.Ok? && threshold.Ok?)
      && (r.Ok? ==> r.value == Entry(Truthy(Get(ms, ENABLED, JBool(false))), JInt(interval.value), JFloat(threshold.value)))
      && (r.Err? ==> r.error == if interval.Err? then interval.error else threshold.error)
  {
    if existing.Some? && existing.value.JObj? then
      if supplied.JObj? then Ok(JObj(FillMissing(Merge(existing.value.members, supplied.members))))
      else Err(NotAMapping(TypeName(supplied)))
    else if supplied.JObj? then
      var ms := supplied.members;
      var enabled := Truthy(Get(ms, ENABLED, JBool(false)));
      match ToInt(Get(ms, INTERVAL_S, DEFAULT_INTERVAL))
      case Err(e) => Err(e)
      case Ok(interval) =>
        match ToFloat(Get(ms, CHANGE_THRESHOLD_PERCENT, DEFAULT_THRESHOLD))
        case Err(e) => Err(e)
        case Ok(threshold) => Ok(Entry(enabled, JInt(interval), JFloat(threshold)))
    else Ok(Entry(Truthy(supplied), DEFAULT_INTERVAL, DEFAULT_THRESHOLD))
  }

  /**
    The loop over the members of `telemetry.metrics`, in order: a name that does not
    exist in state is skipped, any other name's entry is resolved, and the first entry
    that raises ends the loop with its exception.
   */
  function MergeFrom(current: Metrics, updates: Members, available: set<string>): (r: Result<Metrics, Exception>)
    ensures r.Ok? ==> r.value.Keys == current.Keys + (Keys(updates) * available)
    decreases |updates|
  {
    if updates == [] then Ok(current)
    else
      var name := updates[0].0;
      if name !in available then MergeFrom(current, updates[1..], available)
      else
        match Resolve(Existing(current, name), updates[0].1)
        case Err(e) => Err(e)
        case Ok(entry) => MergeFrom(current[name := entry], updates[1..], available)
  }

  /** The metrics map with every metric that exists in state but has no entry given the backfill entry. */
  function Backfilled(current: Metrics, available: set<string>): Metrics {
    map name | name in current.Keys + available :: if name in current then current[name] else BACKFILL_ENTRY
  }

  /** `"metrics" in telemetry and isinstance(telemetry["metrics"], dict)`. */
  predicate HasMetricsObject(telemetry: Members) {
    var m := Lookup(telemetry, "metrics");
    m.Some? && m.value.JObj?
  }

  /**
    The `telemetry` branch of `cmd/cfg/set` on a copy of the stored metrics: merged and
    backfilled when `telemetry.metrics` is a dict, handed back unchanged otherwise.
   */
  function UpdateTelemetry(current: Metrics, telemetry: Members, available: set<string>): (r: Result<Metrics, Exception>)
    ensures !HasMetricsObject(telemetry) ==> r == Ok(current)
    ensures r.Ok? && HasMetricsObject(telemetry) ==> r.value.Keys == current.Keys + available
    ensures r.Ok? ==> r.value.Keys - current.Keys <= available
  {
    match Lookup(telemetry, "metrics")
    case Some(JObj(ms)) =>
      (match MergeFrom(current, ms, available)
       case Err(e) => Err(e)
       case Ok(merged) => Ok(Backfilled(merged, available)))
    case _ => Ok(current)
  }

  /** The loop of `MergeFrom`, run over a local copy of the metrics map. */
  method MergeMetrics(current: Metrics, updates: Members, available: set<string>) returns (r: Result<Metrics, Exception>)
    ensures r == MergeFrom(current, updates, available)
  {
    var metrics := current;
    var i := 0;
    while i < |updates|
      invariant i <= |updates|
      invariant MergeFrom(metrics, updates[i..], available) == MergeFrom(current, updates, available)
    {
      var name, supplied := updates[i].0, updates[i].1;
      assert updates[i..][1..] == updates[i + 1..];
      if name !in available {
        // the component logs "Ignoring metric not in state" and moves on
        i := i + 1;
        continue;
      }
      var entry := Resolve(if name in metrics then Some(metrics[name]) else None, supplied);
      if entry.Err? {
        return Err(entry.error);
      }
      metrics := metrics[name := entry.value];
      i := i + 1;
    }
    return Ok(metrics);
  }

  /** The backfill loop over the metrics that exist in state. */
  method BackfillAvailable(current: Metrics, available: set<string>) returns (metrics: Metrics)
    ensures metrics == Backfilled(current, available)
  {
    metrics := current;
    var pending := available;
    while pending != {}
      invariant pending <= available
      invariant metrics == Backfilled(current, available - pending)
      decreases pending
    {
      var name :| name in pending;
      if name !in metrics {
        metrics := metrics[name := BACKFILL_ENTRY];
      }
      pending := pending - {name};
    }
    assert available - pending == available;
  }

  /** After the backfill, a field that was present reads as before and a missing one reads as its default. */
  lemma FillMissingLookup(ms: Members, k: string)
    ensures Lookup(FillMissing(ms), k) == if k in Keys(ms) then Lookup(ms, k) else FieldDefault(k)
  {
    var a := if ENABLED in Keys(ms) then ms else Put(ms, ENABLED, JBool(false));
    var b := if INTERVAL_S in Keys(a) then a else Put(a, INTERVAL_S, DEFAULT_INTERVAL);
    if ENABLED !in Keys(ms) { PutLookup(ms, ENABLED, JBool(false), k); }
    if INTERVAL_S !in Keys(a) { PutLookup(a, INTERVAL_S, DEFAULT_INTERVAL, k); }
    if CHANGE_THRESHOLD_PERCENT !in Keys(b) { PutLookup(b, CHANGE_THRESHOLD_PERCENT, DEFAULT_THRESHOLD, k); }
  }

  lemma FillMissingDistinct(ms: Members)
    requires DistinctKeys(ms)
    ensures DistinctKeys(FillMissing(ms))
  {
    var a := if ENABLED in Keys(ms) then ms else Put(ms, ENABLED, JBool(false));
    var b := if INTERVAL_S in Keys(a) then a else Put(a, INTERVAL_S, DEFAULT_INTERVAL);
    if ENABLED !in Keys(ms) { PutDistinct(ms, ENABLED, JBool(false)); }
    if INTERVAL_S !in Keys(a) { PutDistinct(a, INTERVAL_S, DEFAULT_INTERVAL); }
    if CHANGE_THRESHOLD_PERCENT !in Keys(b) { PutDistinct(b, CHANGE_THRESHOLD_PERCENT, DEFAULT_THRESHOLD); }
  }

  /**
    A metric that already has a dict entry: every supplied key overrides the old value,
    every key not supplied keeps its old value, and of the three fields those still
    missing get `False`, `2` and `2.0`. No other key appears.
   */
  lemma ResolveOverridesThenFills(current: Members, supplied: Members, k: string)
    requires DistinctKeys(supplied)
    ensures var r := Resolve(Some(JObj(current)), JObj(supplied));
      && r.Ok? && r.value.JObj?
      && Keys(r.value.members) == Keys(current) + Keys(supplied) + REQUIRED_FIELDS
      && Lookup(r.value.members, k) ==
           if k in Keys(supplied) then Lookup(supplied, k)
           else if k in Keys(current) then Lookup(current, k)
           else FieldDefault(k)
  {
    var merged := Merge(current, supplied);
    MergeLookup(current, supplied, k);
    FillMissingLookup(merged, k);
  }

  /** Every entry `Resolve` yields is complete, provided a current dict entry has distinct keys. */
  lemma ResolveComplete(existing: Option<Json>, supplied: Json)
    requires existing.Some? && existing.value.JObj? ==> DistinctKeys(existing.value.members)
    ensures Resolve(existing, supplied).Ok? ==> IsCompleteEntry(Resolve(existing, supplied).value)
  {
    if existing.Some? && existing.value.JObj? && supplied.JObj? {
      var merged := Merge(existing.value.members, supplied.members);
      MergeDistinct(existing.value.members, supplied.members);
      FillMissingDistinct(merged);
    } else if Resolve(existing, supplied).Ok? {
      var e := Resolve(existing, supplied).value;
      EntryComplete(e.members[0].1.b, e.members[1].1, e.members[2].1);
    }
  }

  /**
    What the loop leaves in the metrics map, one name at a time: a name from the
    request that exists in state holds the entry `Resolve` makes of its supplied value
    and its entry before the request; every other name keeps its entry.
   */
  lemma {:induction false} MergeFromEntries(current: Metrics, updates: Members, available: set<string>, m: Metrics, name: string)
    requires DistinctKeys(updates)
    requires MergeFrom(current, updates, available) == Ok(m)
    ensures name in m <==> name in current || (name in available && name in Keys(updates))
    ensures name in available && name in Keys(updates) ==>
      Resolve(Existing(current, name), Lookup(updates, name).value) == Ok(m[name])
    ensures !(name in available && name in Keys(updates)) && name in current ==> m[name] == current[name]
    decreases |updates|
  {
    if updates != [] {
      var rest := updates[1..];
      var first := updates[0].0;
      DistinctTail(updates);
      if first !in available {
        MergeFromEntries(current, rest, available, m, name);
      } else {
        var entry := Resolve(Existing(current, first), updates[0].1).value;
        var next := current[first := entry];
        MergeFromEntries(next, rest, available, m, name);
        if name != first {
          assert Existing(next, name) == Existing(current, name);
        }
      }
    }
  }

  /** The request has an entry at position `i` that names a metric in state and raises. */
  predicate FailsAt(current: Metrics, updates: Members, available: set<string>, i: int)
    requires 0 <= i < |updates|
  {
    updates[i].0 in available && Resolve(Existing(current, updates[i].0), updates[i].1).Err?
  }

  /**
    The loop fails exactly when some entry for a metric in state raises, and the
    exception it reports is that of the first such entry in the request.
   */
  lemma {:induction false} MergeFromFailure(current: Metrics, updates: Members, available: set<string>)
    requires DistinctKeys(updates)
    ensures MergeFrom(current, updates, available).Err? <==>
      exists i :: 0 <= i < |updates| && FailsAt(current, updates, available, i)
    ensures MergeFrom(current, updates, available).Err? ==>
      exists i :: 0 <= i < |updates| && FailsAt(current, updates, available, i)
        && Resolve(Existing(current, updates[i].0), updates[i].1).error == MergeFrom(current, updates, available).error
        && forall j :: 0 <= j < i ==> !FailsAt(current, updates, available, j)
    decreases |updates|
  {
    if updates != [] {
      var rest := updates[1..];
      var first := updates[0].0;
      DistinctTail(updates);
      var r := Resolve(Existing(current, first), updates[0].1);
      if first in available && r.Err? {
        assert FailsAt(current, updates, available, 0);
      } else {
        var next := if first in available then current[first := r.value] else current;
        MergeFromFailure(next, rest, available);
        assert MergeFrom(current, updates, available) == MergeFrom(next, rest, available);
        forall j | 0 <= j < |rest|
          ensures FailsAt(next, rest, available, j) == FailsAt(current, updates, available, j + 1)
        {
          assert rest[j] == updates[j + 1];
          assert rest[j].0 != first by { assert updates[0].0 != updates[j + 1].0; }
          assert Existing(next, rest[j].0) == Existing(current, rest[j].0);
        }
        assert !FailsAt(current, updates, available, 0);
        if MergeFrom(next, rest, available).Err? {
          var i :| 0 <= i < |rest| && FailsAt(next, rest, available, i)
            && Resolve(Existing(next, rest[i].0), rest[i].1).error == MergeFrom(next, rest, available).error
            && forall j :: 0 <= j < i ==> !FailsAt(next, rest, available, j);
          assert FailsAt(current, updates, available, i + 1);
          assert forall j :: 0 <= j < i + 1 ==> !FailsAt(current, updates, available, j) by {
            forall j | 0 <= j < i + 1 ensures !FailsAt(current, updates, available, j) {
              if j > 0 { assert !FailsAt(next, rest, available, j - 1); }
            }
          }
        } else {
          forall i | 0 <= i < |updates| ensures !FailsAt(current, updates, available, i) {
            if i > 0 { assert !FailsAt(next, rest, available, i - 1); }
          }
        }
      }
    }
  }

  /** The loop keeps every entry complete when every entry it starts from is. */
  lemma {:induction false} MergeFromComplete(current: Metrics, updates: Members, available: set<string>)
    requires forall name :: name in current ==> IsCompleteEntry(current[name])
    ensures MergeFrom(current, updates, available).Ok? ==>
      forall name :: name in MergeFrom(current, updates, available).value ==>
        IsCompleteEntry(MergeFrom(current, updates, available).value[name])
    decreases |updates|
  {
    if updates != [] {
      var first := updates[0].0;
      if first !in available {
        MergeFromComplete(current, updates[1..], available);
      } else {
        ResolveComplete(Existing(current, first), updates[0].1);
        var r := Resolve(Existing(current, first), updates[0].1);
        if r.Ok? {
          MergeFromComplete(current[first := r.value], updates[1..], available);
        }
      }
    }
  }

  /** The stored configuration's invariant survives every successful `telemetry` update. */
  lemma UpdatePreservesWellFormed(current: Metrics, telemetry: Members, available: set<string>)
    requires WellFormed(current, available)
    ensures UpdateTelemetry(current, telemetry, available).Ok? ==>
      WellFormed(UpdateTelemetry(current, telemetry, available).value, available)
  {
    var m := Lookup(telemetry, "metrics");
    if m.Some? && m.value.JObj? {
      MergeFromComplete(current, m.value.members, available);
    }
  }

  /** The configuration installed at start satisfies the invariant. */
  lemma InitialWellFormed()
    ensures WellFormed(INITIAL_METRICS, STATE_METRICS)
  {
    EntryComplete(true, JInt(2), JFloat(Finite(2.0)));
  }

  /** An entry built afresh has exactly the three fields. */
  lemma EntryComplete(enabled: bool, interval: Json, threshold: Json)
    ensures IsCompleteEntry(Entry(enabled, interval, threshold))
    ensures Keys(Entry(enabled, interval, threshold).members) == REQUIRED_FIELDS
  {
    var ms := Entry(enabled, interval, threshold).members;
    assert ms[1..][1..][1..] == [];
    assert Keys(ms[1..][1..]) == {CHANGE_THRESHOLD_PERCENT};
    assert Keys(ms[1..]) == {INTERVAL_S, CHANGE_THRESHOLD_PERCENT};
  }

  /**
    All entries after a successful update where `telemetry.metrics` is a dict: a metric
    named in the request that exists in state holds what `Resolve` makes of the supplied
    value, a metric in state that has no entry and is not named holds the backfill
    entry, and every other entry is kept.
   */
  lemma UpdateTelemetryEntries(current: Metrics, telemetry: Members, available: set<string>, name: string)
    requires HasMetricsObject(telemetry)
    requires DistinctKeys(Lookup(telemetry, "metrics").value.members)
    requires UpdateTelemetry(current, telemetry, available).Ok?
    ensures var updates := Lookup(telemetry, "metrics").value.members;
      var m := UpdateTelemetry(current, telemetry, available).value;
      && (name in m <==> name in current || name in available)
      && (name in available && name in Keys(updates) ==>
            Resolve(Existing(current, name), Lookup(updates, name).value) == Ok(m[name]))
      && (name in available && name !in Keys(updates) && name !in current ==> m[name] == BACKFILL_ENTRY)
      && (name in current && !(name in available && name in Keys(updates)) ==> m[name] == current[name])
  {
    var updates := Lookup(telemetry, "metrics").value.members;
    var merged := MergeFrom(current, updates, available).value;
    MergeFromEntries(current, updates, available, merged, name);
  }

  /**
    In a well-formed configuration every metric in state already has a dict entry, so a
    request that gives such a metric a value that is not a dict always fails with
    TypeError, however the value would have read as a bool.
   */
  lemma ScalarForKnownMetricFails(current: Metrics, telemetry: Members, available: set<string>, i: int)
    requires WellFormed(current, available)
    requires HasMetricsObject(telemetry)
    requires var updates := Lookup(telemetry, "metrics").value.members;
      DistinctKeys(updates) && 0 <= i < |updates| && updates[i].0 in available && !updates[i].1.JObj?
    ensures UpdateTelemetry(current, telemetry, available).Err?
  {
    var updates := Lookup(telemetry, "metrics").value.members;
    assert FailsAt(current, updates, available, i);
    MergeFromFailure(current, updates, available);
  }
}
