/**
  The values `json.loads` produces, and the handful of Python dict operations the
  component applies to them.

  A JSON object is kept as the ordered list of its members: a Python dict remembers
  insertion order, the decoder inserts members in document order, and the component
  iterates over `telemetry.metrics` in that order, so the order decides which
  entry's exception is reported.
 */
module Json {
  import opened Wrappers

  /** A Python float: a finite value (kept exactly, without rounding), an infinity or NaN. */
  datatype Float = Finite(r: real) | Infinity(negative: bool) | NaN

  datatype Json =
    | JNull
    | JBool(b: bool)
    | JInt(i: int)
    | JFloat(f: Float)
    | JStr(s: string)
    | JArr(items: seq<Json>)
    | JObj(members: seq<(string, Json)>)

  type Members = seq<(string, Json)>

  /** The key set of a dict. */
  function Keys(ms: Members): set<string> {
    if ms == [] then {} else {ms[0].0} + Keys(ms[1..])
  }

  /** The key set holds the key of every member, and nothing else. */
  lemma {:induction false} KeysIndex(ms: Members)
    ensures forall i :: 0 <= i < |ms| ==> ms[i].0 in Keys(ms)
    ensures forall k :: k in Keys(ms) ==> exists i :: 0 <= i < |ms| && ms[i].0 == k
  {
    if ms != [] {
      KeysIndex(ms[1..]);
      forall i | 0 < i < |ms| ensures ms[i].0 in Keys(ms) {
        assert ms[i] == ms[1..][i - 1];
      }
      forall k | k in Keys(ms) ensures exists i :: 0 <= i < |ms| && ms[i].0 == k {
        if k != ms[0].0 {
          var j :| 0 <= j < |ms[1..]| && ms[1..][j].0 == k;
          assert ms[j + 1].0 == k;
        }
      }
    }
  }

  /** What a Python dict guarantees of its members: no key occurs twice. */
  predicate DistinctKeys(ms: Members) {
    forall i, j :: 0 <= i < j < |ms| ==> ms[i].0 != ms[j].0
  }

  /** `d[k]` when `k in d`, and `None` otherwise: the value of the first member with key `k`. */
  function Lookup(ms: Members, k: string): (r: Option<Json>)
    ensures r.Some? <==> k in Keys(ms)
    ensures r.Some? ==> exists i :: 0 <= i < |ms| && ms[i] == (k, r.value)
  {
    if ms == [] then None
    else if ms[0].0 == k then Some(ms[0].1)
    else Lookup(ms[1..], k)
  }

  /** `d.get(k, default)`. */
  function Get(ms: Members, k: string, default: Json): (r: Json)
    ensures k in Keys(ms) ==> Some(r) == Lookup(ms, k)
    ensures k !in Keys(ms) ==> r == default
  {
    match Lookup(ms, k)
    case Some(v) => v
    case None => default
  }

  /** `d[k] = v`: an existing key keeps its position and takes the new value; a new key goes last. */
  function Put(ms: Members, k: string, v: Json): (r: Members)
    ensures Keys(r) == Keys(ms) + {k}
  {
    if ms == [] then [(k, v)]
    else if ms[0].0 == k then [(k, v)] + ms[1..]
    else [ms[0]] + Put(ms[1..], k, v)
  }

  /** The dict display `{**a, **b}`: the members of `a`, overridden and extended by those of `b`. */
  function Merge(a: Members, b: Members): (r: Members)
    ensures Keys(r) == Keys(a) + Keys(b)
    decreases |b|
  {
    if b == [] then a else Merge(Put(a, b[0].0, b[0].1), b[1..])
  }

  /** After `d[k] = v`, `d[k]` is `v` and every other key reads as before. */
  lemma {:induction false} PutLookup(ms: Members, k: string, v: Json, k': string)
    ensures Lookup(Put(ms, k, v), k') == if k' == k then Some(v) else Lookup(ms, k')
  {
    if ms != [] && ms[0].0 != k {
      PutLookup(ms[1..], k, v, k');
    }
  }

  /** Assigning to a dict keeps its keys distinct; a new key is appended at the end. */
  lemma {:induction false} PutDistinct(ms: Members, k: string, v: Json)
    requires DistinctKeys(ms)
    ensures DistinctKeys(Put(ms, k, v))
  {
    if ms != [] {
      DistinctTail(ms);
      if ms[0].0 == k {
        DistinctCons((k, v), ms[1..]);
      } else {
        PutDistinct(ms[1..], k, v);
        DistinctCons(ms[0], Put(ms[1..], k, v));
      }
    }
  }

  /** A member put in front of a dict keeps the keys distinct exactly when its key is new. */
  lemma DistinctCons(m: (string, Json), ms: Members)
    ensures DistinctKeys([m] + ms) <==> DistinctKeys(ms) && m.0 !in Keys(ms)
  {
    var r := [m] + ms;
    KeysIndex(ms);
    if DistinctKeys(r) {
      forall i, j | 0 <= i < j < |ms| ensures ms[i].0 != ms[j].0 {
        assert ms[i] == r[i + 1] && ms[j] == r[j + 1];
      }
      forall i | 0 <= i < |ms| ensures ms[i].0 != m.0 {
        assert r[0] == m && ms[i] == r[i + 1];
      }
    }
    if DistinctKeys(ms) && m.0 !in Keys(ms) {
      forall i, j | 0 <= i < j < |r| ensures r[i].0 != r[j].0 {
        assert r[j] == ms[j - 1];
        if i > 0 {
          assert r[i] == ms[i - 1];
        }
      }
    }
  }

  /** Assigning to a key the dict does not have appends the member. */
  lemma {:induction false} PutAppends(ms: Members, k: string, v: Json)
    requires k !in Keys(ms)
    ensures Put(ms, k, v) == ms + [(k, v)]
  {
    if ms != [] {
      PutAppends(ms[1..], k, v);
      assert [ms[0]] + (ms[1..] + [(k, v)]) == ms + [(k, v)];
    }
  }

  /** The members after the first of a dict have distinct keys, none of them the first key. */
  lemma DistinctTail(ms: Members)
    requires DistinctKeys(ms) && ms != []
    ensures DistinctKeys(ms[1..]) && ms[0].0 !in Keys(ms[1..])
  {
    var rest := ms[1..];
    KeysIndex(rest);
    forall i | 0 <= i < |rest| ensures rest[i].0 != ms[0].0 {
      assert rest[i] == ms[i + 1];
    }
    forall i, j | 0 <= i < j < |rest| ensures rest[i].0 != rest[j].0 {
      assert rest[i] == ms[i + 1] && rest[j] == ms[j + 1];
    }
  }

  /** `{**a, **b}` reads every key of `b` from `b` and every other key from `a`. */
  lemma {:induction false} MergeLookup(a: Members, b: Members, k: string)
    requires DistinctKeys(b)
    ensures Lookup(Merge(a, b), k) == if k in Keys(b) then Lookup(b, k) else Lookup(a, k)
    decreases |b|
  {
    if b != [] {
      var a' := Put(a, b[0].0, b[0].1);
      assert DistinctKeys(b[1..]);
      MergeLookup(a', b[1..], k);
      PutLookup(a, b[0].0, b[0].1, k);
      if k == b[0].0 {
        assert k !in Keys(b[1..]);
      }
    }
  }

  /** `{**a, **b}` has distinct keys when `a` has. */
  lemma {:induction false} MergeDistinct(a: Members, b: Members)
    requires DistinctKeys(a)
    ensures DistinctKeys(Merge(a, b))
    decreases |b|
  {
    if b != [] {
      PutDistinct(a, b[0].0, b[0].1);
      MergeDistinct(Put(a, b[0].0, b[0].1), b[1..]);
    }
  }

  /** Python's `bool(v)`: `None`, false, zero and empty containers are false; NaN is true. */
  predicate Truthy(v: Json): (t: bool)
    ensures !t <==> v in {JNull, JBool(false), JInt(0), JFloat(Finite(0.0)), JStr(""), JArr([]), JObj([])}
  {
    match v
    case JNull => false
    case JBool(b) => b
    case JInt(i) => i != 0
    case JFloat(f) => !(f.Finite? && f.r == 0.0)
    case JStr(s) => s != ""
    case JArr(items) => items != []
    case JObj(ms) => ms != []
  }

  /** `type(v).__name__` for a decoded value, as Python's error messages spell it. */
  function TypeName(v: Json): (n: string)
    ensures (n == "NoneType" <==> v.JNull?) && (n == "bool" <==> v.JBool?) && (n == "int" <==> v.JInt?)
    ensures (n == "float" <==> v.JFloat?) && (n == "str" <==> v.JStr?)
    ensures (n == "list" <==> v.JArr?) && (n == "dict" <==> v.JObj?)
  {
    match v
    case JNull => "NoneType"
    case JBool(_) => "bool"
    case JInt(_) => "int"
    case JFloat(_) => "float"
    case JStr(_) => "str"
    case JArr(_) => "list"
    case JObj(_) => "dict"
  }
}
