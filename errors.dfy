/**
  The Python exceptions the command handlers can run into, and `str(exc)` for each,
  worded as CPython 3.10 and later word them (`repr` escapes only the characters
  listed at `Repr`; the 4300-digit limit on integer conversion of CPython 3.11 and
  3.10.7 is not modelled).
 */
module PyErrors {

  datatype Exception =
      /** AttributeError: a decoded payload that is not a dict has no `get`. */
    | NoAttribute(typeName: string, attribute: string)
      /** TypeError from the dict display `{**old, **value}` when `value` is not a dict. */
    | NotAMapping(typeName: string)
      /** TypeError from `int(v)` for a value that is neither a string nor a number. */
    | IntArgumentType(typeName: string)
      /** ValueError from `int(s)` for a string that is no base-10 integer literal. */
    | IntLiteral(text: string)
      /** OverflowError from `int(float('inf'))`. */
    | IntOfInfinity
      /** ValueError from `int(float('nan'))`. */
    | IntOfNaN
      /** OverflowError from `float(i)` for an integer too large for a binary64 value. */
    | IntTooLargeForFloat
      /** TypeError from `float(v)` for a value that is neither a string nor a number. */
    | FloatArgumentType(typeName: string)
      /** ValueError from `float(s)` for a string that is no float literal. */
    | FloatLiteral(text: string)

  /** `int(s)` quotes at most this many characters of `repr(s)` in its error (`%.200R`). */
  const INT_LITERAL_REPR_LIMIT := 200

  const INT_LITERAL_PREFIX := "invalid literal for int() with base 10: "
  const FLOAT_LITERAL_PREFIX := "could not convert string to float: "

  /** `str(exc)`: the text a failed `cfg/set` reports as its error. */
  function Message(e: Exception): (m: string)
    ensures |m| > 0
  {
    match e
    case NoAttribute(t, a) => "'" + t + "' object has no attribute '" + a + "'"
    case NotAMapping(t) => "'" + t + "' object is not a mapping"
    case IntArgumentType(t) =>
      "int() argument must be a string, a bytes-like object or a real number, not '" + t + "'"
    case IntLiteral(s) =>
      var quoted := Repr(s);
      INT_LITERAL_PREFIX + (if |quoted| <= INT_LITERAL_REPR_LIMIT then quoted else quoted[..INT_LITERAL_REPR_LIMIT])
    case IntOfInfinity => "cannot convert float infinity to integer"
    case IntOfNaN => "cannot convert float NaN to integer"
    case IntTooLargeForFloat => "int too large to convert to float"
    case FloatArgumentType(t) => "float() argument must be a string or a real number, not '" + t + "'"
    case FloatLiteral(s) => FLOAT_LITERAL_PREFIX + Repr(s)
  }

  /**
    `repr(s)`: single quotes unless `s` holds a single quote and no double quote;
    backslash, tab, newline, carriage return and the chosen quote are escaped.
   */
  function Repr(s: string): (r: string)
    ensures |r| >= 2 && r[0] == r[|r| - 1] && r[0] in "'\""
  {
    var quote := if '\'' in s && '"' !in s then '"' else '\'';
    [quote] + Escaped(s, quote) + [quote]
  }

  function Escaped(s: string, quote: char): string {
    if s == [] then ""
    else
      var c := s[0];
      var e :=
        if c == '\\' then "\\\\"
        else if c == '\t' then "\\t"
        else if c == '\n' then "\\n"
        else if c == '\r' then "\\r"
        else if c == quote then ['\\', c]
        else [c];
      e + Escaped(s[1..], quote)
  }

  /** The character a backslash escape stands for. */
  function EscapeMeaning(c: char): char {
    if c == 't' then '\t' else if c == 'n' then '\n' else if c == 'r' then '\r' else c
  }

  /** Reads a quoted body back: a backslash and the character after it stand for one character. */
  function Unescaped(t: string): string
    decreases |t|
  {
    if t == [] then ""
    else if t[0] == '\\' && |t| >= 2 then [EscapeMeaning(t[1])] + Unescaped(t[2..])
    else [t[0]] + Unescaped(t[1..])
  }

  /** Escaping with either quote character loses nothing: reading the escapes back gives the string. */
  lemma {:induction false} EscapedRoundTrip(s: string, quote: char)
    requires quote == '\'' || quote == '"'
    ensures Unescaped(Escaped(s, quote)) == s
  {
    if s != [] {
      EscapedRoundTrip(s[1..], quote);
      var c := s[0];
      var e := if c == '\\' then "\\\\"
        else if c == '\t' then "\\t"
        else if c == '\n' then "\\n"
        else if c == '\r' then "\\r"
        else if c == quote then ['\\', c]
        else [c];
      var rest := Escaped(s[1..], quote);
      assert Escaped(s, quote) == e + rest;
      if |e| == 2 {
        assert (e + rest)[2..] == rest;
      } else {
        assert (e + rest)[1..] == rest;
      }
    }
  }

  /** The text between the quotes of `repr(s)` reads back as `s`. */
  lemma ReprRoundTrip(s: string)
    ensures var r := Repr(s); Unescaped(r[1..|r| - 1]) == s
  {
    var quote := if '\'' in s && '"' !in s then '"' else '\'';
    EscapedRoundTrip(s, quote);
    var r := Repr(s);
    assert r[1..|r| - 1] == Escaped(s, quote);
  }

  /** `float(s)`'s ValueError text quotes the whole of `s` so that it reads back. */
  lemma FloatLiteralMessageQuotesText(s: string)
    ensures var m := Message(FloatLiteral(s)); var n := |FLOAT_LITERAL_PREFIX|;
      |m| >= n + 2 && m[..n] == FLOAT_LITERAL_PREFIX && Unescaped(m[n + 1..|m| - 1]) == s
  {
    ReprRoundTrip(s);
    var r := Repr(s);
    var m := FLOAT_LITERAL_PREFIX + r;
    assert m == Message(FloatLiteral(s));
    assert m[|FLOAT_LITERAL_PREFIX| + 1..|m| - 1] == r[1..|r| - 1];
  }

  /**
    `int(s)`'s ValueError text quotes `s` so that it reads back when `repr(s)` fits the
    200-character limit; a longer `repr` is cut to exactly that limit.
   */
  lemma IntLiteralMessageQuotesText(s: string)
    ensures var m := Message(IntLiteral(s)); var n := |INT_LITERAL_PREFIX|;
      && m[..n] == INT_LITERAL_PREFIX
      && (|Repr(s)| <= INT_LITERAL_REPR_LIMIT ==> Unescaped(m[n + 1..|m| - 1]) == s)
      && (|Repr(s)| > INT_LITERAL_REPR_LIMIT ==> m[n..] == Repr(s)[..INT_LITERAL_REPR_LIMIT])
  {
    var r := Repr(s);
    if |r| <= INT_LITERAL_REPR_LIMIT {
      IntLiteralMessageFits(s, r);
    } else {
      IntLiteralMessageCut(s, r);
    }
  }

  /** The case of `IntLiteralMessageQuotesText` where the whole `repr` is quoted. */
  lemma IntLiteralMessageFits(s: string, r: string)
    requires r == Repr(s) && |r| <= INT_LITERAL_REPR_LIMIT
    ensures var m := Message(IntLiteral(s)); var n := |INT_LITERAL_PREFIX|;
      m[..n] == INT_LITERAL_PREFIX && Unescaped(m[n + 1..|m| - 1]) == s
  {
    ReprRoundTrip(s);
    var m := INT_LITERAL_PREFIX + r;
    assert m == Message(IntLiteral(s));
    assert m[|INT_LITERAL_PREFIX| + 1..|m| - 1] == r[1..|r| - 1];
  }

  /** The case of `IntLiteralMessageQuotesText` where the `repr` is cut. */
  lemma IntLiteralMessageCut(s: string, r: string)
    requires r == Repr(s) && |r| > INT_LITERAL_REPR_LIMIT
    ensures var m := Message(IntLiteral(s)); var n := |INT_LITERAL_PREFIX|;
      m[..n] == INT_LITERAL_PREFIX && m[n..] == r[..INT_LITERAL_REPR_LIMIT]
  {
    var m := INT_LITERAL_PREFIX + r[..INT_LITERAL_REPR_LIMIT];
    assert m == Message(IntLiteral(s));
  }
}
