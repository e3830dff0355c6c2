/** The JSON tree the catalog answers with, and the handful of Python
    operations the parsers apply to it: truthiness, `x or default`,
    `d.get(key)`, `d[key]`, `x[0]`, iteration and `str(x)`. */
module Payload {
  import opened Wrappers
  import opened Strings
  import opened Numbers
  import opened Errors

  datatype Json =
    | JNull
    | JBool(b: bool)
    | JInt(i: int)
    | JFloat(r: real)
    | JStr(s: string)
    | JArr(items: seq<Json>)
    | JObj(fields: map<string, Json>)

  /** Python's truth value: None, False, zero, and empty text, lists and
      dicts are false. */
  predicate Truthy(j: Json)
  {
    match j
    case JNull => false
    case JBool(b) => b
    case JInt(i) => i != 0
    case JFloat(r) => r != 0.0
    case JStr(s) => s != ""
    case JArr(xs) => xs != []
    case JObj(m) => m != map[]
  }

  /** `j or default`. */
  function Or(j: Json, default: Json): Json
  {
    if Truthy(j) then j else default
  }

  /** `d.get(key)` on a dict: a missing key reads as None. */
  function Get(d: map<string, Json>, key: string): Json
  {
    if key in d then d[key] else JNull
  }

  /** Calling a dict method on a value: anything but a dict raises. */
  function AsDict(j: Json): Result<map<string, Json>, Fault>
  {
    if j.JObj? then Ok(j.fields) else Err(Malformed)
  }

  /** `d[key]`: KeyError when the key is missing. */
  function Index(d: map<string, Json>, key: string): Result<Json, Fault>
  {
    if key in d then Ok(d[key]) else Err(Malformed)
  }

  /** `x[0]` on a truthy value: the first element of a list or the first
      character of a text; a dict (whose keys are text) and a number raise. */
  function First(j: Json): Result<Json, Fault>
    requires Truthy(j)
  {
    match j
    case JArr(xs) => Ok(xs[0])
    case JStr(s) => Ok(JStr([s[0]]))
    case _ => Err(Malformed)
  }

  /** `for x in j` where the loop body first calls a dict method on `x`.
      A list gives its elements; an empty text or dict gives nothing; a
      non-empty text or dict yields text elements, so the body raises on the
      first one before doing anything else; other values are not iterable. */
  function Elements(j: Json): Result<seq<Json>, Fault>
  {
    match j
    case JArr(xs) => Ok(xs)
    case JStr(s) => if s == "" then Ok([]) else Err(Malformed)
    case JObj(m) => if m == map[] then Ok([]) else Err(Malformed)
    case _ => Err(Malformed)
  }

  /** The text of a JSON string; any other value is read as absent. */
  function Text(j: Json): Option<string>
  {
    if j.JStr? then Some(j.s) else None
  }

  /** `repr()` of a text: single quotes unless the text holds a single quote
      and no double quote. */
  function QuoteText(s: string): string
  {
    var q := if '\'' in s && '"' !in s then '"' else '\'';
    [q] + Escape(s, q) + [q]
  }

  /** The Latin-1 characters that Python does not count as printable: the
      control characters, DEL, the C1 controls, the no-break space and the
      soft hyphen. */
  predicate Unprintable8(c: char)
  {
    c < ' ' || ('\U{7f}' <= c <= '\U{a0}') || c == '\U{ad}'
  }

  /** The lower-case hexadecimal digit of `d`. */
  function HexDigit(d: nat): char
    requires d < 16
  {
    if d < 10 then (48 + d) as char else (87 + d) as char
  }

  /** The `\xNN` escape of a character below 256. */
  function HexEscape(c: char): (r: string)
    requires c < '\U{100}'
    ensures |r| == 4 && r[..2] == "\\x"
  {
    var n := c as int;
    "\\x" + [HexDigit(n / 16), HexDigit(n % 16)]
  }

  function Escape(s: string, q: char): string
  {
    if s == [] then []
    else
      var c := s[0];
      (if c == '\\' || c == q then ['\\', c]
       else if c == '\n' then "\\n"
       else if c == '\r' then "\\r"
       else if c == '\t' then "\\t"
       else if Unprintable8(c) then HexEscape(c)
       else [c]) + Escape(s[1..], q)
  }

  /** A list holding a text with a no-break space shows it as `\xa0`. */
  lemma ReprEscapes()
    ensures Repr(JArr([JStr("a\U{a0}")])) == "['a\\xa0']"
  {
    assert Escape("a\U{a0}", '\'') == "a" + Escape("\U{a0}", '\'');
    assert HexEscape('\U{a0}') == "\\xa0";
    assert Escape("\U{a0}", '\'') == "\\xa0";
    assert QuoteText("a\U{a0}") == "'a\\xa0'";
  }

  /** `repr(x)`, as `str()` of a list shows its elements. */
  function Repr(j: Json): string
  {
    match j
    case JNull => "None"
    case JBool(b) => if b then "True" else "False"
    case JInt(i) => IntText(i)
    case JFloat(r) => FloatRepr(r)
    case JStr(s) => QuoteText(s)
    case JArr(xs) => "[" + Join(", ", seq(|xs|, k requires 0 <= k < |xs| => Repr(xs[k]))) + "]"
    case JObj(m) => if m == map[] then "{}" else "{...}"
  }

  /** `str(x)`. */
  function Str(j: Json): string
  {
    if j.JStr? then j.s else Repr(j)
  }

  /** `str()` of an int reads back with `int()`, and of a text is the text. */
  lemma StrRoundTrip(j: Json)
    ensures j.JInt? ==> ParseInt(Str(j)) == Some(j.i)
    ensures j.JStr? ==> Str(j) == j.s
  {
    if j.JInt? { ParseIntText(j.i); }
  }
}
