/** The values `json.loads` produces, as the modelled code sees them, with the
    three ways the code turns such a value into text: `str()`, `json.dumps`
    and `type(v).__name__`. */
module PyJson {
  import opened Wrappers
  import opened PyText

  /** The text Python prints for a parsed JSON number (its `repr`, which `str()`
      and `json.dumps` both print); it is never empty. */
  type NumText = s: string | |s| > 0 witness "0"

  /** A parsed JSON value. An object keeps its entries in insertion order, as a
      Python `dict` does. */
  datatype Json =
    | Null
    | Bool(b: bool)
    | Num(text: NumText)
    | Str(s: string)
    | Arr(items: seq<Json>)
    | Obj(fields: seq<(string, Json)>)

  /** The outcome of `json.loads` on one text: a value, or the message of the
      `JSONDecodeError` it raises. */
  datatype Parse = Invalid(message: string) | Valid(value: Json)

  /** Neither a list nor an object. */
  predicate IsScalar(j: Json) {
    !j.Arr? && !j.Obj?
  }

  /** `d.get(key)` on an object's entries. When a key occurs twice the last
      entry wins, as it does in the `dict` that `json.loads` builds. */
  function Lookup(fields: seq<(string, Json)>, key: string): Option<Json> {
    if fields == [] then None
    else if fields[|fields| - 1].0 == key then Some(fields[|fields| - 1].1)
    else Lookup(fields[..|fields| - 1], key)
  }

  /** `Lookup` finds nothing exactly when no entry has the key, and otherwise
      the value of the last entry that has it. */
  lemma {:induction false} LookupFindsLastEntry(fields: seq<(string, Json)>, key: string)
    ensures Lookup(fields, key).None? <==> forall i :: 0 <= i < |fields| ==> fields[i].0 != key
    ensures Lookup(fields, key).Some? ==>
              exists i :: 0 <= i < |fields| && fields[i] == (key, Lookup(fields, key).value) &&
                          forall j :: i < j < |fields| ==> fields[j].0 != key
  {
    if fields != [] && fields[|fields| - 1].0 != key {
      var init := fields[..|fields| - 1];
      LookupFindsLastEntry(init, key);
      if Lookup(init, key).Some? {
        var i :| 0 <= i < |init| && init[i] == (key, Lookup(init, key).value) &&
                 forall j :: i < j < |init| ==> init[j].0 != key;
        assert fields[i] == init[i];
      }
    }
  }

  /** The literal of a JSON integer: an optional minus sign and digits. */
  predicate IsIntText(t: string) {
    forall i :: 0 <= i < |t| ==> ('0' <= t[i] <= '9' || (i == 0 && t[i] == '-' && |t| > 1))
  }

  /** `type(v).__name__` of the Python value `json.loads` builds. */
  function TypeName(j: Json): string {
    match j
    case Null => "NoneType"
    case Bool(_) => "bool"
    case Num(t) => if IsIntText(t) then "int" else "float"
    case Str(_) => "str"
    case Arr(_) => "list"
    case Obj(_) => "dict"
  }

  /** `sep.join(parts)`. */
  function Join(parts: seq<string>, sep: string): string {
    if parts == [] then ""
    else if |parts| == 1 then parts[0]
    else parts[0] + sep + Join(parts[1..], sep)
  }

  /** Python's `repr` of a string, in its common single-quoted form. */
  function QuoteRepr(s: string): string {
    "'" + s + "'"
  }

  /** `repr(v)`: how a value prints inside a list or dict. */
  function Repr(j: Json): (r: string)
    ensures r != []
  {
    match j
    case Null => "None"
    case Bool(b) => if b then "True" else "False"
    case Num(t) => t
    case Str(s) => QuoteRepr(s)
    case Arr(items) =>
      "[" + Join(seq(|items|, i requires 0 <= i < |items| => Repr(items[i])), ", ") + "]"
    case Obj(fields) =>
      "{" + Join(seq(|fields|, i requires 0 <= i < |fields| =>
                       QuoteRepr(fields[i].0) + ": " + Repr(fields[i].1)), ", ") + "}"
  }

  /** `str(v)`: a string is itself, every other value prints as its `repr`.
      Only the empty string gives the empty text; `None` gives `"None"`. */
  function PyStr(j: Json): (r: string)
    ensures r == "" <==> j == Str("")
    ensures j.Str? ==> r == j.s
    ensures j == Null ==> r == "None"
  {
    if j.Str? then j.s else Repr(j)
  }

  function HexDigit(d: nat): char
    requires d < 16
  {
    "0123456789abcdef"[d]
  }

  /** How `json.dumps` writes one character of a string: the quote, the
      backslash and the controls below U+0020 are escaped, everything else
      (non-ASCII included, since the code passes `ensure_ascii=False`) is
      written as it is. */
  function EscapeChar(c: char): string {
    if c == '"' then "\\\""
    else if c == '\\' then "\\\\"
    else if c == '\n' then "\\n"
    else if c == '\r' then "\\r"
    else if c == '\t' then "\\t"
    else if c == '\U{8}' then "\\b"
    else if c == '\U{C}' then "\\f"
    else if c < ' ' then "\\u00" + [HexDigit(c as int / 16), HexDigit(c as int % 16)]
    else [c]
  }

  function Escape(s: string): string {
    if s == [] then "" else EscapeChar(s[0]) + Escape(s[1..])
  }

  function Quote(s: string): string {
    "\"" + Escape(s) + "\""
  }

  /** `json.dumps(v, ensure_ascii=False)` with its default separators `", "`
      and `": "`. */
  function Dumps(j: Json): (r: string)
    ensures r != []
  {
    match j
    case Null => "null"
    case Bool(b) => if b then "true" else "false"
    case Num(t) => t
    case Str(s) => Quote(s)
    case Arr(items) =>
      "[" + Join(seq(|items|, i requires 0 <= i < |items| => Dumps(items[i])), ", ") + "]"
    case Obj(fields) =>
      "{" + Join(seq(|fields|, i requires 0 <= i < |fields| =>
                       Quote(fields[i].0) + ": " + Dumps(fields[i].1)), ", ") + "}"
  }
}
