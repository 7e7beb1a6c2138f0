/**
 * JavaScript values produced by `JSON.parse`, with the property access,
 * truthiness and `String(value)` conversions the modelled code applies to
 * them. Parsing itself is not modelled: callers receive values of this type.
 */
module Json {
  import opened Wrappers
  import opened Strings

  /** A number carries its `String(n)` rendering (so `0` and `-0` are both "0"). */
  datatype Json =
    | Null
    | Bool(b: bool)
    | Num(text: string)
    | Str(s: string)
    | Arr(items: seq<Json>)
    | Obj(fields: map<string, Json>)

  /** JavaScript truthiness of a parsed value. */
  predicate Truthy(j: Json) {
    match j
    case Null => false
    case Bool(b) => b
    case Num(t) => t != "0" && t != "NaN"
    case Str(s) => s != []
    case Arr(_) => true
    case Obj(_) => true
  }

  /** Truthiness of a value that may be `undefined` (None). */
  predicate TruthyOpt(o: Option<Json>) {
    o.Some? && Truthy(o.value)
  }

  /** `j?.key` and `j.key` on a non-null value: an own property of an object, else undefined. */
  function Get(j: Json, key: string): (r: Option<Json>)
    ensures r.Some? <==> j.Obj? && key in j.fields
  {
    match j
    case Obj(m) => if key in m then Some(m[key]) else None
    case _ => None
  }

  /** `o?.key` where `o` may itself be undefined or null. */
  function GetOpt(o: Option<Json>, key: string): Option<Json> {
    match o
    case Some(j) => Get(j, key)
    case None => None
  }

  /** `o?.[0]`: the first element of an array, or the first character of a string. */
  function FirstOpt(o: Option<Json>): Option<Json> {
    match o
    case Some(Arr(xs)) => if xs == [] then None else Some(xs[0])
    case Some(Str(s)) => if s == [] then None else Some(Str([s[0]]))
    case _ => None
  }

  /** `String(j)`. */
  function ToJsString(j: Json): string {
    match j
    case Null => "null"
    case Bool(b) => if b then "true" else "false"
    case Num(t) => t
    case Str(s) => s
    case Arr(xs) => JoinElements(xs)
    case Obj(_) => "[object Object]"
  }

  /** `Array.prototype.join(",")`, which renders null elements as empty text. */
  function JoinElements(xs: seq<Json>): string
    decreases xs
  {
    if xs == [] then []
    else
      var head := if xs[0].Null? then "" else ToJsString(xs[0]);
      if |xs| == 1 then head else head + "," + JoinElements(xs[1..])
  }

  /** `v` occurs somewhere inside `j` (or is `j`). */
  ghost predicate Within(v: Json, j: Json)
    decreases j
  {
    v == j
    || (j.Arr? && exists k :: 0 <= k < |j.items| && Within(v, j.items[k]))
    || (j.Obj? && exists key :: key in j.fields && Within(v, j.fields[key]))
  }

  // ---------------------------------------------------------------------------
  // `JSON.stringify` of a string, and reading the escapes back

  /** One character as `JSON.stringify` writes it inside a string literal. */
  function EscapeChar(c: char): (r: string)
    ensures r != []
    ensures r[0] == '\\' || (r == [c] && c != '"' && c >= ' ')
  {
    if c == '"' then "\\\""
    else if c == '\\' then "\\\\"
    else if c == '\U{8}' then "\\b"
    else if c == '\t' then "\\t"
    else if c == '\n' then "\\n"
    else if c == '\U{C}' then "\\f"
    else if c == '\r' then "\\r"
    else if c < ' ' then "\\u00" + [HexDigit(c as int / 16), HexDigit(c as int % 16)]
    else [c]
  }

  function EscapeString(s: string): string {
    if s == [] then [] else EscapeChar(s[0]) + EscapeString(s[1..])
  }

  /** `JSON.stringify(s)` for a string `s`. */
  function Quote(s: string): (r: string)
    ensures |r| >= 2 && r[0] == '"' && r[|r| - 1] == '"'
  {
    "\"" + EscapeString(s) + "\""
  }

  function Prepend(c: char, o: Option<string>): Option<string> {
    match o
    case Some(r) => Some([c] + r)
    case None => None
  }

  /** The character of a one-letter escape `\e`, when `e` names one. */
  function ShortEscape(e: char): Option<char> {
    if e == '"' then Some('"')
    else if e == '\\' then Some('\\')
    else if e == '/' then Some('/')
    else if e == 'b' then Some('\U{8}')
    else if e == 't' then Some('\t')
    else if e == 'n' then Some('\n')
    else if e == 'f' then Some('\U{C}')
    else if e == 'r' then Some('\r')
    else None
  }

  predicate HexAt(t: string, i: nat) {
    i < |t| && IsHexChar(LowerChar(t[i]))
  }

  /**
   * The contents of a JSON string literal read back into text, after section
   * 7 of RFC 8259; None for an unescaped quote or control character, an
   * unknown escape, or a `\u` escape of a surrogate.
   */
  function Unescape(t: string): (r: Option<string>)
    decreases |t|
  {
    if t == [] then Some([])
    else if t[0] == '\\' then
      if |t| < 2 then None
      else if ShortEscape(t[1]).Some? then Prepend(ShortEscape(t[1]).value, Unescape(t[2..]))
      else if t[1] == 'u' && HexAt(t, 2) && HexAt(t, 3) && HexAt(t, 4) && HexAt(t, 5) then
        var v := ((NibbleOf(LowerChar(t[2])) * 16 + NibbleOf(LowerChar(t[3]))) * 16
                  + NibbleOf(LowerChar(t[4]))) * 16 + NibbleOf(LowerChar(t[5]));
        if v < 0xD800 || 0xE000 <= v then Prepend(v as char, Unescape(t[6..])) else None
      else None
    else if t[0] == '"' || t[0] < ' ' then None
    else Prepend(t[0], Unescape(t[1..]))
  }

  /** Reading one escaped character off the front of a text. */
  lemma UnescapeChar(c: char, rest: string)
    ensures Unescape(EscapeChar(c) + rest) == Prepend(c, Unescape(rest))
  {
    var t := EscapeChar(c) + rest;
    if c < ' ' && c != '\U{8}' && c != '\t' && c != '\n' && c != '\U{C}' && c != '\r' {
      var hi, lo := c as int / 16, c as int % 16;
      assert t[1] == 'u' && t[2] == '0' && t[3] == '0' && t[4] == HexDigit(hi) && t[5] == HexDigit(lo);
      NibbleOfDigit(hi);
      NibbleOfDigit(lo);
      assert t[6..] == rest;
    } else if EscapeChar(c)[0] == '\\' {
      assert t[2..] == rest;
    } else {
      assert t[1..] == rest;
    }
  }

  /** `JSON.stringify` loses nothing: its escapes read back to the original text. */
  lemma {:induction false} UnescapeEscape(s: string)
    ensures Unescape(EscapeString(s)) == Some(s)
  {
    if s != [] {
      UnescapeChar(s[0], EscapeString(s[1..]));
      UnescapeEscape(s[1..]);
      assert [s[0]] + s[1..] == s;
    }
  }
}
