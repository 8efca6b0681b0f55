/** JSON values as serde_json represents them, and their compact text
    (the `to_string` of a `Value`). */
module Json {
  import opened Wrappers
  import opened Strings

  /** A JSON number: an integer, or a finite double given by the decimal text serde_json prints for it (the
      shortest text that reads back as the same double; floating point
      itself is not modelled). */
  datatype Number = Int(i: int) | Float(text: string)

  datatype Json =
    | Null
    | Bool(b: bool)
    | Num(n: Number)
    | Str(s: string)
    | Array(items: seq<Json>)
    | Object(fields: seq<(string, Json)>)

  /** The keys of an object, or of any list of pairs keyed by text, in
      their order. */
  function Keys<V>(fields: seq<(string, V)>): (ks: seq<string>)
    ensures |ks| == |fields| && forall i :: 0 <= i < |fields| ==> ks[i] == fields[i].0
  {
    seq(|fields|, i requires 0 <= i < |fields| => fields[i].0)
  }

  /** The values of an object, in the same order as its keys. */
  function Values(fields: seq<(string, Json)>): (vs: seq<Json>)
    ensures |vs| == |fields| && forall i :: 0 <= i < |fields| ==> vs[i] == fields[i].1
  {
    seq(|fields|, i requires 0 <= i < |fields| => fields[i].1)
  }

  /** No key occurs twice, as in every serde_json map. */
  predicate DistinctKeys(fields: seq<(string, Json)>)
  {
    forall i, j :: 0 <= i < j < |fields| ==> fields[i].0 != fields[j].0
  }

  /** The value stored under `key`. */
  function Get(fields: seq<(string, Json)>, key: string): Option<Json>
  {
    if |fields| == 0 then None
    else if fields[0].0 == key then Some(fields[0].1)
    else Get(fields[1..], key)
  }

  /** The lower-case hexadecimal digit of `d`. */
  function HexDigit(d: nat): char
    requires d < 16
  {
    "0123456789abcdef"[d]
  }

  /** The escape of one character inside a JSON string, as serde_json
      writes it: quote and backslash are escaped, control characters get
      their short escape or `\u00XX`, everything else stands for itself. */
  function EscapeChar(c: char): string
  {
    if c == '"' then "\\\""
    else if c == '\\' then "\\\\"
    else if c as int == 0x08 then "\\b"
    else if c as int == 0x0C then "\\f"
    else if c == '\n' then "\\n"
    else if c == '\r' then "\\r"
    else if c == '\t' then "\\t"
    else if c as int < 0x20 then "\\u00" + [HexDigit(c as int / 16), HexDigit(c as int % 16)]
    else [c]
  }

  function Escape(s: string): string
  {
    if |s| == 0 then "" else EscapeChar(s[0]) + Escape(s[1..])
  }

  /** A string in double quotes with its special characters escaped. */
  function Quote(s: string): string
  {
    "\"" + Escape(s) + "\""
  }

  function NumberText(n: Number): string
  {
    match n
    case Int(i) => IntToString(i)
    case Float(text) => text
  }

  /** The compact JSON text of a value: no whitespace, `,` between items and
      fields, `:` between a key and its value. */
  function ToText(v: Json): string
    decreases v, 1
  {
    match v
    case Null => "null"
    case Bool(b) => if b then "true" else "false"
    case Num(n) => NumberText(n)
    case Str(s) => Quote(s)
    case Array(items) => "[" + ItemsText(items, v) + "]"
    case Object(fields) => "{" + FieldsText(fields, v) + "}"
  }

  function ItemsText(items: seq<Json>, ghost parent: Json): string
    requires forall k :: 0 <= k < |items| ==> items[k] < parent
    decreases parent, 0, |items|
  {
    if |items| == 0 then ""
    else if |items| == 1 then ToText(items[0])
    else ToText(items[0]) + "," + ItemsText(items[1..], parent)
  }

  function FieldsText(fields: seq<(string, Json)>, ghost parent: Json): string
    requires forall k :: 0 <= k < |fields| ==> fields[k].1 < parent
    decreases parent, 0, |fields|
  {
    if |fields| == 0 then ""
    else
      var field := Quote(fields[0].0) + ":" + ToText(fields[0].1);
      if |fields| == 1 then field else field + "," + FieldsText(fields[1..], parent)
  }

  lemma ToTextExamples()
    ensures ToText(Null) == "null"
    ensures ToText(Num(Int(-20))) == "-20"
    ensures ToText(Array([Num(Int(1)), Bool(true)])) == "[1,true]"
    ensures ToText(Str("a\"b")) == "\"a\\\"b\""
  {
    var a := Array([Num(Int(1)), Bool(true)]);
    assert ItemsText([Num(Int(1)), Bool(true)], a) == "1,true";
    assert Escape("a\"b") == "a\\\"b";
  }
}
