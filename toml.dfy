/**
 * The `toml::Value` tree the configuration is parsed into, and its text
 * (`Value::to_string`).
 *
 * A 64-bit float is kept abstract: the model never computes with one and
 * only carries the two texts the program prints for it, Rust's `Display`
 * text and the TOML text. Reading a float out of a string (`str::parse::<f64>`)
 * is a parameter of the operations that need it.
 */
module Toml {
  import opened Wrappers
  import Text

  datatype F64 = F64(display: string, toml: string)

  /** What `str::parse::<f64>` makes of a string. */
  datatype FloatRead = NotAFloat | Finite(f: F64) | NonFinite(f: F64)

  /** `str::parse::<f64>`, supplied by the caller. */
  type FloatReader = string -> FloatRead

  /**
   * A TOML value. A table is the sequence of its entries in the order
   * the table iterates them.
   */
  datatype Value =
    | String(s: string)
    | Integer(i: int)
    | Float(f: F64)
    | Boolean(b: bool)
    | Datetime(text: string)
    | Array(items: seq<Value>)
    | Table(entries: seq<(string, Value)>)

  type Entries = seq<(string, Value)>

  /** The value stored under `key` in a table, if any. */
  function Get(t: Entries, key: string): (r: Option<Value>)
    ensures r.Some? <==> exists i :: 0 <= i < |t| && t[i].0 == key
    ensures r.Some? ==> exists i :: 0 <= i < |t| && t[i] == (key, r.value)
  {
    if |t| == 0 then None
    else if t[0].0 == key then Some(t[0].1)
    else Get(t[1..], key)
  }

  /** A TOML basic string: quotes around the text, with `"` and `\` escaped. */
  function Quoted(s: string): string
  {
    "\"" + Escaped(s) + "\""
  }

  function Escaped(s: string): string
  {
    if |s| == 0 then ""
    else (if s[0] == '"' || s[0] == '\\' then ['\\', s[0]] else [s[0]]) + Escaped(s[1..])
  }

  /** `Value::to_string`: the value written as TOML, tables inline. */
  function TomlText(v: Value): string
    decreases v
  {
    match v
    case String(s) => Quoted(s)
    case Integer(i) => Text.I64Text(i)
    case Float(f) => f.toml
    case Boolean(b) => if b then "true" else "false"
    case Datetime(d) => d
    case Array(items) =>
      "[" + Text.Join(seq(|items|, k requires 0 <= k < |items| => TomlText(items[k])), ", ") + "]"
    case Table(entries) =>
      if |entries| == 0 then "{}"
      else "{ " + Text.Join(seq(|entries|, k requires 0 <= k < |entries| => EntryText(entries, k)), ", ") + " }"
  }

  function EntryText(entries: Entries, k: nat): string
    requires k < |entries|
    decreases Table(entries), 0
  {
    assert entries[k] in entries;
    entries[k].0 + " = " + TomlText(entries[k].1)
  }
}
