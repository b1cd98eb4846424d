/**
 * Conversions between configuration values, preference values and the
 * strings the program compares (src/domains/convert.rs). src/util/convert.rs
 * and src/util/drs.rs carry the same `toml_to_prefvalue` and
 * `prefvalue_to_toml`, modelled once here.
 */
module DomainsConvert {
  import opened Wrappers
  import opened Toml
  import opened Prefs
  import Text

  /** A value holds a TOML date-time somewhere inside it. */
  predicate HasDatetime(v: Value)
    decreases v, 1
  {
    match v
    case Datetime(_) => true
    case Array(items) => ItemsHaveDatetime(items, |items|)
    case Table(entries) => EntriesHaveDatetime(entries, |entries|)
    case _ => false
  }

  /** One of the first `n` items holds a date-time. */
  predicate ItemsHaveDatetime(items: seq<Value>, n: nat)
    requires n <= |items|
    decreases Array(items), 0, n
  {
    n > 0 && (ItemsHaveDatetime(items, n - 1) || HasDatetime(items[n - 1]))
  }

  predicate EntriesHaveDatetime(entries: Entries, n: nat)
    requires n <= |entries|
    decreases Table(entries), 0, n
  {
    n > 0 && (EntriesHaveDatetime(entries, n - 1) || (assert entries[n - 1] in entries; HasDatetime(entries[n - 1].1)))
  }

  /** `toml_to_prefvalue`: the same shape as a preference value; a date-time anywhere fails. */
  function TomlToPref(v: Value): Result<PrefValue>
    decreases v, 1
  {
    match v
    case String(s) => Ok(PString(s))
    case Integer(i) => Ok(PInteger(i))
    case Float(f) => Ok(PFloat(f))
    case Boolean(b) => Ok(PBoolean(b))
    case Array(items) =>
      var r := ItemsToPref(items, |items|);
      if r.Err? then Err(r.error) else Ok(PArray(r.value))
    case Table(entries) =>
      var r := EntriesToPref(entries, |entries|);
      if r.Err? then Err(r.error) else Ok(PDictionary(r.value))
    case Datetime(_) => Err("Unsupported TOML value for PrefValue")
  }

  /** The first `n` array items, converted; the first failure fails the whole. */
  function ItemsToPref(items: seq<Value>, n: nat): (r: Result<seq<PrefValue>>)
    requires n <= |items|
    ensures r.Ok? ==> |r.value| == n
    decreases Array(items), 0, n
  {
    if n == 0 then Ok([])
    else
      var front := ItemsToPref(items, n - 1);
      if front.Err? then front
      else
        var last := TomlToPref(items[n - 1]);
        if last.Err? then Err(last.error) else Ok(front.value + [last.value])
  }

  function EntriesToPref(entries: Entries, n: nat): (r: Result<seq<(string, PrefValue)>>)
    requires n <= |entries|
    ensures r.Ok? ==> |r.value| == n
    decreases Table(entries), 0, n
  {
    if n == 0 then Ok([])
    else
      var front := EntriesToPref(entries, n - 1);
      if front.Err? then front
      else
        assert entries[n - 1] in entries;
        var last := TomlToPref(entries[n - 1].1);
        if last.Err? then Err(last.error) else Ok(front.value + [(entries[n - 1].0, last.value)])
  }

  /** `prefvalue_to_toml` */
  function PrefToToml(p: PrefValue): Value
    decreases p, 1
  {
    match p
    case PString(s) => String(s)
    case PInteger(i) => Integer(i)
    case PFloat(f) => Float(f)
    case PBoolean(b) => Boolean(b)
    case PArray(items) => Array(seq(|items|, k requires 0 <= k < |items| => PrefToToml(items[k])))
    case PDictionary(entries) => Table(seq(|entries|, k requires 0 <= k < |entries| => PrefEntryToToml(entries, k)))
  }

  function PrefEntryToToml(entries: seq<(string, PrefValue)>, k: nat): (string, Value)
    requires k < |entries|
    decreases PDictionary(entries), 0
  {
    assert entries[k] in entries;
    (entries[k].0, PrefToToml(entries[k].1))
  }

  /** Every preference value survives the trip to TOML and back. */
  lemma {:induction false} PrefTomlRoundTrip(p: PrefValue)
    ensures TomlToPref(PrefToToml(p)) == Ok(p)
    decreases p, 1
  {
    match p
    case PArray(items) =>
      var vs := seq(|items|, k requires 0 <= k < |items| => PrefToToml(items[k]));
      ItemsRoundTrip(items, vs, |items|);
      assert items[..|items|] == items;
      assert PrefToToml(p) == Array(vs);
    case PDictionary(entries) =>
      var es := seq(|entries|, k requires 0 <= k < |entries| => PrefEntryToToml(entries, k));
      EntriesRoundTrip(entries, es, |entries|);
      assert entries[..|entries|] == entries;
      assert PrefToToml(p) == Table(es);
    case _ =>
  }

  lemma {:induction false} ItemsRoundTrip(items: seq<PrefValue>, vs: seq<Value>, n: nat)
    requires |vs| == |items| && n <= |items|
    requires forall k :: 0 <= k < |items| ==> vs[k] == PrefToToml(items[k])
    ensures ItemsToPref(vs, n) == Ok(items[..n])
    decreases PArray(items), 0, n
  {
    if n > 0 {
      ItemsRoundTrip(items, vs, n - 1);
      PrefTomlRoundTrip(items[n - 1]);
      assert items[..n] == items[..n - 1] + [items[n - 1]];
    }
  }

  lemma {:induction false} EntriesRoundTrip(entries: seq<(string, PrefValue)>, es: Entries, n: nat)
    requires |es| == |entries| && n <= |entries|
    requires forall k :: 0 <= k < |entries| ==> es[k] == PrefEntryToToml(entries, k)
    ensures EntriesToPref(es, n) == Ok(entries[..n])
    decreases PDictionary(entries), 0, n
  {
    if n > 0 {
      EntriesRoundTrip(entries, es, n - 1);
      assert entries[n - 1] in entries;
      PrefTomlRoundTrip(entries[n - 1].1);
      assert entries[..n] == entries[..n - 1] + [entries[n - 1]];
    }
  }

  /** Conversion fails exactly on values that hold a date-time, and otherwise converts back unchanged. */
  lemma {:induction false} TomlPrefRoundTrip(v: Value)
    ensures TomlToPref(v).Err? <==> HasDatetime(v)
    ensures TomlToPref(v).Ok? ==> PrefToToml(TomlToPref(v).value) == v
    decreases v, 1
  {
    match v
    case Array(items) =>
      ItemsBack(items, |items|);
      var r := ItemsToPref(items, |items|);
      if r.Ok? {
        var back := seq(|r.value|, k requires 0 <= k < |r.value| => PrefToToml(r.value[k]));
        assert back == items;
      }
    case Table(entries) =>
      EntriesBack(entries, |entries|);
      var r := EntriesToPref(entries, |entries|);
      if r.Ok? {
        var back := seq(|r.value|, k requires 0 <= k < |r.value| => PrefEntryToToml(r.value, k));
        assert forall k :: 0 <= k < |entries| ==> back[k] == entries[k];
        assert back == entries;
      }
    case _ =>
  }

  lemma {:induction false} ItemsBack(items: seq<Value>, n: nat)
    requires n <= |items|
    ensures ItemsToPref(items, n).Err? <==> ItemsHaveDatetime(items, n)
    ensures ItemsToPref(items, n).Ok? ==>
      forall k :: 0 <= k < n ==> PrefToToml(ItemsToPref(items, n).value[k]) == items[k]
    decreases Array(items), 0, n
  {
    if n > 0 {
      ItemsBack(items, n - 1);
      TomlPrefRoundTrip(items[n - 1]);
    }
  }

  lemma {:induction false} EntriesBack(entries: Entries, n: nat)
    requires n <= |entries|
    ensures EntriesToPref(entries, n).Err? <==> EntriesHaveDatetime(entries, n)
    ensures EntriesToPref(entries, n).Ok? ==>
      forall k :: 0 <= k < n ==>
        EntriesToPref(entries, n).value[k].0 == entries[k].0
        && PrefToToml(EntriesToPref(entries, n).value[k].1) == entries[k].1
    decreases Table(entries), 0, n
  {
    if n > 0 {
      EntriesBack(entries, n - 1);
      assert entries[n - 1] in entries;
      TomlPrefRoundTrip(entries[n - 1].1);
    }
  }

  /** A value with no inner structure: what a string can be read back as. */
  predicate IsScalar(v: Value)
  {
    v.String? || v.Integer? || v.Float? || v.Boolean?
  }

  /**
   * `string_to_toml_value`: the words `true` and `false`, else an `i64`,
   * else an `f64`, else the text itself.
   */
  function StringToTomlValue(s: string, readF64: FloatReader): (r: Value)
    ensures IsScalar(r)
  {
    if s == "true" then Boolean(true)
    else if s == "false" then Boolean(false)
    else if Text.ParseI64(s).Some? then Integer(Text.ParseI64(s).value)
    else if !readF64(s).NotAFloat? then Float(readF64(s).f)
    else String(s)
  }

  /** `prefvalue_to_string`: the text a preference is shown and compared as. */
  function PrefValueToString(p: PrefValue): string
    decreases p, 1
  {
    match p
    case PBoolean(b) => if b then "true" else "false"
    case PInteger(i) => Text.I64Text(i)
    case PFloat(f) => f.display
    case PString(s) => s
    case PArray(items) =>
      "[" + Text.Join(seq(|items|, k requires 0 <= k < |items| => PrefValueToString(items[k])), ", ") + "]"
    case PDictionary(entries) =>
      "{" + Text.Join(seq(|entries|, k requires 0 <= k < |entries| => PrefEntryText(entries, k)), ", ") + "}"
  }

  function PrefEntryText(entries: seq<(string, PrefValue)>, k: nat): string
    requires k < |entries|
    decreases PDictionary(entries), 0
  {
    assert entries[k] in entries;
    entries[k].0 + ": " + PrefValueToString(entries[k].1)
  }

  /** `normalize`: a string is its own text, anything else its TOML text. */
  function Normalize(v: Value): string
  {
    if v.String? then v.s else TomlText(v)
  }

  /** The text a string reads as, converted for the preference store. */
  function RestoredValue(s: string, readF64: FloatReader): (p: PrefValue)
  {
    var v := StringToTomlValue(s, readF64);
    assert !HasDatetime(v);
    TomlPrefRoundTrip(v);
    TomlToPref(v).value
  }

  /** Reading a string as a value never fails to convert, and converts to the scalar read. */
  lemma RestoredValueShape(s: string, readF64: FloatReader)
    ensures TomlToPref(StringToTomlValue(s, readF64)) == Ok(RestoredValue(s, readF64))
    ensures PrefToToml(RestoredValue(s, readF64)) == StringToTomlValue(s, readF64)
  {
    TomlPrefRoundTrip(StringToTomlValue(s, readF64));
  }

  /** The text reads as none of `true`, `false`, an `i64` or an `f64`. */
  predicate PlainText(s: string, readF64: FloatReader)
  {
    s != "true" && s != "false" && Text.ParseI64(s).None? && readF64(s).NotAFloat?
  }

  /**
   * Booleans, integers and plain text come back as the same preference
   * after being shown as text and read back; a float does when the reader
   * reads its shown text as itself.
   */
  lemma ShownTextReadsBack(p: PrefValue, readF64: FloatReader)
    requires p.PBoolean? || (p.PInteger? && Text.IsI64(p.i)) || (p.PString? && PlainText(p.s, readF64))
      || (p.PFloat? && readF64(p.f.display) == Finite(p.f) && Text.ParseI64(p.f.display).None?
          && p.f.display != "true" && p.f.display != "false")
    ensures RestoredValue(PrefValueToString(p), readF64) == p
  {
    if p.PInteger? {
      Text.ParseI64OfText(p.i);
      Text.I64TextHasNoLetter(p.i);
      var t := Text.I64Text(p.i);
      assert t != "true" by { assert Text.IsAsciiLetter("true"[0]); }
      assert t != "false" by { assert Text.IsAsciiLetter("false"[0]); }
    }
  }

  /** A string preference whose text looks like a number comes back as a number. */
  lemma NumericTextChangesType(readF64: FloatReader)
    ensures RestoredValue(PrefValueToString(PString("42")), readF64) == PInteger(42)
  {
    assert Text.AllDigits("42");
    assert Text.DigitsValue("42") == 42 by {
      assert "42"[..1] == "4";
      assert Text.DigitsValue("4") == 4 by { assert "4"[..0] == ""; }
    }
  }

  /**
   * For the values a configuration is written with (booleans, integers,
   * strings), the text the store shows after the write is the value's
   * normal form: what status and apply compare against.
   */
  lemma ShownTextIsNormalForm(v: Value)
    requires v.Boolean? || v.Integer? || v.String?
    ensures TomlToPref(v).Ok?
    ensures PrefValueToString(TomlToPref(v).value) == Normalize(v)
  {
  }

  /** A float's shown text and its normal form are its two renderings. */
  lemma FloatTextsMayDiffer(f: F64)
    ensures PrefValueToString(TomlToPref(Float(f)).value) == f.display
    ensures Normalize(Float(f)) == f.toml
  {
  }
}
