/**
 * src/util/convert.rs: its `toml_to_prefvalue`, `prefvalue_to_toml` and
 * `normalize` are the same text as src/domains/convert.rs (modelled in
 * `DomainsConvert`); its `string_to_toml_value` adds two guards.
 */
module UtilConvert {
  import opened Toml
  import Text
  import DomainsConvert

  /**
   * `string_to_toml_value`: the empty string stays a string, and a text
   * that parses to NaN or an infinity stays text instead of becoming a float.
   */
  function StringToTomlValue(s: string, readF64: FloatReader): (r: Value)
    ensures DomainsConvert.IsScalar(r)
    ensures r.Float? ==> readF64(s).Finite?
  {
    if |s| == 0 then String("")
    else if s == "true" then Boolean(true)
    else if s == "false" then Boolean(false)
    else if Text.ParseI64(s).Some? then Integer(Text.ParseI64(s).value)
    else if readF64(s).Finite? then Float(readF64(s).f)
    else String(s)
  }

  /**
   * The two readers agree on every input except a text that is neither a
   * boolean word nor an integer and parses to a non-finite float; on the
   * empty string the guard changes nothing, since it is no float.
   */
  lemma AgreesWithDomainsReader(s: string, readF64: FloatReader)
    requires readF64("") == NotAFloat
    ensures StringToTomlValue(s, readF64) != DomainsConvert.StringToTomlValue(s, readF64)
      <==> (s != "true" && s != "false" && Text.ParseI64(s).None? && readF64(s).NonFinite?)
  {
  }

  /** The cases the repository's own tests check, for a reader that reads `NaN` as NaN. */
  lemma ReaderEdgeCases(readF64: FloatReader)
    requires readF64("NaN").NonFinite?
    ensures StringToTomlValue("", readF64) == String("")
    ensures StringToTomlValue("true", readF64) == Boolean(true)
    ensures StringToTomlValue("false", readF64) == Boolean(false)
    ensures StringToTomlValue("42", readF64) == Integer(42)
    ensures StringToTomlValue("NaN", readF64) == String("NaN")
  {
    assert Text.AllDigits("42");
    assert Text.DigitsValue("42") == 42 by {
      assert "42"[..1] == "4";
      assert Text.DigitsValue("4") == 4 by { assert "4"[..0] == ""; }
    }
  }
}
