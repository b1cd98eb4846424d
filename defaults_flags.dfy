/**
 * The `defaults` command-line flags for a value (src/defaults/flags.rs).
 * `get_flag_and_value` in src/defaults.rs is the same text as `to_flag`,
 * and `normalize` here is the same text as `normalize` in src/util/drs.rs
 * and `normalize_desired` in src/defaults.rs; each is modelled once here.
 */
module DefaultsFlags {
  import opened Wrappers
  import opened Toml
  import Text
  import DomainsConvert

  /** `to_flag`: the type flag and the argument text for `defaults write`. */
  function ToFlag(v: Value): (r: Result<(string, string)>)
    ensures r.Ok? <==> DomainsConvert.IsScalar(v)
  {
    match v
    case Boolean(b) => Ok(("-bool", if b then "true" else "false"))
    case Integer(_) => Ok(("-int", TomlText(v)))
    case Float(_) => Ok(("-float", TomlText(v)))
    case String(s) => Ok(("-string", s))
    case _ => Err("Unsupported type encountered in configuration")
  }

  /**
   * `from_flag`: guesses the type flag for a text read back from `defaults`:
   * a boolean word or `1`/`0`, an integer, a float, else a string. It never
   * fails, and the text is passed on unchanged.
   */
  function FromFlag(s: string, readF64: FloatReader): (r: (string, string))
    ensures r.1 == s
    ensures r.0 == "-bool" <==> s in {"1", "0", "true", "false"}
    ensures r.0 == "-string" <==> DomainsConvert.PlainText(s, readF64) && s != "1" && s != "0"
  {
    if s == "1" || s == "0" || s == "true" || s == "false" then ("-bool", s)
    else if Text.ParseI64(s).Some? then ("-int", s)
    else if !readF64(s).NotAFloat? then ("-float", s)
    else ("-string", s)
  }

  /** `normalize`: booleans as `1`/`0` (how `defaults read` prints them), strings as themselves, the rest as TOML. */
  function Normalize(v: Value): (r: string)
    ensures v.Boolean? ==> r == (if v.b then "1" else "0")
    ensures !v.Boolean? ==> r == DomainsConvert.Normalize(v)
  {
    match v
    case Boolean(b) => if b then "1" else "0"
    case String(s) => s
    case _ => TomlText(v)
  }

  /**
   * The flag guessed back from the text written for a boolean, an integer
   * other than 0 and 1, or a plain string is the flag it was written with.
   */
  lemma FlagGuessedBack(v: Value, readF64: FloatReader)
    requires v.Boolean? || (v.Integer? && Text.IsI64(v.i) && v.i != 0 && v.i != 1) || (v.String? && DomainsConvert.PlainText(v.s, readF64) && v.s != "1" && v.s != "0")
    ensures ToFlag(v).Ok?
    ensures FromFlag(ToFlag(v).value.1, readF64).0 == ToFlag(v).value.0
  {
    if v.Integer? {
      Text.ParseI64OfText(v.i);
      var t := Text.I64Text(v.i);
      Text.I64TextHasNoLetter(v.i);
      assert t != "true" by { assert Text.IsAsciiLetter("true"[0]); }
      assert t != "false" by { assert Text.IsAsciiLetter("false"[0]); }
      assert Text.ParseI64("1") == Some(1) by { assert Text.DigitsValue("1") == 1 by { assert "1"[..0] == ""; } }
      assert Text.ParseI64("0") == Some(0) by { assert Text.DigitsValue("0") == 0 by { assert "0"[..0] == ""; } }
    }
  }

  /** The integers 1 and 0 are written as `-int` but guessed back as `-bool`. */
  lemma SmallIntegersGuessedAsBooleans(readF64: FloatReader)
    ensures ToFlag(Integer(1)) == Ok(("-int", "1"))
    ensures FromFlag("1", readF64).0 == "-bool"
  {
  }
}
