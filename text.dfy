/**
 * The pieces of Rust's `str` API that the program relies on, over `string`
 * (a sequence of Unicode scalar values): prefixes, joins, `trim`,
 * `split_whitespace`, `lines`, and the decimal text of an `i64`
 * (`i64::to_string` and `str::parse::<i64>`).
 */
module Text {
  import opened Wrappers

  predicate StartsWith(s: string, prefix: string)
  {
    |prefix| <= |s| && s[..|prefix|] == prefix
  }

  predicate EndsWith(s: string, suffix: string)
  {
    |suffix| <= |s| && s[|s| - |suffix|..] == suffix
  }

  /** `parts.join(sep)` */
  function Join(parts: seq<string>, sep: string): string
  {
    if |parts| == 0 then ""
    else if |parts| == 1 then parts[0]
    else parts[0] + sep + Join(parts[1..], sep)
  }

  /** Rust's `char::is_whitespace`: the Unicode White_Space property. */
  predicate IsWhitespace(c: char)
  {
    var n := c as int;
    (9 <= n <= 13) || n == 32 || n == 0x85 || n == 0xA0 || n == 0x1680
    || (0x2000 <= n <= 0x200A) || n == 0x2028 || n == 0x2029 || n == 0x202F
    || n == 0x205F || n == 0x3000
  }

  predicate IsAsciiDigit(c: char) { '0' <= c <= '9' }

  predicate IsAsciiLetter(c: char) { ('a' <= c <= 'z') || ('A' <= c <= 'Z') }

  /** `str::trim_start` */
  function TrimStart(s: string): (r: string)
    ensures |r| <= |s| && r == s[|s| - |r|..]
    ensures |r| > 0 ==> !IsWhitespace(r[0])
    ensures forall i :: 0 <= i < |s| - |r| ==> IsWhitespace(s[i])
  {
    if |s| > 0 && IsWhitespace(s[0]) then TrimStart(s[1..]) else s
  }

  /** `str::trim_end` */
  function TrimEnd(s: string): (r: string)
    ensures |r| <= |s| && r == s[..|r|]
    ensures |r| > 0 ==> !IsWhitespace(r[|r| - 1])
    ensures forall i :: |r| <= i < |s| ==> IsWhitespace(s[i])
  {
    if |s| > 0 && IsWhitespace(s[|s| - 1]) then TrimEnd(s[..|s| - 1]) else s
  }

  /** `str::trim`: no white space is left at either end. */
  function Trim(s: string): (r: string)
    ensures |r| > 0 ==> !IsWhitespace(r[0]) && !IsWhitespace(r[|r| - 1])
    ensures |r| <= |s|
  {
    TrimEnd(TrimStart(s))
  }

  /**
   * The non-empty runs of characters between separators, in order: what
   * `s.split(sep).filter(|t| !t.is_empty())` yields, and (with white space
   * as the separator) what `split_whitespace` yields. `run` is the part of
   * the current token read so far.
   */
  function Runs(s: string, sep: char -> bool, run: string): (r: seq<string>)
    requires forall c :: c in run ==> !sep(c)
    ensures forall i :: 0 <= i < |r| ==> |r[i]| > 0
    ensures forall i, c :: 0 <= i < |r| && c in r[i] ==> !sep(c)
    decreases |s|
  {
    if |s| == 0 then (if |run| == 0 then [] else [run])
    else if sep(s[0]) then (if |run| == 0 then [] else [run]) + Runs(s[1..], sep, "")
    else Runs(s[1..], sep, run + [s[0]])
  }

  function Tokens(s: string, sep: char -> bool): (r: seq<string>)
    ensures forall i :: 0 <= i < |r| ==> |r[i]| > 0
    ensures forall i, c :: 0 <= i < |r| && c in r[i] ==> !sep(c)
  {
    Runs(s, sep, "")
  }

  /** `str::split_whitespace` */
  function SplitWhitespace(s: string): (r: seq<string>)
    ensures forall i :: 0 <= i < |r| ==> |r[i]| > 0
    ensures forall i, c :: 0 <= i < |r| && c in r[i] ==> !IsWhitespace(c)
  {
    Tokens(s, IsWhitespace)
  }

  /** `s.split(c)`: every piece, empty ones included. */
  function Split(s: string, c: char): (r: seq<string>)
    ensures |r| > 0
    ensures forall i :: 0 <= i < |r| ==> c !in r[i]
  {
    if c !in s then [s]
    else
      var i := IndexOf(s, c);
      [s[..i]] + Split(s[i + 1..], c)
  }

  function IndexOf(s: string, c: char): (i: nat)
    requires c in s
    ensures i < |s| && s[i] == c && c !in s[..i]
  {
    if s[0] == c then 0 else 1 + IndexOf(s[1..], c)
  }

  /**
   * `str::lines`: split at `\n`, no empty piece after a final `\n`, and a
   * `\r` dropped only where a `\n` follows it (a bare `\r` at the very end
   * stays).
   */
  function Lines(s: string): (r: seq<string>)
    ensures forall i :: 0 <= i < |r| ==> '\n' !in r[i]
  {
    var pieces := Split(s, '\n');
    var kept := if pieces[|pieces| - 1] == "" then pieces[..|pieces| - 1] else pieces;
    seq(|kept|, i requires 0 <= i < |kept| =>
      if i < |pieces| - 1 && EndsWith(kept[i], "\r") then kept[i][..|kept[i]| - 1] else kept[i])
  }

  // ---- the decimal text of a 64-bit signed integer ----

  const MinI64: int := -0x8000_0000_0000_0000
  const MaxI64: int := 0x7FFF_FFFF_FFFF_FFFF

  predicate IsI64(i: int) { MinI64 <= i <= MaxI64 }

  predicate AllDigits(s: string) { forall i :: 0 <= i < |s| ==> IsAsciiDigit(s[i]) }

  function DigitChar(d: nat): char
    requires d < 10
  {
    ('0' as int + d) as char
  }

  /** The value of a run of decimal digits, read left to right. */
  function DigitsValue(s: string): nat
    requires AllDigits(s)
  {
    if |s| == 0 then 0
    else DigitsValue(s[..|s| - 1]) * 10 + (s[|s| - 1] as int - '0' as int)
  }

  /** Decimal digits of `n`, most significant first, with no leading zero. */
  function NatText(n: nat): (r: string)
    ensures |r| > 0 && AllDigits(r)
    ensures |r| > 1 ==> r[0] != '0'
  {
    if n < 10 then [DigitChar(n)] else NatText(n / 10) + [DigitChar(n % 10)]
  }

  /** `i64::to_string`: a minus sign for negative values, then the digits. */
  function I64Text(i: int): string
  {
    if i < 0 then "-" + NatText(-i) else NatText(i)
  }

  /**
   * `str::parse::<i64>`: an optional `+` or `-`, then at least one ASCII
   * digit and nothing else, and a value inside the `i64` range.
   */
  function ParseI64(s: string): (r: Option<int>)
    ensures r.Some? ==> IsI64(r.value)
    ensures r.Some? ==> |s| > 0
  {
    var negative := |s| > 0 && s[0] == '-';
    var body := if |s| > 0 && (s[0] == '-' || s[0] == '+') then s[1..] else s;
    if |body| == 0 || !AllDigits(body) then None
    else
      var v := if negative then -(DigitsValue(body) as int) else DigitsValue(body);
      if IsI64(v) then Some(v) else None
  }

  lemma {:induction false} NatTextValue(n: nat)
    ensures DigitsValue(NatText(n)) == n
  {
    if n >= 10 {
      NatTextValue(n / 10);
      var t := NatText(n);
      assert t[..|t| - 1] == NatText(n / 10);
    }
  }

  /** Printing an `i64` and parsing the text back gives the same number. */
  lemma ParseI64OfText(i: int)
    requires IsI64(i)
    ensures ParseI64(I64Text(i)) == Some(i)
  {
    var s := I64Text(i);
    if i < 0 {
      var t := NatText(-i);
      NatTextValue(-i);
      assert s == "-" + t;
      assert s[0] == '-' && s[1..] == t;
    } else {
      var t := NatText(i);
      NatTextValue(i);
      assert s == t;
      assert IsAsciiDigit(t[0]);
    }
  }

  /** The decimal text of an integer is never a word such as `true`. */
  lemma I64TextHasNoLetter(i: int)
    ensures forall k :: 0 <= k < |I64Text(i)| ==> !IsAsciiLetter(I64Text(i)[k])
  {
  }
}
