/**
 * The `$NAME` / `${NAME}` scanner that `substitute_variables` in
 * src/external.rs and `substitute` in src/exec/runner.rs and
 * src/external/runner.rs share, as the same text: a first pass records
 * the span of every reference, a second pass replaces the spans from the
 * last to the first, so that the positions found in the first pass stay
 * valid. The three files differ only in how a name is looked up, which is
 * a parameter here.
 *
 * Every `$` starts a span. A braced span (`${`) runs through the next `}`,
 * or to the end of the text when there is none; an unbraced span covers
 * the letters, digits and underscores after the `$` (possibly none).
 */
module Scanner {
  import opened Wrappers
  import Text

  /** What may follow `$` in an unbraced reference (`char::is_alphanumeric` or `_`, on ASCII text). */
  predicate IsNameChar(c: char)
  {
    Text.IsAsciiLetter(c) || Text.IsAsciiDigit(c) || c == '_'
  }

  /** The end of a braced span whose name starts at `i`: just past the next `}`, or the end of the text. */
  function BraceEnd(s: string, i: nat): (e: nat)
    requires i <= |s|
    ensures i <= e <= |s|
    decreases |s| - i
  {
    if i == |s| then |s|
    else if s[i] == '}' then i + 1
    else BraceEnd(s, i + 1)
  }

  /** The end of the run of name characters starting at `i`. */
  function WordEnd(s: string, i: nat): (e: nat)
    requires i <= |s|
    ensures i <= e <= |s|
    decreases |s| - i
  {
    if i == |s| then |s|
    else if IsNameChar(s[i]) then WordEnd(s, i + 1)
    else i
  }

  /** The end of the reference that starts with the `$` at `start`. */
  function SpanEnd(s: string, start: nat): (e: nat)
    requires start < |s| && s[start] == '$'
    ensures start < e <= |s|
  {
    if start + 1 < |s| && s[start + 1] == '{' then BraceEnd(s, start + 2) else WordEnd(s, start + 1)
  }

  /** The name inside a reference: between `${` and `}`, or after the `$`. */
  function NameOf(ref: string): (name: string)
    requires |ref| > 0
  {
    if Text.StartsWith(ref, "${") && Text.EndsWith(ref, "}") then
      assert ref[1] == '{' && ref[|ref| - 1] == '}';
      ref[2..|ref| - 1]
    else ref[1..]
  }

  /** The replacement of a reference: the looked-up value of its name, or the reference itself. */
  function Resolved(ref: string, lookup: string -> Option<string>): (r: string)
    requires |ref| > 0
    ensures lookup(NameOf(ref)).None? ==> r == ref
  {
    match lookup(NameOf(ref))
    case Some(v) => v
    case None => ref
  }

  /**
   * The text from position `i` on with every reference replaced, read from
   * left to right: the specification of the two-pass scanner. A
   * replacement is never scanned again.
   */
  function Expanded(s: string, i: nat, lookup: string -> Option<string>): string
    requires i <= |s|
    decreases |s| - i
  {
    if i == |s| then ""
    else if s[i] == '$' then
      var e := SpanEnd(s, i);
      Resolved(s[i..e], lookup) + Expanded(s, e, lookup)
    else [s[i]] + Expanded(s, i + 1, lookup)
  }

  /** No `$` between positions `a` and `b`. */
  predicate NoDollar(s: string, a: nat, b: nat)
    requires a <= b <= |s|
  {
    forall k :: a <= k < b ==> s[k] != '$'
  }

  /** The position of the first `$` at or after `i`, or the end of the text. */
  function NextRef(s: string, i: nat): (r: nat)
    requires i <= |s|
    ensures i <= r <= |s|
    ensures r < |s| ==> s[r] == '$'
    ensures NoDollar(s, i, r)
    decreases |s| - i
  {
    if i == |s| || s[i] == '$' then i else NextRef(s, i + 1)
  }

  /** The spans (start, end) of the references from position `i` on, left to right. */
  function Refs(s: string, i: nat): seq<(nat, nat)>
    requires i <= |s|
    decreases |s| - i
  {
    var a := NextRef(s, i);
    if a == |s| then [] else [(a, SpanEnd(s, a))] + Refs(s, SpanEnd(s, a))
  }

  /** The end of the reference at `start`, found by moving an index forward as the source does. */
  method ScanRef(s: string, start: nat) returns (e: nat)
    requires start < |s| && s[start] == '$'
    ensures e == SpanEnd(s, start)
  {
    var i := start + 1;
    if i < |s| && s[i] == '{' {
      i := i + 1;
      while i < |s| && s[i] != '}'
        invariant start + 2 <= i <= |s|
        invariant BraceEnd(s, i) == BraceEnd(s, start + 2)
        decreases |s| - i
      {
        i := i + 1;
      }
      if i < |s| {
        i := i + 1;
      }
    } else {
      while i < |s| && IsNameChar(s[i])
        invariant start + 1 <= i <= |s|
        invariant WordEnd(s, i) == WordEnd(s, start + 1)
        decreases |s| - i
      {
        i := i + 1;
      }
    }
    e := i;
  }

  /** The first pass: the span of every reference, left to right. */
  method FindSpans(s: string) returns (spans: seq<(nat, nat)>)
    ensures spans == Refs(s, 0)
  {
    spans := [];
    var i := 0;
    while i < |s|
      invariant i <= |s|
      invariant spans + Refs(s, i) == Refs(s, 0)
      decreases |s| - i
    {
      if s[i] == '$' {
        var e := ScanRef(s, i);
        assert Refs(s, i) == [(i, e)] + Refs(s, e);
        spans := spans + [(i, e)];
        i := e;
      } else {
        assert Refs(s, i) == Refs(s, i + 1);
        i := i + 1;
      }
    }
  }

  /** What follows the `j`-th span of a list of references is the list of references after it. */
  lemma {:induction false} RefsAfter(s: string, i: nat, j: nat)
    requires i <= |s| && 0 < j <= |Refs(s, i)|
    ensures Refs(s, i)[j - 1].1 <= |s|
    ensures Refs(s, Refs(s, i)[j - 1].1) == Refs(s, i)[j..]
    decreases j
  {
    var sp := Refs(s, i);
    var a := NextRef(s, i);
    assert sp == [(a, SpanEnd(s, a))] + Refs(s, SpanEnd(s, a));
    if j > 1 {
      RefsAfter(s, SpanEnd(s, a), j - 1);
      assert sp[1..][j - 2] == sp[j - 1];
      assert sp[1..][j - 1..] == sp[j..];
    }
  }

  /** Where the references after position `b` begin: the first span's start, or the end of the text. */
  function Cut(spans: seq<(nat, nat)>, j: nat, n: nat): nat
  {
    if j < |spans| then spans[j].0 else n
  }

  lemma CutIsNextRef(s: string, b: nat)
    requires b <= |s|
    ensures Cut(Refs(s, b), 0, |s|) == NextRef(s, b)
  {
  }

  /** Plain text (no `$`) passes through the expansion unchanged. */
  lemma {:induction false} ExpandedPlain(s: string, i: nat, k: nat, lookup: string -> Option<string>)
    requires i <= k <= |s| && NoDollar(s, i, k)
    ensures Expanded(s, i, lookup) == s[i..k] + Expanded(s, k, lookup)
    decreases k - i
  {
    if i < k {
      assert s[i] != '$';
      ExpandedPlain(s, i + 1, k, lookup);
      calc {
        Expanded(s, i, lookup);
        [s[i]] + Expanded(s, i + 1, lookup);
        [s[i]] + (s[i + 1..k] + Expanded(s, k, lookup));
        ([s[i]] + s[i + 1..k]) + Expanded(s, k, lookup);
        { assert s[i..k] == [s[i]] + s[i + 1..k]; }
        s[i..k] + Expanded(s, k, lookup);
      }
    } else {
      assert s[i..k] == [];
    }
  }

  /**
   * `substitute` / `substitute_variables`: finds the spans, then replaces
   * them from the last to the first in the text being rewritten. The
   * result is the left-to-right expansion.
   */
  method Substitute(text: string, lookup: string -> Option<string>) returns (result: string)
    ensures result == Expanded(text, 0, lookup)
  {
    var spans := FindSpans(text);
    result := text;
    var j := |spans|;
    while j > 0
      invariant 0 <= j <= |spans|
      invariant Cut(spans, j, |text|) <= |text|
      invariant result == text[..Cut(spans, j, |text|)] + Expanded(text, Cut(spans, j, |text|), lookup)
      decreases j
    {
      j := j - 1;
      var start := spans[j].0;
      var end := spans[j].1;
      ReplaceStep(text, j, result, lookup);
      result := result[..start] + Resolved(result[start..end], lookup) + result[end..];
    }
    CutIsNextRef(text, 0);
    ExpandedPlain(text, 0, Cut(spans, 0, |text|), lookup);
  }

  /** Replacing the `j`-th span extends the expanded tail back to that span's start. */
  lemma ReplaceStep(text: string, j: nat, result: string, lookup: string -> Option<string>)
    requires j < |Refs(text, 0)|
    requires Cut(Refs(text, 0), j + 1, |text|) <= |text|
    requires var c := Cut(Refs(text, 0), j + 1, |text|); result == text[..c] + Expanded(text, c, lookup)
    ensures var sp := Refs(text, 0);
      && sp[j].0 < sp[j].1 <= Cut(sp, j + 1, |text|) && sp[j].0 < |text| && text[sp[j].0] == '$'
      && result[..sp[j].0] + Resolved(result[sp[j].0..sp[j].1], lookup) + result[sp[j].1..]
         == text[..sp[j].0] + Expanded(text, sp[j].0, lookup)
  {
    var sp := Refs(text, 0);
    var c := Cut(sp, j + 1, |text|);
    SpanAt(text, j);
    ExpandedPlain(text, sp[j].1, c, lookup);
    Spliced(text, sp[j].0, sp[j].1, c, result, Expanded(text, c, lookup), lookup);
  }

  /** The `j`-th span is a reference, followed by plain text up to the next one. */
  lemma SpanAt(text: string, j: nat)
    requires j < |Refs(text, 0)|
    ensures var sp := Refs(text, 0); var c := Cut(sp, j + 1, |text|);
      && sp[j].0 < |text| && text[sp[j].0] == '$' && sp[j].1 == SpanEnd(text, sp[j].0)
      && sp[j].1 <= c <= |text| && NoDollar(text, sp[j].1, c)
  {
    var sp := Refs(text, 0);
    ghost var before := if j == 0 then 0 else sp[j - 1].1;
    if j > 0 {
      RefsAfter(text, 0, j);
    }
    assert before <= |text| && Refs(text, before) == sp[j..];
    RefsAfter(text, 0, j + 1);
    CutIsNextRef(text, sp[j].1);
  }

  lemma Spliced(text: string, start: nat, end: nat, c: nat, result: string, rest: string,
                lookup: string -> Option<string>)
    requires start < end <= c <= |text| && text[start] == '$' && end == SpanEnd(text, start)
    requires Expanded(text, end, lookup) == text[end..c] + rest
    requires result == text[..c] + rest
    ensures result[..start] + Resolved(result[start..end], lookup) + result[end..]
            == text[..start] + Expanded(text, start, lookup)
  {
    assert result[..start] == text[..start];
    assert result[start..end] == text[start..end];
    assert result[end..] == text[end..c] + rest;
  }

  /** With nothing resolvable, substitution keeps the text as it is. */
  lemma {:induction false} UnresolvedKept(s: string, i: nat, lookup: string -> Option<string>)
    requires i <= |s|
    requires forall name :: lookup(name).None?
    ensures Expanded(s, i, lookup) == s[i..]
    decreases |s| - i
  {
    if i < |s| {
      if s[i] == '$' {
        var e := SpanEnd(s, i);
        UnresolvedKept(s, e, lookup);
        assert s[i..] == s[i..e] + s[e..];
      } else {
        UnresolvedKept(s, i + 1, lookup);
        assert s[i..] == [s[i]] + s[i + 1..];
      }
    }
  }

  /** A text without `$` is left as it is, whatever the variables. */
  lemma PlainTextKept(s: string, lookup: string -> Option<string>)
    requires NoDollar(s, 0, |s|)
    ensures Expanded(s, 0, lookup) == s
  {
    ExpandedPlain(s, 0, |s|, lookup);
    assert s[0..|s|] == s;
  }
}
