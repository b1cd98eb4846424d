/**
 * `cutler status` (src/commands/status.rs): compares every configured
 * setting with the text the system shows for it, reports the settings
 * domain by domain with a warning on each domain that has a difference,
 * and summarises the Homebrew comparison.
 */
module StatusCmd {
  import opened Wrappers
  import Prefs
  import DomainsCollector
  import DomainsConvert
  import ApplyCmd
  import Brew

  /** One checked setting: effective domain and key, the desired and the shown text, and whether they differ. */
  datatype Outcome = Outcome(domain: string, key: string, desired: string, current: string, isDiff: bool)

  /** What status shows for a preference that has no value. */
  const NotSet: string := "Not set"

  /**
   * The check of one setting. The shown text is the stored value's text,
   * or "Not set" when nothing is stored; the setting differs when that
   * text is not the desired value's normal form.
   */
  function OutcomeOf(store: Prefs.Store, s: ApplyCmd.Setting): (o: Outcome)
    ensures (o.domain, o.key) == ApplyCmd.EffectiveKey(s)
    ensures o.desired == DomainsConvert.Normalize(s.value)
    ensures ApplyCmd.EffectiveKey(s) !in store ==> o.current == NotSet
    ensures ApplyCmd.EffectiveKey(s) in store ==> o.current == DomainsConvert.PrefValueToString(store[ApplyCmd.EffectiveKey(s)])
    ensures o.isDiff <==> o.current != o.desired
  {
    var k := ApplyCmd.EffectiveKey(s);
    var current := DomainsCollector.ReadCurrent(store, k.0, k.1).GetOr(NotSet);
    var desired := DomainsConvert.Normalize(s.value);
    Outcome(k.0, k.1, desired, current, current != desired)
  }

  /**
   * Status and apply judge a setting alike except for an unset
   * preference: status reports a desired empty text as a difference that
   * apply does not write, and takes a desired "Not set" as matching where
   * apply writes it.
   */
  lemma StatusDisagreesWithApply(store: Prefs.Store, s: ApplyCmd.Setting)
    ensures OutcomeOf(store, s).isDiff != ApplyCmd.Changed(store, s)
      <==> (ApplyCmd.EffectiveKey(s) !in store
            && (DomainsConvert.Normalize(s.value) == "" || DomainsConvert.Normalize(s.value) == NotSet))
  {
    var k := ApplyCmd.EffectiveKey(s);
    if k in store {
      assert ApplyCmd.Current(store, s) == OutcomeOf(store, s).current;
    } else {
      assert ApplyCmd.Current(store, s) == "";
    }
  }

  /** Whether the map marks a domain as having a difference; an unmarked domain has none. */
  function Marked(domainHasDiff: map<string, bool>, d: string): bool
  {
    d in domainHasDiff && domainHasDiff[d]
  }

  /**
   * The per-key loop: one outcome per setting, in order, and the domains
   * seen, each marked exactly when one of its settings differs; a later
   * matching setting never clears a mark.
   */
  method CheckPreferences(settings: seq<ApplyCmd.Setting>, store: Prefs.Store)
    returns (outcomes: seq<Outcome>, domainHasDiff: map<string, bool>)
    ensures |outcomes| == |settings|
    ensures forall j :: 0 <= j < |settings| ==> outcomes[j] == OutcomeOf(store, settings[j])
    ensures domainHasDiff.Keys == DomainsOf(outcomes)
    ensures forall d :: Marked(domainHasDiff, d) <==> d in DiffDomainsOf(outcomes)
  {
    outcomes := [];
    domainHasDiff := map[];
    var i := 0;
    while i < |settings|
      invariant 0 <= i <= |settings|
      invariant outcomes == Outcomes(store, settings[..i])
      invariant Tracked(outcomes, domainHasDiff)
    {
      outcomes, domainHasDiff := CheckNext(settings, store, i, outcomes, domainHasDiff);
      i := i + 1;
    }
    assert settings[..i] == settings;
    OutcomesAt(store, settings);
  }

  /** One turn of the per-key loop: the next setting checked, its outcome appended and its domain recorded. */
  method CheckNext(settings: seq<ApplyCmd.Setting>, store: Prefs.Store, i: nat, outcomes: seq<Outcome>,
                   domainHasDiff: map<string, bool>)
    returns (outcomes': seq<Outcome>, domainHasDiff': map<string, bool>)
    requires i < |settings| && outcomes == Outcomes(store, settings[..i]) && Tracked(outcomes, domainHasDiff)
    ensures outcomes' == Outcomes(store, settings[..i + 1]) && Tracked(outcomes', domainHasDiff')
  {
    var o := CheckSetting(settings[i], store);
    domainHasDiff' := Mark(domainHasDiff, o);
    CheckStep(outcomes, domainHasDiff, o, domainHasDiff');
    assert settings[..i + 1][..i] == settings[..i];
    outcomes' := outcomes + [o];
  }

  /** The domains recorded are those of the outcomes, marked exactly when one of their outcomes differs. */
  ghost predicate Tracked(outcomes: seq<Outcome>, m: map<string, bool>)
  {
    m.Keys == DomainsOf(outcomes) && forall d :: Marked(m, d) <==> d in DiffDomainsOf(outcomes)
  }

  /** The outcomes of the settings, in order. */
  function Outcomes(store: Prefs.Store, settings: seq<ApplyCmd.Setting>): (r: seq<Outcome>)
    ensures |r| == |settings|
  {
    if |settings| == 0 then []
    else Outcomes(store, settings[..|settings| - 1]) + [OutcomeOf(store, settings[|settings| - 1])]
  }

  /** The outcome at each position is that setting's check. */
  lemma {:induction false} OutcomesAt(store: Prefs.Store, settings: seq<ApplyCmd.Setting>)
    ensures forall j :: 0 <= j < |settings| ==> Outcomes(store, settings)[j] == OutcomeOf(store, settings[j])
  {
    if |settings| > 0 {
      var init := settings[..|settings| - 1];
      OutcomesAt(store, init);
      assert forall j :: 0 <= j < |init| ==> init[j] == settings[j];
    }
  }

  /** Recording one outcome: its domain marked when it differs, and added unmarked when it is new. */
  method Mark(domainHasDiff: map<string, bool>, o: Outcome) returns (m: map<string, bool>)
    ensures m == if o.isDiff then domainHasDiff[o.domain := true]
                 else if o.domain !in domainHasDiff then domainHasDiff[o.domain := false] else domainHasDiff
    ensures m.Keys == domainHasDiff.Keys + {o.domain}
    ensures Marked(m, o.domain) == (o.isDiff || Marked(domainHasDiff, o.domain))
  {
    m := domainHasDiff;
    if o.isDiff {
      m := m[o.domain := true];
    } else if o.domain !in m {
      m := m[o.domain := false];
    }
  }

  /** Reading one setting's preference and comparing it with the desired value. */
  method CheckSetting(s: ApplyCmd.Setting, store: Prefs.Store) returns (o: Outcome)
    ensures o == OutcomeOf(store, s)
  {
    var (effDomain, effKey) := DomainsCollector.Effective(s.domain, s.key);
    var current := DomainsCollector.ReadCurrent(store, effDomain, effKey).GetOr(NotSet);
    var desired := DomainsConvert.Normalize(s.value);
    var isDiff := current != desired;
    o := Outcome(effDomain, effKey, desired, current, isDiff);
  }

  /** The domains of the outcomes with a difference. */
  function DiffDomainsOf(outcomes: seq<Outcome>): set<string>
  {
    if |outcomes| == 0 then {}
    else
      var last := |outcomes| - 1;
      DiffDomainsOf(outcomes[..last]) + (if outcomes[last].isDiff then {outcomes[last].domain} else {})
  }

  /** A domain has a difference exactly when one of its outcomes differs. */
  lemma {:induction false} DiffDomainsOfMembers(outcomes: seq<Outcome>)
    ensures forall d :: d in DiffDomainsOf(outcomes) <==> exists j :: 0 <= j < |outcomes| && outcomes[j].domain == d && outcomes[j].isDiff
  {
    if |outcomes| > 0 {
      var last := |outcomes| - 1;
      DiffDomainsOfMembers(outcomes[..last]);
      assert forall j :: 0 <= j < last ==> outcomes[..last][j] == outcomes[j];
    }
  }

  /** One turn of the per-key loop keeps the domains and their marks in step with the outcomes. */
  lemma CheckStep(outcomes: seq<Outcome>, m: map<string, bool>, o: Outcome, m': map<string, bool>)
    requires Tracked(outcomes, m)
    requires m' == if o.isDiff then m[o.domain := true] else if o.domain !in m then m[o.domain := false] else m
    ensures Tracked(outcomes + [o], m')
  {
    assert (outcomes + [o])[..|outcomes|] == outcomes;
  }

  // ---- the report ----

  /** A line of the report. */
  datatype Line =
    | Header(domain: string, warning: bool)
    | Mismatch(key: string, desired: string, current: string)
    | Matched(key: string, current: string)
    | Diverged
    | OnSync

  /** The line reporting one setting. */
  function KeyLine(o: Outcome): Line
  {
    if o.isDiff then Mismatch(o.key, o.desired, o.current) else Matched(o.key, o.current)
  }

  /**
   * The lines for the outcomes, given the domains whose header is already
   * printed: each outcome's line, preceded by its domain's header the
   * first time the domain comes up.
   */
  function ReportLines(outcomes: seq<Outcome>, domainHasDiff: map<string, bool>, printed: set<string>): seq<Line>
  {
    if |outcomes| == 0 then []
    else
      var d := outcomes[0].domain;
      (if d in printed then [] else [Header(d, Marked(domainHasDiff, d))])
      + [KeyLine(outcomes[0])]
      + ReportLines(outcomes[1..], domainHasDiff, printed + {d})
  }

  /** The domains of a prefix of the outcomes. */
  function DomainsOf(outcomes: seq<Outcome>): set<string>
  {
    if |outcomes| == 0 then {}
    else
      var last := |outcomes| - 1;
      DomainsOf(outcomes[..last]) + {outcomes[last].domain}
  }

  /** The domains are those of the outcomes. */
  lemma {:induction false} DomainsOfMembers(outcomes: seq<Outcome>)
    ensures forall d :: d in DomainsOf(outcomes) <==> exists j :: 0 <= j < |outcomes| && outcomes[j].domain == d
  {
    if |outcomes| > 0 {
      var last := |outcomes| - 1;
      DomainsOfMembers(outcomes[..last]);
      assert forall j :: 0 <= j < last ==> outcomes[..last][j] == outcomes[j];
    }
  }

  /**
   * The printing loop: the report lines, then "Preferences diverged" when
   * some setting differs and "on sync" otherwise.
   */
  method Report(outcomes: seq<Outcome>, domainHasDiff: map<string, bool>) returns (log: seq<Line>, anyDiff: bool)
    ensures anyDiff <==> exists j :: 0 <= j < |outcomes| && outcomes[j].isDiff
    ensures log == ReportLines(outcomes, domainHasDiff, {}) + [if anyDiff then Diverged else OnSync]
  {
    log := [];
    anyDiff := false;
    var printed: set<string> := {};
    var i := 0;
    while i < |outcomes|
      invariant 0 <= i <= |outcomes|
      invariant printed == DomainsOf(outcomes[..i])
      invariant ReportLines(outcomes, domainHasDiff, {}) == log + ReportLines(outcomes[i..], domainHasDiff, printed)
      invariant anyDiff == HasDiff(outcomes[..i])
    {
      ReportStep(outcomes, i, domainHasDiff, log, printed);
      PrefixStep(outcomes, i);
      log, printed, anyDiff := ReportOutcome(outcomes[i], domainHasDiff, log, printed, anyDiff);
      i := i + 1;
    }
    assert outcomes[i..] == [] && outcomes[..i] == outcomes;
    if anyDiff {
      log := log + [Diverged];
    } else {
      log := log + [OnSync];
    }
  }

  /** One turn of the printing loop: the domain's header when it is not printed yet, then the setting's line. */
  method ReportOutcome(o: Outcome, domainHasDiff: map<string, bool>, log0: seq<Line>, printed0: set<string>, anyDiff0: bool)
    returns (log: seq<Line>, printed: set<string>, anyDiff: bool)
    ensures log == log0 + (if o.domain in printed0 then [] else [Header(o.domain, Marked(domainHasDiff, o.domain))]) + [KeyLine(o)]
    ensures printed == printed0 + {o.domain}
    ensures anyDiff == (anyDiff0 || o.isDiff)
  {
    log, printed, anyDiff := log0, printed0, anyDiff0;
    if o.domain !in printed {
      log := log + [Header(o.domain, Marked(domainHasDiff, o.domain))];
      printed := printed + {o.domain};
    }
    if o.isDiff {
      if !anyDiff {
        anyDiff := true;
      }
      log := log + [Mismatch(o.key, o.desired, o.current)];
    } else {
      log := log + [Matched(o.key, o.current)];
    }
  }

  /** Whether some outcome differs. */
  function HasDiff(outcomes: seq<Outcome>): (r: bool)
    ensures r <==> exists j :: 0 <= j < |outcomes| && outcomes[j].isDiff
  {
    if |outcomes| == 0 then false
    else
      var last := |outcomes| - 1;
      assert forall j :: 0 <= j < last ==> outcomes[..last][j] == outcomes[j];
      HasDiff(outcomes[..last]) || outcomes[last].isDiff
  }

  /** One printing turn: the lines still to come are this outcome's lines, then the rest's. */
  lemma ReportStep(outcomes: seq<Outcome>, i: nat, m: map<string, bool>, before: seq<Line>, printed: set<string>)
    requires i < |outcomes|
    ensures var o := outcomes[i];
      var head := if o.domain in printed then [] else [Header(o.domain, Marked(m, o.domain))];
      before + ReportLines(outcomes[i..], m, printed)
        == (before + head + [KeyLine(o)]) + ReportLines(outcomes[i + 1..], m, printed + {o.domain})
  {
    assert outcomes[i..][0] == outcomes[i];
    assert outcomes[i..][1..] == outcomes[i + 1..];
  }

  lemma PrefixStep(outcomes: seq<Outcome>, i: nat)
    requires i < |outcomes|
    ensures DomainsOf(outcomes[..i]) + {outcomes[i].domain} == DomainsOf(outcomes[..i + 1])
    ensures HasDiff(outcomes[..i + 1]) == (HasDiff(outcomes[..i]) || outcomes[i].isDiff)
  {
    assert outcomes[..i + 1][..i] == outcomes[..i];
  }

  /** The header lines of a report. */
  function Headers(log: seq<Line>): (r: seq<Line>)
    ensures forall i :: 0 <= i < |r| ==> r[i].Header?
  {
    if |log| == 0 then []
    else (if log[0].Header? then [log[0]] else []) + Headers(log[1..])
  }

  /** The setting lines of a report, headers left out. */
  function Body(log: seq<Line>): seq<Line>
  {
    if |log| == 0 then []
    else (if log[0].Header? then [] else [log[0]]) + Body(log[1..])
  }

  /** A header line of a report is among its headers. */
  lemma {:induction false} InHeaders(log: seq<Line>, l: Line)
    requires l in log && l.Header?
    ensures l in Headers(log)
    decreases |log|
  {
    if log[0] != l {
      assert l in log[1..];
      InHeaders(log[1..], l);
    }
  }

  lemma HeadersConcat(a: seq<Line>, b: seq<Line>)
    ensures Headers(a + b) == Headers(a) + Headers(b)
    ensures Body(a + b) == Body(a) + Body(b)
  {
    HeadersAppend(a, b);
    BodyAppend(a, b);
  }

  lemma {:induction false} HeadersAppend(a: seq<Line>, b: seq<Line>)
    ensures Headers(a + b) == Headers(a) + Headers(b)
    decreases |a|
  {
    if |a| == 0 {
      assert a + b == b;
    } else {
      var h := if a[0].Header? then [a[0]] else [];
      assert (a + b)[0] == a[0];
      assert (a + b)[1..] == a[1..] + b;
      HeadersAppend(a[1..], b);
      calc {
        Headers(a + b);
        h + Headers(a[1..] + b);
        h + (Headers(a[1..]) + Headers(b));
        (h + Headers(a[1..])) + Headers(b);
      }
    }
  }

  lemma {:induction false} BodyAppend(a: seq<Line>, b: seq<Line>)
    ensures Body(a + b) == Body(a) + Body(b)
    decreases |a|
  {
    if |a| == 0 {
      assert a + b == b;
    } else {
      var h := if a[0].Header? then [] else [a[0]];
      assert (a + b)[0] == a[0];
      assert (a + b)[1..] == a[1..] + b;
      BodyAppend(a[1..], b);
      calc {
        Body(a + b);
        h + Body(a[1..] + b);
        h + (Body(a[1..]) + Body(b));
        (h + Body(a[1..])) + Body(b);
      }
    }
  }

  /**
   * Header lines for distinct domains, none of them already printed, each
   * carrying its domain's mark.
   */
  predicate HeadersFine(hs: seq<Line>, m: map<string, bool>, printed: set<string>)
  {
    (forall a :: 0 <= a < |hs| ==> hs[a].Header?)
    && (forall a, b :: 0 <= a < b < |hs| ==> hs[a].domain != hs[b].domain)
    && (forall a :: 0 <= a < |hs| ==> hs[a].domain !in printed && hs[a].warning == Marked(m, hs[a].domain))
  }

  /** Each domain's header comes at most once, never for a domain already printed, and carries the domain's mark. */
  lemma {:induction false} HeadersOnce(outcomes: seq<Outcome>, m: map<string, bool>, printed: set<string>)
    ensures HeadersFine(Headers(ReportLines(outcomes, m, printed)), m, printed)
    decreases |outcomes|
  {
    if |outcomes| > 0 {
      var d := outcomes[0].domain;
      var first := if d in printed then [] else [Header(d, Marked(m, d))];
      var rest := ReportLines(outcomes[1..], m, printed + {d});
      HeadersConcat(first + [KeyLine(outcomes[0])], rest);
      HeadersConcat(first, [KeyLine(outcomes[0])]);
      assert Headers([KeyLine(outcomes[0])]) == [];
      assert Headers(first) == first;
      HeadersOnce(outcomes[1..], m, printed + {d});
      assert ReportLines(outcomes, m, printed) == first + [KeyLine(outcomes[0])] + rest;
      HeadersFineCons(first, Headers(rest), m, printed, d);
    }
  }

  lemma HeadersFineCons(first: seq<Line>, hr: seq<Line>, m: map<string, bool>, printed: set<string>, d: string)
    requires first == [] || (first == [Header(d, Marked(m, d))] && d !in printed)
    requires HeadersFine(hr, m, printed + {d})
    ensures HeadersFine(first + hr, m, printed)
  {
    var hs := first + hr;
    forall a, b | 0 <= a < b < |hs| ensures hs[a].domain != hs[b].domain {
      assert hs[b] == hr[b - |first|];
      if a >= |first| {
        assert hs[a] == hr[a - |first|];
      }
    }
    forall a | 0 <= a < |hs| ensures hs[a].Header? && hs[a].domain !in printed && hs[a].warning == Marked(m, hs[a].domain) {
      if a >= |first| {
        assert hs[a] == hr[a - |first|];
      }
    }
  }

  /** Every outcome's domain not yet printed gets its header. */
  lemma {:induction false} EveryDomainHeaded(outcomes: seq<Outcome>, m: map<string, bool>, printed: set<string>)
    ensures forall j :: (0 <= j < |outcomes| && outcomes[j].domain !in printed
                         ==> Header(outcomes[j].domain, Marked(m, outcomes[j].domain)) in ReportLines(outcomes, m, printed))
    decreases |outcomes|
  {
    if |outcomes| > 0 {
      var d := outcomes[0].domain;
      EveryDomainHeaded(outcomes[1..], m, printed + {d});
      forall j | 0 <= j < |outcomes| && outcomes[j].domain !in printed
        ensures Header(outcomes[j].domain, Marked(m, outcomes[j].domain)) in ReportLines(outcomes, m, printed)
      {
        if j > 0 && outcomes[j].domain != d {
          assert outcomes[1..][j - 1] == outcomes[j];
        }
      }
    }
  }

  /** Without the headers, the report is one line per outcome, in order. */
  lemma {:induction false} BodyIsKeyLines(outcomes: seq<Outcome>, m: map<string, bool>, printed: set<string>)
    ensures Body(ReportLines(outcomes, m, printed)) == seq(|outcomes|, j requires 0 <= j < |outcomes| => KeyLine(outcomes[j]))
    decreases |outcomes|
  {
    if |outcomes| > 0 {
      var d := outcomes[0].domain;
      var first := if d in printed then [] else [Header(d, Marked(m, d))];
      var rest := ReportLines(outcomes[1..], m, printed + {d});
      HeadersConcat(first + [KeyLine(outcomes[0])], rest);
      HeadersConcat(first, [KeyLine(outcomes[0])]);
      assert Body(first) == [];
      BodyIsKeyLines(outcomes[1..], m, printed + {d});
    }
  }

  // ---- the Homebrew summary ----

  /** The six lists of a comparison with their labels, in report order. */
  function Labelled(d: Brew.BrewDiff): seq<(string, seq<string>)>
  {
    [("Formulae missing", d.missingFormulae), ("Extra formulae installed", d.extraFormulae),
     ("Casks missing", d.missingCasks), ("Extra casks installed", d.extraCasks),
     ("Missing taps", d.missingTaps), ("Extra taps", d.extraTaps)]
  }

  /** The labelled lists that are not empty, in order. */
  function Shown(checks: seq<(string, seq<string>)>): seq<(string, seq<string>)>
  {
    if |checks| == 0 then []
    else (if checks[0].1 != [] then [checks[0]] else []) + Shown(checks[1..])
  }

  /**
   * The loop over the six lists: the non-empty ones are printed, and
   * Homebrew has diverged exactly when one of them is non-empty.
   */
  method BrewSections(d: Brew.BrewDiff) returns (shown: seq<(string, seq<string>)>, anyDiff: bool)
    ensures shown == Shown(Labelled(d))
    ensures anyDiff <==> !Brew.InSync(d)
  {
    shown, anyDiff := ShowNonEmpty(Labelled(d));
    ShownIffDiverged(d);
  }

  /** The loop over the labelled lists: the non-empty ones are printed and flagged. */
  method ShowNonEmpty(checks: seq<(string, seq<string>)>) returns (shown: seq<(string, seq<string>)>, anyDiff: bool)
    ensures shown == Shown(checks)
    ensures anyDiff == (shown != [])
  {
    shown := [];
    anyDiff := false;
    var i := 0;
    while i < |checks|
      invariant 0 <= i <= |checks|
      invariant Shown(checks) == shown + Shown(checks[i..])
      invariant anyDiff == (shown != [])
    {
      ShownStep(checks, i, shown);
      if checks[i].1 != [] {
        anyDiff := true;
        shown := shown + [checks[i]];
      }
      i := i + 1;
    }
    assert checks[i..] == [];
  }

  lemma ShownStep(checks: seq<(string, seq<string>)>, i: nat, shown: seq<(string, seq<string>)>)
    requires i < |checks|
    ensures shown + Shown(checks[i..])
      == (shown + (if checks[i].1 != [] then [checks[i]] else [])) + Shown(checks[i + 1..])
  {
    assert checks[i..][0] == checks[i] && checks[i..][1..] == checks[i + 1..];
  }

  /** Exactly the non-empty lists are shown. */
  lemma {:induction false} ShownMembers(checks: seq<(string, seq<string>)>)
    ensures forall c :: c in Shown(checks) <==> c in checks && c.1 != []
    decreases |checks|
  {
    if |checks| > 0 {
      ShownMembers(checks[1..]);
      assert checks == [checks[0]] + checks[1..];
    }
  }

  lemma ShownIffDiverged(d: Brew.BrewDiff)
    ensures Shown(Labelled(d)) != [] <==> !Brew.InSync(d)
  {
    var checks := Labelled(d);
    ShownMembers(checks);
    if Shown(checks) != [] {
      assert Shown(checks)[0] in Shown(checks);
    } else {
      assert checks[0] in checks && checks[1] in checks && checks[2] in checks;
      assert checks[3] in checks && checks[4] in checks && checks[5] in checks;
    }
  }

  /** How the Homebrew part of the report ends. */
  datatype BrewReport =
    | BrewSkipped
    | BrewUnavailable
    | BrewCheckFailed(error: string)
    | BrewChecked(diff: Brew.BrewDiff, shown: seq<(string, seq<string>)>, diverged: bool)

  /**
   * The Homebrew part: skipped with `--no-brew` or without a `[brew]`
   * section, a warning when `brew` is not installed, an error line when
   * the comparison fails, and otherwise the non-empty lists and whether
   * Homebrew has diverged.
   */
  method BrewStatus(noBrew: bool, section: Option<Brew.BrewConfig>, brewInstalled: bool, out: Brew.Listings)
    returns (report: BrewReport)
    ensures report.BrewSkipped? <==> noBrew || section.None?
    ensures report.BrewUnavailable? <==> !noBrew && section.Some? && !brewInstalled
    ensures report.BrewCheckFailed? <==> !noBrew && section.Some? && brewInstalled && Brew.Compared(section.value, out).Err?
    ensures report.BrewChecked? ==> report.diff == Brew.Compared(section.value, out).value
    ensures report.BrewChecked? ==> report.shown == Shown(Labelled(report.diff))
    ensures report.BrewChecked? ==> (report.diverged <==> !Brew.InSync(report.diff))
  {
    if noBrew || section.None? {
      return BrewSkipped;
    }
    if !brewInstalled {
      return BrewUnavailable;
    }
    var compared := Brew.CompareBrewState(section.value, out);
    if compared.Err? {
      return BrewCheckFailed("Could not check Homebrew status: " + compared.error);
    }
    var shown, anyDiff := BrewSections(compared.value);
    return BrewChecked(compared.value, shown, anyDiff);
  }

  /**
   * `StatusCmd::run`: the preference report, whose domain headers warn
   * exactly for the domains with a differing setting and whose last line
   * says whether any setting differs, then the Homebrew part.
   */
  method Status(settings: seq<ApplyCmd.Setting>, store: Prefs.Store, noBrew: bool,
                section: Option<Brew.BrewConfig>, brewInstalled: bool, out: Brew.Listings)
    returns (log: seq<Line>, anyDiff: bool, brew: BrewReport)
    ensures anyDiff <==> exists j :: 0 <= j < |settings| && OutcomeOf(store, settings[j]).isDiff
    ensures |log| > 0 && log[|log| - 1] == if anyDiff then Diverged else OnSync
    ensures forall l :: l in log && l.Header? ==> l.warning == DomainDiffers(store, settings, l.domain)
    ensures forall j :: 0 <= j < |settings| ==>
      var d := ApplyCmd.EffectiveKey(settings[j]).0;
      Header(d, DomainDiffers(store, settings, d)) in log
    ensures Body(log[..|log| - 1]) == seq(|settings|, j requires 0 <= j < |settings| => KeyLine(OutcomeOf(store, settings[j])))
    ensures brew.BrewSkipped? <==> noBrew || section.None?
    ensures brew.BrewUnavailable? <==> !noBrew && section.Some? && !brewInstalled
    ensures brew.BrewCheckFailed? <==> !noBrew && section.Some? && brewInstalled && Brew.Compared(section.value, out).Err?
    ensures brew.BrewChecked? ==> brew.diff == Brew.Compared(section.value, out).value
    ensures brew.BrewChecked? ==> brew.shown == Shown(Labelled(brew.diff))
    ensures brew.BrewChecked? ==> (brew.diverged <==> !Brew.InSync(brew.diff))
  {
    var outcomes, domainHasDiff := CheckPreferences(settings, store);
    DiffDomainsOfMembers(outcomes);
    log, anyDiff := Report(outcomes, domainHasDiff);
    ReportOfSettings(settings, store, outcomes, domainHasDiff, log[|log| - 1]);
    assert log[..|log| - 1] == ReportLines(outcomes, domainHasDiff, {});
    brew := BrewStatus(noBrew, section, brewInstalled, out);
  }

  /** The facts the per-key loop establishes, as the report lemmas take them. */
  ghost predicate Checked(settings: seq<ApplyCmd.Setting>, store: Prefs.Store, outcomes: seq<Outcome>, m: map<string, bool>)
  {
    |outcomes| == |settings|
    && (forall j :: 0 <= j < |settings| ==> outcomes[j] == OutcomeOf(store, settings[j]))
    && (forall d :: Marked(m, d) <==> exists j :: 0 <= j < |outcomes| && outcomes[j].domain == d && outcomes[j].isDiff)
  }

  /** What the report of the checked settings says about the settings themselves. */
  lemma ReportOfSettings(settings: seq<ApplyCmd.Setting>, store: Prefs.Store, outcomes: seq<Outcome>, m: map<string, bool>, last: Line)
    requires Checked(settings, store, outcomes, m)
    requires !last.Header?
    ensures var lines := ReportLines(outcomes, m, {});
      (forall l :: l in lines + [last] && l.Header? ==> l.warning == DomainDiffers(store, settings, l.domain))
      && (forall j :: 0 <= j < |settings| ==>
           var d := ApplyCmd.EffectiveKey(settings[j]).0;
           Header(d, DomainDiffers(store, settings, d)) in lines)
      && Body(lines) == seq(|settings|, j requires 0 <= j < |settings| => KeyLine(OutcomeOf(store, settings[j])))
      && (exists j :: 0 <= j < |outcomes| && outcomes[j].isDiff) == (exists j :: 0 <= j < |settings| && OutcomeOf(store, settings[j]).isDiff)
  {
    MarkedIsDomainDiffers(settings, store, outcomes, m);
    HeaderWarnings(outcomes, m, settings, store, last);
    EveryDomainHeaded(outcomes, m, {});
    BodyIsKeyLines(outcomes, m, {});
    assert seq(|outcomes|, j requires 0 <= j < |outcomes| => KeyLine(outcomes[j]))
      == seq(|settings|, j requires 0 <= j < |settings| => KeyLine(OutcomeOf(store, settings[j])));
  }

  lemma MarkedIsDomainDiffers(settings: seq<ApplyCmd.Setting>, store: Prefs.Store, outcomes: seq<Outcome>, m: map<string, bool>)
    requires Checked(settings, store, outcomes, m)
    ensures forall d :: Marked(m, d) == DomainDiffers(store, settings, d)
  {
  }

  lemma HeaderWarnings(outcomes: seq<Outcome>, m: map<string, bool>, settings: seq<ApplyCmd.Setting>, store: Prefs.Store, last: Line)
    requires forall d :: Marked(m, d) == DomainDiffers(store, settings, d)
    requires !last.Header?
    ensures forall l :: (l in ReportLines(outcomes, m, {}) + [last] && l.Header?
                         ==> l.warning == DomainDiffers(store, settings, l.domain))
  {
    var lines := ReportLines(outcomes, m, {});
    HeadersOnce(outcomes, m, {});
    forall l | l in lines + [last] && l.Header?
      ensures l.warning == DomainDiffers(store, settings, l.domain)
    {
      assert l in lines;
      InHeaders(lines, l);
      var a :| 0 <= a < |Headers(lines)| && Headers(lines)[a] == l;
    }
  }

  /** Whether some setting under the effective domain differs from the system. */
  predicate DomainDiffers(store: Prefs.Store, settings: seq<ApplyCmd.Setting>, d: string)
  {
    exists j :: 0 <= j < |settings| && OutcomeOf(store, settings[j]).domain == d && OutcomeOf(store, settings[j]).isDiff
  }
}
