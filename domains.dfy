/**
 * The older domain helpers (src/domains.rs): flattening nested
 * configuration tables into per-domain settings, naming the `defaults`
 * domain and key a setting is written under, checking that a domain exists
 * against a once-built cache, and reading a current value.
 * src/domains/collector.rs carries the same `flatten_domains`, modelled
 * once here.
 */
module Domains {
  import opened Wrappers
  import opened Toml
  import Text

  /** A domain name and the settings (non-table entries) directly under it. */
  type DomainTable = (string, Entries)

  /** The name of a nested table: `prefix.key`, or just the key when there is no prefix. */
  function ChildPrefix(prefix: Option<string>, key: string): string
  {
    if prefix.Some? && |prefix.value| > 0 then prefix.value + "." + key else key
  }

  /** The entries of `t[..n]` that are not tables, in order. */
  function Flat(t: Entries, n: nat): (r: Entries)
    requires n <= |t|
    ensures forall i :: 0 <= i < |r| ==> !r[i].1.Table? && r[i] in t[..n]
  {
    if n == 0 then []
    else if t[n - 1].1.Table? then Flat(t, n - 1)
    else Flat(t, n - 1) + [t[n - 1]]
  }

  /**
   * What `flatten_domains` appends: every nested table first, each
   * flattened in turn, then the table's own non-table entries under the
   * prefix, when there are any.
   */
  function Flattened(prefix: Option<string>, t: Entries): seq<DomainTable>
    decreases Table(t), 1
  {
    var flat := Flat(t, |t|);
    Nested(prefix, t, |t|) + (if |flat| > 0 then [(prefix.GetOr(""), flat)] else [])
  }

  /** The flattening of the nested tables among `t[..n]`, in order. */
  function Nested(prefix: Option<string>, t: Entries, n: nat): seq<DomainTable>
    requires n <= |t|
    decreases Table(t), 0, n
  {
    if n == 0 then []
    else
      assert t[n - 1] in t;
      Nested(prefix, t, n - 1)
        + (if t[n - 1].1.Table? then Flattened(Some(ChildPrefix(prefix, t[n - 1].0)), t[n - 1].1.entries) else [])
  }

  /** `flatten_domains`: appends the flattening of `table` under `prefix` to `dest`. */
  method FlattenDomains(prefix: Option<string>, table: Entries, dest: seq<DomainTable>)
    returns (out: seq<DomainTable>)
    ensures out == dest + Flattened(prefix, table)
    decreases Table(table)
  {
    var flat: Entries := [];
    out := dest;
    var i := 0;
    while i < |table|
      invariant 0 <= i <= |table|
      invariant out == dest + Nested(prefix, table, i)
      invariant flat == Flat(table, i)
    {
      var (key, value) := table[i];
      assert table[i] in table;
      if value.Table? {
        out := FlattenDomains(Some(ChildPrefix(prefix, key)), value.entries, out);
      } else {
        flat := flat + [(key, value)];
      }
      i := i + 1;
    }
    if |flat| > 0 {
      out := out + [(prefix.GetOr(""), flat)];
    }
  }

  /** Every flattened domain holds at least one setting and no table. */
  lemma {:induction false} FlattenedHoldsSettings(prefix: Option<string>, t: Entries)
    ensures forall i :: 0 <= i < |Flattened(prefix, t)| ==>
      |Flattened(prefix, t)[i].1| > 0
      && forall j :: 0 <= j < |Flattened(prefix, t)[i].1| ==> !Flattened(prefix, t)[i].1[j].1.Table?
    decreases Table(t), 1
  {
    NestedHoldsSettings(prefix, t, |t|);
  }

  lemma {:induction false} NestedHoldsSettings(prefix: Option<string>, t: Entries, n: nat)
    requires n <= |t|
    ensures forall i :: 0 <= i < |Nested(prefix, t, n)| ==>
      |Nested(prefix, t, n)[i].1| > 0
      && forall j :: 0 <= j < |Nested(prefix, t, n)[i].1| ==> !Nested(prefix, t, n)[i].1[j].1.Table?
    decreases Table(t), 0, n
  {
    if n > 0 {
      NestedHoldsSettings(prefix, t, n - 1);
      assert t[n - 1] in t;
      if t[n - 1].1.Table? {
        FlattenedHoldsSettings(Some(ChildPrefix(prefix, t[n - 1].0)), t[n - 1].1.entries);
      }
    }
  }

  /** Under a non-empty prefix every flattened domain is the prefix itself or a dotted extension of it. */
  lemma {:induction false} FlattenedNamesExtendPrefix(p: string, t: Entries)
    requires |p| > 0
    ensures forall i :: 0 <= i < |Flattened(Some(p), t)| ==>
      Flattened(Some(p), t)[i].0 == p || Text.StartsWith(Flattened(Some(p), t)[i].0, p + ".")
    decreases Table(t), 1
  {
    NestedNamesExtendPrefix(p, t, |t|);
  }

  lemma {:induction false} NestedNamesExtendPrefix(p: string, t: Entries, n: nat)
    requires |p| > 0 && n <= |t|
    ensures forall i :: 0 <= i < |Nested(Some(p), t, n)| ==>
      Text.StartsWith(Nested(Some(p), t, n)[i].0, p + ".")
    decreases Table(t), 0, n
  {
    if n > 0 {
      NestedNamesExtendPrefix(p, t, n - 1);
      assert t[n - 1] in t;
      if t[n - 1].1.Table? {
        var q := p + "." + t[n - 1].0;
        var sub := Flattened(Some(q), t[n - 1].1.entries);
        FlattenedNamesExtendPrefix(q, t[n - 1].1.entries);
        forall i | 0 <= i < |sub|
          ensures Text.StartsWith(sub[i].0, p + ".")
        {
          assert (p + ".") == q[..|p| + 1];
          if sub[i].0 != q {
            assert sub[i].0[..|q|] == q;
            assert sub[i].0[..|p| + 1] == q[..|p| + 1];
          }
        }
      }
    }
  }

  // ---- domain and key names ----

  const Global := "NSGlobalDomain"

  /**
   * `get_effective_domain_and_key`: `NSGlobalDomain` stays; a domain
   * `NSGlobalDomain.rest` writes the key `rest.key` into `NSGlobalDomain`
   * (the key alone when `rest` is empty); any other domain gets the
   * `com.apple.` prefix. src/lib.rs carries the same function.
   */
  function EffectiveDomainAndKey(domain: string, key: string): (r: (string, string))
    ensures r.0 == Global <==> (domain == Global || Text.StartsWith(domain, Global + "."))
    ensures r.0 != Global ==> r == ("com.apple." + domain, key)
    ensures Text.StartsWith(domain, Global + ".") && |domain| > |Global| + 1 ==>
      r.1 == domain[|Global| + 1..] + "." + key
    ensures domain == Global || domain == Global + "." ==> r == (Global, key)
  {
    if domain == Global then (Global, key)
    else if Text.StartsWith(domain, Global + ".") then
      var remainder := domain[|Global| + 1..];
      if |remainder| == 0 then (Global, key) else (Global, remainder + "." + key)
    else
      assert ("com.apple." + domain)[0] != Global[0];
      ("com.apple." + domain, key)
  }

  /** `get_effective_domain`: anything starting with `NSGlobalDomain` is the global domain. */
  function EffectiveDomain(domain: string): (r: string)
    ensures r == Global <==> Text.StartsWith(domain, Global)
  {
    if Text.StartsWith(domain, Global) then Global
    else
      assert ("com.apple." + domain)[0] != Global[0];
      "com.apple." + domain
  }

  /** `needs_prefix` */
  predicate NeedsPrefix(domain: string)
  {
    !Text.StartsWith(domain, Global)
  }

  /**
   * The two namings agree on the domain, except for a name that starts
   * with `NSGlobalDomain` without being it or continuing with a dot
   * (`NSGlobalDomainX`): one calls it global, the other prefixes it.
   */
  lemma EffectiveDomainsAgree(domain: string, key: string)
    ensures EffectiveDomain(domain) != EffectiveDomainAndKey(domain, key).0
      <==> (Text.StartsWith(domain, Global) && domain != Global && !Text.StartsWith(domain, Global + "."))
  {
    if Text.StartsWith(domain, Global + ".") {
      assert domain[..|Global|] == (Global + ".")[..|Global|];
    }
    if domain == Global {
      assert Text.StartsWith(domain, Global);
    }
  }

  /** A domain needs the prefix exactly when its effective domain carries it. */
  lemma NeedsPrefixIsPrefixed(domain: string)
    ensures NeedsPrefix(domain) <==> EffectiveDomain(domain) == "com.apple." + domain
  {
    if !NeedsPrefix(domain) {
      assert EffectiveDomain(domain) == Global;
      assert |"com.apple." + domain| >= 10;
      assert ("com.apple." + domain)[0] == 'c';
    }
  }

  /** The examples of the repository's tests. */
  lemma EffectiveExamples()
    ensures EffectiveDomainAndKey("finder", "ShowPathbar") == ("com.apple.finder", "ShowPathbar")
    ensures EffectiveDomainAndKey("NSGlobalDomain", "ApplePressAndHoldEnabled") == (Global, "ApplePressAndHoldEnabled")
    ensures EffectiveDomainAndKey("NSGlobalDomain.com.apple.keyboard", "fnState") == (Global, "com.apple.keyboard.fnState")
    ensures EffectiveDomain("dock") == "com.apple.dock"
    ensures EffectiveDomain("NSGlobalDomain.something") == Global
    ensures NeedsPrefix("finder") && !NeedsPrefix("NSGlobalDomain.something")
  {
    assert !Text.StartsWith("finder", Global + ".");
    assert "finder" != Global;
    assert "com.apple." + "finder" == "com.apple.finder";
    assert "com.apple.keyboard" + "." + "fnState" == "com.apple.keyboard.fnState";
    assert !Text.StartsWith("dock", Global);
    assert !Text.StartsWith("finder", Global);
    assert Text.StartsWith("NSGlobalDomain.something", Global);
    assert Text.StartsWith("NSGlobalDomain.com.apple.keyboard", Global + ".");
    assert "NSGlobalDomain.com.apple.keyboard"[|Global| + 1..] == "com.apple.keyboard";
  }

  // ---- collecting the configuration ----

  /** The map after inserting the pairs in order: a later pair for the same domain replaces an earlier one. */
  function Inserted(m: map<string, Entries>, pairs: seq<DomainTable>): (r: map<string, Entries>)
    ensures forall d :: d in r <==> d in m || exists i :: 0 <= i < |pairs| && pairs[i].0 == d
  {
    if |pairs| == 0 then m
    else Inserted(m, pairs[..|pairs| - 1])[pairs[|pairs| - 1].0 := pairs[|pairs| - 1].1]
  }

  /** The domains the first `n` top-level entries contribute; the `external` entry and non-tables contribute none. */
  function Collected(root: Entries, n: nat): map<string, Entries>
    requires n <= |root|
  {
    if n == 0 then map[]
    else if root[n - 1].0 == "external" || !root[n - 1].1.Table? then Collected(root, n - 1)
    else Inserted(Collected(root, n - 1), Flattened(Some(root[n - 1].0), root[n - 1].1.entries))
  }

  /** Inserts the pairs in order (the inner loop of `collect_domains`). */
  method InsertAll(m: map<string, Entries>, pairs: seq<DomainTable>) returns (r: map<string, Entries>)
    ensures r == Inserted(m, pairs)
  {
    r := m;
    var j := 0;
    while j < |pairs|
      invariant 0 <= j <= |pairs|
      invariant r == Inserted(m, pairs[..j])
    {
      assert pairs[..j + 1][..j] == pairs[..j];
      r := r[pairs[j].0 := pairs[j].1];
      j := j + 1;
    }
    assert pairs[..|pairs|] == pairs;
  }

  /** `collect_domains`: every top-level table but `external`, flattened, keyed by domain. */
  method CollectDomains(parsed: Value) returns (r: Result<map<string, Entries>>)
    ensures parsed.Table? ==> r == Ok(Collected(parsed.entries, |parsed.entries|))
    ensures !parsed.Table? ==> r.Err?
  {
    if !parsed.Table? {
      return Err("Invalid config format: expected table at top level");
    }
    var root := parsed.entries;
    var domains: map<string, Entries> := map[];
    var i := 0;
    while i < |root|
      invariant 0 <= i <= |root|
      invariant domains == Collected(root, i)
    {
      if root[i].0 != "external" && root[i].1.Table? {
        var flat := FlattenDomains(Some(root[i].0), root[i].1.entries, []);
        assert flat == Flattened(Some(root[i].0), root[i].1.entries);
        domains := InsertAll(domains, flat);
      }
      i := i + 1;
    }
    return Ok(domains);
  }

  /** Every collected domain holds at least one setting and no table. */
  lemma {:induction false} CollectedHoldsSettings(root: Entries, n: nat)
    requires n <= |root|
    ensures forall d :: d in Collected(root, n) ==>
      |Collected(root, n)[d]| > 0 && forall j :: 0 <= j < |Collected(root, n)[d]| ==> !Collected(root, n)[d][j].1.Table?
  {
    if n > 0 {
      CollectedHoldsSettings(root, n - 1);
      if root[n - 1].0 != "external" && root[n - 1].1.Table? {
        FlattenedHoldsSettings(Some(root[n - 1].0), root[n - 1].1.entries);
        InsertedHolds(Collected(root, n - 1), Flattened(Some(root[n - 1].0), root[n - 1].1.entries));
      }
    }
  }

  lemma {:induction false} InsertedHolds(m: map<string, Entries>, pairs: seq<DomainTable>)
    requires forall d :: d in m ==> |m[d]| > 0 && forall j :: 0 <= j < |m[d]| ==> !m[d][j].1.Table?
    requires forall i :: 0 <= i < |pairs| ==> |pairs[i].1| > 0 && forall j :: 0 <= j < |pairs[i].1| ==> !pairs[i].1[j].1.Table?
    ensures forall d :: d in Inserted(m, pairs) ==>
      |Inserted(m, pairs)[d]| > 0 && forall j :: 0 <= j < |Inserted(m, pairs)[d]| ==> !Inserted(m, pairs)[d][j].1.Table?
  {
    if |pairs| > 0 {
      InsertedHolds(m, pairs[..|pairs| - 1]);
    }
  }

  // ---- the `defaults` command line: domain list, current values ----

  /** What running a command gives: it could not be started, or it exited with a status and an output. */
  datatype Output = NotSpawned | Exited(success: bool, stdout: string)

  predicate IsListSeparator(c: char) { c == ',' || Text.IsWhitespace(c) }

  /** The domain names in the output of `defaults domains`: the pieces between commas and white space. */
  function DomainNames(listing: string): set<string>
  {
    set t | t in Text.Tokens(listing, IsListSeparator)
  }

  /** Names printed as `a, b, c` are read back as exactly those names, in order. */
  lemma ListingReadsBack(names: seq<string>)
    requires forall i :: 0 <= i < |names| ==> |names[i]| > 0
    requires forall i, c :: 0 <= i < |names| && c in names[i] ==> !IsListSeparator(c)
    ensures Text.Tokens(Text.Join(names, ", "), IsListSeparator) == names
  {
    RunsOfJoin(names, "");
  }

  lemma {:induction false} RunsOfJoin(names: seq<string>, run: string)
    requires run == ""
    requires forall i :: 0 <= i < |names| ==> |names[i]| > 0
    requires forall i, c :: 0 <= i < |names| && c in names[i] ==> !IsListSeparator(c)
    ensures Text.Runs(Text.Join(names, ", "), IsListSeparator, run) == names
    decreases |names|
  {
    if |names| == 1 {
      RunsOfWord(names[0], "", "");
      assert names[0] + "" == names[0] && "" + names[0] == names[0];
      assert Text.Runs("", IsListSeparator, names[0]) == [names[0]];
      assert names == [names[0]];
    } else if |names| > 1 {
      var rest := Text.Join(names[1..], ", ");
      assert Text.Join(names, ", ") == names[0] + (", " + rest);
      RunsOfWord(names[0], ", " + rest, "");
      assert "" + names[0] == names[0];
      var tail := ", " + rest;
      assert tail[0] == ',' && tail[1..] == " " + rest;
      assert IsListSeparator(',') && IsListSeparator(' ');
      assert Text.Runs(tail, IsListSeparator, names[0]) == [names[0]] + Text.Runs(" " + rest, IsListSeparator, "");
      assert (" " + rest)[0] == ' ' && (" " + rest)[1..] == rest;
      assert Text.Runs(" " + rest, IsListSeparator, "") == Text.Runs(rest, IsListSeparator, "");
      RunsOfJoin(names[1..], "");
      assert [names[0]] + names[1..] == names;
    }
  }

  /** Reading a word that holds no separator only extends the current run. */
  lemma {:induction false} RunsOfWord(w: string, rest: string, run: string)
    requires forall c :: c in run ==> !IsListSeparator(c)
    requires forall c :: c in w ==> !IsListSeparator(c)
    ensures Text.Runs(w + rest, IsListSeparator, run) == Text.Runs(rest, IsListSeparator, run + w)
    decreases |w|
  {
    if |w| > 0 {
      assert (w + rest)[0] == w[0];
      assert (w + rest)[1..] == w[1..] + rest;
      RunsOfWord(w[1..], rest, run + [w[0]]);
      assert run + [w[0]] + w[1..] == run + w;
    } else {
      assert w + rest == rest;
      assert run + w == run;
    }
  }

  /** The once-built cache of known domains behind `check_domain_exists`. */
  class DomainCache {
    /** Whether the one-time initialisation has run. */
    var initialised: bool
    /** The domain names, when `defaults domains` could be listed. */
    var known: Option<set<string>>

    constructor()
      ensures !initialised && known == None
    {
      initialised := false;
      known := None;
    }

    /** What the one-time initialisation stores for a listing. */
    static function Built(listing: Output): Option<set<string>>
    {
      if listing.Exited? && listing.success then Some(DomainNames(listing.stdout)) else None
    }

    /**
     * `check_domain_exists`: the first call lists the domains (and keeps
     * none when the listing fails); the domain exists when the cache holds
     * it, or, with no cache, when `defaults read <domain>` succeeds.
     */
    method CheckDomainExists(domain: string, listing: Output, directReadSucceeds: bool) returns (r: Result<()>)
      modifies this
      ensures initialised
      ensures known == if old(initialised) then old(known) else Built(listing)
      ensures r.Ok? <==> (if known.Some? then domain in known.value else directReadSucceeds)
    {
      if !initialised {
        known := Built(listing);
        initialised := true;
      }
      if known.Some? {
        if domain in known.value {
          return Ok(());
        }
      } else if directReadSucceeds {
        return Ok(());
      }
      return Err("Domain '" + domain + "' does not exist. Aborting.");
    }
  }

  /** `get_current_value`: the trimmed output of `defaults read`, when it succeeded and is not blank. */
  function CurrentValue(read: Output): (r: Option<string>)
    ensures r.Some? <==> read.Exited? && read.success && |Text.Trim(read.stdout)| > 0
    ensures r.Some? ==> r.value == Text.Trim(read.stdout)
  {
    if read.NotSpawned? || !read.success then None
    else
      var s := Text.Trim(read.stdout);
      if |s| == 0 then None else Some(s)
  }
}
