/**
 * The newer domain helpers (src/domains/collector.rs): the settings under
 * `[set]`, flattened per domain; the `defaults` domain and key a setting
 * is written under; and the current value of a preference, as text.
 */
module DomainsCollector {
  import opened Wrappers
  import opened Toml
  import Text
  import Prefs
  import Domains
  import DomainsConvert

  /** The domains the first `n` entries of `[set]` contribute: each table, flattened under its own name. */
  function SetDomains(set_: Entries, n: nat): map<string, Entries>
    requires n <= |set_|
  {
    if n == 0 then map[]
    else if !set_[n - 1].1.Table? then SetDomains(set_, n - 1)
    else Domains.Inserted(SetDomains(set_, n - 1), Domains.Flattened(Some(set_[n - 1].0), set_[n - 1].1.entries))
  }

  /** What the first `n` top-level entries contribute: only a `set` table does. */
  function FromConfig(parsed: Entries, n: nat): map<string, Entries>
    requires n <= |parsed|
  {
    if n == 0 then map[]
    else if parsed[n - 1].0 == "set" && parsed[n - 1].1.Table? then
      var inner := parsed[n - 1].1.entries;
      MergedInto(FromConfig(parsed, n - 1), inner, |inner|)
    else FromConfig(parsed, n - 1)
  }

  /** `SetDomains`, inserted on top of an existing map. */
  function MergedInto(m: map<string, Entries>, set_: Entries, n: nat): map<string, Entries>
    requires n <= |set_|
  {
    if n == 0 then m
    else if !set_[n - 1].1.Table? then MergedInto(m, set_, n - 1)
    else Domains.Inserted(MergedInto(m, set_, n - 1), Domains.Flattened(Some(set_[n - 1].0), set_[n - 1].1.entries))
  }

  /** `collect`: the tables under `[set]`, flattened, keyed by domain; a later duplicate domain replaces an earlier one. */
  method Collect(parsed: Entries) returns (out: map<string, Entries>)
    ensures out == FromConfig(parsed, |parsed|)
  {
    out := map[];
    var i := 0;
    while i < |parsed|
      invariant 0 <= i <= |parsed|
      invariant out == FromConfig(parsed, i)
    {
      if parsed[i].0 == "set" && parsed[i].1.Table? {
        var setInner := parsed[i].1.entries;
        var before := out;
        var j := 0;
        while j < |setInner|
          invariant 0 <= j <= |setInner|
          invariant out == MergedInto(before, setInner, j)
        {
          if setInner[j].1.Table? {
            var flat := Domains.FlattenDomains(Some(setInner[j].0), setInner[j].1.entries, []);
            assert flat == Domains.Flattened(Some(setInner[j].0), setInner[j].1.entries);
            out := Domains.InsertAll(out, flat);
          }
          j := j + 1;
        }
      }
      i := i + 1;
    }
  }

  /** With a single `set` table, collecting gives exactly that table's domains. */
  lemma {:induction false} CollectSingleSet(parsed: Entries, n: nat)
    requires n <= |parsed|
    requires forall i :: 0 <= i < |parsed| && parsed[i].0 == "set" ==> parsed[i].1.Table?
    requires forall i, j :: 0 <= i < j < |parsed| ==> parsed[i].0 != parsed[j].0
    ensures Get(parsed[..n], "set").None? ==> FromConfig(parsed, n) == map[]
    ensures Get(parsed[..n], "set").Some? ==>
      FromConfig(parsed, n) == SetDomains(Get(parsed[..n], "set").value.entries, |Get(parsed[..n], "set").value.entries|)
  {
    if n > 0 {
      CollectSingleSet(parsed, n - 1);
      assert parsed[..n][..n - 1] == parsed[..n - 1];
      GetOfSnoc(parsed[..n - 1], parsed[n - 1], "set");
      assert parsed[..n] == parsed[..n - 1] + [parsed[n - 1]];
      if parsed[n - 1].0 == "set" {
        var inner := parsed[n - 1].1.entries;
        assert Get(parsed[..n - 1], "set").None?;
        MergedIntoEmpty(inner, |inner|);
      }
    }
  }

  lemma {:induction false} GetOfSnoc(t: Entries, e: (string, Value), key: string)
    ensures Get(t + [e], key) == if Get(t, key).Some? then Get(t, key) else if e.0 == key then Some(e.1) else None
  {
    if |t| > 0 {
      assert (t + [e])[1..] == t[1..] + [e];
      GetOfSnoc(t[1..], e, key);
    }
  }

  lemma {:induction false} MergedIntoEmpty(set_: Entries, n: nat)
    requires n <= |set_|
    ensures MergedInto(map[], set_, n) == SetDomains(set_, n)
  {
    if n > 0 {
      MergedIntoEmpty(set_, n - 1);
    }
  }

  /**
   * `get_defaults_domain`: `NSGlobalDomain` and anything under
   * `NSGlobalDomain.` is the global domain, any other name gets the
   * `com.apple.` prefix.
   */
  function DefaultsDomain(domain: string): (r: string)
    ensures r == Domains.Global <==> (domain == Domains.Global || Text.StartsWith(domain, Domains.Global + "."))
  {
    if Text.StartsWith(domain, Domains.Global + ".") then Domains.Global
    else if domain == Domains.Global then domain
    else
      assert ("com.apple." + domain)[0] != Domains.Global[0];
      "com.apple." + domain
  }

  /**
   * `effective`: the domain and key a configured setting is written under.
   * Under `NSGlobalDomain.rest` the key becomes `rest.key`, even when
   * `rest` is empty.
   */
  function Effective(domain: string, key: string): (r: (string, string))
  {
    var dom := DefaultsDomain(domain);
    var k := if dom == Domains.Global && Text.StartsWith(domain, Domains.Global + ".")
      then domain[|Domains.Global| + 1..] + "." + key
      else key;
    (dom, k)
  }

  /**
   * The newer naming and the older one (`get_effective_domain_and_key`)
   * differ only on the domain `NSGlobalDomain.` with nothing after the dot:
   * the newer one gives the key a leading dot.
   */
  lemma EffectiveMatchesOlderNaming(domain: string, key: string)
    ensures Effective(domain, key) != Domains.EffectiveDomainAndKey(domain, key)
      <==> domain == Domains.Global + "."
    ensures domain == Domains.Global + "." ==> Effective(domain, key) == (Domains.Global, "." + key)
  {
    if domain == Domains.Global + "." {
      assert Text.StartsWith(domain, Domains.Global + ".");
      assert domain[|Domains.Global| + 1..] == "";
      assert "" + "." + key == "." + key;
      assert |"." + key| != |key|;
    } else if Text.StartsWith(domain, Domains.Global + ".") {
      assert |domain| > |Domains.Global| + 1;
    }
  }

  /** `read_current`: the text of the value stored under the preference, if one is. */
  function ReadCurrent(store: Prefs.Store, effDomain: string, effKey: string): (r: Option<string>)
    ensures r.Some? <==> (effDomain, effKey) in store
    ensures r.Some? ==> r.value == DomainsConvert.PrefValueToString(store[(effDomain, effKey)])
  {
    if (effDomain, effKey) in store then Some(DomainsConvert.PrefValueToString(store[(effDomain, effKey)])) else None
  }
}
