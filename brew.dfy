/**
 * The Homebrew state comparison (src/brew/core.rs and the older
 * src/brew/utils.rs): which configured formulae, casks and taps are not
 * installed, which installed ones are not configured, how `brew list`
 * output is read, and how the Homebrew directories are put on `PATH`.
 * The `brew` process is an `Output` value per listing.
 */
module Brew {
  import opened Wrappers
  import opened Toml
  import Text
  import Domains

  /** `BrewDiff`: per kind, configured names not installed and installed names not configured. */
  datatype BrewDiff = BrewDiff(
    missingFormulae: seq<string>, extraFormulae: seq<string>,
    missingCasks: seq<string>, extraCasks: seq<string>,
    missingTaps: seq<string>, extraTaps: seq<string>)

  /** The `[brew]` section as the newer configuration reads it; an absent list is `None`. */
  datatype BrewConfig = BrewConfig(
    formulae: Option<seq<string>>, casks: Option<seq<string>>, taps: Option<seq<string>>, noDeps: Option<bool>)

  // ---- order-preserving differences ----

  /** `xs.iter().filter(|x| !ys.contains(x))`: the names of `xs` not in `ys`, in the order of `xs`. */
  function Without(xs: seq<string>, ys: seq<string>): (r: seq<string>)
    ensures |r| <= |xs|
  {
    if |xs| == 0 then []
    else (if xs[0] in ys then [] else [xs[0]]) + Without(xs[1..], ys)
  }

  /** The filter keeps exactly the names of `xs` that are not in `ys`. */
  lemma {:induction false} WithoutMembers(xs: seq<string>, ys: seq<string>)
    ensures forall x :: x in Without(xs, ys) <==> x in xs && x !in ys
    decreases |xs|
  {
    if |xs| > 0 {
      WithoutMembers(xs[1..], ys);
      assert forall x :: x in xs <==> x == xs[0] || x in xs[1..];
    }
  }

  /** The filter keeps order: filtering a concatenation filters each part in place. */
  lemma {:induction false} WithoutConcat(a: seq<string>, b: seq<string>, ys: seq<string>)
    ensures Without(a + b, ys) == Without(a, ys) + Without(b, ys)
    decreases |a|
  {
    if |a| == 0 {
      assert a + b == b;
    } else {
      var head := if a[0] in ys then [] else [a[0]];
      assert (a + b)[0] == a[0];
      assert (a + b)[1..] == a[1..] + b;
      WithoutConcat(a[1..], b, ys);
      calc {
        Without(a + b, ys);
        head + Without(a[1..] + b, ys);
        head + (Without(a[1..], ys) + Without(b, ys));
        (head + Without(a[1..], ys)) + Without(b, ys);
        Without(a, ys) + Without(b, ys);
      }
    }
  }

  /** Nothing is dropped from a list that shares no name with the other. */
  lemma {:induction false} WithoutDisjoint(xs: seq<string>, ys: seq<string>)
    requires forall x :: x in xs ==> x !in ys
    ensures Without(xs, ys) == xs
    decreases |xs|
  {
    if |xs| > 0 {
      WithoutDisjoint(xs[1..], ys);
      assert [xs[0]] + xs[1..] == xs;
    }
  }

  /**
   * The missing and extra lists of every kind; no name is both missing
   * and extra, and a name configured and installed is neither.
   */
  function DiffOf(configFormulae: seq<string>, configCasks: seq<string>, configTaps: seq<string>,
                  formulae: seq<string>, casks: seq<string>, taps: seq<string>): (d: BrewDiff)
    ensures forall x :: !(x in d.missingFormulae && x in d.extraFormulae)
    ensures forall x :: !(x in d.missingCasks && x in d.extraCasks)
    ensures forall x :: !(x in d.missingTaps && x in d.extraTaps)
    ensures forall x :: x in d.missingFormulae <==> x in configFormulae && x !in formulae
    ensures forall x :: x in d.extraFormulae <==> x in formulae && x !in configFormulae
    ensures forall x :: x in d.missingCasks <==> x in configCasks && x !in casks
    ensures forall x :: x in d.extraCasks <==> x in casks && x !in configCasks
    ensures forall x :: x in d.missingTaps <==> x in configTaps && x !in taps
    ensures forall x :: x in d.extraTaps <==> x in taps && x !in configTaps
  {
    WithoutMembers(configFormulae, formulae); WithoutMembers(formulae, configFormulae);
    WithoutMembers(configCasks, casks); WithoutMembers(casks, configCasks);
    WithoutMembers(configTaps, taps); WithoutMembers(taps, configTaps);
    BrewDiff(Without(configFormulae, formulae), Without(formulae, configFormulae),
             Without(configCasks, casks), Without(casks, configCasks),
             Without(configTaps, taps), Without(taps, configTaps))
  }

  /** The state is in sync exactly when every configured name is installed and nothing else is. */
  predicate InSync(d: BrewDiff)
  {
    d.missingFormulae == [] && d.extraFormulae == [] && d.missingCasks == []
    && d.extraCasks == [] && d.missingTaps == [] && d.extraTaps == []
  }

  /** In sync exactly when each kind configures the same names as are installed. */
  lemma InSyncWhenSameNames(configFormulae: seq<string>, configCasks: seq<string>, configTaps: seq<string>,
                            formulae: seq<string>, casks: seq<string>, taps: seq<string>)
    ensures InSync(DiffOf(configFormulae, configCasks, configTaps, formulae, casks, taps))
      <==> SameNames(configFormulae, formulae) && SameNames(configCasks, casks) && SameNames(configTaps, taps)
  {
    SameNamesIffNoDiff(configFormulae, formulae);
    SameNamesIffNoDiff(configCasks, casks);
    SameNamesIffNoDiff(configTaps, taps);
  }

  /** Two lists name the same things, whatever their order and repetitions. */
  predicate SameNames(xs: seq<string>, ys: seq<string>)
  {
    (forall x :: x in xs ==> x in ys) && (forall y :: y in ys ==> y in xs)
  }

  lemma SameNamesIffNoDiff(xs: seq<string>, ys: seq<string>)
    ensures SameNames(xs, ys) <==> Without(xs, ys) == [] && Without(ys, xs) == []
  {
    WithoutMembers(xs, ys);
    WithoutMembers(ys, xs);
    if Without(xs, ys) != [] {
      assert Without(xs, ys)[0] in Without(xs, ys);
    } else if Without(ys, xs) != [] {
      assert Without(ys, xs)[0] in Without(ys, xs);
    }
  }

  // ---- reading `brew list` ----

  /** The names that are not empty, in order. */
  function NonEmpty(names: seq<string>): (r: seq<string>)
    ensures forall x :: x in r <==> x in names && x != ""
    ensures |r| <= |names|
  {
    if |names| == 0 then []
    else (if names[0] == "" then [] else [names[0]]) + NonEmpty(names[1..])
  }

  /** The names in a listing's output: its lines, trimmed, blank ones dropped. */
  function ListedNames(stdout: string): (r: seq<string>)
    ensures forall x :: x in r ==> x != "" && (exists line :: line in Text.Lines(stdout) && x == Text.Trim(line))
    ensures forall line :: line in Text.Lines(stdout) && Text.Trim(line) != "" ==> Text.Trim(line) in r
  {
    var lines := Text.Lines(stdout);
    var trimmed := seq(|lines|, j requires 0 <= j < |lines| => Text.Trim(lines[j]));
    assert forall line :: line in lines ==> Text.Trim(line) in trimmed by {
      forall line | line in lines ensures Text.Trim(line) in trimmed {
        var j :| 0 <= j < |lines| && lines[j] == line;
        assert trimmed[j] == Text.Trim(line);
      }
    }
    assert forall x :: x in trimmed ==> exists line :: line in lines && x == Text.Trim(line) by {
      forall x | x in trimmed ensures exists line :: line in lines && x == Text.Trim(line) {
        var j :| 0 <= j < |trimmed| && trimmed[j] == x;
        assert lines[j] in lines;
      }
    }
    NonEmpty(trimmed)
  }

  /** `brew_list` in src/brew/core.rs: a listing that cannot start or exits with failure is an error. */
  function BrewList(out: Domains.Output, what: string): (r: Result<seq<string>>)
    ensures r.Ok? <==> out.Exited? && out.success
    ensures r.Ok? ==> r.value == ListedNames(out.stdout)
  {
    match out
    case NotSpawned => Err("brew could not be started")
    case Exited(success, stdout) =>
      if !success then Err("Failed to list " + what + ", bailing.") else Ok(ListedNames(stdout))
  }

  /** `brew_list` in src/brew/utils.rs: a listing that exits with failure lists nothing. */
  function OlderBrewList(out: Domains.Output): (r: Result<seq<string>>)
    ensures r.Ok? <==> out.Exited?
    ensures out.Exited? && !out.success ==> r == Ok([])
    ensures out.Exited? && out.success ==> r == Ok(ListedNames(out.stdout))
  {
    match out
    case NotSpawned => Err("brew could not be started")
    case Exited(success, stdout) => if !success then Ok([]) else Ok(ListedNames(stdout))
  }

  /** The listings the comparison asks `brew` for. */
  datatype Listings = Listings(formulae: Domains.Output, casks: Domains.Output, taps: Domains.Output, dependencies: Domains.Output)

  /**
   * What `compare_brew_state` in src/brew/core.rs gives. It fails when one
   * of the three listings fails, or, with `no_deps`, the dependency
   * listing; otherwise it diffs the configured names (an absent list
   * counts as empty) against the installed ones, leaving out of the
   * installed formulae those installed as dependencies when `no_deps` is
   * set.
   */
  function Compared(cfg: BrewConfig, out: Listings): (r: Result<BrewDiff>)
    ensures var noDeps := cfg.noDeps.GetOr(false);
      r.Ok? <==> (out.formulae.Exited? && out.formulae.success && out.casks.Exited? && out.casks.success
                  && out.taps.Exited? && out.taps.success
                  && (noDeps ==> out.dependencies.Exited? && out.dependencies.success))
    ensures r.Ok? ==> forall x :: x in r.value.extraFormulae ==>
      x in ListedNames(out.formulae.stdout) && x !in cfg.formulae.GetOr([])
      && (cfg.noDeps == Some(true) ==> x !in ListedNames(out.dependencies.stdout))
  {
    var noDeps := cfg.noDeps.GetOr(false);
    var formulae := BrewList(out.formulae, "formula");
    var casks := BrewList(out.casks, "cask");
    var taps := BrewList(out.taps, "tap");
    if formulae.Err? then Err(formulae.error)
    else if casks.Err? then Err(casks.error)
    else if taps.Err? then Err(taps.error)
    else if !noDeps then
      Ok(DiffOf(cfg.formulae.GetOr([]), cfg.casks.GetOr([]), cfg.taps.GetOr([]), formulae.value, casks.value, taps.value))
    else
      var deps := BrewList(out.dependencies, "dependency");
      if deps.Err? then Err(deps.error)
      else
        WithoutMembers(formulae.value, deps.value);
        Ok(DiffOf(cfg.formulae.GetOr([]), cfg.casks.GetOr([]), cfg.taps.GetOr([]),
                  Without(formulae.value, deps.value), casks.value, taps.value))
  }

  /**
   * `compare_brew_state` in src/brew/core.rs, with `installed_formulae`
   * reassigned when dependencies are left out. The three listings run
   * together, so which error is reported when several fail is not
   * modelled.
   */
  method CompareBrewState(cfg: BrewConfig, out: Listings) returns (r: Result<BrewDiff>)
    ensures r.Ok? <==> Compared(cfg, out).Ok?
    ensures r.Ok? ==> r.value == Compared(cfg, out).value
  {
    var noDeps := cfg.noDeps.GetOr(false);
    var listedFormulae := BrewList(out.formulae, "formula");
    var listedCasks := BrewList(out.casks, "cask");
    var listedTaps := BrewList(out.taps, "tap");
    if listedFormulae.Err? { return Err(listedFormulae.error); }
    if listedCasks.Err? { return Err(listedCasks.error); }
    if listedTaps.Err? { return Err(listedTaps.error); }
    var installedFormulae := listedFormulae.value;
    if noDeps {
      var deps := BrewList(out.dependencies, "dependency");
      if deps.Err? { return Err(deps.error); }
      installedFormulae := Without(installedFormulae, deps.value);
    }
    return Ok(DiffOf(cfg.formulae.GetOr([]), cfg.casks.GetOr([]), cfg.taps.GetOr([]),
                     installedFormulae, listedCasks.value, listedTaps.value));
  }

  /**
   * With `no_deps`, a formula installed only as a dependency is never
   * extra, and is reported missing when it is configured; casks and taps
   * are compared as without the option.
   */
  lemma NoDepsHidesDependencies(configFormulae: seq<string>, configCasks: seq<string>, configTaps: seq<string>,
                                installed: seq<string>, dependencies: seq<string>, casks: seq<string>, taps: seq<string>, x: string)
    requires x in dependencies
    ensures var d := DiffOf(configFormulae, configCasks, configTaps, Without(installed, dependencies), casks, taps);
      x !in d.extraFormulae && (x in configFormulae ==> x in d.missingFormulae)
      && d.missingCasks == DiffOf(configFormulae, configCasks, configTaps, installed, casks, taps).missingCasks
      && d.extraTaps == DiffOf(configFormulae, configCasks, configTaps, installed, casks, taps).extraTaps
  {
    WithoutMembers(installed, dependencies);
  }

  // ---- the older comparison over the `[brew]` table ----

  /** The string items of an array, others dropped (`filter_map(as_str)`). */
  function StringItems(items: seq<Value>): (r: seq<string>)
    ensures forall s :: s in r <==> String(s) in items
    ensures |r| <= |items|
  {
    if |items| == 0 then []
    else (if items[0].String? then [items[0].s] else []) + StringItems(items[1..])
  }

  /** A list of the `[brew]` table: the string items of the array under `key`, empty when there is none. */
  function ListIn(t: Entries, key: string): (r: seq<string>)
    ensures (Get(t, key).None? || !Get(t, key).value.Array?) ==> r == []
    ensures Get(t, key).Some? && Get(t, key).value.Array? ==> r == StringItems(Get(t, key).value.items)
  {
    match Get(t, key)
    case Some(Array(items)) => StringItems(items)
    case _ => []
  }

  /** `no_deps` of the `[brew]` table: false unless it is a boolean. */
  function NoDepsIn(t: Entries): (r: bool)
    ensures r <==> Get(t, "no_deps") == Some(Boolean(true))
  {
    match Get(t, "no_deps")
    case Some(Boolean(b)) => b
    case _ => false
  }

  /**
   * `compare_brew_state` in src/brew/utils.rs: the same diff over the
   * lists read from the table; a listing that exits with failure counts
   * as empty, and only one that cannot start is an error.
   */
  method OlderCompareBrewState(t: Entries, out: Listings) returns (r: Result<BrewDiff>)
    ensures r.Ok? <==> (out.formulae.Exited? && out.casks.Exited? && out.taps.Exited?
                        && (NoDepsIn(t) ==> out.dependencies.Exited?))
    ensures r.Ok? ==>
      var installed := OlderBrewList(out.formulae).value;
      var formulae := if NoDepsIn(t) then Without(installed, OlderBrewList(out.dependencies).value) else installed;
      r.value == DiffOf(ListIn(t, "formulae"), ListIn(t, "casks"), ListIn(t, "taps"),
                        formulae, OlderBrewList(out.casks).value, OlderBrewList(out.taps).value)
  {
    var noDeps := NoDepsIn(t);
    var listedFormulae := OlderBrewList(out.formulae);
    if listedFormulae.Err? { return Err(listedFormulae.error); }
    var listedCasks := OlderBrewList(out.casks);
    if listedCasks.Err? { return Err(listedCasks.error); }
    var listedTaps := OlderBrewList(out.taps);
    if listedTaps.Err? { return Err(listedTaps.error); }
    var installedFormulae := listedFormulae.value;
    if noDeps {
      var deps := OlderBrewList(out.dependencies);
      if deps.Err? { return Err(deps.error); }
      installedFormulae := Without(installedFormulae, deps.value);
    }
    return Ok(DiffOf(ListIn(t, "formulae"), ListIn(t, "casks"), ListIn(t, "taps"),
                     installedFormulae, listedCasks.value, listedTaps.value));
  }

  // ---- PATH ----

  /** Whether a directory is one of the `:`-separated entries of a PATH. */
  predicate OnPath(path: string, dir: string)
  {
    dir in Text.Split(path, ':')
  }

  /** Putting `dir:` in front of a PATH adds `dir` as its first entry. */
  lemma {:induction false} SplitPrepended(dir: string, path: string)
    requires ':' !in dir
    ensures Text.Split(dir + ":" + path, ':') == [dir] + Text.Split(path, ':')
  {
    var s := dir + ":" + path;
    assert s[|dir|] == ':';
    assert ':' in s;
    IndexOfPrepended(dir, path);
    assert s[..|dir|] == dir;
    assert s[|dir| + 1..] == path;
  }

  lemma {:induction false} IndexOfPrepended(dir: string, path: string)
    requires ':' !in dir
    ensures ':' in dir + ":" + path
    ensures Text.IndexOf(dir + ":" + path, ':') == |dir|
    decreases |dir|
  {
    var s := dir + ":" + path;
    assert s[|dir|] == ':';
    if |dir| > 0 {
      assert s[0] == dir[0] && dir[0] != ':';
      assert s[1..] == dir[1..] + ":" + path;
      IndexOfPrepended(dir[1..], path);
    }
  }

  /**
   * `new_path`: `bin` and then `sbin` put in front of the PATH, each only
   * when the original PATH does not already list it, so that a fresh
   * `sbin` ends up first.
   */
  method PrependBrewDirs(existing: string, bin: string, sbin: string) returns (newPath: string)
    requires ':' !in bin && ':' !in sbin
    ensures newPath == WithBrewDirs(existing, bin, sbin)
    ensures forall p :: OnPath(newPath, p) <==> OnPath(existing, p) || p == bin || p == sbin
  {
    newPath := existing;
    if !OnPath(existing, bin) {
      newPath := bin + ":" + newPath;
    }
    if !OnPath(existing, sbin) {
      newPath := sbin + ":" + newPath;
    }
    WithBrewDirsEntries(existing, bin, sbin);
  }

  /** The PATH with `sbin:` and `bin:` in front, each only where the PATH lacks it. */
  function WithBrewDirs(existing: string, bin: string, sbin: string): string
  {
    (if OnPath(existing, sbin) then "" else sbin + ":") + (if OnPath(existing, bin) then "" else bin + ":") + existing
  }

  lemma WithBrewDirsEntries(existing: string, bin: string, sbin: string)
    requires ':' !in bin && ':' !in sbin
    ensures forall p :: OnPath(WithBrewDirs(existing, bin, sbin), p) <==> OnPath(existing, p) || p == bin || p == sbin
  {
    var mid := (if OnPath(existing, bin) then "" else bin + ":") + existing;
    if !OnPath(existing, bin) {
      assert mid == bin + ":" + existing;
      PrependedEntries(bin, existing);
    } else {
      assert mid == existing;
    }
    assert forall p :: OnPath(mid, p) <==> OnPath(existing, p) || p == bin;
    if !OnPath(existing, sbin) {
      assert WithBrewDirs(existing, bin, sbin) == sbin + ":" + mid;
      PrependedEntries(sbin, mid);
    } else {
      assert WithBrewDirs(existing, bin, sbin) == mid;
    }
  }

  /** A second configuration of the same process changes PATH no further. */
  lemma WithBrewDirsSettles(existing: string, bin: string, sbin: string)
    requires ':' !in bin && ':' !in sbin
    ensures WithBrewDirs(WithBrewDirs(existing, bin, sbin), bin, sbin) == WithBrewDirs(existing, bin, sbin)
  {
    WithBrewDirsEntries(existing, bin, sbin);
  }

  /** The entries of `dir:path` are `dir` and those of `path`. */
  lemma PrependedEntries(dir: string, path: string)
    requires ':' !in dir
    ensures forall p :: OnPath(dir + ":" + path, p) <==> OnPath(path, p) || p == dir
  {
    SplitPrepended(dir, path);
  }

  const SiliconBin := "/opt/homebrew/bin"
  const SiliconSbin := "/opt/homebrew/sbin"
  const IntelBin := "/usr/local/bin"
  const IntelSbin := "/usr/local/sbin"

  /** None of the Homebrew directories holds a `:`. */
  lemma BrewDirsPlain()
    ensures ':' !in SiliconBin && ':' !in SiliconSbin && ':' !in IntelBin && ':' !in IntelSbin
  {
  }

  /**
   * `set_homebrew_env_vars`: the Apple silicon prefix when its `brew`
   * exists, otherwise the Intel prefix when its `brew` exists; with
   * neither, PATH is left alone (`None`).
   */
  method HomebrewPath(existing: string, siliconBrewExists: bool, intelBrewExists: bool) returns (r: Option<string>)
    ensures r.None? <==> !siliconBrewExists && !intelBrewExists
    ensures siliconBrewExists ==> OnPath(r.value, SiliconBin) && OnPath(r.value, SiliconSbin)
    ensures !siliconBrewExists && intelBrewExists ==> OnPath(r.value, IntelBin) && OnPath(r.value, IntelSbin)
    ensures siliconBrewExists ==> r == Some(WithBrewDirs(existing, SiliconBin, SiliconSbin))
    ensures !siliconBrewExists && intelBrewExists ==> r == Some(WithBrewDirs(existing, IntelBin, IntelSbin))
    ensures r.Some? ==> forall p :: OnPath(existing, p) ==> OnPath(r.value, p)
  {
    BrewDirsPlain();
    if siliconBrewExists {
      var p := PrependBrewDirs(existing, SiliconBin, SiliconSbin);
      r := Some(p);
    } else if intelBrewExists {
      var p := PrependBrewDirs(existing, IntelBin, IntelSbin);
      r := Some(p);
    } else {
      r := None;
    }
  }
}
