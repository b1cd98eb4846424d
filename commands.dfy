/**
 * The older commands (src/commands.rs): `apply_defaults` writes the
 * configured preferences through `defaults` and records, per preference,
 * the text it showed before and the text applied; `unapply_defaults`
 * replays that record backwards; `reset_defaults` deletes every
 * configured preference; `status_defaults` compares the configuration
 * with what `defaults read` shows.
 *
 * Loading the configuration file is not modelled: the commands take the
 * parsed configuration. The domains of `collect_domains` come in a
 * `HashMap`, so the order they are visited in is chosen by the methods
 * and handed back as a ghost result; the specifications hold for it,
 * whatever it is.
 */
module OlderCommands {
  import opened Wrappers
  import opened Toml
  import Domains
  import DefaultsFlags
  import DefaultsCli
  import OlderSnapshot
  import External
  import Processes

  type PrefKey = DefaultsCli.PrefKey
  type SettingState = OlderSnapshot.SettingState
  type Records = map<PrefKey, SettingState>

  // ---- the visiting order of the collected domains ----

  /** `order` names every domain of `domains` once. */
  ghost predicate Lists(order: seq<string>, domains: map<string, Entries>)
  {
    |order| == |domains| && forall d :: d in order <==> d in domains
  }

  /** Picks the domains one by one, in the unspecified order of a `HashMap`. */
  method Order(domains: map<string, Entries>) returns (order: seq<string>)
    ensures Lists(order, domains)
  {
    order := [];
    var rest := domains.Keys;
    while rest != {}
      invariant rest <= domains.Keys
      invariant |order| + |rest| == |domains|
      invariant forall d :: d in order <==> d in domains && d !in rest
      decreases |rest|
    {
      var d :| d in rest;
      order := order + [d];
      rest := rest - {d};
    }
  }

  // ---- the record of applied settings ----

  /** Every record is filed under its own domain and key. */
  predicate KeyedBy(records: Records)
  {
    forall k :: k in records ==> records[k].Key() == k
  }

  /** `existing_settings`: the snapshot's settings inserted in order, so the last one for a key stays. */
  function Keyed(settings: seq<SettingState>): (r: Records)
    ensures KeyedBy(r)
    ensures forall s :: s in settings ==> s.Key() in r
    ensures forall k :: k in r ==> r[k] in settings
  {
    if |settings| == 0 then map[]
    else
      var last := settings[|settings| - 1];
      Keyed(settings[..|settings| - 1])[last.Key() := last]
  }

  /** `settings` lists the records, each once (`into_values().collect()`, in the map's order). */
  predicate ListsRecords(settings: seq<SettingState>, records: Records)
  {
    && |settings| == |records|
    && (forall i :: 0 <= i < |settings| ==> settings[i].Key() in records && records[settings[i].Key()] == settings[i])
    && (forall i, j :: 0 <= i < j < |settings| ==> settings[i].Key() != settings[j].Key())
    && (forall k :: k in records ==> records[k] in settings)
  }

  /** The snapshot `apply_defaults` starts from: the saved one, or a new one when there is none or it does not load. */
  function Loaded(content: Option<OlderSnapshot.FileContent>, version: string): (r: OlderSnapshot.Snapshot)
    ensures (content.Some? && content.value.Saved?) || r == OlderSnapshot.New(version)
  {
    if content.Some? && content.value.Saved? then content.value.snapshot else OlderSnapshot.New(version)
  }

  // ---- what `apply_defaults` does, step by step ----

  /** One step of the walk over the configuration: the domain check, or one setting. */
  datatype Item = Check(domain: string) | Setting(domain: string, key: string, value: Value)

  /** The settings of a domain's table, in order. */
  function TableItems(domain: string, t: Entries): (r: seq<Item>)
    ensures |r| == |t|
  {
    seq(|t|, i requires 0 <= i < |t| => Setting(domain, t[i].0, t[i].1))
  }

  /** A domain: its check first, then its settings. */
  function DomainItems(domain: string, t: Entries): seq<Item>
  {
    [Check(domain)] + TableItems(domain, t)
  }

  /** The whole walk, domain after domain in `order`. */
  function Plan(domains: map<string, Entries>, order: seq<string>): seq<Item>
    requires forall d :: d in order ==> d in domains
  {
    if |order| == 0 then []
    else
      var d := order[|order| - 1];
      Plan(domains, order[..|order| - 1]) + DomainItems(d, domains[d])
  }

  /** What is not under the program's control during one run. */
  datatype Env = Env(
    tool: DefaultsCli.Tool,
    dryRun: bool,
    /** The domain cache, once built from `defaults domains` (`None` when that listing failed). */
    known: Option<set<string>>,
    /** The domains `defaults read <domain>` succeeds for. */
    directReads: set<string>)

  /** `check_domain_exists` against a built cache. */
  predicate DomainExists(env: Env, name: string)
  {
    if env.known.Some? then name in env.known.value else name in env.directReads
  }

  /** The records, the preferences and the commands run so far, and whether the run has aborted. */
  datatype Progress = Progress(records: Records, session: DefaultsCli.Session, failed: bool)

  /** The preference a setting is written to. */
  function KeyOf(domain: string, key: string): PrefKey
  {
    Domains.EffectiveDomainAndKey(domain, key)
  }

  /** What `get_current_value` gives for a preference. */
  function Current(tool: DefaultsCli.Tool, shown: map<PrefKey, string>, k: PrefKey): Option<string>
  {
    Domains.CurrentValue(DefaultsCli.Read(tool, shown, k))
  }

  /**
   * Whether a setting is written to `k`, with `desired` its normalised
   * value and `current` what `get_current_value` gives: a recorded
   * preference when the configured value changed since it was recorded,
   * an unrecorded one when it does not already show the configured value.
   */
  predicate WantsWrite(records: Records, k: PrefKey, desired: string, current: Option<string>)
  {
    if k in records then records[k].newValue != desired else current != Some(desired)
  }

  /** The record a setting leaves: the first original kept, the configured value as the new one. */
  function RecordFor(records: Records, k: PrefKey, desired: string, current: Option<string>): SettingState
  {
    var original := if k in records then records[k].originalValue else current;
    OlderSnapshot.SettingState(k.0, k.1, original, desired)
  }

  /**
   * One setting of `apply_defaults` (src/commands.rs, the body of the inner
   * loop), written to `k` with the normalised value `desired` and the flag
   * and text `flag`, where `get_current_value` gives `current`.
   */
  function SettingStep(p: Progress, tool: DefaultsCli.Tool, dryRun: bool, k: PrefKey, desired: string,
                       flag: Result<(string, string)>, current: Option<string>): (r: Progress)
    requires !p.failed && KeyedBy(p.records)
    ensures KeyedBy(r.records)
    ensures r.failed ==> r.records == p.records && r.session == p.session
    ensures !WantsWrite(p.records, k, desired, current) ==> !r.failed && r.session == p.session
    ensures WantsWrite(p.records, k, desired, current) ==> (r.failed <==> flag.Err? || (!dryRun && !tool.spawns))
    ensures WantsWrite(p.records, k, desired, current) && !r.failed && !dryRun ==>
      r.session.ran == p.session.ran + [DefaultsCli.Write(k.0, k.1, flag.value.0, flag.value.1)]
    ensures dryRun ==> r.session == p.session
    ensures !r.failed ==> k in r.records && r.records[k] == RecordFor(p.records, k, desired, current)
    ensures forall k' :: k' != k ==> (k' in r.records <==> k' in p.records)
    ensures forall k' :: k' != k && k' in p.records ==> r.records[k'] == p.records[k']
  {
    var record := RecordFor(p.records, k, desired, current);
    if !WantsWrite(p.records, k, desired, current) then
      if k in p.records then p else p.(records := p.records[k := record])
    else if flag.Err? then p.(failed := true)
    else
      match DefaultsCli.Issued(tool, p.session, DefaultsCli.Write(k.0, k.1, flag.value.0, flag.value.1), dryRun)
      case Err(_) => p.(failed := true)
      case Ok(s) => Progress(p.records[k := record], s, false)
  }

  /** One step of the walk: a domain that needs the `com.apple.` prefix must exist. */
  function ItemStep(p: Progress, env: Env, item: Item): (r: Progress)
    requires !p.failed && KeyedBy(p.records)
    ensures KeyedBy(r.records)
    ensures forall k :: k in p.records ==> k in r.records && r.records[k].originalValue == p.records[k].originalValue
    ensures forall k :: k in r.records ==> k in p.records || k in Keys([item])
    ensures forall k :: k in p.records && k !in Keys([item]) ==> r.records[k] == p.records[k]
    ensures env.dryRun ==> r.session == p.session
    ensures !r.failed ==> forall k :: k in Keys([item]) ==> k in r.records
  {
    assert [item][..0] == [];
    match item
    case Check(d) =>
      if Domains.NeedsPrefix(d) && !DomainExists(env, "com.apple." + d) then p.(failed := true) else p
    case Setting(d, key, value) =>
      var k := KeyOf(d, key);
      SettingStep(p, env.tool, env.dryRun, k, DefaultsFlags.Normalize(value), DefaultsFlags.ToFlag(value), Current(env.tool, p.session.shown, k))
  }

  /** The preferences the settings among `items` are written to. */
  function Keys(items: seq<Item>): set<PrefKey>
  {
    if |items| == 0 then {}
    else
      var last := items[|items| - 1];
      Keys(items[..|items| - 1]) + (if last.Setting? then {KeyOf(last.domain, last.key)} else {})
  }

  /**
   * The walk over `items`, stopping at the first failure. The recorded
   * originals are never replaced, records are only added for configured
   * preferences, the others stay as they were, and a dry run starts no
   * `defaults` command.
   */
  function Applied(p: Progress, env: Env, items: seq<Item>): (r: Progress)
    requires KeyedBy(p.records)
    ensures KeyedBy(r.records)
    ensures p.failed ==> r == p
    ensures forall k :: k in p.records ==> k in r.records && r.records[k].originalValue == p.records[k].originalValue
    ensures forall k :: k in r.records ==> k in p.records || k in Keys(items)
    ensures forall k :: k in p.records && k !in Keys(items) ==> r.records[k] == p.records[k]
    ensures env.dryRun ==> r.session == p.session
    ensures !r.failed ==> forall k :: k in Keys(items) ==> k in r.records
  {
    if |items| == 0 then p
    else
      var prev := Applied(p, env, items[..|items| - 1]);
      if prev.failed then prev else ItemStep(prev, env, items[|items| - 1])
  }

  /** Running the walk over `a + b` is running it over `a` and then over `b`. */
  lemma {:induction false} AppliedAppend(p: Progress, env: Env, a: seq<Item>, b: seq<Item>)
    requires KeyedBy(p.records)
    ensures Applied(p, env, a + b) == Applied(Applied(p, env, a), env, b)
  {
    if |b| == 0 {
      assert a + b == a;
    } else {
      var b' := b[..|b| - 1];
      assert (a + b)[..|a + b| - 1] == a + b';
      assert (a + b)[|a + b| - 1] == b[|b| - 1];
      AppliedAppend(p, env, a, b');
    }
  }

  // ---- `apply_defaults` ----

  /** The body of the inner loop of `apply_defaults`, for the setting `key = value` of `domain`. */
  method ApplySetting(records: Records, domain: string, key: string, value: Value, defaults: DefaultsCli.Defaults, dryRun: bool)
    returns (updated: Records, failed: bool)
    requires KeyedBy(records)
    modifies defaults
    ensures var k := KeyOf(domain, key);
      Progress(updated, defaults.State(), failed)
        == SettingStep(Progress(records, old(defaults.State()), false), defaults.tool, dryRun, k,
             DefaultsFlags.Normalize(value), DefaultsFlags.ToFlag(value), Current(defaults.tool, old(defaults.shown), k))
  {
    var (d, k) := Domains.EffectiveDomainAndKey(domain, key);
    var desired := DefaultsFlags.Normalize(value);
    var current := defaults.GetCurrentValue(d, k);
    updated, failed := records, false;
    var original := current;
    if (d, k) in records {
      if records[(d, k)].newValue == desired {
        return;
      }
      original := records[(d, k)].originalValue;
    } else if current == Some(desired) {
      updated := records[(d, k) := OlderSnapshot.SettingState(d, k, current, desired)];
      return;
    }
    updated, failed := WriteSetting(records, (d, k), original, desired, value, defaults, dryRun, current);
  }

  /** The end of the inner loop: the flag, `defaults write`, and the record once it succeeded. */
  method WriteSetting(records: Records, k: PrefKey, original: Option<string>, desired: string, value: Value,
                      defaults: DefaultsCli.Defaults, dryRun: bool, ghost current: Option<string>)
    returns (updated: Records, failed: bool)
    requires KeyedBy(records) && WantsWrite(records, k, desired, current)
    requires original == RecordFor(records, k, desired, current).originalValue
    modifies defaults
    ensures Progress(updated, defaults.State(), failed)
      == SettingStep(Progress(records, old(defaults.State()), false), defaults.tool, dryRun, k, desired,
                     DefaultsFlags.ToFlag(value), current)
  {
    var flag := DefaultsFlags.ToFlag(value);
    if flag.Err? {
      return records, true;
    }
    var written := defaults.ExecuteWrite(k.0, k.1, flag.value.0, flag.value.1, dryRun);
    if written.Err? {
      return records, true;
    }
    updated, failed := records[k := OlderSnapshot.SettingState(k.0, k.1, original, desired)], false;
  }

  /** The settings of one domain: the domain check for a name that needs the prefix, then every setting in order. */
  method ApplyDomain(records: Records, domain: string, t: Entries, defaults: DefaultsCli.Defaults,
                     cache: Domains.DomainCache, listing: Domains.Output, directReads: set<string>, dryRun: bool)
    returns (updated: Records, failed: bool)
    requires KeyedBy(records)
    requires cache.initialised ==> cache.known == Domains.DomainCache.Built(listing)
    modifies defaults, cache
    ensures cache.initialised ==> cache.known == Domains.DomainCache.Built(listing)
    ensures var env := Env(defaults.tool, dryRun, Domains.DomainCache.Built(listing), directReads);
      Progress(updated, defaults.State(), failed)
        == Applied(Progress(records, old(defaults.State()), false), env, DomainItems(domain, t))
  {
    ghost var env := Env(defaults.tool, dryRun, Domains.DomainCache.Built(listing), directReads);
    ghost var start := Progress(records, defaults.State(), false);
    updated, failed := records, false;
    if Domains.NeedsPrefix(domain) {
      var name := "com.apple." + domain;
      var found := cache.CheckDomainExists(name, listing, name in directReads);
      failed := found.Err?;
    }
    AppliedDomainStart(start, env, domain, t);
    var j := 0;
    while j < |t|
      invariant j <= |t|
      invariant cache.initialised ==> cache.known == Domains.DomainCache.Built(listing)
      invariant defaults.tool == env.tool
      invariant Progress(updated, defaults.State(), failed) == Applied(start, env, DomainItems(domain, t[..j]))
    {
      updated, failed := ApplyNext(start, env, domain, t, j, updated, failed, defaults, dryRun);
      j := j + 1;
    }
    assert t[..|t|] == t;
  }

  /** One turn of the inner loop of `apply_defaults`: the next setting, unless a step before it failed. */
  method ApplyNext(ghost start: Progress, ghost env: Env, domain: string, t: Entries, j: nat,
                   records: Records, failed0: bool, defaults: DefaultsCli.Defaults, dryRun: bool)
    returns (updated: Records, failed: bool)
    requires KeyedBy(start.records) && j < |t|
    requires env.tool == defaults.tool && env.dryRun == dryRun
    requires Progress(records, defaults.State(), failed0) == Applied(start, env, DomainItems(domain, t[..j]))
    modifies defaults
    ensures Progress(updated, defaults.State(), failed) == Applied(start, env, DomainItems(domain, t[..j + 1]))
  {
    AppliedDomainNext(start, env, domain, t, j);
    updated, failed := records, failed0;
    if !failed {
      updated, failed := ApplySetting(updated, domain, t[j].0, t[j].1, defaults, dryRun);
    }
  }

  lemma AppliedDomainStart(p: Progress, env: Env, domain: string, t: Entries)
    requires KeyedBy(p.records) && !p.failed
    ensures Applied(p, env, DomainItems(domain, t[..0])) == ItemStep(p, env, Check(domain))
  {
    assert DomainItems(domain, t[..0]) == [Check(domain)];
    assert [Check(domain)][..0] == [];
  }

  lemma AppliedDomainNext(p: Progress, env: Env, domain: string, t: Entries, j: nat)
    requires KeyedBy(p.records) && j < |t|
    ensures var prev := Applied(p, env, DomainItems(domain, t[..j]));
      var k := KeyOf(domain, t[j].0);
      Applied(p, env, DomainItems(domain, t[..j + 1]))
        == if prev.failed then prev
           else SettingStep(prev, env.tool, env.dryRun, k, DefaultsFlags.Normalize(t[j].1),
                  DefaultsFlags.ToFlag(t[j].1), Current(env.tool, prev.session.shown, k))
  {
    var done := DomainItems(domain, t[..j]);
    assert DomainItems(domain, t[..j + 1]) == done + [Setting(domain, t[j].0, t[j].1)];
    assert (done + [Setting(domain, t[j].0, t[j].1)])[..|done|] == done;
  }

  /** The two loops of `apply_defaults`: every domain of `order`, in turn. */
  method ApplySettings(records: Records, domains: map<string, Entries>, order: seq<string>, defaults: DefaultsCli.Defaults,
                       cache: Domains.DomainCache, listing: Domains.Output, directReads: set<string>, dryRun: bool)
    returns (updated: Records, failed: bool)
    requires KeyedBy(records)
    requires forall d :: d in order ==> d in domains
    requires cache.initialised ==> cache.known == Domains.DomainCache.Built(listing)
    modifies defaults, cache
    ensures cache.initialised ==> cache.known == Domains.DomainCache.Built(listing)
    ensures var env := Env(defaults.tool, dryRun, Domains.DomainCache.Built(listing), directReads);
      Progress(updated, defaults.State(), failed)
        == Applied(Progress(records, old(defaults.State()), false), env, Plan(domains, order))
  {
    ghost var env := Env(defaults.tool, dryRun, Domains.DomainCache.Built(listing), directReads);
    ghost var start := Progress(records, defaults.State(), false);
    updated, failed := records, false;
    var i := 0;
    while i < |order|
      invariant i <= |order|
      invariant cache.initialised ==> cache.known == Domains.DomainCache.Built(listing)
      invariant defaults.tool == env.tool
      invariant Progress(updated, defaults.State(), failed) == Applied(start, env, Plan(domains, order[..i]))
    {
      assert order[..i + 1][..i] == order[..i];
      var d := order[i];
      AppliedAppend(start, env, Plan(domains, order[..i]), DomainItems(d, domains[d]));
      if !failed {
        updated, failed := ApplyDomain(updated, d, domains[d], defaults, cache, listing, directReads, dryRun);
      }
      i := i + 1;
    }
    assert order[..|order|] == order;
  }

  /** `existing_settings.into_values().collect()`: every record once, in the map's order. */
  method ListRecords(records: Records) returns (settings: seq<SettingState>)
    requires KeyedBy(records)
    ensures ListsRecords(settings, records)
  {
    settings := [];
    var rest := records.Keys;
    while rest != {}
      invariant rest <= records.Keys
      invariant |settings| + |rest| == |records|
      invariant forall i :: 0 <= i < |settings| ==>
        settings[i].Key() in records && records[settings[i].Key()] == settings[i] && settings[i].Key() !in rest
      invariant forall i, j :: 0 <= i < j < |settings| ==> settings[i].Key() != settings[j].Key()
      invariant forall k :: k in records && k !in rest ==> records[k] in settings
      decreases |rest|
    {
      var k :| k in rest;
      settings := settings + [records[k]];
      rest := rest - {k};
    }
  }

  /**
   * The end of `apply_defaults`: outside a dry run the snapshot, with the
   * external commands of the configuration, is saved (a failed save ends
   * the command with its error); then the external commands run, and their
   * failure is only reported.
   */
  method SaveAndRunExternal(parsed: Value, snapshot: OlderSnapshot.Snapshot, file: OlderSnapshot.SnapshotFile,
                            shell: Processes.Shell, env: map<string, string>, dryRun: bool)
    returns (r: Result<()>)
    modifies file, shell
    ensures var saved := snapshot.(externalCommands := External.Extracted(External.CommandItems(parsed)));
      file.content == (if dryRun || !file.writable then old(file.content) else Some(OlderSnapshot.Saved(saved)))
    ensures r.Ok? <==> dryRun || file.writable
    ensures var run := External.Executed(External.CommandItems(parsed), External.Lookup(External.Variables(parsed), env), shell.spawns, dryRun);
      shell.started == old(shell.started) + (if r.Ok? then run.started else [])
  {
    if !dryRun {
      var commands := External.ExtractExternalCommands(parsed);
      var saved := file.Save(snapshot.(externalCommands := commands));
      if saved.Err? {
        return saved;
      }
    }
    var _ := External.ExecuteExternalCommands(parsed, env, shell, dryRun);
    return Ok(());
  }

  /** The configured domains: the top-level tables but `external`, flattened. */
  function ConfiguredDomains(parsed: Value): map<string, Entries>
    requires parsed.Table?
  {
    Domains.Collected(parsed.entries, |parsed.entries|)
  }

  /** The walk of `apply_defaults` over the configuration, from the snapshot in `content` and the preferences in `session`. */
  ghost function ApplyRun(parsed: Value, order: seq<string>, content: Option<OlderSnapshot.FileContent>, version: string,
                          session: DefaultsCli.Session, env: Env): Progress
    requires parsed.Table? && Lists(order, ConfiguredDomains(parsed))
  {
    Applied(Progress(Keyed(Loaded(content, version).settings), session, false), env, Plan(ConfiguredDomains(parsed), order))
  }

  /**
   * `apply_defaults`: collects the configured domains, starts from the
   * saved snapshot (or a new one), walks every setting, and, unless a
   * step aborted the command, records every preference once in the
   * snapshot before saving it and running the external commands.
   */
  method ApplyDefaults(parsed: Value, defaults: DefaultsCli.Defaults, cache: Domains.DomainCache, listing: Domains.Output,
                       directReads: set<string>, file: OlderSnapshot.SnapshotFile, shell: Processes.Shell,
                       env: map<string, string>, version: string, dryRun: bool)
    returns (r: Result<()>, ghost order: seq<string>, ghost settings: seq<SettingState>)
    requires cache.initialised ==> cache.known == Domains.DomainCache.Built(listing)
    modifies defaults, cache, file, shell
    ensures cache.initialised ==> cache.known == Domains.DomainCache.Built(listing)
    ensures !parsed.Table? ==>
      && r.Err? && defaults.State() == old(defaults.State())
      && file.content == old(file.content) && shell.started == old(shell.started)
    ensures parsed.Table? ==> Lists(order, ConfiguredDomains(parsed))
    ensures parsed.Table? ==> var p := ApplyRun(parsed, order, old(file.content), version, old(defaults.State()),
        Env(defaults.tool, dryRun, Domains.DomainCache.Built(listing), directReads));
      && defaults.State() == p.session
      && (p.failed ==> r.Err? && file.content == old(file.content) && shell.started == old(shell.started))
      && (!p.failed ==> ListsRecords(settings, p.records))
    ensures parsed.Table? && !ApplyRun(parsed, order, old(file.content), version, old(defaults.State()),
        Env(defaults.tool, dryRun, Domains.DomainCache.Built(listing), directReads)).failed ==>
      var saved := Loaded(old(file.content), version).(settings := settings,
        externalCommands := External.Extracted(External.CommandItems(parsed)));
      var run := External.Executed(External.CommandItems(parsed), External.Lookup(External.Variables(parsed), env), shell.spawns, dryRun);
      && file.content == (if dryRun || !file.writable then old(file.content) else Some(OlderSnapshot.Saved(saved)))
      && (r.Ok? <==> dryRun || file.writable)
      && shell.started == old(shell.started) + (if r.Ok? then run.started else [])
  {
    order, settings := [], [];
    var collected := Domains.CollectDomains(parsed);
    if collected.Err? {
      return Err(collected.error), order, settings;
    }
    var domains := collected.value;
    var visit := Order(domains);
    order := visit;
    var loaded := file.Load();
    var snapshot := if loaded.Ok? then loaded.value else OlderSnapshot.New(version);
    var records, failed := ApplySettings(Keyed(snapshot.settings), domains, visit, defaults, cache, listing, directReads, dryRun);
    if failed {
      return Err("apply aborted"), order, settings;
    }
    var listed := ListRecords(records);
    settings := listed;
    r := SaveAndRunExternal(parsed, snapshot.(settings := listed), file, shell, env, dryRun);
  }

  // ---- applying twice ----

  /** Every setting among `items` is recorded with its normalised value as the new value. */
  predicate Agrees(records: Records, items: seq<Item>)
  {
    forall it :: it in items && it.Setting? ==>
      KeyOf(it.domain, it.key) in records && records[KeyOf(it.domain, it.key)].newValue == DefaultsFlags.Normalize(it.value)
  }

  /** No two settings among `items` are written to the same preference with different values. */
  predicate Consistent(items: seq<Item>)
  {
    forall a, b :: a in items && b in items && a.Setting? && b.Setting? && KeyOf(a.domain, a.key) == KeyOf(b.domain, b.key) ==>
      DefaultsFlags.Normalize(a.value) == DefaultsFlags.Normalize(b.value)
  }

  /** Every domain among `items` that needs the prefix exists. */
  predicate ChecksPass(env: Env, items: seq<Item>)
  {
    forall it :: it in items && it.Check? && Domains.NeedsPrefix(it.domain) ==> DomainExists(env, "com.apple." + it.domain)
  }

  /** When every setting is already recorded with its value, the walk changes nothing and writes nothing. */
  lemma {:induction false} AppliedUnchanged(p: Progress, env: Env, items: seq<Item>)
    requires KeyedBy(p.records) && !p.failed
    requires Agrees(p.records, items) && ChecksPass(env, items)
    ensures Applied(p, env, items) == p
  {
    if |items| > 0 {
      var init := items[..|items| - 1];
      assert forall it :: it in init ==> it in items;
      AppliedUnchanged(p, env, init);
      assert items[|items| - 1] in items;
    }
  }

  /**
   * A walk that did not abort passed every domain check and, when the
   * settings are consistent, left each one recorded with its value.
   */
  lemma {:induction false} AppliedAgrees(p: Progress, env: Env, items: seq<Item>)
    requires KeyedBy(p.records) && Consistent(items)
    requires !Applied(p, env, items).failed
    ensures Agrees(Applied(p, env, items).records, items) && ChecksPass(env, items)
  {
    if |items| > 0 {
      var init := items[..|items| - 1];
      var last := items[|items| - 1];
      assert forall it :: it in init ==> it in items;
      AppliedAgrees(p, env, init);
      var prev := Applied(p, env, init);
      assert Applied(p, env, items) == ItemStep(prev, env, last);
      assert items == init + [last];
      AgreesStep(prev, env, init, last);
    }
  }

  /** A step that does not abort keeps the settings before it recorded and records its own, and passes its check. */
  lemma AgreesStep(prev: Progress, env: Env, init: seq<Item>, last: Item)
    requires KeyedBy(prev.records) && !prev.failed && Consistent(init + [last])
    requires Agrees(prev.records, init) && ChecksPass(env, init)
    requires !ItemStep(prev, env, last).failed
    ensures Agrees(ItemStep(prev, env, last).records, init + [last]) && ChecksPass(env, init + [last])
  {
    var items := init + [last];
    var r := ItemStep(prev, env, last);
    forall it | it in items && it.Setting?
      ensures KeyOf(it.domain, it.key) in r.records
      ensures r.records[KeyOf(it.domain, it.key)].newValue == DefaultsFlags.Normalize(it.value)
    {
      if last.Setting? && KeyOf(it.domain, it.key) == KeyOf(last.domain, last.key) {
        assert last in items;
      } else if it != last {
        assert it in init;
      }
    }
    forall it | it in items && it.Check? && Domains.NeedsPrefix(it.domain)
      ensures DomainExists(env, "com.apple." + it.domain)
    {
      if it != last {
        assert it in init;
      }
    }
  }

  /** Reading back a listing of the records gives the records. */
  lemma KeyedListed(settings: seq<SettingState>, records: Records)
    requires ListsRecords(settings, records) && KeyedBy(records)
    ensures Keyed(settings) == records
  {
    var r := Keyed(settings);
    forall k | k in r
      ensures k in records && r[k] == records[k]
    {
      var i :| 0 <= i < |settings| && settings[i] == r[k];
    }
    forall k | k in records
      ensures k in r
    {
      assert records[k] in settings;
    }
    assert r.Keys == records.Keys;
  }

  /** The walk holds an item exactly when one of the visited domains does. */
  lemma {:induction false} PlanMembers(domains: map<string, Entries>, order: seq<string>, it: Item)
    requires forall d :: d in order ==> d in domains
    ensures it in Plan(domains, order) <==> exists d :: d in order && it in DomainItems(d, domains[d])
  {
    if |order| > 0 {
      var init := order[..|order| - 1];
      var d := order[|order| - 1];
      assert forall e :: e in init ==> e in order;
      PlanMembers(domains, init, it);
      if it in DomainItems(d, domains[d]) {
        assert d in order;
      }
      if e :| e in order && it in DomainItems(e, domains[e]) {
        if e != d {
          assert e in init;
        }
      }
    }
  }

  /**
   * Applying again: when `apply_defaults` succeeded with a configuration
   * that gives every preference one value, a second run over the snapshot
   * it saved and the preferences it left, visiting the domains in any
   * order, writes nothing and leaves the same records.
   */
  lemma ApplyAgain(parsed: Value, order: seq<string>, again: seq<string>, content: Option<OlderSnapshot.FileContent>,
                   version: string, session: DefaultsCli.Session, env: Env, saved: OlderSnapshot.Snapshot)
    requires parsed.Table?
    requires Lists(order, ConfiguredDomains(parsed)) && Lists(again, ConfiguredDomains(parsed))
    requires Consistent(Plan(ConfiguredDomains(parsed), order))
    requires !ApplyRun(parsed, order, content, version, session, env).failed
    requires ListsRecords(saved.settings, ApplyRun(parsed, order, content, version, session, env).records)
    ensures ApplyRun(parsed, again, Some(OlderSnapshot.Saved(saved)), version, ApplyRun(parsed, order, content, version, session, env).session, env)
      == ApplyRun(parsed, order, content, version, session, env)
  {
    var domains := ConfiguredDomains(parsed);
    var start := Progress(Keyed(Loaded(content, version).settings), session, false);
    var p := ApplyRun(parsed, order, content, version, session, env);
    AppliedAgrees(start, env, Plan(domains, order));
    AgreesInOtherOrder(domains, order, again, p.records, env);
    KeyedListed(saved.settings, p.records);
    assert Keyed(Loaded(Some(OlderSnapshot.Saved(saved)), version).settings) == p.records;
    AppliedUnchanged(p, env, Plan(domains, again));
  }

  /** What holds of every item of the walk in one order holds of every item of the walk in another. */
  lemma AgreesInOtherOrder(domains: map<string, Entries>, order: seq<string>, again: seq<string>, records: Records, env: Env)
    requires Lists(order, domains) && Lists(again, domains)
    requires Agrees(records, Plan(domains, order)) && ChecksPass(env, Plan(domains, order))
    ensures Agrees(records, Plan(domains, again)) && ChecksPass(env, Plan(domains, again))
  {
    forall it | it in Plan(domains, again)
      ensures it in Plan(domains, order)
    {
      PlanMembers(domains, again, it);
      PlanMembers(domains, order, it);
    }
  }

  // ---- `unapply_defaults` ----

  /** The preferences and commands so far, and whether the replay has aborted. */
  datatype Undo = Undo(session: DefaultsCli.Session, failed: bool)

  /** `get_flag_for_value` (not part of this model): the flag and text to write an original back with. */
  type FlagFor = string -> Result<(string, string)>

  /** Whether the command putting back `s` can be formed: a delete always, a write when `get_flag_for_value` succeeds. */
  predicate Revertible(s: SettingState, flagFor: FlagFor)
  {
    s.originalValue.None? || flagFor(s.originalValue.value).Ok?
  }

  /** The command that puts back one record: a write of its original, or a delete when it had none. */
  function RevertCommand(s: SettingState, flagFor: FlagFor): (c: DefaultsCli.Command)
    requires Revertible(s, flagFor)
    ensures c.Key() == s.Key()
    ensures c.Write? <==> s.originalValue.Some?
    ensures c.Write? ==> (c.flag, c.text) == flagFor(s.originalValue.value).value
  {
    match s.originalValue
    case Some(o) => DefaultsCli.Write(s.domain, s.key, flagFor(o).value.0, flagFor(o).value.1)
    case None => DefaultsCli.Delete(s.domain, s.key)
  }

  /** One record of the replay: a flag that cannot be found, or `defaults` that cannot be started, aborts it. */
  function RevertStep(u: Undo, tool: DefaultsCli.Tool, flagFor: FlagFor, dryRun: bool, s: SettingState): (r: Undo)
    requires !u.failed
    ensures r.failed <==> !Revertible(s, flagFor) || (!dryRun && !tool.spawns)
    ensures r.failed || dryRun ==> r.session == u.session
    ensures !r.failed && !dryRun ==>
      r.session == DefaultsCli.Session(DefaultsCli.Effect(tool, u.session.shown, RevertCommand(s, flagFor)), u.session.ran + [RevertCommand(s, flagFor)])
  {
    if !Revertible(s, flagFor) then u.(failed := true)
    else
      match DefaultsCli.Issued(tool, u.session, RevertCommand(s, flagFor), dryRun)
      case Err(_) => u.(failed := true)
      case Ok(session) => Undo(session, false)
  }

  /** The replay of `ss` from the last record to the first, stopping at the first failure. */
  function Undone(u: Undo, tool: DefaultsCli.Tool, flagFor: FlagFor, dryRun: bool, ss: seq<SettingState>): Undo
    decreases |ss|
  {
    if |ss| == 0 || u.failed then u
    else Undone(RevertStep(u, tool, flagFor, dryRun, ss[|ss| - 1]), tool, flagFor, dryRun, ss[..|ss| - 1])
  }

  /** Puts back one record through `defaults`. */
  method RevertSetting(s: SettingState, defaults: DefaultsCli.Defaults, flagFor: FlagFor, dryRun: bool) returns (failed: bool)
    modifies defaults
    ensures Undo(defaults.State(), failed) == RevertStep(Undo(old(defaults.State()), false), defaults.tool, flagFor, dryRun, s)
  {
    match s.originalValue {
      case Some(o) =>
        var flag := flagFor(o);
        if flag.Err? {
          return true;
        }
        var written := defaults.ExecuteWrite(s.domain, s.key, flag.value.0, flag.value.1, dryRun);
        failed := written.Err?;
      case None =>
        var deleted := defaults.ExecuteDelete(s.domain, s.key, dryRun);
        failed := deleted.Err?;
    }
  }

  /** The loop of `unapply_defaults`: the records from the last to the first, until one fails. */
  method ReplaySettings(ss: seq<SettingState>, defaults: DefaultsCli.Defaults, flagFor: FlagFor, dryRun: bool) returns (failed: bool)
    modifies defaults
    ensures Undo(defaults.State(), failed) == Undone(Undo(old(defaults.State()), false), defaults.tool, flagFor, dryRun, ss)
  {
    ghost var u0 := Undo(defaults.State(), false);
    var i := |ss|;
    failed := false;
    assert ss[..i] == ss;
    while i > 0 && !failed
      invariant 0 <= i <= |ss|
      invariant Undone(Undo(defaults.State(), failed), defaults.tool, flagFor, dryRun, ss[..i]) == Undone(u0, defaults.tool, flagFor, dryRun, ss)
      decreases i
    {
      assert ss[..i][..i - 1] == ss[..i - 1];
      failed := RevertSetting(ss[i - 1], defaults, flagFor, dryRun);
      i := i - 1;
    }
  }

  /**
   * `unapply_defaults`: without a snapshot file, or with one that does not
   * load, nothing is done and the command fails. Otherwise the records are
   * replayed from the last to the first, and unless that aborted, the
   * snapshot file is removed outside a dry run.
   */
  method UnapplyDefaults(defaults: DefaultsCli.Defaults, file: OlderSnapshot.SnapshotFile, flagFor: FlagFor, dryRun: bool)
    returns (r: Result<()>)
    modifies defaults, file
    ensures !(old(file.content).Some? && old(file.content).value.Saved?) ==>
      r.Err? && defaults.State() == old(defaults.State()) && file.content == old(file.content)
    ensures old(file.content).Some? && old(file.content).value.Saved? ==>
      var u := Undone(Undo(old(defaults.State()), false), defaults.tool, flagFor, dryRun, old(file.content).value.snapshot.settings);
      && defaults.State() == u.session
      && (u.failed ==> r.Err? && file.content == old(file.content))
      && (!u.failed && dryRun ==> r.Ok? && file.content == old(file.content))
      && (!u.failed && !dryRun ==> (r.Ok? <==> file.writable) && file.content == (if file.writable then None else old(file.content)))
  {
    if file.content.None? {
      return Err("No snapshot found. Please apply settings first before unapplying.");
    }
    var loaded := file.Load();
    if loaded.Err? {
      return Err(loaded.error);
    }
    var failed := ReplaySettings(loaded.value.settings, defaults, flagFor, dryRun);
    if failed {
      return Err("unapply aborted");
    }
    if !dryRun {
      r := file.Remove();
    } else {
      r := Ok(());
    }
  }

  /**
   * The replay aborts exactly when a record's flag cannot be found, or
   * when there is a record and `defaults` cannot be started outside a dry run.
   */
  lemma {:induction false} UndoneFails(u: Undo, tool: DefaultsCli.Tool, flagFor: FlagFor, dryRun: bool, ss: seq<SettingState>)
    requires !u.failed
    decreases |ss|
    ensures Undone(u, tool, flagFor, dryRun, ss).failed <==>
      (exists i :: 0 <= i < |ss| && !Revertible(ss[i], flagFor)) || (|ss| > 0 && !dryRun && !tool.spawns)
  {
    if |ss| > 0 {
      var init := ss[..|ss| - 1];
      var next := RevertStep(u, tool, flagFor, dryRun, ss[|ss| - 1]);
      if !next.failed {
        UndoneFails(next, tool, flagFor, dryRun, init);
        if |init| == 0 {
          assert forall i :: 0 <= i < |ss| ==> ss[i] == ss[|ss| - 1];
        } else {
          assert forall i :: 0 <= i < |init| ==> init[i] == ss[i];
        }
      }
    }
  }

  /** A dry run changes no preference and starts no command. */
  lemma {:induction false} UndoneDryRun(u: Undo, tool: DefaultsCli.Tool, flagFor: FlagFor, ss: seq<SettingState>)
    decreases |ss|
    ensures Undone(u, tool, flagFor, true, ss).session == u.session
  {
    if |ss| > 0 && !u.failed {
      UndoneDryRun(RevertStep(u, tool, flagFor, true, ss[|ss| - 1]), tool, flagFor, ss[..|ss| - 1]);
    }
  }

  /**
   * A replay that did not abort starts one command per record, in reverse
   * order: a write of the original, or a delete when there was none.
   */
  lemma {:induction false} UndoneCommands(u: Undo, tool: DefaultsCli.Tool, flagFor: FlagFor, ss: seq<SettingState>)
    requires !u.failed && !Undone(u, tool, flagFor, false, ss).failed
    ensures forall i :: 0 <= i < |ss| ==> Revertible(ss[i], flagFor)
    ensures var ran := Undone(u, tool, flagFor, false, ss).session.ran;
      && |ran| == |u.session.ran| + |ss|
      && ran[..|u.session.ran|] == u.session.ran
      && forall i :: 0 <= i < |ss| ==> ran[|u.session.ran| + |ss| - 1 - i] == RevertCommand(ss[i], flagFor)
    decreases |ss|
  {
    if |ss| > 0 {
      var init := ss[..|ss| - 1];
      var next := RevertStep(u, tool, flagFor, false, ss[|ss| - 1]);
      UndoneCommands(next, tool, flagFor, init);
      var ran := Undone(u, tool, flagFor, false, ss).session.ran;
      var n := |u.session.ran|;
      assert ran[..n + 1] == next.session.ran by {
        assert ran[..n + 1] == ran[..|next.session.ran|];
      }
      forall i | 0 <= i < |ss|
        ensures Revertible(ss[i], flagFor)
        ensures ran[n + |ss| - 1 - i] == RevertCommand(ss[i], flagFor)
      {
        if i < |init| {
          assert ss[i] == init[i];
        } else {
          assert ran[n] == ran[..n + 1][n];
        }
      }
    }
  }

  /** The original of the earliest record for `k` (`None` when there is no record for it). */
  function FirstOriginal(ss: seq<SettingState>, k: PrefKey): Option<Option<string>>
  {
    if |ss| == 0 then None
    else
      var earlier := FirstOriginal(ss[..|ss| - 1], k);
      if earlier.Some? then earlier
      else if ss[|ss| - 1].Key() == k then Some(ss[|ss| - 1].originalValue)
      else None
  }

  /** `defaults` reads an original back as the text it was written from. */
  predicate PrintsBack(tool: DefaultsCli.Tool, flagFor: FlagFor, s: SettingState)
  {
    s.originalValue.Some? ==>
      flagFor(s.originalValue.value).Ok? && tool.printed(flagFor(s.originalValue.value).value.0, flagFor(s.originalValue.value).value.1) == s.originalValue.value
  }

  /**
   * Unapply restores: when every command succeeds and each original reads
   * back as written, a preference with records shows again the original
   * of its earliest record (or is unset when that had none), and every
   * other preference is as it was.
   */
  lemma {:induction false} UndoneRestores(u: Undo, tool: DefaultsCli.Tool, flagFor: FlagFor, ss: seq<SettingState>, k: PrefKey)
    requires !u.failed && tool.spawns && forall c :: tool.succeeds(c)
    requires forall i :: 0 <= i < |ss| ==> PrintsBack(tool, flagFor, ss[i])
    ensures !Undone(u, tool, flagFor, false, ss).failed
    ensures var after := Undone(u, tool, flagFor, false, ss).session.shown;
      match FirstOriginal(ss, k)
      case None => (k in after <==> k in u.session.shown) && (k in after ==> after[k] == u.session.shown[k])
      case Some(None) => k !in after
      case Some(Some(o)) => k in after && after[k] == o
    decreases |ss|
  {
    if |ss| > 0 {
      var init := ss[..|ss| - 1];
      var last := ss[|ss| - 1];
      assert PrintsBack(tool, flagFor, last);
      var next := RevertStep(u, tool, flagFor, false, last);
      assert forall i :: 0 <= i < |init| ==> init[i] == ss[i];
      UndoneRestores(next, tool, flagFor, init, k);
    }
  }

  // ---- `reset_defaults` ----

  /** One setting of `reset_defaults`, for the preference `k` where `get_current_value` gives `current`: a preference that shows a value is deleted. */
  function ResetKey(u: Undo, tool: DefaultsCli.Tool, dryRun: bool, k: PrefKey, current: Option<string>): (r: Undo)
    requires !u.failed
    ensures current.None? ==> r == u
    ensures current.Some? ==>
      && (r.failed <==> !dryRun && !tool.spawns)
      && (r.failed || dryRun ==> r.session == u.session)
      && (!r.failed && !dryRun ==>
            r.session == DefaultsCli.Session(DefaultsCli.Effect(tool, u.session.shown, DefaultsCli.Delete(k.0, k.1)), u.session.ran + [DefaultsCli.Delete(k.0, k.1)]))
    ensures forall k' :: k' in r.session.shown ==> k' in u.session.shown && r.session.shown[k'] == u.session.shown[k']
  {
    if current.None? then u
    else
      match DefaultsCli.Issued(tool, u.session, DefaultsCli.Delete(k.0, k.1), dryRun)
      case Err(_) => u.(failed := true)
      case Ok(session) => Undo(session, false)
  }

  /** One step of `reset_defaults`: a domain check does nothing. */
  function ResetStep(u: Undo, tool: DefaultsCli.Tool, dryRun: bool, item: Item): (r: Undo)
    requires !u.failed
    ensures r.failed || dryRun ==> r.session == u.session
    ensures forall k :: k in r.session.shown ==> k in u.session.shown && r.session.shown[k] == u.session.shown[k]
  {
    match item
    case Check(_) => u
    case Setting(d, key, _) => ResetKey(u, tool, dryRun, KeyOf(d, key), Current(tool, u.session.shown, KeyOf(d, key)))
  }

  /**
   * The loops of `reset_defaults` over `items`, stopping at the first
   * failure. Nothing is ever written: the preferences that stay set keep
   * their values, and a dry run changes nothing.
   */
  function Reset(u: Undo, tool: DefaultsCli.Tool, dryRun: bool, items: seq<Item>): (r: Undo)
    ensures u.failed ==> r == u
    ensures dryRun ==> r.session == u.session
    ensures forall k :: k in r.session.shown ==> k in u.session.shown && r.session.shown[k] == u.session.shown[k]
  {
    if |items| == 0 then u
    else
      var prev := Reset(u, tool, dryRun, items[..|items| - 1]);
      if prev.failed then prev else ResetStep(prev, tool, dryRun, items[|items| - 1])
  }

  lemma {:induction false} ResetAppend(u: Undo, tool: DefaultsCli.Tool, dryRun: bool, a: seq<Item>, b: seq<Item>)
    ensures Reset(u, tool, dryRun, a + b) == Reset(Reset(u, tool, dryRun, a), tool, dryRun, b)
  {
    if |b| == 0 {
      assert a + b == a;
    } else {
      var b' := b[..|b| - 1];
      assert (a + b)[..|a + b| - 1] == a + b';
      assert (a + b)[|a + b| - 1] == b[|b| - 1];
      ResetAppend(u, tool, dryRun, a, b');
    }
  }

  /** The body of the inner loop of `reset_defaults`, for the setting `key` of `domain`. */
  method ResetSetting(domain: string, key: string, defaults: DefaultsCli.Defaults, dryRun: bool) returns (failed: bool)
    modifies defaults
    ensures var k := KeyOf(domain, key);
      Undo(defaults.State(), failed) == ResetKey(Undo(old(defaults.State()), false), defaults.tool, dryRun, k, Current(defaults.tool, old(defaults.shown), k))
  {
    var (d, k) := KeyOf(domain, key);
    var current := defaults.GetCurrentValue(d, k);
    failed := false;
    if current.Some? {
      var deleted := defaults.ExecuteDelete(d, k, dryRun);
      failed := deleted.Err?;
    }
  }

  /** The inner loop of `reset_defaults`: every setting of one domain. */
  method ResetDomain(domain: string, t: Entries, defaults: DefaultsCli.Defaults, dryRun: bool) returns (failed: bool)
    modifies defaults
    ensures Undo(defaults.State(), failed) == Reset(Undo(old(defaults.State()), false), defaults.tool, dryRun, DomainItems(domain, t))
  {
    ghost var u0 := Undo(defaults.State(), false);
    failed := false;
    assert DomainItems(domain, t[..0]) == [Check(domain)];
    assert [Check(domain)][..0] == [];
    var j := 0;
    while j < |t|
      invariant j <= |t|
      invariant Undo(defaults.State(), failed) == Reset(u0, defaults.tool, dryRun, DomainItems(domain, t[..j]))
    {
      ResetDomainNext(u0, defaults.tool, dryRun, domain, t, j);
      if !failed {
        failed := ResetSetting(domain, t[j].0, defaults, dryRun);
      }
      j := j + 1;
    }
    assert t[..|t|] == t;
  }

  lemma ResetDomainNext(u: Undo, tool: DefaultsCli.Tool, dryRun: bool, domain: string, t: Entries, j: nat)
    requires j < |t|
    ensures var prev := Reset(u, tool, dryRun, DomainItems(domain, t[..j]));
      Reset(u, tool, dryRun, DomainItems(domain, t[..j + 1]))
        == if prev.failed then prev else ResetStep(prev, tool, dryRun, Setting(domain, t[j].0, t[j].1))
  {
    var done := DomainItems(domain, t[..j]);
    assert DomainItems(domain, t[..j + 1]) == done + [Setting(domain, t[j].0, t[j].1)];
    assert (done + [Setting(domain, t[j].0, t[j].1)])[..|done|] == done;
  }

  /** An aborted reset goes no further. */
  lemma {:induction false} ResetStops(u: Undo, tool: DefaultsCli.Tool, dryRun: bool, items: seq<Item>)
    requires u.failed
    ensures Reset(u, tool, dryRun, items) == u
  {
    if |items| > 0 {
      ResetStops(u, tool, dryRun, items[..|items| - 1]);
    }
  }

  /** The two loops of `reset_defaults`: every domain of `order`, in turn. */
  method ResetSettings(domains: map<string, Entries>, order: seq<string>, defaults: DefaultsCli.Defaults, dryRun: bool)
    returns (failed: bool)
    requires forall d :: d in order ==> d in domains
    modifies defaults
    ensures Undo(defaults.State(), failed) == Reset(Undo(old(defaults.State()), false), defaults.tool, dryRun, Plan(domains, order))
  {
    ghost var u0 := Undo(defaults.State(), false);
    failed := false;
    var i := 0;
    while i < |order|
      invariant i <= |order|
      invariant Undo(defaults.State(), failed) == Reset(u0, defaults.tool, dryRun, Plan(domains, order[..i]))
    {
      assert order[..i + 1][..i] == order[..i];
      var d := order[i];
      ResetAppend(u0, defaults.tool, dryRun, Plan(domains, order[..i]), DomainItems(d, domains[d]));
      if failed {
        ResetStops(Reset(u0, defaults.tool, dryRun, Plan(domains, order[..i])), defaults.tool, dryRun, DomainItems(d, domains[d]));
      } else {
        failed := ResetDomain(d, domains[d], defaults, dryRun);
      }
      i := i + 1;
    }
    assert order[..|order|] == order;
  }

  /**
   * `reset_defaults`: fails when there is no configuration file
   * (`configExists`); then, unless forced, the user must confirm
   * (`confirmed` is the answer) before the configuration is read. Every
   * configured preference that shows a value is deleted; then, outside a
   * dry run, the snapshot file is removed if there is one, and a failed
   * removal is only reported.
   */
  method ResetDefaults(configExists: bool, parsed: Value, defaults: DefaultsCli.Defaults, file: OlderSnapshot.SnapshotFile,
                       force: bool, confirmed: bool, dryRun: bool)
    returns (r: Result<()>, ghost order: seq<string>)
    modifies defaults, file
    ensures !configExists ==> r.Err? && defaults.State() == old(defaults.State()) && file.content == old(file.content)
    ensures configExists && !force && !confirmed ==>
      r.Ok? && defaults.State() == old(defaults.State()) && file.content == old(file.content)
    ensures configExists && (force || confirmed) && !parsed.Table? ==>
      r.Err? && defaults.State() == old(defaults.State()) && file.content == old(file.content)
    ensures configExists && (force || confirmed) && parsed.Table? ==> Lists(order, ConfiguredDomains(parsed))
    ensures configExists && (force || confirmed) && parsed.Table? ==>
      var u := Reset(Undo(old(defaults.State()), false), defaults.tool, dryRun, Plan(ConfiguredDomains(parsed), order));
      && defaults.State() == u.session
      && (u.failed ==> r.Err? && file.content == old(file.content))
      && (!u.failed ==> r.Ok? && file.content == (if dryRun || !file.writable then old(file.content) else None))
  {
    order := [];
    if !configExists {
      return Err("No config file found."), order;
    }
    if !force && !confirmed {
      return Ok(()), order;
    }
    var collected := Domains.CollectDomains(parsed);
    if collected.Err? {
      return Err(collected.error), order;
    }
    var domains := collected.value;
    var visit := Order(domains);
    order := visit;
    var failed := ResetSettings(domains, visit, defaults, dryRun);
    if failed {
      return Err("reset aborted"), order;
    }
    if file.content.Some? && !dryRun {
      var _ := file.Remove();
    }
    return Ok(()), order;
  }

  /**
   * When every delete succeeds, no configured preference shows a value
   * after `reset_defaults`.
   */
  lemma {:induction false} ResetClears(u: Undo, tool: DefaultsCli.Tool, items: seq<Item>, k: PrefKey)
    requires !u.failed && tool.spawns && forall c :: tool.succeeds(c)
    requires k in Keys(items)
    ensures !Reset(u, tool, false, items).failed
    ensures Current(tool, Reset(u, tool, false, items).session.shown, k).None?
  {
    var init := items[..|items| - 1];
    var last := items[|items| - 1];
    ResetSucceeds(u, tool, items);
    ResetSucceeds(u, tool, init);
    var prev := Reset(u, tool, false, init);
    var r := Reset(u, tool, false, items);
    assert r == ResetStep(prev, tool, false, last);
    if last.Setting? && KeyOf(last.domain, last.key) == k {
      DefaultsCli.IssuedThenRead(tool, prev.session, DefaultsCli.Delete(k.0, k.1));
    } else {
      assert k in Keys(init);
      ResetClears(u, tool, init, k);
      CurrentStaysUnset(tool, prev.session.shown, r.session.shown, k);
    }
  }

  /** A preference that shows no value still shows none after only deletes. */
  lemma CurrentStaysUnset(tool: DefaultsCli.Tool, before: map<PrefKey, string>, after: map<PrefKey, string>, k: PrefKey)
    requires forall k' :: k' in after ==> k' in before && after[k'] == before[k']
    requires Current(tool, before, k).None?
    ensures Current(tool, after, k).None?
  {
  }

  /** When every delete succeeds, `reset_defaults` does not abort. */
  lemma {:induction false} ResetSucceeds(u: Undo, tool: DefaultsCli.Tool, items: seq<Item>)
    requires !u.failed && tool.spawns
    ensures !Reset(u, tool, false, items).failed
  {
    if |items| > 0 {
      ResetSucceeds(u, tool, items[..|items| - 1]);
    }
  }

  /** The commands after those of `before` delete preferences among `keys` that showed a value in `before`. */
  predicate OnlyDeletes(tool: DefaultsCli.Tool, before: DefaultsCli.Session, ran: seq<DefaultsCli.Command>, keys: set<PrefKey>)
  {
    && |before.ran| <= |ran| && ran[..|before.ran|] == before.ran
    && forall c :: c in ran[|before.ran|..] ==> c.Delete? && c.Key() in keys && Current(tool, before.shown, c.Key()).Some?
  }

  /** `reset_defaults` only deletes: every command it starts deletes a configured preference that showed a value before the reset. */
  lemma {:induction false} ResetIssues(u: Undo, tool: DefaultsCli.Tool, dryRun: bool, items: seq<Item>)
    requires !u.failed
    ensures OnlyDeletes(tool, u.session, Reset(u, tool, dryRun, items).session.ran, Keys(items))
  {
    if |items| > 0 {
      var init := items[..|items| - 1];
      ResetIssues(u, tool, dryRun, init);
      if !Reset(u, tool, dryRun, init).failed {
        ResetIssuesNext(u, Reset(u, tool, dryRun, init), tool, dryRun, init, items[|items| - 1]);
      }
    }
  }

  lemma ResetIssuesNext(u: Undo, prev: Undo, tool: DefaultsCli.Tool, dryRun: bool, init: seq<Item>, last: Item)
    requires !prev.failed
    requires OnlyDeletes(tool, u.session, prev.session.ran, Keys(init))
    requires forall k :: k in prev.session.shown ==> k in u.session.shown && prev.session.shown[k] == u.session.shown[k]
    ensures OnlyDeletes(tool, u.session, ResetStep(prev, tool, dryRun, last).session.ran, Keys(init + [last]))
  {
    assert (init + [last])[..|init|] == init;
    var keys := Keys(init + [last]);
    assert Keys(init) <= keys;
    var n := |u.session.ran|;
    ResetStepIssues(prev, tool, dryRun, last);
    var ran := ResetStep(prev, tool, dryRun, last).session.ran;
    if ran != prev.session.ran {
      var k := KeyOf(last.domain, last.key);
      assert k in keys;
      assert ran[n..] == prev.session.ran[n..] + [DefaultsCli.Delete(k.0, k.1)];
      CurrentKept(tool, u.session.shown, prev.session.shown, k);
      forall c | c in ran[n..]
        ensures c.Delete? && c.Key() in keys && Current(tool, u.session.shown, c.Key()).Some?
      {
        if c != DefaultsCli.Delete(k.0, k.1) {
          assert c in prev.session.ran[n..];
        }
      }
    }
  }

  /** A step of `reset_defaults` starts nothing, or deletes a preference that shows a value. */
  lemma ResetStepIssues(u: Undo, tool: DefaultsCli.Tool, dryRun: bool, item: Item)
    requires !u.failed
    ensures var ran := ResetStep(u, tool, dryRun, item).session.ran;
      || ran == u.session.ran
      || (&& item.Setting?
          && Current(tool, u.session.shown, KeyOf(item.domain, item.key)).Some?
          && ran == u.session.ran + [DefaultsCli.Delete(KeyOf(item.domain, item.key).0, KeyOf(item.domain, item.key).1)])
  {
  }

  /** A preference that still shows a value after only deletes showed the same before. */
  lemma CurrentKept(tool: DefaultsCli.Tool, before: map<PrefKey, string>, after: map<PrefKey, string>, k: PrefKey)
    requires forall k' :: k' in after ==> k' in before && after[k'] == before[k']
    requires Current(tool, after, k).Some?
    ensures Current(tool, before, k) == Current(tool, after, k)
  {
  }

  // ---- `status_defaults` ----

  /** What `status_defaults` shows for a preference that has no value. */
  const NotSet: string := "Not set"

  /** A setting whose preference does not show its normalised value (an unset one shows `Not set`). */
  predicate Differs(tool: DefaultsCli.Tool, shown: map<PrefKey, string>, item: Item)
  {
    item.Setting? && Current(tool, shown, KeyOf(item.domain, item.key)).GetOr(NotSet) != DefaultsFlags.Normalize(item.value)
  }

  /** Some setting of the domain's table differs. */
  predicate DomainDiffers(tool: DefaultsCli.Tool, shown: map<PrefKey, string>, domain: string, t: Entries)
  {
    exists j :: 0 <= j < |t| && Differs(tool, shown, Setting(domain, t[j].0, t[j].1))
  }

  /** The body of the inner loop of `status_defaults`, for the setting `key = value` of `domain`. */
  method SettingStatus(domain: string, key: string, value: Value, defaults: DefaultsCli.Defaults) returns (different: bool)
    ensures different == Differs(defaults.tool, defaults.shown, Setting(domain, key, value))
  {
    var (d, k) := KeyOf(domain, key);
    var desired := DefaultsFlags.Normalize(value);
    var current := defaults.GetCurrentValue(d, k);
    different := current.GetOr(NotSet) != desired;
  }

  /** The inner loop of `status_defaults`: whether a setting of one domain differs. */
  method DomainStatus(domain: string, t: Entries, defaults: DefaultsCli.Defaults) returns (anyDifferent: bool)
    ensures anyDifferent <==> DomainDiffers(defaults.tool, defaults.shown, domain, t)
  {
    anyDifferent := false;
    var j := 0;
    while j < |t|
      invariant j <= |t|
      invariant anyDifferent <==> DiffersBefore(defaults.tool, defaults.shown, domain, t, j)
    {
      var different := SettingStatus(domain, t[j].0, t[j].1, defaults);
      DiffersBeforeNext(defaults.tool, defaults.shown, domain, t, j);
      if different {
        anyDifferent := true;
      }
      j := j + 1;
    }
  }

  /** Some of the first `n` settings of the domain's table differ. */
  predicate DiffersBefore(tool: DefaultsCli.Tool, shown: map<PrefKey, string>, domain: string, t: Entries, n: nat)
    requires n <= |t|
  {
    exists j :: 0 <= j < n && Differs(tool, shown, Setting(domain, t[j].0, t[j].1))
  }

  lemma DiffersBeforeNext(tool: DefaultsCli.Tool, shown: map<PrefKey, string>, domain: string, t: Entries, n: nat)
    requires n < |t|
    ensures DiffersBefore(tool, shown, domain, t, n + 1)
      <==> DiffersBefore(tool, shown, domain, t, n) || Differs(tool, shown, Setting(domain, t[n].0, t[n].1))
  {
    if DiffersBefore(tool, shown, domain, t, n + 1) {
      var j :| 0 <= j < n + 1 && Differs(tool, shown, Setting(domain, t[j].0, t[j].1));
      if j < n {
        assert DiffersBefore(tool, shown, domain, t, n);
      }
    }
  }

  /** The outer loop of `status_defaults`: whether a setting of a domain of `order` differs. */
  method DomainsStatus(domains: map<string, Entries>, order: seq<string>, defaults: DefaultsCli.Defaults) returns (anyDifferent: bool)
    requires forall d :: d in order ==> d in domains
    ensures anyDifferent <==> exists d :: d in order && DomainDiffers(defaults.tool, defaults.shown, d, domains[d])
  {
    anyDifferent := false;
    var i := 0;
    while i < |order|
      invariant i <= |order|
      invariant anyDifferent <==> exists d :: d in order[..i] && DomainDiffers(defaults.tool, defaults.shown, d, domains[d])
    {
      assert order[i] in order;
      var different := DomainStatus(order[i], domains[order[i]], defaults);
      assert order[..i + 1] == order[..i] + [order[i]];
      anyDifferent := anyDifferent || different;
      i := i + 1;
    }
    assert order[..|order|] == order;
  }

  /**
   * `status_defaults`: fails when there is no configuration file
   * (`configExists`) or the configuration is not a table;
   * otherwise reports whether any configured setting differs from what
   * its preference shows. Nothing is changed.
   */
  method StatusDefaults(configExists: bool, parsed: Value, defaults: DefaultsCli.Defaults) returns (r: Result<bool>)
    ensures !configExists || !parsed.Table? ==> r.Err?
    ensures configExists && parsed.Table? ==> var domains := ConfiguredDomains(parsed);
      r == Ok(exists d :: d in domains && DomainDiffers(defaults.tool, defaults.shown, d, domains[d]))
  {
    if !configExists {
      return Err("No config file found.");
    }
    var collected := Domains.CollectDomains(parsed);
    if collected.Err? {
      return Err(collected.error);
    }
    var domains := collected.value;
    var order := Order(domains);
    var anyDifferent := DomainsStatus(domains, order, defaults);
    if anyDifferent {
      var d :| d in order && DomainDiffers(defaults.tool, defaults.shown, d, domains[d]);
      assert d in domains;
    } else {
      forall d | d in domains
        ensures !DomainDiffers(defaults.tool, defaults.shown, d, domains[d])
      {
        assert d in order;
      }
    }
    assert domains == ConfiguredDomains(parsed);
    assert anyDifferent == exists d :: d in domains && DomainDiffers(defaults.tool, defaults.shown, d, domains[d]);
    return Ok(anyDifferent);
  }

  /**
   * For a preference without a record, `status_defaults` reports a
   * difference exactly when `apply_defaults` would write it, unless the
   * configured value is the text `Not set` itself.
   */
  lemma StatusMatchesApply(records: Records, k: PrefKey, desired: string, current: Option<string>)
    requires k !in records && desired != NotSet
    ensures WantsWrite(records, k, desired, current) <==> current.GetOr(NotSet) != desired
  {
  }

  /**
   * The record hides drift: a preference recorded with the configured
   * value is not written again, even when it no longer shows that value
   * and `status_defaults` reports it.
   */
  lemma RecordMasksDrift(records: Records, k: PrefKey, desired: string, current: Option<string>)
    requires k in records && records[k].newValue == desired && current != Some(desired) && desired != NotSet
    ensures !WantsWrite(records, k, desired, current)
    ensures current.GetOr(NotSet) != desired
  {
  }

  // ---- `execute_only_external_commands` ----

  /**
   * `execute_only_external_commands`: records the external commands of
   * the configuration in the snapshot (the saved one, or a new one) and,
   * outside a dry run, saves it; a failed save ends the command with its
   * error. Then the commands run, and here their failure is the command's
   * error.
   */
  method ExecuteOnlyExternalCommands(parsed: Value, file: OlderSnapshot.SnapshotFile, shell: Processes.Shell,
                                     env: map<string, string>, version: string, dryRun: bool)
    returns (r: Result<()>)
    modifies file, shell
    ensures var saved := Loaded(old(file.content), version).(externalCommands := External.Extracted(External.CommandItems(parsed)));
      file.content == (if dryRun || !file.writable then old(file.content) else Some(OlderSnapshot.Saved(saved)))
    ensures var run := External.Executed(External.CommandItems(parsed), External.Lookup(External.Variables(parsed), env), shell.spawns, dryRun);
      && shell.started == old(shell.started) + (if dryRun || file.writable then run.started else [])
      && (r.Ok? <==> (dryRun || file.writable) && run.failure.None?)
  {
    var loaded := file.Load();
    var snapshot := if loaded.Ok? then loaded.value else OlderSnapshot.New(version);
    var commands := External.ExtractExternalCommands(parsed);
    snapshot := snapshot.(externalCommands := commands);
    if !dryRun {
      var saved := file.Save(snapshot);
      if saved.Err? {
        return saved;
      }
    }
    r := External.ExecuteExternalCommands(parsed, env, shell, dryRun);
  }
}
