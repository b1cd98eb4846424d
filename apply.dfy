/**
 * `cutler apply` (src/commands/apply.rs): compares every configured
 * setting with the value the system shows, writes the ones that differ in
 * one batch, and records in the snapshot what each written preference
 * showed before, so that `unapply` can restore it.
 */
module ApplyCmd {
  import opened Wrappers
  import opened Toml
  import Prefs
  import Snapshots
  import Domains
  import DomainsCollector
  import DomainsConvert
  import ExecCore

  /** One configured setting: the domain as written under `[set]`, the key and the value. */
  datatype Setting = Setting(domain: string, key: string, value: Value)

  /** The settings of the collected domains, domain by domain and key by key, in the order they are iterated. */
  function Settings(domains: seq<(string, Entries)>): seq<Setting>
  {
    if |domains| == 0 then []
    else
      var (d, t) := domains[0];
      seq(|t|, i requires 0 <= i < |t| => Setting(d, t[i].0, t[i].1)) + Settings(domains[1..])
  }

  /** `PreferenceJob`: a preference to write, how it is announced, and the text to restore it to. */
  datatype Job = Job(domain: string, key: string, value: Value, updating: bool, original: Option<string>, newValue: string)
  {
    function Key(): Prefs.PrefKey { (domain, key) }
  }

  /** The old snapshot's records by preference. */
  type Existing = map<Prefs.PrefKey, Snapshots.SettingState>

  /** The records of a snapshot by preference; a later record for the same preference replaces an earlier one. */
  function Indexed(settings: seq<Snapshots.SettingState>): (r: Existing)
    ensures forall k :: k in r ==> r[k].Key() == k
  {
    if |settings| == 0 then map[]
    else Indexed(settings[..|settings| - 1])[settings[|settings| - 1].Key() := settings[|settings| - 1]]
  }

  function EffectiveKey(s: Setting): Prefs.PrefKey
  {
    DomainsCollector.Effective(s.domain, s.key)
  }

  /** The domain check: without `--no-check`, a domain other than `NSGlobalDomain` must be listed. */
  predicate DomainMissing(s: Setting, domainsList: set<string>, noCheck: bool)
  {
    var d := EffectiveKey(s).0;
    !noCheck && d != Domains.Global && d !in domainsList
  }

  /** The text the system shows for a setting's preference; the empty text when it has none. */
  function Current(store: Prefs.Store, s: Setting): string
  {
    var k := EffectiveKey(s);
    DomainsCollector.ReadCurrent(store, k.0, k.1).GetOr("")
  }

  /** A setting differs from the system when the shown text is not its normal form. */
  predicate Changed(store: Prefs.Store, s: Setting)
  {
    Current(store, s) != DomainsConvert.Normalize(s.value)
  }

  /**
   * The text a written preference is to be restored to: the old
   * snapshot's, when it recorded the preference; otherwise what the system
   * shows, or nothing when that is empty.
   */
  function OriginalOf(existing: Existing, store: Prefs.Store, s: Setting): Option<string>
  {
    var k := EffectiveKey(s);
    if k in existing then existing[k].originalValue
    else if Current(store, s) == "" then None
    else Some(Current(store, s))
  }

  /** The job for a changed setting. After a snapshot that failed to load, nothing is restorable. */
  function JobFor(existing: Existing, store: Prefs.Store, s: Setting, badSnap: bool): Job
  {
    var k := EffectiveKey(s);
    Job(k.0, k.1, s.value, k in existing, if badSnap then None else OriginalOf(existing, store, s),
        DomainsConvert.Normalize(s.value))
  }

  /** Prepends jobs to a plan that succeeded. */
  function Then(jobs: seq<Job>, rest: Result<(seq<Job>, Existing)>): Result<(seq<Job>, Existing)>
  {
    if rest.Err? then rest else Ok((jobs + rest.value.0, rest.value.1))
  }

  lemma ThenThen(a: seq<Job>, b: seq<Job>, rest: Result<(seq<Job>, Existing)>)
    ensures Then(a, Then(b, rest)) == Then(a + b, rest)
  {
    if rest.Ok? {
      assert a + (b + rest.value.0) == (a + b) + rest.value.0;
    }
  }

  /**
   * The planning loop: the jobs for the settings that differ, in order, and
   * the old records left over; a written preference's old record is taken
   * out. A missing domain stops everything.
   */
  function Plan(settings: seq<Setting>, store: Prefs.Store, existing: Existing, badSnap: bool,
                domainsList: set<string>, noCheck: bool): Result<(seq<Job>, Existing)>
    decreases |settings|
  {
    if |settings| == 0 then Ok(([], existing))
    else
      var s := settings[0];
      if DomainMissing(s, domainsList, noCheck) then Err("Domain \"" + EffectiveKey(s).0 + "\" does not exist!")
      else if !Changed(store, s) then Plan(settings[1..], store, existing, badSnap, domainsList, noCheck)
      else
        Then([JobFor(existing, store, s, badSnap)],
             Plan(settings[1..], store, existing - {EffectiveKey(s)}, badSnap, domainsList, noCheck))
  }

  /** The batch for the jobs, in order; a value the store cannot hold (a date-time) fails it. */
  function BatchOf(jobs: seq<Job>): (r: Result<seq<(Prefs.PrefKey, Prefs.PrefValue)>>)
    ensures r.Ok? ==> |r.value| == |jobs|
    ensures r.Ok? ==> forall i :: 0 <= i < |jobs| ==>
      DomainsConvert.TomlToPref(jobs[i].value).Ok? && r.value[i] == (jobs[i].Key(), DomainsConvert.TomlToPref(jobs[i].value).value)
    ensures r.Err? <==> exists i :: 0 <= i < |jobs| && DomainsConvert.TomlToPref(jobs[i].value).Err?
  {
    if |jobs| == 0 then Ok([])
    else
      var front := BatchOf(jobs[..|jobs| - 1]);
      var last := jobs[|jobs| - 1];
      var p := DomainsConvert.TomlToPref(last.value);
      if front.Err? then front
      else if p.Err? then Err(p.error)
      else Ok(front.value + [(last.Key(), p.value)])
  }

  /** The snapshot records for the jobs, in order. */
  function JobStates(jobs: seq<Job>): (r: seq<Snapshots.SettingState>)
    ensures |r| == |jobs|
    ensures forall i :: 0 <= i < |jobs| ==> r[i] == Snapshots.SettingState(jobs[i].domain, jobs[i].key, jobs[i].original)
  {
    seq(|jobs|, i requires 0 <= i < |jobs| => Snapshots.SettingState(jobs[i].domain, jobs[i].key, jobs[i].original))
  }

  /** `rest` lists the records of `m`, each once, in some order. */
  predicate Enumerates(rest: seq<Snapshots.SettingState>, m: Existing)
  {
    |rest| == |m|
    && (forall i :: 0 <= i < |rest| ==> rest[i].Key() in m && m[rest[i].Key()] == rest[i])
    && (forall i, j :: 0 <= i < j < |rest| ==> rest[i].Key() != rest[j].Key())
  }

  /** The old snapshot as `apply` finds it: its records, and whether a file was there but could not be read. */
  function OldRecords(files: map<string, Snapshots.FileContent>, snapPath: string): (Existing, bool)
  {
    if snapPath in files && files[snapPath].Saved? then (Indexed(files[snapPath].snapshot.settings), false)
    else (map[], snapPath in files)
  }

  /** The execution mode the flags select: `--all-exec`, then `--flagged`, else regular. */
  function ModeFor(allExec: bool, flagged: bool): (m: ExecCore.ExecMode)
    ensures m == ExecCore.All <==> allExec
    ensures m == ExecCore.Flagged <==> !allExec && flagged
  {
    if allExec then ExecCore.All else if flagged then ExecCore.Flagged else ExecCore.Regular
  }

  /** The snapshot `apply` leaves: the leftover old records, then one per job, the digest and the run count. */
  predicate IsNewSnapshot(s: Snapshots.Snapshot, leftover: Existing, jobs: seq<Job>, digest: string,
                          version: string, execCount: Option<int>)
  {
    && |s.settings| >= |jobs|
    && Enumerates(s.settings[..|s.settings| - |jobs|], leftover)
    && s.settings[|s.settings| - |jobs|..] == JobStates(jobs)
    && s.digest == digest && s.version == version && s.external == []
    && s.execRunCount == (if execCount.Some? && execCount.value > 0 then execCount.value else 0)
  }

  /** Lists the records of a map, each once, in the map's (unspecified) iteration order. */
  method ListRecords(m: Existing) returns (rest: seq<Snapshots.SettingState>)
    requires forall k :: k in m ==> m[k].Key() == k
    ensures Enumerates(rest, m)
  {
    rest := [];
    var left := m;
    while left != map[]
      invariant left.Keys <= m.Keys
      invariant forall k :: k in left ==> left[k] == m[k]
      invariant |rest| + |left| == |m|
      invariant forall i :: 0 <= i < |rest| ==> rest[i].Key() in m && rest[i].Key() !in left && m[rest[i].Key()] == rest[i]
      invariant forall i, j :: 0 <= i < j < |rest| ==> rest[i].Key() != rest[j].Key()
      decreases |left|
    {
      var k :| k in left;
      rest := rest + [left[k]];
      left := left - {k};
    }
  }

  /** The planning loop's step at the `i`-th setting. */
  lemma PlanStep(settings: seq<Setting>, i: nat, store: Prefs.Store, existing: Existing, badSnap: bool,
                 domainsList: set<string>, noCheck: bool)
    requires i < |settings|
    ensures var s := settings[i];
      Plan(settings[i..], store, existing, badSnap, domainsList, noCheck)
        == if DomainMissing(s, domainsList, noCheck) then Err("Domain \"" + EffectiveKey(s).0 + "\" does not exist!")
           else if !Changed(store, s) then Plan(settings[i + 1..], store, existing, badSnap, domainsList, noCheck)
           else Then([JobFor(existing, store, s, badSnap)],
                     Plan(settings[i + 1..], store, existing - {EffectiveKey(s)}, badSnap, domainsList, noCheck))
  {
    assert settings[i..][0] == settings[i] && settings[i..][1..] == settings[i + 1..];
  }

  /** A missing domain at the `i`-th setting fails the whole plan. */
  lemma PlanStops(settings: seq<Setting>, i: nat, store: Prefs.Store, existing: Existing, badSnap: bool,
                  domainsList: set<string>, noCheck: bool, jobs: seq<Job>)
    requires i < |settings| && DomainMissing(settings[i], domainsList, noCheck)
    ensures Then(jobs, Plan(settings[i..], store, existing, badSnap, domainsList, noCheck))
      == Err("Domain \"" + EffectiveKey(settings[i]).0 + "\" does not exist!")
  {
    PlanStep(settings, i, store, existing, badSnap, domainsList, noCheck);
  }

  /** Past the `i`-th setting, the plan goes on with its job, if it differs, and its old record taken out. */
  lemma PlanAdvances(settings: seq<Setting>, i: nat, store: Prefs.Store, existing: Existing, badSnap: bool,
                     domainsList: set<string>, noCheck: bool, jobs: seq<Job>)
    requires i < |settings| && !DomainMissing(settings[i], domainsList, noCheck)
    ensures var s := settings[i];
      Then(jobs, Plan(settings[i..], store, existing, badSnap, domainsList, noCheck))
        == if Changed(store, s) then
             Then(jobs + [JobFor(existing, store, s, badSnap)],
                  Plan(settings[i + 1..], store, existing - {EffectiveKey(s)}, badSnap, domainsList, noCheck))
           else Then(jobs, Plan(settings[i + 1..], store, existing, badSnap, domainsList, noCheck))
  {
    var s := settings[i];
    PlanStep(settings, i, store, existing, badSnap, domainsList, noCheck);
    if Changed(store, s) {
      ThenThen(jobs, [JobFor(existing, store, s, badSnap)],
               Plan(settings[i + 1..], store, existing - {EffectiveKey(s)}, badSnap, domainsList, noCheck));
    }
  }

  /**
   * The body of the planning loop for one setting: the domain check, the
   * comparison with the shown text, and for a setting that differs its
   * job, with its old record taken out.
   */
  method PlanSetting(s: Setting, store: Prefs.Store, existing: Existing, isBadSnap: bool,
                     domainsList: set<string>, noCheck: bool)
    returns (r: Result<(Option<Job>, Existing)>)
    ensures r.Err? <==> DomainMissing(s, domainsList, noCheck)
    ensures r.Err? ==> r.error == "Domain \"" + EffectiveKey(s).0 + "\" does not exist!"
    ensures r.Ok? ==> r.value == if Changed(store, s) then (Some(JobFor(existing, store, s, isBadSnap)), existing - {EffectiveKey(s)})
                                 else (None, existing)
  {
    var (effDom, effKey) := DomainsCollector.Effective(s.domain, s.key);
    if !noCheck && effDom != Domains.Global && effDom !in domainsList {
      return Err("Domain \"" + effDom + "\" does not exist!");
    }
    var current := DomainsCollector.ReadCurrent(store, effDom, effKey).GetOr("");
    var desired := DomainsConvert.Normalize(s.value);
    var changed := current != desired;
    var oldEntry: Option<Snapshots.SettingState> := if (effDom, effKey) in existing then Some(existing[(effDom, effKey)]) else None;
    if !changed {
      return Ok((None, existing));
    }
    var original := if oldEntry.Some? then oldEntry.value.originalValue
      else if current == "" then None
      else Some(current);
    var job := Job(effDom, effKey, s.value, oldEntry.Some?, if isBadSnap then None else original, desired);
    return Ok((Some(job), existing - {(effDom, effKey)}));
  }

  lemma PlanFromStart(settings: seq<Setting>, store: Prefs.Store, existing: Existing, badSnap: bool,
                      domainsList: set<string>, noCheck: bool)
    ensures Plan(settings, store, existing, badSnap, domainsList, noCheck)
      == Then([], Plan(settings[0..], store, existing, badSnap, domainsList, noCheck))
  {
    assert settings[0..] == settings;
    var p := Plan(settings, store, existing, badSnap, domainsList, noCheck);
    if p.Ok? {
      assert [] + p.value.0 == p.value.0;
    }
  }

  lemma PlanAtEnd(settings: seq<Setting>, store: Prefs.Store, existing: Existing, badSnap: bool,
                  domainsList: set<string>, noCheck: bool, jobs: seq<Job>)
    ensures Then(jobs, Plan(settings[|settings|..], store, existing, badSnap, domainsList, noCheck)) == Ok((jobs, existing))
  {
    assert settings[|settings|..] == [];
    assert jobs + [] == jobs;
  }

  /** One turn of the planning loop: the jobs so far extended, or the plan's failure. */
  method PlanNext(settings: seq<Setting>, i: nat, store: Prefs.Store, existing: Existing, isBadSnap: bool,
                  domainsList: set<string>, noCheck: bool, jobs: seq<Job>)
    returns (r: Result<(seq<Job>, Existing)>)
    requires i < |settings|
    ensures r.Err? ==> Then(jobs, Plan(settings[i..], store, existing, isBadSnap, domainsList, noCheck)) == Err(r.error)
    ensures r.Ok? ==> Then(jobs, Plan(settings[i..], store, existing, isBadSnap, domainsList, noCheck))
                      == Then(r.value.0, Plan(settings[i + 1..], store, r.value.1, isBadSnap, domainsList, noCheck))
  {
    var step := PlanSetting(settings[i], store, existing, isBadSnap, domainsList, noCheck);
    if step.Err? {
      PlanStops(settings, i, store, existing, isBadSnap, domainsList, noCheck, jobs);
      return Err(step.error);
    }
    PlanAdvances(settings, i, store, existing, isBadSnap, domainsList, noCheck, jobs);
    if step.value.0.Some? {
      return Ok((jobs + [step.value.0.value], step.value.1));
    }
    return Ok((jobs, step.value.1));
  }

  /** The loop of `ApplyCmd::run` over the configured settings: the jobs to run and the old records left over. */
  method PlanJobs(settings: seq<Setting>, store: Prefs.Store, existing0: Existing, isBadSnap: bool,
                  domainsList: set<string>, noCheck: bool)
    returns (r: Result<(seq<Job>, Existing)>)
    ensures r == Plan(settings, store, existing0, isBadSnap, domainsList, noCheck)
  {
    var existing := existing0;
    var jobs: seq<Job> := [];
    var i := 0;
    PlanFromStart(settings, store, existing0, isBadSnap, domainsList, noCheck);
    while i < |settings|
      invariant 0 <= i <= |settings|
      invariant Plan(settings, store, existing0, isBadSnap, domainsList, noCheck)
        == Then(jobs, Plan(settings[i..], store, existing, isBadSnap, domainsList, noCheck))
    {
      var next := PlanNext(settings, i, store, existing, isBadSnap, domainsList, noCheck, jobs);
      if next.Err? {
        return Err(next.error);
      }
      jobs, existing := next.value.0, next.value.1;
      i := i + 1;
    }
    PlanAtEnd(settings, store, existing, isBadSnap, domainsList, noCheck, jobs);
    return Ok((jobs, existing));
  }

  /** The batch loop of `ApplyCmd::run`: each job's value converted for the store, in order. */
  method BuildBatch(jobs: seq<Job>) returns (r: Result<seq<(Prefs.PrefKey, Prefs.PrefValue)>>)
    ensures r.Err? <==> BatchOf(jobs).Err?
    ensures r.Ok? ==> r == BatchOf(jobs)
  {
    var batch: seq<(Prefs.PrefKey, Prefs.PrefValue)> := [];
    var j := 0;
    while j < |jobs|
      invariant 0 <= j <= |jobs|
      invariant BatchOf(jobs[..j]) == Ok(batch)
    {
      assert jobs[..j + 1][..j] == jobs[..j];
      var p := DomainsConvert.TomlToPref(jobs[j].value);
      if p.Err? {
        assert BatchOf(jobs).Err? by {
          assert jobs[..j + 1][j] == jobs[j];
        }
        return Err(p.error);
      }
      batch := batch + [(jobs[j].Key(), p.value)];
      j := j + 1;
    }
    assert jobs[..|jobs|] == jobs;
    return Ok(batch);
  }

  /**
   * The end of `ApplyCmd::run`: builds the new snapshot and, unless this
   * is a dry run, saves it; with `--brew` (`brew`) runs the Homebrew
   * install, whose outcome is `brewOk`; then saves the snapshot again with
   * the run count when external commands ran and some succeeded. A save
   * that fails ends the run with an error and leaves the snapshot files
   * as they were; a failed install ends it after the first save.
   */
  method SaveNewSnapshot(files: Snapshots.SnapshotFiles, leftover: Existing, jobs: seq<Job>, digest: string,
                         snapPath: string, version: string, dryRun: bool, brew: bool, brewOk: bool,
                         execCount: Option<int>)
    returns (r: Result<()>)
    requires forall k :: k in leftover ==> leftover[k].Key() == k
    modifies files
    ensures r.Ok? <==> (dryRun || files.writable) && (!brew || brewOk)
    ensures dryRun || !files.writable ==> files.files == old(files.files)
    ensures !dryRun && files.writable ==>
      && files.files.Keys == old(files.files).Keys + {snapPath}
      && (forall p :: p in old(files.files) && p != snapPath ==> files.files[p] == old(files.files)[p])
      && files.files[snapPath].Saved?
      && IsNewSnapshot(files.files[snapPath].snapshot, leftover, jobs, digest, version,
                       if brew && !brewOk then None else execCount)
  {
    var rest := ListRecords(leftover);
    var newSnap := Snapshots.New(snapPath, version);
    newSnap := newSnap.(settings := rest + JobStates(jobs), digest := digest);
    assert newSnap.settings[..|newSnap.settings| - |jobs|] == rest;
    if !dryRun {
      var saved := files.Save(newSnap);
      if saved.Err? {
        return saved;
      }
    }
    if brew && !brewOk {
      return Err("Homebrew install failed");
    }
    if execCount.Some? && !dryRun && execCount.value > 0 {
      newSnap := newSnap.(execRunCount := execCount.value);
      var saved := files.Save(newSnap);
      if saved.Err? {
        return saved;
      }
    }
    return Ok(());
  }

  /**
   * `ApplyCmd::run`, from the collected domains on. `domains` is the
   * collected map in its iteration order; `domainsList` is what
   * `Preferences::list_domains` gave; `writeSucceeds` is the outcome of the
   * batch write, which is only logged; `execCount` is `None` with
   * `--no-exec` and otherwise the count `run_all` returned; `brew` is
   * `--brew` and `brewOk` the outcome of the Homebrew install it runs.
   * When saving the new snapshot or the install fails the run ends with
   * an error after the batch was written.
   */
  method Apply(prefs: Prefs.Preferences, files: Snapshots.SnapshotFiles,
               domains: seq<(string, Entries)>, digest: string, snapPath: string, version: string,
               domainsList: Result<set<string>>, noCheck: bool, dryRun: bool, writeSucceeds: bool,
               brew: bool, brewOk: bool, execCount: Option<int>)
    returns (r: Result<()>)
    modifies prefs, files
    ensures var (existing0, badSnap) := OldRecords(old(files.files), snapPath);
      var plan := if domainsList.Err? then Err(domainsList.error)
        else Plan(Settings(domains), old(prefs.values), existing0, badSnap, domainsList.value, noCheck);
      var planned := plan.Ok? && BatchOf(plan.value.0).Ok?;
      && (r.Ok? <==> planned && (dryRun || files.writable) && (!brew || brewOk))
      && (!planned ==> prefs.values == old(prefs.values) && files.files == old(files.files))
      && (planned ==>
        && prefs.values == (if dryRun || !writeSucceeds then old(prefs.values)
                            else Prefs.Written(old(prefs.values), BatchOf(plan.value.0).value))
        && (dryRun || !files.writable ==> files.files == old(files.files))
        && (!dryRun && files.writable ==>
          && files.files.Keys == old(files.files).Keys + {snapPath}
          && (forall p :: p in old(files.files) && p != snapPath ==> files.files[p] == old(files.files)[p])
          && files.files[snapPath].Saved?
          && IsNewSnapshot(files.files[snapPath].snapshot, plan.value.1, plan.value.0, digest, version,
                           if brew && !brewOk then None else execCount)))
  {
    // load the old snapshot, if any; one that cannot be read is replaced by a new one
    var existing: Existing := map[];
    var isBadSnap := false;
    if files.IsLoadable(Some(snapPath)) {
      var loaded := files.Load(snapPath);
      if loaded.Ok? {
        existing := Indexed(loaded.value.settings);
      } else {
        isBadSnap := true;
      }
    }
    assert (existing, isBadSnap) == OldRecords(files.files, snapPath);

    if domainsList.Err? {
      return Err(domainsList.error);
    }
    var planned := PlanJobs(Settings(domains), prefs.values, existing, isBadSnap, domainsList.value, noCheck);
    if planned.Err? {
      return Err(planned.error);
    }
    var (jobs, leftover) := planned.value;
    PlanLeftover(Settings(domains), prefs.values, existing, isBadSnap, domainsList.value, noCheck);
    var built := BuildBatch(jobs);
    if built.Err? {
      return Err(built.error);
    }
    var batch := built.value;

    if !dryRun {
      prefs.WriteBatch(batch, writeSucceeds);
    }

    r := SaveNewSnapshot(files, leftover, jobs, digest, snapPath, version, dryRun, brew, brewOk, execCount);
  }

  // ---- what the plan is ----

  /** The settings `keep` accepts, in order. */
  function Kept(ss: seq<Setting>, keep: Setting -> bool): (r: seq<Setting>)
    ensures |r| <= |ss|
  {
    if |ss| == 0 then []
    else if keep(ss[0]) then [ss[0]] + Kept(ss[1..], keep)
    else Kept(ss[1..], keep)
  }

  /** A setting is kept exactly when it is one of the settings and `keep` accepts it. */
  lemma {:induction false} KeptMembers(ss: seq<Setting>, keep: Setting -> bool)
    ensures forall x :: x in Kept(ss, keep) <==> x in ss && keep(x)
    decreases |ss|
  {
    if |ss| > 0 {
      KeptMembers(ss[1..], keep);
      assert forall x :: x in ss <==> x == ss[0] || x in ss[1..];
    }
  }

  /** The settings that differ from the system, in order. */
  function ChangedSettings(settings: seq<Setting>, store: Prefs.Store): seq<Setting>
  {
    Kept(settings, s => Changed(store, s))
  }

  /** The jobs for some settings, in order, against the same old records. */
  function JobsFor(ss: seq<Setting>, existing: Existing, store: Prefs.Store, badSnap: bool): (r: seq<Job>)
    ensures |r| == |ss|
  {
    if |ss| == 0 then [] else [JobFor(existing, store, ss[0], badSnap)] + JobsFor(ss[1..], existing, store, badSnap)
  }

  lemma {:induction false} JobsForAt(ss: seq<Setting>, existing: Existing, store: Prefs.Store, badSnap: bool, i: nat)
    requires i < |ss|
    ensures JobsFor(ss, existing, store, badSnap)[i] == JobFor(existing, store, ss[i], badSnap)
  {
    if i > 0 {
      JobsForAt(ss[1..], existing, store, badSnap, i - 1);
    }
  }

  /** No two settings are written under the same preference. */
  predicate DistinctKeys(settings: seq<Setting>)
  {
    forall i, j :: 0 <= i < j < |settings| ==> EffectiveKey(settings[i]) != EffectiveKey(settings[j])
  }

  /** The settings after the first keep distinct preferences, none of them the first one's. */
  lemma DistinctTail(ss: seq<Setting>)
    requires |ss| > 0 && DistinctKeys(ss)
    ensures DistinctKeys(ss[1..])
    ensures forall x :: x in ss[1..] ==> EffectiveKey(x) != EffectiveKey(ss[0])
  {
    var rest := ss[1..];
    forall i, j | 0 <= i < j < |rest| ensures EffectiveKey(rest[i]) != EffectiveKey(rest[j]) {
      assert rest[i] == ss[i + 1] && rest[j] == ss[j + 1];
    }
    forall x | x in rest ensures EffectiveKey(x) != EffectiveKey(ss[0]) {
      var m :| 0 <= m < |rest| && rest[m] == x;
      assert ss[m + 1] == x;
    }
  }

  /** Planning fails exactly when some setting's domain is missing from the domain list. */
  lemma {:induction false} PlanFailsOnMissingDomain(settings: seq<Setting>, store: Prefs.Store, existing: Existing,
                                                    badSnap: bool, domainsList: set<string>, noCheck: bool)
    ensures Plan(settings, store, existing, badSnap, domainsList, noCheck).Err?
      <==> exists i :: 0 <= i < |settings| && DomainMissing(settings[i], domainsList, noCheck)
    decreases |settings|
  {
    if |settings| > 0 {
      var s := settings[0];
      var rest := settings[1..];
      var left := if Changed(store, s) then existing - {EffectiveKey(s)} else existing;
      PlanFailsOnMissingDomain(rest, store, left, badSnap, domainsList, noCheck);
      assert forall i :: 0 < i < |settings| ==> settings[i] == rest[i - 1];
      if !DomainMissing(s, domainsList, noCheck) {
        assert Plan(settings, store, existing, badSnap, domainsList, noCheck).Err?
          == Plan(rest, store, left, badSnap, domainsList, noCheck).Err?;
        if exists i :: 0 <= i < |rest| && DomainMissing(rest[i], domainsList, noCheck) {
          var i :| 0 <= i < |rest| && DomainMissing(rest[i], domainsList, noCheck);
          assert settings[i + 1] == rest[i];
        }
      }
    }
  }

  /** Dropping one preference's record does not change the jobs of settings written elsewhere. */
  lemma {:induction false} JobsForWithout(ss: seq<Setting>, existing: Existing, store: Prefs.Store, badSnap: bool, k: Prefs.PrefKey)
    requires forall s :: s in ss ==> EffectiveKey(s) != k
    ensures JobsFor(ss, existing - {k}, store, badSnap) == JobsFor(ss, existing, store, badSnap)
  {
    if |ss| > 0 {
      assert ss[0] in ss;
      assert forall s :: s in ss[1..] ==> s in ss;
      JobsForWithout(ss[1..], existing, store, badSnap, k);
    }
  }

  /**
   * With every setting under its own preference, the jobs are exactly the
   * settings that differ, in order, each restorable to what the old
   * snapshot recorded or else to what the system showed.
   */
  lemma {:induction false} PlanIsChangedSettings(settings: seq<Setting>, store: Prefs.Store, existing: Existing,
                                                 badSnap: bool, domainsList: set<string>, noCheck: bool)
    requires DistinctKeys(settings)
    ensures Plan(settings, store, existing, badSnap, domainsList, noCheck).Ok? ==>
      Plan(settings, store, existing, badSnap, domainsList, noCheck).value.0
        == JobsFor(ChangedSettings(settings, store), existing, store, badSnap)
    decreases |settings|
  {
    if |settings| > 0 {
      var s := settings[0];
      var rest := settings[1..];
      DistinctTail(settings);
      if !DomainMissing(s, domainsList, noCheck) {
        var tail := ChangedSettings(rest, store);
        if Changed(store, s) {
          var k := EffectiveKey(s);
          PlanIsChangedSettings(rest, store, existing - {k}, badSnap, domainsList, noCheck);
          ChangedSettingsFacts(rest, store);
          JobsForWithout(tail, existing, store, badSnap, k);
          assert ChangedSettings(settings, store) == [s] + tail;
          assert ([s] + tail)[1..] == tail;
        } else {
          PlanIsChangedSettings(rest, store, existing, badSnap, domainsList, noCheck);
          assert ChangedSettings(settings, store) == tail;
        }
      }
    }
  }

  /** Keeping some settings keeps their preferences distinct. */
  lemma {:induction false} KeptKeysDistinct(ss: seq<Setting>, keep: Setting -> bool)
    requires DistinctKeys(ss)
    ensures DistinctKeys(Kept(ss, keep))
    decreases |ss|
  {
    if |ss| > 0 {
      DistinctTail(ss);
      KeptKeysDistinct(ss[1..], keep);
      var tail := Kept(ss[1..], keep);
      KeptMembers(ss[1..], keep);
      if keep(ss[0]) {
        forall x | x in tail ensures EffectiveKey(x) != EffectiveKey(ss[0]) {
          var m :| 0 <= m < |tail| && tail[m] == x;
          assert x in ss[1..];
        }
        DistinctCons(ss[0], tail);
      }
    }
  }

  /** A setting put before settings with distinct preferences, none of them its own, keeps them distinct. */
  lemma DistinctCons(s: Setting, tail: seq<Setting>)
    requires DistinctKeys(tail)
    requires forall x :: x in tail ==> EffectiveKey(x) != EffectiveKey(s)
    ensures DistinctKeys([s] + tail)
  {
    var c := [s] + tail;
    forall i, j | 0 <= i < j < |c| ensures EffectiveKey(c[i]) != EffectiveKey(c[j]) {
      assert c[j] == tail[j - 1];
      if i > 0 {
        assert c[i] == tail[i - 1];
      }
    }
  }

  /** The old records left over are those of the preferences no job writes. */
  lemma {:induction false} PlanLeftover(settings: seq<Setting>, store: Prefs.Store, existing: Existing,
                                        badSnap: bool, domainsList: set<string>, noCheck: bool)
    ensures var r := Plan(settings, store, existing, badSnap, domainsList, noCheck);
      r.Ok? ==>
        (forall k :: k in r.value.1 <==> k in existing && forall s :: s in ChangedSettings(settings, store) ==> EffectiveKey(s) != k)
        && (forall k :: k in r.value.1 ==> r.value.1[k] == existing[k])
    decreases |settings|
  {
    if |settings| > 0 {
      var s := settings[0];
      var rest := settings[1..];
      if !DomainMissing(s, domainsList, noCheck) {
        if Changed(store, s) {
          PlanLeftover(rest, store, existing - {EffectiveKey(s)}, badSnap, domainsList, noCheck);
        } else {
          PlanLeftover(rest, store, existing, badSnap, domainsList, noCheck);
        }
      }
    }
  }

  /** In a batch that writes each preference once, each entry is the last write to its preference. */
  lemma {:induction false} LastWriteOfDistinct(batch: seq<(Prefs.PrefKey, Prefs.PrefValue)>, n: nat)
    requires n < |batch|
    requires forall i, j :: 0 <= i < j < |batch| ==> batch[i].0 != batch[j].0
    ensures Prefs.LastWrite(batch, batch[n].0) == Some(batch[n].1)
  {
    if n < |batch| - 1 {
      LastWriteOfDistinct(batch[..|batch| - 1], n);
    }
  }

  /** A plan with nothing that differs has no jobs. */
  lemma {:induction false} PlanOfUnchanged(settings: seq<Setting>, store: Prefs.Store, existing: Existing,
                                           badSnap: bool, domainsList: set<string>, noCheck: bool)
    requires forall i :: 0 <= i < |settings| ==> !Changed(store, settings[i]) && !DomainMissing(settings[i], domainsList, noCheck)
    ensures Plan(settings, store, existing, badSnap, domainsList, noCheck) == Ok(([], existing))
    decreases |settings|
  {
    if |settings| > 0 {
      PlanOfUnchanged(settings[1..], store, existing, badSnap, domainsList, noCheck);
    }
  }

  /** What the settings that differ are: all of them, in order, under distinct preferences when the settings are. */
  lemma ChangedSettingsFacts(settings: seq<Setting>, store: Prefs.Store)
    ensures forall x :: x in ChangedSettings(settings, store) ==> x in settings && Changed(store, x)
    ensures forall x :: x in settings && Changed(store, x) ==> x in ChangedSettings(settings, store)
    ensures DistinctKeys(settings) ==> DistinctKeys(ChangedSettings(settings, store))
  {
    KeptMembers(settings, s => Changed(store, s));
    if DistinctKeys(settings) {
      KeptKeysDistinct(settings, s => Changed(store, s));
    }
  }

  /** The batch for jobs of boolean, integer and string settings writes each setting's converted value under its preference. */
  lemma BatchOfJobsFor(ss: seq<Setting>, existing: Existing, store: Prefs.Store, badSnap: bool)
    requires forall x :: x in ss ==> x.value.Boolean? || x.value.Integer? || x.value.String?
    ensures BatchOf(JobsFor(ss, existing, store, badSnap)).Ok?
    ensures forall i :: 0 <= i < |ss| ==>
      DomainsConvert.TomlToPref(ss[i].value).Ok?
      && BatchOf(JobsFor(ss, existing, store, badSnap)).value[i] == (EffectiveKey(ss[i]), DomainsConvert.TomlToPref(ss[i].value).value)
  {
    var jobs := JobsFor(ss, existing, store, badSnap);
    forall i | 0 <= i < |ss|
      ensures jobs[i].value == ss[i].value && jobs[i].Key() == EffectiveKey(ss[i])
      ensures DomainsConvert.TomlToPref(jobs[i].value).Ok?
    {
      JobsForAt(ss, existing, store, badSnap, i);
      assert ss[i] in ss;
      DomainsConvert.ShownTextIsNormalForm(ss[i].value);
    }
  }

  /** A setting whose converted value is the last write to its preference shows as its normal form afterwards. */
  lemma SettledWhenWritten(s: Setting, store: Prefs.Store, batch: seq<(Prefs.PrefKey, Prefs.PrefValue)>, n: nat)
    requires s.value.Boolean? || s.value.Integer? || s.value.String?
    requires n < |batch|
    requires forall i, j :: 0 <= i < j < |batch| ==> batch[i].0 != batch[j].0
    requires batch[n] == (EffectiveKey(s), DomainsConvert.TomlToPref(s.value).value)
    ensures !Changed(Prefs.Written(store, batch), s)
  {
    LastWriteOfDistinct(batch, n);
    Prefs.WrittenAt(store, batch, EffectiveKey(s));
    DomainsConvert.ShownTextIsNormalForm(s.value);
  }

  /** A batch that does not write a setting's preference leaves what the system shows for it. */
  lemma SettledWhenUntouched(s: Setting, store: Prefs.Store, batch: seq<(Prefs.PrefKey, Prefs.PrefValue)>)
    requires forall m :: 0 <= m < |batch| ==> batch[m].0 != EffectiveKey(s)
    ensures Current(Prefs.Written(store, batch), s) == Current(store, s)
  {
    Prefs.WrittenAt(store, batch, EffectiveKey(s));
  }

  /** The batch for the settings that differ: their converted values under their distinct preferences, in order. */
  lemma ChangedBatch(settings: seq<Setting>, store: Prefs.Store, existing: Existing, badSnap: bool)
    requires DistinctKeys(settings)
    requires forall i :: 0 <= i < |settings| ==>
      settings[i].value.Boolean? || settings[i].value.Integer? || settings[i].value.String?
    ensures var changed := ChangedSettings(settings, store);
      var batch := BatchOf(JobsFor(changed, existing, store, badSnap));
      && batch.Ok? && |batch.value| == |changed|
      && (forall i, j :: 0 <= i < j < |batch.value| ==> batch.value[i].0 != batch.value[j].0)
      && (forall n :: 0 <= n < |changed| ==>
            changed[n] in settings && Changed(store, changed[n]) && DomainsConvert.TomlToPref(changed[n].value).Ok?
            && batch.value[n] == (EffectiveKey(changed[n]), DomainsConvert.TomlToPref(changed[n].value).value))
  {
    var changed := ChangedSettings(settings, store);
    ChangedSettingsFacts(settings, store);
    ChangedKinds(settings, store);
    BatchOfJobsFor(changed, existing, store, badSnap);
  }

  /** The settings that differ hold booleans, integers and strings when all the settings do. */
  lemma ChangedKinds(settings: seq<Setting>, store: Prefs.Store)
    requires forall i :: 0 <= i < |settings| ==>
      settings[i].value.Boolean? || settings[i].value.Integer? || settings[i].value.String?
    ensures forall x :: x in ChangedSettings(settings, store) ==> x.value.Boolean? || x.value.Integer? || x.value.String?
  {
    ChangedSettingsFacts(settings, store);
    forall x | x in ChangedSettings(settings, store) ensures x.value.Boolean? || x.value.Integer? || x.value.String? {
      var a :| 0 <= a < |settings| && settings[a] == x;
    }
  }

  /** One setting no longer differs once the batch is written. */
  lemma SettledAfterBatch(settings: seq<Setting>, store: Prefs.Store, changed: seq<Setting>,
                          batch: seq<(Prefs.PrefKey, Prefs.PrefValue)>, i: nat)
    requires DistinctKeys(settings) && i < |settings|
    requires settings[i].value.Boolean? || settings[i].value.Integer? || settings[i].value.String?
    requires |batch| == |changed|
    requires forall a, b :: 0 <= a < b < |batch| ==> batch[a].0 != batch[b].0
    requires forall n :: 0 <= n < |changed| ==>
      changed[n] in settings && Changed(store, changed[n]) && DomainsConvert.TomlToPref(changed[n].value).Ok?
      && batch[n] == (EffectiveKey(changed[n]), DomainsConvert.TomlToPref(changed[n].value).value)
    requires Changed(store, settings[i]) ==> settings[i] in changed
    ensures !Changed(Prefs.Written(store, batch), settings[i])
  {
    var s := settings[i];
    if Changed(store, s) {
      var n :| 0 <= n < |changed| && changed[n] == s;
      SettledWhenWritten(s, store, batch, n);
    } else {
      UnchangedNotWritten(settings, store, changed, batch, i);
      SettledWhenUntouched(s, store, batch);
    }
  }

  /** A setting that does not differ has no entry in the batch for the settings that do. */
  lemma UnchangedNotWritten(settings: seq<Setting>, store: Prefs.Store, changed: seq<Setting>,
                            batch: seq<(Prefs.PrefKey, Prefs.PrefValue)>, i: nat)
    requires DistinctKeys(settings) && i < |settings|
    requires !Changed(store, settings[i])
    requires |batch| == |changed|
    requires forall n :: 0 <= n < |changed| ==>
      changed[n] in settings && Changed(store, changed[n]) && batch[n].0 == EffectiveKey(changed[n])
    ensures forall m :: 0 <= m < |batch| ==> batch[m].0 != EffectiveKey(settings[i])
  {
    forall m | 0 <= m < |batch| ensures batch[m].0 != EffectiveKey(settings[i]) {
      var a :| 0 <= a < |settings| && settings[a] == changed[m];
      if a < i { assert EffectiveKey(settings[a]) != EffectiveKey(settings[i]); }
      else if a > i { assert EffectiveKey(settings[i]) != EffectiveKey(settings[a]); }
    }
  }

  /**
   * Writing the batch for the settings that differ leaves none differing,
   * when each setting has its own preference and a boolean, integer or
   * string value.
   */
  lemma WrittenSettles(settings: seq<Setting>, store: Prefs.Store, existing: Existing, badSnap: bool)
    requires DistinctKeys(settings)
    requires forall i :: 0 <= i < |settings| ==>
      settings[i].value.Boolean? || settings[i].value.Integer? || settings[i].value.String?
    ensures BatchOf(JobsFor(ChangedSettings(settings, store), existing, store, badSnap)).Ok?
    ensures forall i :: 0 <= i < |settings| ==>
      !Changed(Prefs.Written(store, BatchOf(JobsFor(ChangedSettings(settings, store), existing, store, badSnap)).value), settings[i])
  {
    var changed := ChangedSettings(settings, store);
    ChangedBatch(settings, store, existing, badSnap);
    ChangedSettingsFacts(settings, store);
    var batch := BatchOf(JobsFor(changed, existing, store, badSnap)).value;
    forall i | 0 <= i < |settings|
      ensures !Changed(Prefs.Written(store, batch), settings[i])
    {
      SettledAfterBatch(settings, store, changed, batch, i);
    }
  }

  /**
   * Applying converges: once the batch of a successful plan is written,
   * planning again over the same settings finds nothing to write, when
   * each setting has its own preference and a boolean, integer or string
   * value.
   */
  lemma ApplyConverges(settings: seq<Setting>, store: Prefs.Store, existing: Existing, badSnap: bool,
                       domainsList: set<string>, noCheck: bool, existing2: Existing, badSnap2: bool)
    requires DistinctKeys(settings)
    requires forall i :: 0 <= i < |settings| ==>
      settings[i].value.Boolean? || settings[i].value.Integer? || settings[i].value.String?
    requires Plan(settings, store, existing, badSnap, domainsList, noCheck).Ok?
    ensures BatchOf(Plan(settings, store, existing, badSnap, domainsList, noCheck).value.0).Ok?
    ensures Plan(settings, Prefs.Written(store, BatchOf(Plan(settings, store, existing, badSnap, domainsList, noCheck).value.0).value),
                 existing2, badSnap2, domainsList, noCheck)
            == Ok(([], existing2))
  {
    PlanIsChangedSettings(settings, store, existing, badSnap, domainsList, noCheck);
    WrittenSettles(settings, store, existing, badSnap);
    PlanFailsOnMissingDomain(settings, store, existing, badSnap, domainsList, noCheck);
    var store2 := Prefs.Written(store, BatchOf(JobsFor(ChangedSettings(settings, store), existing, store, badSnap)).value);
    PlanOfUnchanged(settings, store2, existing2, badSnap2, domainsList, noCheck);
  }
}
