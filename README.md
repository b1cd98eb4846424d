# cutler, modelled in Dafny

cutler keeps a Mac's system preferences in step with a TOML configuration.
It flattens `[set.<domain>]` tables into `defaults` domains and keys. It writes
the settings whose live value differs and records what each one showed before
in a snapshot, so that `unapply` can put it back. `status` reports drift, and
the tool diffs the configured Homebrew formulae, casks and taps against what is
installed. It also runs configured shell commands with `$VAR` substitution.
The repository carries several generations of these modules, and each is
modelled as written, one Dafny module per source file:

- `ApplyCmd`, `UnapplyCmd`, `StatusCmd`: `cutler apply`, `unapply` and `status`
  (src/commands/*.rs), over a preference store (`Prefs`) and snapshot files
  (`Snapshots`).
- `OlderCommands`, `OlderSnapshot`, `DefaultsCli`, `DefaultsFlags`: the older
  commands (src/commands.rs), which drive the `defaults` program and keep
  their own snapshot.
- `Lib`: the first generation (src/lib.rs), whose snapshot is a copy of the
  configuration file.
- `Domains`, `DomainsCollector`: domain flattening and the effective
  domain/key rules.
- `DomainsConvert`, `UtilConvert`: value conversions and normalisation.
- `ExecCore`, `ExecRunner`, `ExternalRunner`, `External`, `Scanner`,
  `Processes`: the command runners, the `$NAME`/`${NAME}` substitutions, and
  starting `sh -c` / `sudo sh -c`.
- `Brew`, `Mas`, `ConfigPath`: the Homebrew diff, `mas list` parsing, and the
  choice of the configuration path.
- `Toml`, `Text`, `Wrappers`: the TOML value tree, the pieces of Rust's `str`
  API the program uses, and Option/Result.

Where several files hold the same text, the function is modelled once, and its
module's doc comment names the copies:
- `toml_to_prefvalue` and `prefvalue_to_toml` in src/domains/convert.rs,
  src/util/convert.rs and src/util/drs.rs;
- the 1/0 `normalize` in src/defaults/flags.rs, src/util/drs.rs and
  src/defaults.rs;
- `flatten_domains` in src/domains.rs and src/domains/collector.rs;
- the index scanner in src/external.rs, src/exec/runner.rs and
  src/external/runner.rs.

Side effects are inputs of the model:
- the preference store is a map;
- the `defaults` program is a `Tool` value that says whether it starts, which
  commands succeed and what a written value reads back as;
- a started process is recorded by `Processes.Shell`;
- the files are maps from path to content;
- the environment, `$PATH` and the existence of paths are parameters.

Where the source iterates a `HashMap`, the order is either an input or a ghost
result of the method. The contracts hold whatever that order is, and none of
them asserts one.

Two assumptions are made about the preference store. `DefaultsCli`
assumes that after a successful `defaults write`, `defaults read` prints the
text that `Tool.printed` gives for the flag and value written. And
`Prefs.Preferences.WriteBatch` and `Prefs.Preferences.DeleteBatch` assume that
a batch of `defaults_rs` is all or nothing: a batch that reports failure has
changed no preference. The source does not promise this; a batch that fails
part way is not modelled.

## Model

| member | source | states |
|---|---|---|
| ApplyCmd.Indexed | src/commands/apply.rs:118-123 | each record of the old snapshot is found under its own domain and key |
| ApplyCmd.ThenThen | src/commands/apply.rs:125-185 | adding jobs in two steps is adding them all at once |
| ApplyCmd.BatchOf | src/commands/apply.rs:189-217 | the batch has one entry per job, in order, each the job's preference and converted value; it fails exactly when some job's value cannot be converted |
| ApplyCmd.JobStates | src/commands/apply.rs:249-256 | one snapshot record per job, in order, with the job's domain, key and original text |
| ApplyCmd.ModeFor | src/commands/apply.rs:281-287 | `--all-exec` selects `All`; otherwise `--flagged` selects `Flagged`; else `Regular` |
| ApplyCmd.ListRecords | src/commands/apply.rs:244-247 | the leftover old records are listed each exactly once |
| ApplyCmd.PlanStep | src/commands/apply.rs:128-184 | the planning loop's step at a setting: it fails on a missing domain, or goes on with the setting's job when it differs and its old record removed |
| ApplyCmd.PlanStops | src/commands/apply.rs:132-137 | a setting whose domain is missing fails the whole plan |
| ApplyCmd.PlanAdvances | src/commands/apply.rs:139-183 | past a setting whose domain is present, the plan continues with its job when it differs and its old record taken out |
| ApplyCmd.PlanSetting | src/commands/apply.rs:130-183 | one setting: an error naming the domain exactly when it is missing; otherwise a job (original from the old record, else the shown text unless empty, none after a bad snapshot) exactly when the shown text is not its normal form |
| ApplyCmd.PlanFromStart | src/commands/apply.rs:125-128 | the plan of all settings starts with no jobs |
| ApplyCmd.PlanAtEnd | src/commands/apply.rs:185 | past the last setting the plan is the jobs collected and the records left |
| ApplyCmd.PlanNext | src/commands/apply.rs:129-184 | one turn of the loop either keeps the plan's failure or extends the jobs |
| ApplyCmd.PlanJobs | src/commands/apply.rs:125-185 | the loop over the settings computes exactly the plan: the jobs and the old records left over, or the first missing domain |
| ApplyCmd.BuildBatch | src/commands/apply.rs:189-217 | the batch loop fails exactly when the batch does, and otherwise builds it |
| ApplyCmd.SaveNewSnapshot | src/commands/apply.rs:244-303 | it succeeds exactly when (outside a dry run) the snapshot file can be written and, with `--brew`, the Homebrew install succeeds; a dry run or a failed save leaves the files unchanged; otherwise only the snapshot file changes, and it holds the leftover records, then one per job, the digest and, when commands ran and some succeeded and the install did not fail, their count |
| ApplyCmd.Apply | src/commands/apply.rs:93-308 | the command succeeds exactly when the domain list is read, planning finds no missing domain, every value converts, (outside a dry run) the snapshot can be saved and, with `--brew`, the Homebrew install succeeds; when planning or conversion fails nothing changes; otherwise the store holds the batch written (unless a dry run or a failed write), and the new snapshot is saved whenever the file is writable outside a dry run (a failed install comes after that first save, so the snapshot then lacks the run count) while a failed save leaves the files unchanged |
| ApplyCmd.Kept | src/commands/apply.rs:146-151 | filtering keeps no more settings than there are |
| ApplyCmd.KeptMembers | src/commands/apply.rs:146-151 | a setting is kept exactly when it is one of them and the filter accepts it |
| ApplyCmd.JobsFor | src/commands/apply.rs:170-177 | one job per setting |
| ApplyCmd.JobsForAt | src/commands/apply.rs:170-177 | each job is the job of the setting at the same position |
| ApplyCmd.PlanFailsOnMissingDomain | src/commands/apply.rs:132-137 | planning fails exactly when some setting's domain is missing from the domain list |
| ApplyCmd.JobsForWithout | src/commands/apply.rs:149-156 | dropping one preference's old record does not change the jobs of settings written elsewhere |
| ApplyCmd.PlanIsChangedSettings | src/commands/apply.rs:128-185 | with every setting under its own preference, the jobs are exactly those of the settings that differ, in order |
| ApplyCmd.KeptKeysDistinct | src/commands/apply.rs:146-151 | filtering settings with distinct preferences keeps them distinct |
| ApplyCmd.PlanLeftover | src/commands/apply.rs:149-152 | the old records kept in the new snapshot are exactly those of preferences no job writes, unchanged (also lines 245-247) |
| ApplyCmd.LastWriteOfDistinct | src/commands/apply.rs:219-221 | in a batch writing each preference once, each entry is the last write to its preference |
| ApplyCmd.PlanOfUnchanged | src/commands/apply.rs:146-183 | when no setting differs and no domain is missing, the plan has no jobs and keeps every old record |
| ApplyCmd.ChangedSettingsFacts | src/commands/apply.rs:146-151 | the settings that differ are exactly those settings that differ, and keep distinct preferences |
| ApplyCmd.BatchOfJobsFor | src/commands/apply.rs:189-217 | jobs of boolean, integer and string settings always convert, each entry being the setting's preference and converted value |
| ApplyCmd.SettledWhenWritten | src/commands/apply.rs:145-146 | a setting whose converted value is the last write to its preference no longer differs once the batch is written (also lines 219-221) |
| ApplyCmd.SettledWhenUntouched | src/commands/apply.rs:219-221 | a batch that does not write a preference leaves its shown text as it was |
| ApplyCmd.ChangedBatch | src/commands/apply.rs:189-217 | the batch for the settings that differ converts, and writes their values under distinct preferences, in order |
| ApplyCmd.ChangedKinds | src/commands/apply.rs:146-151 | the settings that differ hold booleans, integers and strings when all settings do |
| ApplyCmd.SettledAfterBatch | src/commands/apply.rs:145-151 | each setting no longer differs once the batch is written (also lines 219-221) |
| ApplyCmd.UnchangedNotWritten | src/commands/apply.rs:151-183 | a setting that does not differ gets no entry in the batch |
| ApplyCmd.WrittenSettles | src/commands/apply.rs:128-221 | writing the batch for the settings that differ leaves no setting differing |
| ApplyCmd.ApplyConverges | src/commands/apply.rs:128-221 | after a successful apply's batch is written, planning again finds nothing to write |
| Prefs.LastWrite | src/commands/apply.rs:219-221 | a batch has a last write under a preference exactly when some entry writes it |
| Prefs.Deleted | src/commands/unapply.rs:116-135 | after a batch delete, a preference is stored exactly when it was and is not among the deleted keys, with its value unchanged |
| Prefs.WrittenAt | src/commands/apply.rs:219-221 | after a batch write each preference holds the last value written to it, and unwritten ones are unchanged |
| Prefs.Preferences.constructor | src/domains/collector.rs:101 | the store starts with the given values |
| Prefs.Preferences.WriteBatch | src/commands/apply.rs:219-228 | a successful batch write stores the batch in order; a failed one changes nothing |
| Prefs.Preferences.DeleteBatch | src/commands/unapply.rs:116-135 | a successful batch delete removes the keys; a failed one changes nothing |
| Brew.Without | src/brew/core.rs:277-281 | the filter keeps no more names than it is given |
| Brew.WithoutMembers | src/brew/core.rs:277-308 | the filter keeps exactly the names of the first list that the second lacks |
| Brew.WithoutConcat | src/brew/core.rs:277-308 | the filter keeps order: it filters each part of a concatenation in place |
| Brew.WithoutDisjoint | src/brew/core.rs:277-308 | a list sharing no name with the other comes back whole |
| Brew.DiffOf | src/brew/core.rs:276-317 | per kind, missing means configured and not installed, extra means installed and not configured, and no name is both |
| Brew.InSyncWhenSameNames | src/brew/core.rs:276-317 | the diff is empty exactly when every kind configures the same names as are installed |
| Brew.SameNamesIffNoDiff | src/brew/core.rs:277-286 | two lists name the same things exactly when neither filter keeps anything |
| Brew.NonEmpty | src/brew/core.rs:243 | the blank names are dropped and all others kept |
| Brew.ListedNames | src/brew/core.rs:239-244 | every listed name is a trimmed, non-blank line of the output, and every such line is listed |
| Brew.BrewList | src/brew/core.rs:213-245 | a listing that cannot start or exits with failure is an error; otherwise its names are the trimmed non-blank lines |
| Brew.OlderBrewList | src/brew/utils.rs:215-239 | only a listing that cannot start is an error; one that exits with failure lists nothing |
| Brew.Compared | src/brew/core.rs:249-318 | the comparison fails exactly when a listing it needs fails; with `no_deps` no dependency is ever extra |
| Brew.CompareBrewState | src/brew/core.rs:249-318 | the method computes the comparison, with dependencies filtered out of the installed formulae when `no_deps` is set |
| Brew.NoDepsHidesDependencies | src/brew/core.rs:264-274 | with `no_deps` a dependency is never extra and is missing when configured, while casks and taps compare as without it |
| Brew.StringItems | src/brew/utils.rs:255-264 | exactly the string items of the array are kept |
| Brew.ListIn | src/brew/utils.rs:255-286 | a list of the `[brew]` table is the strings of its array, and empty when the key is absent or not an array |
| Brew.NoDepsIn | src/brew/utils.rs:250-253 | `no_deps` holds only when it is the boolean true |
| Brew.OlderCompareBrewState | src/brew/utils.rs:244-339 | the comparison fails only when a listing cannot start; otherwise it is the diff of the table's lists against the listings |
| Brew.SplitPrepended | src/brew/core.rs:105-111 | putting `dir:` in front of a PATH makes `dir` its first entry and keeps the rest |
| Brew.IndexOfPrepended | src/brew/core.rs:105-111 | the first `:` of `dir:path` is right after `dir` |
| Brew.PrependBrewDirs | src/brew/core.rs:103-112 | the new PATH lists the old entries plus `bin` and `sbin`, each added only when missing |
| Brew.WithBrewDirsEntries | src/brew/core.rs:103-112 | the entries of the new PATH are the old ones together with `bin` and `sbin` |
| Brew.WithBrewDirsSettles | src/brew/core.rs:103-126 | configuring the same process twice changes PATH no further |
| Brew.PrependedEntries | src/brew/core.rs:107 | the entries of `dir:path` are `dir` and those of `path` |
| Brew.BrewDirsPlain | src/brew/core.rs:103-118 | no Homebrew directory holds a `:` |
| Brew.HomebrewPath | src/brew/core.rs:96-132 | the Apple silicon directories win when their `brew` exists, then the Intel ones, and the new PATH is exactly the old one with whichever of that pair's `sbin` and `bin` it lacked put in front; with neither PATH is left alone; old entries are never lost |
| DomainsCollector.Collect | src/domains/collector.rs:37-59 | the map built is the recursive definition: each table under a `set` entry flattened under its name and inserted in order, a later domain replacing an earlier one; every other entry contributes nothing |
| DomainsCollector.CollectSingleSet | src/domains/collector.rs:37-59 | with distinct top-level keys, the result is empty without a `set` table and is exactly that table's domains with one |
| DomainsCollector.GetOfSnoc | src/domains/collector.rs:40-41 | looking a key up in a table with one more entry finds the earlier one first |
| DomainsCollector.MergedIntoEmpty | src/domains/collector.rs:38-53 | inserting the `set` domains into the empty map gives exactly those domains |
| DomainsCollector.DefaultsDomain | src/domains/collector.rs:61-76 | the domain is global exactly for `NSGlobalDomain` and names under `NSGlobalDomain.`; every other name is prefixed |
| DomainsCollector.EffectiveMatchesOlderNaming | src/domains/collector.rs:78-89 | this naming differs from src/domains.rs only on the domain `NSGlobalDomain.`, where the key gains a leading dot |
| DomainsCollector.ReadCurrent | src/domains/collector.rs:91-108 | a value exactly when the preference is stored, and it is then the stored value's text |
| OlderCommands.Order | src/commands.rs:89 | the loop over the collected domains visits each one once |
| OlderCommands.Keyed | src/commands.rs:77-83 | the record map files each setting under its own domain and key, holds every snapshot setting's key, and holds only snapshot settings |
| OlderCommands.Loaded | src/commands.rs:57-74 | `apply_defaults` starts from the saved snapshot, or from a new one when there is none or it does not load |
| OlderCommands.TableItems | src/commands.rs:94 | a domain's walk has one step per setting |
| OlderCommands.SettingStep | src/commands.rs:95-191 | a recorded preference is written only when its configured value changed, an unrecorded one only when it does not already show the value; a missing flag or a `defaults` that cannot start aborts; the first original is kept and the configured value recorded |
| OlderCommands.ItemStep | src/commands.rs:89-192 | a domain needing the `com.apple.` prefix must exist; a setting step never loses a record or its original |
| OlderCommands.Applied | src/commands.rs:89-194 | the walk stops at the first failure, never replaces a recorded original, adds records only for configured preferences, and in a dry run runs no command |
| OlderCommands.AppliedAppend | src/commands.rs:89-194 | walking two parts is walking the first and then the second |
| OlderCommands.ApplySetting | src/commands.rs:95-191 | the inner loop body does exactly the setting step |
| OlderCommands.WriteSetting | src/commands.rs:120-141 | a missing flag or a failed `defaults write` aborts; otherwise the record is stored (also lines 170-190) |
| OlderCommands.ApplyDomain | src/commands.rs:90-193 | one domain: its existence check, then every setting in order |
| OlderCommands.ApplyNext | src/commands.rs:94-193 | one more setting of the inner loop |
| OlderCommands.AppliedDomainStart | src/commands.rs:90-92 | a domain's walk begins with its check |
| OlderCommands.AppliedDomainNext | src/commands.rs:94-193 | the walk of the next setting is one setting step after the ones before |
| OlderCommands.ApplySettings | src/commands.rs:89-194 | both loops: every domain in the visiting order, stopping at the first failure |
| OlderCommands.ListRecords | src/commands.rs:197 | every record is listed once |
| OlderCommands.SaveAndRunExternal | src/commands.rs:199-231 | outside a dry run the snapshot with the extracted external commands is saved, and a failed save is the error; then the external commands run and their failure is only reported |
| OlderCommands.ApplyDefaults | src/commands.rs:53-231 | a configuration that is not a table fails with nothing changed; an aborted walk saves nothing and runs no external command; otherwise every record is listed once in the saved snapshot |
| OlderCommands.AppliedUnchanged | src/commands.rs:107-147 | when every setting is already recorded with its value, the walk writes nothing and changes nothing |
| OlderCommands.AppliedAgrees | src/commands.rs:89-194 | a walk that did not abort passed every domain check and, for consistent settings, recorded each with its value |
| OlderCommands.AgreesStep | src/commands.rs:89-194 | a step that does not abort keeps earlier settings recorded and records its own |
| OlderCommands.KeyedListed | src/commands.rs:77-83 | loading the saved list of records gives back the same record map (also line 197) |
| OlderCommands.PlanMembers | src/commands.rs:89-94 | the walk holds a step exactly when a visited domain does |
| OlderCommands.ApplyAgain | src/commands.rs:32-231 | applying the same consistent configuration a second time, in any domain order, writes nothing and leaves the same records |
| OlderCommands.AgreesInOtherOrder | src/commands.rs:89 | what holds of every setting in one visiting order holds in any other |
| OlderCommands.RevertCommand | src/commands.rs:341-386 | a record is put back by writing its original, or by deleting the preference when there was none |
| OlderCommands.RevertStep | src/commands.rs:341-386 | a record whose flag cannot be found, or a `defaults` that cannot start, aborts the replay |
| OlderCommands.RevertSetting | src/commands.rs:341-386 | the loop body does exactly one replay step |
| OlderCommands.ReplaySettings | src/commands.rs:340-387 | the records are replayed from the last to the first, stopping at the first failure |
| OlderCommands.UnapplyDefaults | src/commands.rs:330-414 | without a loadable snapshot nothing changes and the command fails; otherwise the replay runs, and unless it aborted the snapshot file is removed outside a dry run |
| OlderCommands.UndoneFails | src/commands.rs:340-387 | the replay aborts exactly when some record's flag cannot be found, or there is a record and `defaults` cannot start outside a dry run |
| OlderCommands.UndoneDryRun | src/commands.rs:340-387 | a dry run changes no preference and runs no command |
| OlderCommands.UndoneCommands | src/commands.rs:340-387 | a replay that did not abort runs one command per record in reverse order |
| OlderCommands.UndoneRestores | src/commands.rs:340-387 | when every command succeeds, each preference with records shows again the original of its earliest record, or is unset, and every other preference is as it was |
| OlderCommands.ResetKey | src/commands.rs:542-561 | a preference that shows a value is deleted; one that shows none is skipped |
| OlderCommands.ResetStep | src/commands.rs:540-563 | a reset step never writes: a preference that stays set keeps its value |
| OlderCommands.Reset | src/commands.rs:540-563 | the reset stops at the first failure, never writes, and a dry run changes nothing |
| OlderCommands.ResetAppend | src/commands.rs:540-563 | resetting two parts is resetting the first and then the second |
| OlderCommands.ResetSetting | src/commands.rs:542-561 | the inner loop body does exactly one reset step |
| OlderCommands.ResetDomain | src/commands.rs:541-562 | every setting of one domain is reset in order |
| OlderCommands.ResetDomainNext | src/commands.rs:541-562 | one more setting of the inner loop |
| OlderCommands.ResetStops | src/commands.rs:548 | an aborted reset goes no further |
| OlderCommands.ResetSettings | src/commands.rs:540-563 | both loops: every domain in the visiting order |
| OlderCommands.ResetDefaults | src/commands.rs:512-589 | a missing configuration file fails with nothing changed; an unconfirmed reset changes nothing; otherwise every configured preference showing a value is deleted, and the snapshot file is removed outside a dry run, a failed removal only reported |
| OlderCommands.ResetClears | src/commands.rs:540-563 | when deletes succeed, no configured preference shows a value afterwards |
| OlderCommands.CurrentStaysUnset | src/commands.rs:545 | a preference with no value keeps none after only deletes |
| OlderCommands.ResetSucceeds | src/commands.rs:540-563 | when `defaults` can start, the reset does not abort |
| OlderCommands.ResetIssues | src/commands.rs:540-563 | every command the reset runs deletes a configured preference that showed a value before |
| OlderCommands.ResetIssuesNext | src/commands.rs:540-563 | one more reset step keeps every command a delete of a configured preference that showed a value |
| OlderCommands.ResetStepIssues | src/commands.rs:545-548 | a reset step runs nothing, or deletes a preference that shows a value |
| OlderCommands.CurrentKept | src/commands.rs:545 | a preference still set after only deletes showed the same value before |
| OlderCommands.SettingStatus | src/commands.rs:470-476 | a setting differs when its preference does not show the normalised value, an unset one showing `Not set` |
| OlderCommands.DomainStatus | src/commands.rs:469-499 | the inner loop finds whether any setting of the domain differs |
| OlderCommands.DiffersBeforeNext | src/commands.rs:469-499 | the first n+1 settings differ when the first n do or the next one does |
| OlderCommands.DomainsStatus | src/commands.rs:468-500 | the outer loop finds whether any visited domain has a differing setting |
| OlderCommands.StatusDefaults | src/commands.rs:453-509 | a missing configuration file, or a configuration that is not a table, fails; otherwise the result says whether any configured setting differs, and nothing changes |
| OlderCommands.StatusMatchesApply | src/commands.rs:148-150 | for an unrecorded preference, status reports a difference exactly when apply would write it, unless the value is the text `Not set` (also lines 472-475) |
| OlderCommands.RecordMasksDrift | src/commands.rs:107-109 | a preference recorded with the configured value is not written again even when status reports it as different (also lines 472-475) |
| OlderCommands.ExecuteOnlyExternalCommands | src/commands.rs:235-327 | the snapshot gets the extracted external commands and is saved outside a dry run, a failed save being the error; then the commands run and their failure is the command's error |
| ConfigPath.Join | src/config/path.rs:24-27 | pushing a part onto a path gives a text that ends with that part |
| ConfigPath.Rendered | src/config/path.rs:24-27 | a path built by successive `join`s ends with its last part |
| ConfigPath.FirstExisting | src/config/path.rs:46-55 | the position found names a candidate that exists with none before it existing; none is found exactly when no candidate exists |
| ConfigPath.BuildCandidates | src/config/path.rs:19-44 | the pushes produce exactly the candidate list: the two `$HOME` paths, then the two `$XDG_CONFIG_HOME` paths, each only when its variable is set |
| ConfigPath.FindExisting | src/config/path.rs:47-55 | the loop stops at a candidate that exists, and it is the first one that does |
| ConfigPath.FirstIs | src/config/path.rs:49-53 | an existing candidate preceded only by missing ones is the one the search stops at |
| ConfigPath.PathCache.constructor | src/config/path.rs:8 | no path is decided when the process starts |
| ConfigPath.PathCache.GetConfigPath | src/config/path.rs:11-69 | once a path is cached it is returned unchanged; otherwise the chosen path is returned and cached |
| ConfigPath.CandidateOrder | src/config/path.rs:19-44 | with both variables set there are four candidates: `$HOME` ones first, `config.toml` before `cutler.toml` under each root |
| ConfigPath.ChooseIsCandidate | src/config/path.rs:47-65 | the choice is always one of the candidates, and the fallback only when there are none |
| ConfigPath.ChosenIsConfigFile | src/config/path.rs:21-65 | whatever the environment, the chosen file is named `config.toml` or `cutler.toml` |
| ConfigPath.ChooseFirstExisting | src/config/path.rs:47-57 | when some candidate exists, the choice exists and no candidate before it does |
| ConfigPath.ChooseWithoutExisting | src/config/path.rs:58-65 | when no candidate exists, the first candidate is chosen, or the fallback if there is none |
| ConfigPath.ChosenWithoutVariables | src/config/path.rs:60-64 | with neither variable set, the path is `<home_dir or ~>/.config/cutler/config.toml` whatever exists |
| ConfigPath.HomeConfigWins | src/config/path.rs:21-57 | an existing `$HOME/.config/cutler/config.toml` is always chosen |
| DefaultsFlags.ToFlag | src/defaults/flags.rs:3-17 | a value has a flag exactly when it is a boolean, an integer, a float or a string; every other type is an error |
| DefaultsFlags.FromFlag | src/defaults/flags.rs:19-37 | the text is passed on unchanged; it is guessed `-bool` exactly for `1`, `0`, `true`, `false`, and `-string` exactly when it reads as neither an integer nor a float (and is not a boolean word) |
| DefaultsFlags.Normalize | src/defaults/flags.rs:39-51 | booleans become `1`/`0`; every other value is normalised as src/domains/convert.rs does |
| DefaultsFlags.FlagGuessedBack | src/defaults/flags.rs:3-37 | the text written for a boolean, an integer other than 0 and 1, or a plain string is guessed back with the flag it was written with |
| DefaultsFlags.SmallIntegersGuessedAsBooleans | src/defaults/flags.rs:6-22 | the integer 1 is written as `-int` but its text is guessed back as `-bool` |
| DefaultsCli.Read | src/defaults.rs:189-198 | `defaults read` starts exactly when the program can be started, and then succeeds exactly when the key is set |
| DefaultsCli.Issued | src/defaults.rs:33-133 | a dry run changes nothing and succeeds; otherwise the command is recorded as started and only a program that cannot be started is an error |
| DefaultsCli.IssuedThenRead | src/defaults.rs:61-67 | after a successful write the key reads back as the printed text; after a successful delete it reads as unset (also lines 111-115) |
| DefaultsCli.IssuedKeepsOthers | src/defaults.rs:61-67 | a write or delete leaves every other key reading as before (also lines 111-115) |
| DefaultsCli.Defaults.constructor | src/defaults.rs:189-201 | the preferences start as given, with no command started |
| DefaultsCli.Defaults.GetCurrentValue | src/defaults.rs:189-201 | the trimmed output of `defaults read` when it succeeds and is not blank, otherwise nothing |
| DefaultsCli.Defaults.Execute | src/defaults.rs:42-67 | the new preferences and command log are those `Issued` describes, and the result is an error exactly when it is |
| DefaultsCli.Defaults.ExecuteWrite | src/defaults.rs:33-85 | `defaults write`: the new state is the one `Issued` gives for the write; a failed exit still returns `Ok` |
| DefaultsCli.Defaults.ExecuteDelete | src/defaults.rs:88-133 | `defaults delete`: the new state is the one `Issued` gives for the delete; a failed exit still returns `Ok` |
| Domains.Flat | src/domains.rs:22-39 | the settings kept for a table are only non-table entries, each taken from the table |
| Domains.FlattenDomains | src/domains.rs:17-45 | the domains appended are those of the recursive definition: nested tables first, each flattened in turn, then the table's own settings when it has any |
| Domains.FlattenedHoldsSettings | src/domains.rs:41-44 | every flattened domain holds at least one setting and no table |
| Domains.NestedHoldsSettings | src/domains.rs:25-34 | every domain produced by the nested tables holds at least one setting and no table |
| Domains.FlattenedNamesExtendPrefix | src/domains.rs:28-43 | under a non-empty prefix, every flattened domain is the prefix or a dotted extension of it |
| Domains.NestedNamesExtendPrefix | src/domains.rs:28-34 | every domain produced by a nested table extends the prefix with a dot |
| Domains.EffectiveDomainAndKey | src/domains.rs:47-67 | the domain is `NSGlobalDomain` exactly for `NSGlobalDomain` and names starting with `NSGlobalDomain.`; the key then carries the rest of the name, and stays as it is for `NSGlobalDomain` and `NSGlobalDomain.`; every other domain gets the `com.apple.` prefix and keeps its key |
| Domains.EffectiveDomain | src/domains.rs:69-76 | the domain is `NSGlobalDomain` exactly when the name starts with `NSGlobalDomain`, and is otherwise prefixed |
| Domains.EffectiveDomainsAgree | src/domains.rs:52-76 | the two namings disagree exactly on names that start with `NSGlobalDomain` without being it or continuing with a dot |
| Domains.NeedsPrefixIsPrefixed | src/domains.rs:69-76 | a domain needs the prefix exactly when its effective domain carries it (also lines 164-166) |
| Domains.EffectiveExamples | tests/domains_test.rs:46-81 | the namings of the repository's tests |
| Domains.Inserted | src/domains.rs:100-102 | a domain is in the map after the inserts exactly when it was before or some pair names it |
| Domains.InsertAll | src/domains.rs:100-102 | the inserts in order give the map where a later pair replaces an earlier one |
| Domains.CollectDomains | src/domains.rs:80-107 | a top level that is not a table is an error; otherwise every top-level table except `external` is flattened under its name and inserted in order |
| Domains.CollectedHoldsSettings | src/domains.rs:89-104 | every collected domain holds at least one setting and no table |
| Domains.InsertedHolds | src/domains.rs:100-102 | inserting domains that hold only settings keeps that true of the map |
| Domains.ListingReadsBack | src/domains.rs:144-149 | names printed as `a, b, c` are read back as exactly those names |
| Domains.DomainCache.constructor | src/domains.rs:9-13 | the cache starts uninitialised and empty |
| Domains.DomainCache.CheckDomainExists | src/domains.rs:110-161 | the listing is read only on the first call; a domain exists when it is listed, or, when the listing failed, when `defaults read <domain>` succeeds |
| Domains.CurrentValue | src/domains.rs:168-181 | a value exactly when `defaults read` started, succeeded and printed something other than white space; it is then the trimmed output |
| DomainsConvert.ItemsToPref | src/domains/convert.rs:15-19 | converted array items keep their number; the first failure fails the array |
| DomainsConvert.EntriesToPref | src/domains/convert.rs:20-24 | converted table entries keep their number; the first failure fails the table |
| DomainsConvert.PrefTomlRoundTrip | src/domains/convert.rs:9-45 | every preference value survives the trip to TOML and back unchanged |
| DomainsConvert.ItemsRoundTrip | src/domains/convert.rs:15-36 | converted arrays come back item for item |
| DomainsConvert.EntriesRoundTrip | src/domains/convert.rs:20-43 | converted tables come back entry for entry |
| DomainsConvert.TomlPrefRoundTrip | src/domains/convert.rs:9-45 | conversion to a preference fails exactly on values holding a date-time somewhere, and otherwise converts back to the same value |
| DomainsConvert.ItemsBack | src/domains/convert.rs:15-19 | an array fails to convert exactly when one of its items holds a date-time, and otherwise converts back unchanged |
| DomainsConvert.EntriesBack | src/domains/convert.rs:20-24 | a table fails to convert exactly when one of its values holds a date-time, and otherwise converts back unchanged |
| DomainsConvert.StringToTomlValue | src/domains/convert.rs:48-61 | a text is always read as a boolean, an integer, a float or a string, never a structure |
| DomainsConvert.RestoredValueShape | src/domains/convert.rs:48-61 | a text read as a value always converts to a preference, and that preference converts back to the value read (also lines 9-27) |
| DomainsConvert.ShownTextReadsBack | src/domains/convert.rs:48-87 | a boolean, an `i64`, a plain string, or a float whose shown text reads back as itself, is restored unchanged from the text it is shown as |
| DomainsConvert.NumericTextChangesType | src/domains/convert.rs:54-69 | the string preference `"42"` is restored as the integer 42 |
| DomainsConvert.ShownTextIsNormalForm | src/domains/convert.rs:64-95 | for booleans, integers and strings the text a preference is shown as is the value's normal form |
| DomainsConvert.FloatTextsMayDiffer | src/domains/convert.rs:68-93 | a float is shown by its `Display` text but normalised by its TOML text |
| ExecCore.WordChars | src/exec/core.rs:76 | every character the name part of the pattern takes is a letter, digit or underscore |
| ExecCore.MatchAt | src/exec/core.rs:76 | a match starts with `$`, its name is `[A-Za-z_][A-Za-z0-9_]*`, and the braced form needs the closing `}` |
| ExecCore.Resolve | src/exec/core.rs:79-85 | `[vars]` wins over the environment, and a name found in neither becomes `${NAME}` |
| ExecCore.PlainCopied | src/exec/core.rs:88-98 | text without `$` before the rest is copied, and only the rest is substituted |
| ExecCore.NoDollarTail | src/exec/core.rs:88-98 | a text without `$` has none after its first character either |
| ExecCore.FirstCopied | src/exec/core.rs:88-98 | a first character other than `$` is kept and the rest substituted on its own |
| ExecCore.PlainKept | src/exec/core.rs:72-99 | a text without `$` comes back unchanged |
| ExecCore.LoneDollarKept | src/exec/core.rs:76 | a `$` followed by neither a name nor `{` is kept |
| ExecCore.ReferenceReplaced | src/exec/core.rs:88-96 | `$NAME` becomes the resolved value, which is not substituted again |
| ExecCore.BracedReplaced | src/exec/core.rs:88-96 | `${NAME}` becomes the resolved value, which is not substituted again |
| ExecCore.WordAll | src/exec/core.rs:76 | the name part of a match stops at the first character that is not a name character |
| ExecCore.ExtractCmd | src/exec/core.rs:25-53 | a job exists exactly for a named command table; its line is substituted, the switches default to false and `required` to nothing |
| ExecCore.Order | src/exec/core.rs:60 | the iteration visits every command name once |
| ExecCore.Jobs | src/exec/core.rs:56-68 | the i-th job is the command extracted for the i-th name |
| ExecCore.ExtractAllCmds | src/exec/core.rs:56-68 | one job per command table in iteration order, and none without command tables |
| ExecCore.AllBinsPresent | src/exec/core.rs:130-143 | true exactly when every required binary is on the path, so an empty list is always satisfied |
| ExecCore.PartitionMembers | src/exec/core.rs:162-173 | a job is in the `ensure_first` or the regular group exactly when it is kept and of that kind |
| ExecCore.PartitionCounts | src/exec/core.rs:162-173 | the two groups together hold as many jobs as are kept |
| ExecCore.Split | src/exec/core.rs:159-173 | the loop drops jobs with missing binaries or the wrong flag for the mode and splits the rest by `ensure_first`, keeping the order |
| ExecCore.StartedLines | src/exec/core.rs:103-118 | outside a dry run each job starts its own `sh -c` line, in order; a dry run starts nothing |
| ExecCore.StartedAppend | src/exec/core.rs:181-203 | the programs two job lists start are those of the first list, then those of the second |
| ExecCore.SuccessesBounded | src/exec/core.rs:177-203 | no more jobs succeed than there are, and in a dry run all of them do |
| ExecCore.SuccessesAppend | src/exec/core.rs:177-203 | the successes of two lists add up |
| ExecCore.ExecuteCommand | src/exec/core.rs:103-126 | a dry run succeeds without starting anything; otherwise the job's line is started and it succeeds exactly when it exits with success |
| ExecCore.RunJobs | src/exec/core.rs:181-187 | every job runs in turn, a failure does not stop the rest, and each is counted once as a success or a failure |
| ExecCore.RunNext | src/exec/core.rs:182-186 | one more job is run and counted |
| ExecCore.RunAll | src/exec/core.rs:155-216 | the `ensure_first` jobs start before the regular ones, and the result is the number of kept jobs that succeed |
| ExecCore.RunAllCounts | src/exec/core.rs:177-215 | every kept job runs once; the successes are at most the kept jobs, and all of them in a dry run |
| ExecCore.AllModeKeeps | src/exec/core.rs:163-165 | in mode `All` only missing binaries drop a job |
| ExecCore.RunOne | src/exec/core.rs:219-228 | an unknown command or a missing binary is an error that starts nothing; otherwise the one job runs |
| ExecRunner.Substitute | src/exec/runner.rs:69-134 | the line is the left-to-right expansion of its references, `[vars]` looked up before the environment |
| ExecRunner.UnresolvedDiffers | src/exec/runner.rs:121-128 | an unresolved `$NAME` stays `$NAME` here, where src/exec/core.rs rewrites it as `${NAME}` |
| ExecRunner.ExtractCmd | src/exec/runner.rs:23-51 | a job exists exactly for a named command table; its line is substituted, the switches default to false and `required` to nothing |
| ExecRunner.Jobs | src/exec/runner.rs:54-66 | the i-th job is the command extracted for the i-th name |
| ExecRunner.ExtractAllCmds | src/exec/runner.rs:54-66 | one job per command table in iteration order, and none without command tables |
| ExecRunner.RunAll | src/exec/runner.rs:196-255 | the kept `ensure_first` jobs start before the kept regular ones, and the result is the number that succeed |
| ExecRunner.RunOne | src/exec/runner.rs:258-267 | an unknown command or a missing binary is an error that starts nothing; otherwise the one job runs |
| External.Field | src/external.rs:11-15 | only a table has entries to look up |
| External.Strings | src/external.rs:18-21 | `filter_map(as_str)` keeps no more items than it is given |
| External.StringsMembers | src/external.rs:18-21 | exactly the string items are kept |
| External.CommandOf | src/external.rs:14-38 | an entry is recorded exactly when it is a table with a string `cmd`; `sudo` holds only for `sudo = true` |
| External.CommandArgs | src/external.rs:16-27 | the recorded arguments are the string items of `args` when it is an array, and none otherwise |
| External.Extracted | src/external.rs:13-41 | no more states are recorded than there are entries |
| External.ExtractExternalCommands | src/external.rs:8-46 | the loop records the states of the valid entries, in order |
| External.ExtractedMembers | src/external.rs:13-41 | a state is recorded exactly when some entry yields it |
| External.Lookup | src/external.rs:99-125 | a name in `[external.variables]` resolves to its string, its array's strings joined by spaces, or its TOML text; otherwise to the environment, else to nothing |
| External.SubstituteVariables | src/external.rs:49-132 | every reference is replaced by its value from left to right, and unresolved ones are kept as written |
| External.QuotedOnce | src/external.rs:180-188 | an argument with a space and no enclosing quotes is appended in double quotes, which it then has, and any other is appended as it is |
| External.InvocationOf | src/external.rs:151-206 | an entry yields a program exactly when it is a table with a string `cmd` |
| External.AssembleCommand | src/external.rs:169-196 | the loop appends each substituted string argument to `cmd` |
| External.PrepareCommand | src/external.rs:151-206 | the entry is checked, its line built and substituted once more, and `sudo sh -c` chosen when `sudo` is true |
| External.RunEntry | src/external.rs:151-257 | a rejected entry or a shell that cannot start is an error; a dry run starts nothing |
| External.ExecuteExternalCommands | src/external.rs:135-261 | the run starts the entries' programs in order and succeeds exactly when no entry stopped it |
| External.ExecuteEntries | src/external.rs:151-258 | the loop stops at the first error and what it started is the run's programs |
| External.RunStep | src/external.rs:151-257 | running one entry changes the started programs and gives the outcome exactly as the step function of the run says |
| External.RunUpToNext | src/external.rs:151-258 | one more entry of a run that has not failed adds its programs and its outcome |
| External.RunUpToStops | src/external.rs:151-258 | once a run has failed, or every entry is done, later entries change nothing |
| External.RunUpToExecuted | src/external.rs:151-258 | the run counted over the first entries by position is the run over that prefix of the entries |
| External.DryRunStartsNothing | src/external.rs:208-216 | a dry run starts no program |
| External.AllValidSnoc | src/external.rs:151-161 | the entries are all valid exactly when the ones before the last are and the last is too |
| External.ExecutedSucceeds | src/external.rs:151-260 | the run succeeds exactly when every entry is valid and, with something to run outside a dry run, the shell starts; a command's own failure does not fail the run |
| External.StartedMatchesExtracted | src/external.rs:8-46 | when all entries are valid, the programs started match the recorded states one for one, `sudo` exactly where the state says so |
| External.ArgumentsSubstitutedTwice | src/external.rs:178-199 | for any command without `$`, an argument `$A` with `A` holding `$B` runs as the command followed by the value of `B`, because the full line is substituted again |
| External.ArgumentAppended | src/external.rs:175-188 | an argument `$A` with `A` holding `$B` is substituted once and appended as ` $B`, unquoted |
| External.ReferenceExpanded | src/external.rs:199 | substituting the full line replaces its final reference by the value and keeps the plain text before it |
| External.ExpandedOne | src/external.rs:72-79 | a final one-letter reference expands to its value |
| ExternalRunner.StateOf | src/external/runner.rs:17-28 | an entry is recorded exactly when it is a table with a string `run`; its line is substituted and `sudo` holds only for `sudo = true` |
| ExternalRunner.Extracted | src/external/runner.rs:15-31 | no more states are recorded than there are entries |
| ExternalRunner.Extract | src/external/runner.rs:11-34 | the loop records the states of the valid command tables, in the table's order |
| ExternalRunner.ExtractedMembers | src/external/runner.rs:15-31 | a state is recorded exactly when some entry yields it |
| ExternalRunner.ExtractedAll | src/external/runner.rs:15-31 | when every entry is valid there is one state per entry, in order |
| ExternalRunner.Failures | src/external/runner.rs:160-165 | no more failures are counted than there are commands |
| ExternalRunner.RunTask | src/external/runner.rs:120-158 | the recorded line is substituted again and started unless in a dry run; the task fails when the shell cannot start or the command exits with failure |
| ExternalRunner.RunAll | src/external/runner.rs:112-176 | every extracted command is run and its failure counted, and the result is `Ok` whatever the count |
| ExternalRunner.RunNext | src/external/runner.rs:118-165 | one more task is run and its failure counted |
| ExternalRunner.DryRunQuiet | src/external/runner.rs:127-130 | a dry run starts nothing and counts no failure |
| ExternalRunner.AllStarted | src/external/runner.rs:118-159 | outside a dry run, each state's program is started, in order |
| ExternalRunner.NoFailures | src/external/runner.rs:160-165 | no failure is counted exactly when it is a dry run, there is nothing to run, or every program starts and succeeds |
| ExternalRunner.NothingSpawns | src/external/runner.rs:134-138 | when no program can be started, every task fails |
| ExternalRunner.OneInvocation | src/external/runner.rs:179-206 | `run_one` has a program exactly when `commands` holds a table of that name with a string `run` |
| ExternalRunner.OneTable | src/external/runner.rs:182-187 | the table found is the entry of that name under `commands` |
| ExternalRunner.OneRunsExtracted | src/external/runner.rs:189-206 | `run_one` starts the line `extract` records for the command, substituted once |
| ExternalRunner.RunOne | src/external/runner.rs:179-240 | an unknown command or a missing `run` is an error that starts nothing; otherwise the command runs and its failure is the result |
| ExternalRunner.SubstitutedTwiceByRunAll | src/external/runner.rs:21 | for any command table whose `run` is `$A`, with `A` holding `$B` and `B` holding `x`: the command is recorded as `$B`, `run_all` starts `sh -c x` and `run_one` starts `sh -c $B` (also lines 121, 194) |
| Lib.Tables | src/lib.rs:103-112 | the nested tables picked out of a table are table entries of that table |
| Lib.Split | src/lib.rs:103-112 | the first loop of `flatten_domains` separates, in order, the table's own settings from its nested tables |
| Lib.FlattenDomains | src/lib.rs:94-136 | the domains appended are those of the recursive definition: the table's own settings first, when it has any, then each nested table flattened in turn |
| Lib.FlattenNested | src/lib.rs:122-135 | the nested loop appends the flattening of each nested table under its dotted name, in order |
| Lib.ParentFirst | src/lib.rs:114-120 | a table with settings of its own yields its own domain first, ahead of everything nested in it |
| Lib.FlatKeeps | src/lib.rs:103-112 | every non-table entry of a table is kept among its own settings |
| Lib.SameDomainsAsOlder | src/lib.rs:94-136 | this flattening yields exactly the same (domain, settings) pairs as the one of src/domains.rs; only the order differs |
| Lib.NestedSame | src/lib.rs:122-135 | the nested parts of the two flattenings yield the same (domain, settings) pairs |
| Lib.CollectedSameNames | src/lib.rs:253-270 | without a top-level `external` table, this `collect_domains` finds exactly the domain names the one of src/domains.rs finds |
| Lib.CollectDomains | src/lib.rs:253-270 | a top-level table yields every flattened domain of every top-level table, later ones replacing earlier ones of the same name; any other value is an error |
| Lib.NormalizeDesired | src/lib.rs:292-306 | booleans, integers and strings normalise as everywhere else, a float to its display text, any other value to the empty text |
| Lib.SnapshotCopy.constructor | src/lib.rs:338-339 | the snapshot file starts with the given content |
| Lib.SnapshotCopy.CopyFrom | src/lib.rs:529-530 | copying the configuration succeeds exactly when the file can be written, and then the snapshot holds the configuration; otherwise it is unchanged |
| Lib.SnapshotCopy.Remove | src/lib.rs:604-605 | removing the snapshot succeeds exactly when it exists and can be removed, and then it is gone; otherwise it is unchanged |
| Lib.SnapshotDomains | src/lib.rs:342-344 | a snapshot loads exactly when it parses to a table |
| Lib.Added | src/lib.rs:411-413 | a domain is new exactly when it is configured and the snapshot lacks it |
| Lib.Modified | src/lib.rs:414-418 | a domain is modified exactly when it is configured and the snapshot has it with another table |
| Lib.Removed | src/lib.rs:422-427 | a domain is removed exactly when the snapshot has it and the configuration does not |
| Lib.NewAndModified | src/lib.rs:406-420 | the first comparison loop yields the new and the modified domains in the configuration's order |
| Lib.RemovedDomains | src/lib.rs:422-427 | the second comparison loop yields the removed domains in the snapshot's order |
| Lib.ClassesPartition | src/lib.rs:405-427 | new, modified and removed are each characterised by membership in the configuration and the snapshot, and no domain is in two of them |
| Lib.Issue | src/lib.rs:166-236 | `defaults write` or `defaults delete` aborts exactly when `defaults` cannot be started; otherwise the command is recorded and takes effect, whatever its exit status |
| Lib.KeyStep | src/lib.rs:361-398 | a write happens only when the preference does not already show the normalised value, and an unsupported type then aborts; a delete happens only when the preference still shows that value (also lines 503-521) |
| Lib.SettingsRun | src/lib.rs:361-399 | once the walk has aborted, later settings change nothing |
| Lib.SettingsRunNext | src/lib.rs:361 | the walk over one more setting takes exactly one more step, unless it has aborted |
| Lib.DomainRun | src/lib.rs:355-360 | a domain whose effective domain `defaults read` cannot read aborts before any of its settings |
| Lib.Visited | src/lib.rs:443-450 | once the walk has aborted, later domains change nothing |
| Lib.VisitedAppend | src/lib.rs:443 | walking two lists of domains one after the other is walking their concatenation |
| Lib.RunSetting | src/lib.rs:362-398 | the body of the inner loops does exactly one step of the walk (also lines 504-521) |
| Lib.RunDomain | src/lib.rs:355-399 | a domain's check and inner loop do exactly the domain's walk |
| Lib.RunDomains | src/lib.rs:354-403 | the outer loops do exactly the walk over the listed domains, stopping at the first failure (also lines 443-526) |
| Lib.RemovingKeeps | src/lib.rs:495-526 | a delete walk never sets a preference, and leaves alone a preference whose value no visited setting wants, so a value the user changed since the snapshot survives (also lines 570-602) |
| Lib.SettingsKeep | src/lib.rs:503-522 | the same, for the settings of one domain |
| Lib.StepKeeps | src/lib.rs:504-521 | a delete step only removes its own preference, and only when it shows the wanted value |
| Lib.KeyStepKeeps | src/lib.rs:507-521 | the same, for a given preference and value |
| Lib.WritingSettled | src/lib.rs:354-403 | a write walk over domains that exist and whose preferences already show their values starts no command and changes nothing |
| Lib.SettingsSettled | src/lib.rs:361-399 | the same, for the settings of one domain |
| Lib.SettledStep | src/lib.rs:366-376 | one more setting whose preference already shows its value leaves the walk where it was |
| Lib.StepSettled | src/lib.rs:366-376 | a write step whose preference already shows the value starts nothing |
| Lib.UnsupportedAborts | src/lib.rs:377-389 | a setting that is not a boolean, integer, float or string aborts the write walk unless the preference already shows its normalised value, which for such a value is the empty text and is never shown |
| Lib.ReapplyIdle | src/lib.rs:405-530 | once an apply has copied the configuration over the snapshot, applying the same configuration again finds nothing new, modified or removed and starts nothing |
| Lib.NoneAdded | src/lib.rs:411-413 | against a snapshot holding every configured domain, nothing is new |
| Lib.NoneModified | src/lib.rs:414-418 | against a snapshot equal to the configuration, nothing is modified |
| Lib.NoneRemoved | src/lib.rs:422-427 | when the configuration holds every snapshot domain, nothing is removed |
| Lib.ApplyDefaults | src/lib.rs:312-539 | no configuration succeeds only when the example is created; a configuration or snapshot that does not load fails before anything starts; otherwise the preferences become those of the write walk over all domains (no snapshot) or over the new then modified domains followed by the delete walk over the removed ones, and the configuration is copied over the snapshot exactly when the walks and the copy succeed |
| Lib.ApplyInputs | src/lib.rs:334-347 | the inputs load exactly when the configuration parses to a table and any existing snapshot does too, and are then their collected domains |
| Lib.LoadInputs | src/lib.rs:334-347 | the loading code yields exactly those inputs |
| Lib.Walk | src/lib.rs:349-527 | the walks of `apply_defaults` take the preferences exactly where the specified walk takes them |
| Lib.UnapplyDefaults | src/lib.rs:542-614 | no snapshot, a snapshot or configuration that does not load, or a difference the user does not confirm fails with nothing changed; otherwise the preferences become those of the delete walk over every snapshot domain, and the snapshot is removed exactly when the walk and the removal succeed |
| Mas.SplitOnce | src/mas/core.rs:42-46 | `splitn(2, ' ')` yields two parts exactly when the line has a space; the line is the first part, a space and the rest, and the first part has no space |
| Mas.ParseLine | src/mas/core.rs:41-54 | a line gives an application exactly when it has a space; the id is the text before the first space and the name is read from the text after it |
| Mas.Apps | src/mas/core.rs:39-55 | no more applications than lines |
| Mas.ListApps | src/mas/core.rs:28-58 | the list is produced exactly when `mas` is installed and `mas list` starts and succeeds, and it is then the applications of the output's lines |
| Mas.AppsAppend | src/mas/core.rs:39-55 | lines are read in order: two blocks of lines give the applications of each block, one after the other |
| Mas.AppsMembers | src/mas/core.rs:39-55 | an application is listed exactly when some line parses to it |
| Mas.WordsReadBack | src/mas/core.rs:47-50 | words joined by single spaces split back into the same words |
| Mas.NameWords | src/mas/core.rs:45-51 | the words of a name are the words after the id without the last one, and none when there is at most one |
| Mas.SplitAtId | src/mas/core.rs:42-44 | a line made of an id without spaces, a space and a rest splits back into that id and that rest |
| Mas.PrintedLineReadsBack | src/mas/core.rs:39-54 | a line printed as id, name words and a version word reads back as that id and that name |
| OlderSnapshot.New | src/snapshot.rs:37-43 | a new snapshot records no settings and no commands, stamped with the version |
| OlderSnapshot.SnapshotFile.constructor | src/snapshot.rs:27-34 | the file at the snapshot path starts as given |
| OlderSnapshot.SnapshotFile.Load | src/snapshot.rs:57-67 | loading succeeds exactly when a file is there and parses, and gives back what was saved |
| OlderSnapshot.SnapshotFile.Save | src/snapshot.rs:45-55 | saving succeeds exactly when the file can be written, and a later load then gives the snapshot back |
| OlderSnapshot.SnapshotFile.Remove | src/commands.rs:404 | removing fails when there is no file (or it cannot be removed), and otherwise leaves no file |
| Processes.Shell.constructor | src/external.rs:229-233 | a new shell has started nothing, with the given ability to start programs and the given exit statuses |
| Processes.Shell.Run | src/external.rs:229-233 | a program that cannot be started yields no status and is not recorded; otherwise it is recorded as started, after everything before it, and yields its exit status |
| Scanner.BraceEnd | src/exec/runner.rs:82-89 | a braced span ends just past the next `}` or at the end of the text |
| Scanner.WordEnd | src/exec/runner.rs:90-101 | an unbraced span ends after the run of letters, digits and underscores |
| Scanner.SpanEnd | src/exec/runner.rs:76-103 | every span covers at least its `$` and stays inside the text |
| Scanner.Resolved | src/exec/runner.rs:113-128 | a reference whose name has no value is kept as written |
| Scanner.NextRef | src/exec/runner.rs:75-106 | the scan skips to the next `$`, passing over no other |
| Scanner.ScanRef | src/exec/runner.rs:77-103 | the index loop ends exactly where the span's definition says |
| Scanner.FindSpans | src/exec/runner.rs:70-107 | the first pass records the span of every reference, left to right |
| Scanner.RefsAfter | src/exec/runner.rs:75-107 | the spans after the `j`-th one are the spans found from its end |
| Scanner.CutIsNextRef | src/exec/runner.rs:75-107 | the first span from a position starts at the next `$` |
| Scanner.ExpandedPlain | src/exec/runner.rs:104-106 | text without `$` passes through the substitution unchanged |
| Scanner.Substitute | src/exec/runner.rs:69-134 | replacing the spans from the last to the first gives the left-to-right expansion, in which no replacement is scanned again |
| Scanner.ReplaceStep | src/exec/runner.rs:110-131 | replacing the `j`-th span from the back extends the expanded tail back to its start |
| Scanner.SpanAt | src/exec/runner.rs:75-107 | each recorded span is a reference, followed by plain text up to the next one |
| Scanner.Spliced | src/exec/runner.rs:130 | `replace_range` on a span before the already replaced tail gives the expansion from that span on |
| Scanner.UnresolvedKept | src/exec/runner.rs:126-128 | when no name has a value, the text is kept as it is |
| Scanner.PlainTextKept | src/exec/runner.rs:104-106 | a text without `$` is kept whatever the variables |
| Snapshots.New | src/snapshot/core.rs:44-54 | a new snapshot records nothing, with a zero run count and an empty digest, at the given path and version |
| Snapshots.SnapshotFiles.constructor | src/snapshot/core.rs:36-42 | the files and whether they can be written start as given |
| Snapshots.SnapshotFiles.Save | src/snapshot/core.rs:56-65 | the save succeeds exactly when the files can be written; then the snapshot is written to its own path, every other file unchanged, and a failed save changes nothing |
| Snapshots.SnapshotFiles.Load | src/snapshot/core.rs:67-78 | loading succeeds exactly when a readable snapshot file is at the path, and the result carries that path |
| Snapshots.SnapshotFiles.Delete | src/snapshot/core.rs:80-85 | the delete succeeds exactly when there is a file at the path and it can be removed; then that file alone is removed, and a failed delete changes nothing |
| StatusCmd.OutcomeOf | src/commands/status.rs:48-54 | a setting is checked under its effective domain and key; the shown text is the stored value's text or "Not set", and the setting differs exactly when that text is not the desired normal form |
| StatusCmd.StatusDisagreesWithApply | src/commands/status.rs:50-54 | status and apply disagree about a setting exactly when its preference is unset and its desired text is empty or "Not set" |
| StatusCmd.CheckPreferences | src/commands/status.rs:43-71 | the per-key loop yields one outcome per setting, in order, and records every domain seen, marked exactly when one of its settings differs |
| StatusCmd.CheckNext | src/commands/status.rs:47-71 | one turn appends the next setting's outcome and keeps the domains and their marks in step |
| StatusCmd.Outcomes | src/commands/status.rs:56-62 | there is one outcome per setting |
| StatusCmd.OutcomesAt | src/commands/status.rs:56-62 | the outcome at each position is that setting's check |
| StatusCmd.Mark | src/commands/status.rs:64-70 | a differing outcome marks its domain, a matching one adds its domain unmarked only when it is new, so a mark is never cleared |
| StatusCmd.CheckSetting | src/commands/status.rs:48-62 | reading a preference and comparing it yields exactly the setting's check |
| StatusCmd.DiffDomainsOfMembers | src/commands/status.rs:66-67 | a domain has a difference exactly when one of its outcomes differs |
| StatusCmd.CheckStep | src/commands/status.rs:64-70 | recording one outcome keeps the recorded domains and marks in step with the outcomes |
| StatusCmd.DomainsOfMembers | src/commands/status.rs:75-86 | the domains seen are exactly those of the outcomes |
| StatusCmd.Report | src/commands/status.rs:75-113 | the printing loop prints each outcome's line, preceded by its domain's header the first time the domain comes up, and ends with "diverged" exactly when some outcome differs, "on sync" otherwise |
| StatusCmd.ReportOutcome | src/commands/status.rs:79-103 | one printing turn prints the header of a domain not yet printed, then the setting's line, and notes a difference |
| StatusCmd.HasDiff | src/commands/status.rs:88-91 | some outcome differs exactly when one at some position does |
| StatusCmd.ReportStep | src/commands/status.rs:78-104 | the lines still to come are this outcome's lines followed by the rest's |
| StatusCmd.PrefixStep | src/commands/status.rs:85-91 | one printing turn adds the outcome's domain to those printed and its difference to the flag |
| StatusCmd.Headers | src/commands/status.rs:79-86 | the header lines of a report are all headers |
| StatusCmd.InHeaders | src/commands/status.rs:79-86 | a header line of a report is among its headers |
| StatusCmd.HeadersConcat | src/commands/status.rs:78-104 | the headers and the setting lines of two reports one after the other are those of each, in turn |
| StatusCmd.HeadersAppend | src/commands/status.rs:78-104 | the headers of two reports one after the other are those of each, in turn |
| StatusCmd.BodyAppend | src/commands/status.rs:78-104 | the setting lines of two reports one after the other are those of each, in turn |
| StatusCmd.HeadersOnce | src/commands/status.rs:73-86 | each domain's header comes at most once, never for a domain already printed, and warns exactly when the domain is marked |
| StatusCmd.HeadersFineCons | src/commands/status.rs:79-86 | a first header for a new domain keeps the headers distinct and correctly marked |
| StatusCmd.EveryDomainHeaded | src/commands/status.rs:79-86 | every outcome's domain gets a header carrying its mark |
| StatusCmd.BodyIsKeyLines | src/commands/status.rs:88-103 | without the headers, the report is one line per outcome, in order, a mismatch exactly for a differing one |
| StatusCmd.BrewSections | src/commands/status.rs:140-169 | the lists printed are exactly the non-empty ones, in the fixed label order, and Homebrew has diverged exactly when the comparison is not in sync |
| StatusCmd.ShowNonEmpty | src/commands/status.rs:152-160 | the loop prints exactly the non-empty lists, in order, and flags a difference exactly when it printed one |
| StatusCmd.ShownStep | src/commands/status.rs:152-160 | one turn of the loop prints the list exactly when it is not empty |
| StatusCmd.ShownMembers | src/commands/status.rs:152-160 | a labelled list is printed exactly when it is not empty |
| StatusCmd.ShownIffDiverged | src/commands/status.rs:140-169 | something is printed exactly when the comparison is not in sync |
| StatusCmd.BrewStatus | src/commands/status.rs:116-179 | the Homebrew part is skipped exactly with `--no-brew` or without a `[brew]` section, warns exactly when `brew` is not installed, reports an error exactly when the comparison fails, and otherwise prints the non-empty lists and whether Homebrew diverged |
| StatusCmd.Status | src/commands/status.rs:27-183 | the report ends in "diverged" exactly when some setting differs, every domain header warns exactly when one of its settings differs, every domain gets its header, the setting lines are one per setting in order; the Homebrew part is skipped, unavailable or failed exactly under the conditions of StatusCmd.BrewStatus, and a checked one holds the comparison, its non-empty lists and whether Homebrew diverged |
| StatusCmd.ReportOfSettings | src/commands/status.rs:42-113 | what the report of the checked outcomes says, restated in terms of the settings themselves |
| StatusCmd.MarkedIsDomainDiffers | src/commands/status.rs:64-80 | a domain is marked exactly when one of its settings differs |
| StatusCmd.HeaderWarnings | src/commands/status.rs:79-84 | every header's warning says whether one of its domain's settings differs |
| Toml.Get | src/brew/utils.rs:250-256 | a table has a value under a key exactly when one of its entries carries that key, and the value found is that entry's |
| UnapplyCmd.Deletes | src/commands/unapply.rs:49-64 | a preference is queued for deletion exactly when some record says it had no original value |
| UnapplyCmd.FirstRestore | src/commands/unapply.rs:49-64 | the restore that wins for a preference is absent exactly when no record of it has an original value, and otherwise is the original text of one of its records, read as a value |
| UnapplyCmd.LastWriteConcat | src/commands/unapply.rs:96-103 | in two batches written one after the other, the second's last write to a preference wins over the first's |
| UnapplyCmd.RestoresLastWrite | src/commands/unapply.rs:48-64 | because the walk runs backwards, the last restore of a preference is the original text of its earliest record |
| UnapplyCmd.UndoneAt | src/commands/unapply.rs:94-136 | after both batches, a preference some record says was unset is gone; otherwise it holds its earliest recorded original value, or what it held before when no record names it |
| UnapplyCmd.Tagged | src/commands/unapply.rs:98-101 | a domain's group becomes one restore per entry, in order, under that domain |
| UnapplyCmd.GroupedLastWrite | src/commands/unapply.rs:57-60 | grouping the restores by domain keeps, for every preference, the last value written to it |
| UnapplyCmd.GroupedKeys | src/commands/unapply.rs:62 | grouping the deletes by domain keeps exactly the queued (domain, key) pairs |
| UnapplyCmd.TaggedOtherDomain | src/commands/unapply.rs:98-101 | a domain's group writes nothing under another domain |
| UnapplyCmd.FlattenRestores | src/commands/unapply.rs:96-102 | flattening the groups, in any domain order, keeps for every preference the last value its domain's group writes to it |
| UnapplyCmd.FlattenDeletes | src/commands/unapply.rs:117-123 | flattening the grouped deletes queues exactly the grouped (domain, key) pairs |
| UnapplyCmd.WrittenByLastWrites | src/commands/unapply.rs:103 | two batches that leave the same last value under every preference write the same store |
| UnapplyCmd.GroupedStep | src/commands/unapply.rs:55-60 | one step of the reverse walk appends the record's restore, when it has one, to its domain's group |
| UnapplyCmd.GroupedKeysStep | src/commands/unapply.rs:61-62 | one step of the reverse walk appends the record's delete, when it has no original value, to its domain's group |
| UnapplyCmd.GroupUndo | src/commands/unapply.rs:43-64 | the reverse walk builds exactly the grouped restores and the grouped deletes of the records |
| UnapplyCmd.WriteRestores | src/commands/unapply.rs:95-114 | the restore batch, when there is one, leaves the store as writing the restores in walk order would, and a failed batch writes nothing |
| UnapplyCmd.DeleteKeys | src/commands/unapply.rs:116-135 | the delete batch, when there is one, removes exactly the queued preferences, and a failed batch removes nothing |
| UnapplyCmd.Unapply | src/commands/unapply.rs:26-171 | no snapshot file, or one that does not load, is an error with nothing changed; otherwise a dry run succeeds and changes nothing, and a real run leaves the preferences undone by both batches and then succeeds exactly when the snapshot file can be removed, removing it only then |
| UnapplyCmd.FreshRecords | src/commands/unapply.rs:55-63 | the records of an apply that started without a snapshot name each written preference with the non-empty text it showed before, or none |
| UnapplyCmd.UndoneAfterBatch | src/commands/unapply.rs:94-136 | unapplying records that hold what each written preference showed before brings back every non-empty value that reads back as itself, leaves absent what was absent, and leaves unnamed preferences alone |
| UnapplyCmd.UnapplyUndoesFreshApply | src/commands/unapply.rs:26-171 | unapply undoes a fresh apply of settings with distinct preferences and boolean, integer or string values: values that read back as themselves return, absent ones stay absent, and preferences no setting names are untouched |
| UtilConvert.StringToTomlValue | src/util/convert.rs:49-72 | a text is read as a scalar, and as a float only when it parses to a finite one |
| UtilConvert.AgreesWithDomainsReader | src/util/convert.rs:49-72 | this reader and the one of src/domains/convert.rs differ exactly on texts that are no boolean word and no integer and parse to NaN or an infinity |
| UtilConvert.ReaderEdgeCases | src/util/convert.rs:86-114 | the empty text stays a string, `true`/`false` are booleans, `42` is an integer and `NaN` stays text |

## Left out

- Floating point: an `f64` is kept abstract as its `Display` text and its TOML text. `str::parse::<f64>` is a parameter, and nothing is claimed about float text.
- HashMap iteration order: where the source iterates a `HashMap`, the order is a parameter or a ghost result. The `collect` output, `extract_all_cmds`, the unapply domain batches and the dict rendering of `prefvalue_to_string` have no asserted order.
- Concurrency: the regular jobs of `run_all` that `tokio::task::spawn` starts are modelled as run one after another, and a job that panics or fails to join is not modelled. The `try_join!` of `compare_brew_state`, the per-domain locks of src/defaults/lock.rs and the `OnceLock`/`lazy_static` caches are modelled as plain state.
- Scanner: it works on Unicode scalar values, while the source indexes bytes and counts `chars()`. The two agree on ASCII text only. `char::is_alphanumeric` is modelled as ASCII letters and digits because its Unicode tables are not modelled.
- TOML and JSON parsing and serialisation (`toml`, `toml_edit`, `serde_json`, src/config/loader.rs): the model takes the parsed value. A file holds either a parsed value or text that does not parse. A TOML table is an ordered sequence of entries.
- Processes, `defaults_rs` and the file system are modelled by their effect only, as listed above. This covers `defaults`, `killall`, `brew`, `mas`, `xcode-select`, `sh`, `sudo`, `which`, `fs::try_exists`, `dirs::home_dir` and setting environment variables.
- Brew.HomebrewPath: whether each `brew` binary exists is a given boolean, so the panic of `.unwrap()` on a failing `fs::try_exists` in src/brew/utils.rs is not modelled.
- OlderCommands.UnapplyDefaults: `get_flag_for_value` is called by src/commands.rs but is not part of this model, so the flag for a restored text is a parameter (`FlagFor`).
- Prompts, notifications, logging, colours and error message texts are not modelled. An answer to a prompt is a parameter. An error carries some text, but no particular text is claimed.
- Prefs.Preferences.WriteBatch: a batch that fails part way through is not modelled; a failed batch is taken to change nothing (the same holds for Prefs.Preferences.DeleteBatch).
- UnapplyCmd.Unapply: the warning that external commands are not reverted is printing only, so it is not modelled.
- `restart_system_services`, `restart_services`, `create_example_config`, `init_config`, `delete_config`, `config_show`, `check_for_updates`, the remote configuration download, the updater, the work of `brew install` (its outcome, success or error, is the `brewOk` parameter of `ApplyCmd.Apply`), `ensure_brew`, the Homebrew backup, `mas` backup and `cookbook` are not part of this model. They do I/O only, or are network code.
- The SHA-256 digest of src/util/sha.rs is an opaque input text.
- Integer widths: TOML integers are `i64` in the source and unbounded `int` here. Integer text is modelled only for values within `i64` range. Counters such as `exec_run_count` do not wrap.
