/**
 * The older external-command support (src/external.rs): the
 * `[[external.command]]` entries of the configuration, each a `cmd` with
 * optional `args` and `sudo`, with `$NAME` / `${NAME}` references resolved
 * from `[external.variables]` and then from the environment.
 *
 * The process environment is a parameter (`env`, a map from variable name
 * to value).
 */
module External {
  import opened Wrappers
  import opened Toml
  import Text
  import Scanner
  import Processes
  import OlderSnapshot

  /** `Value::get`: the entry under `key` of a table; nothing for any other value. */
  function Field(v: Value, key: string): (r: Option<Value>)
    ensures r.Some? ==> v.Table?
  {
    if v.Table? then Get(v.entries, key) else None
  }

  /** `filter_map(as_str)`: the string items, in order. */
  function Strings(items: seq<Value>): (r: seq<string>)
    ensures |r| <= |items|
  {
    if |items| == 0 then []
    else (if items[0].String? then [items[0].s] else []) + Strings(items[1..])
  }

  /** Exactly the strings among the items are kept. */
  lemma {:induction false} StringsMembers(items: seq<Value>, s: string)
    ensures s in Strings(items) <==> String(s) in items
  {
    if |items| > 0 {
      assert items == [items[0]] + items[1..];
      StringsMembers(items[1..], s);
    }
  }

  /** The `command` array of the `external` table, or nothing. */
  function CommandItems(config: Value): seq<Value>
  {
    match Field(config, "external")
    case Some(ext) => (match Field(ext, "command") case Some(Array(items)) => items case _ => [])
    case None => []
  }

  /** The `variables` table of the `external` table, if there is one. */
  function Variables(config: Value): Option<Entries>
  {
    match Field(config, "external")
    case Some(ext) => (match Field(ext, "variables") case Some(Table(vars)) => Some(vars) case _ => None)
    case None => None
  }

  /** `sudo` of a command entry: `false` when absent or not a boolean. */
  function SudoOf(item: Value): bool
  {
    match Field(item, "sudo")
    case Some(Boolean(b)) => b
    case _ => false
  }

  /** The string arguments of a command entry: none when `args` is absent or not an array. */
  function ArgsOf(item: Value): seq<string>
  {
    match Field(item, "args")
    case Some(Array(a)) => Strings(a)
    case _ => []
  }

  /** The state `extract_external_commands` records for one entry, if it is a table with a string `cmd`. */
  function CommandOf(item: Value): (r: Option<OlderSnapshot.ExternalCommandState>)
    ensures r.Some? <==> item.Table? && Field(item, "cmd").Some? && Field(item, "cmd").value.String?
    ensures r.Some? ==> r.value.cmd == Field(item, "cmd").value.s
    ensures r.Some? ==> (r.value.sudo <==> Field(item, "sudo") == Some(Boolean(true)))
  {
    match Field(item, "cmd")
    case Some(String(cmd)) => Some(OlderSnapshot.ExternalCommandState(cmd, ArgsOf(item), SudoOf(item)))
    case _ => None
  }

  /** The recorded arguments are the string items of `args`, when it is an array; otherwise none. */
  lemma CommandArgs(item: Value, a: string)
    requires CommandOf(item).Some?
    ensures a in CommandOf(item).value.args <==>
      (Field(item, "args").Some? && Field(item, "args").value.Array? && String(a) in Field(item, "args").value.items)
  {
    if Field(item, "args").Some? && Field(item, "args").value.Array? {
      StringsMembers(Field(item, "args").value.items, a);
    }
  }

  /** The states recorded for a list of entries, in order. */
  function Extracted(items: seq<Value>): (r: seq<OlderSnapshot.ExternalCommandState>)
    ensures |r| <= |items|
  {
    if |items| == 0 then []
    else
      var last := items[|items| - 1];
      Extracted(items[..|items| - 1]) + (if CommandOf(last).Some? then [CommandOf(last).value] else [])
  }

  /** `extract_external_commands`. */
  method ExtractExternalCommands(config: Value) returns (commands: seq<OlderSnapshot.ExternalCommandState>)
    ensures commands == Extracted(CommandItems(config))
  {
    var items := CommandItems(config);
    commands := [];
    var i := 0;
    while i < |items|
      invariant i <= |items|
      invariant commands == Extracted(items[..i])
    {
      assert items[..i + 1][..i] == items[..i];
      var c := CommandOf(items[i]);
      if c.Some? {
        commands := commands + [c.value];
      }
      i := i + 1;
    }
    assert items[..|items|] == items;
  }

  /** A state is extracted exactly when some entry yields it. */
  lemma {:induction false} ExtractedMembers(items: seq<Value>, c: OlderSnapshot.ExternalCommandState)
    ensures c in Extracted(items) <==> exists i :: 0 <= i < |items| && CommandOf(items[i]) == Some(c)
  {
    if |items| > 0 {
      var init := items[..|items| - 1];
      ExtractedMembers(init, c);
      if c in Extracted(items) && c !in Extracted(init) {
        assert CommandOf(items[|items| - 1]) == Some(c);
      }
      if exists i :: 0 <= i < |items| && CommandOf(items[i]) == Some(c) {
        var i :| 0 <= i < |items| && CommandOf(items[i]) == Some(c);
        if i < |items| - 1 {
          assert init[i] == items[i];
        }
      }
    }
  }

  /** The text a variable stands for: a string as itself, an array's strings joined by spaces, anything else as TOML. */
  function VariableText(v: Value): string
  {
    match v
    case String(s) => s
    case Array(items) => Text.Join(Strings(items), " ")
    case _ => TomlText(v)
  }

  /** How a name is resolved: from the variables table, then from the environment. */
  function Lookup(variables: Option<Entries>, env: map<string, string>): (f: string -> Option<string>)
    ensures forall name :: variables.Some? && Get(variables.value, name).Some? ==>
      f(name) == Some(VariableText(Get(variables.value, name).value))
    ensures forall name :: !(variables.Some? && Get(variables.value, name).Some?) ==>
      f(name) == (if name in env then Some(env[name]) else None)
  {
    name =>
      if variables.Some? && Get(variables.value, name).Some? then Some(VariableText(Get(variables.value, name).value))
      else if name in env then Some(env[name])
      else None
  }

  /** `substitute_variables`: every reference replaced from left to right; unresolved ones kept as written. */
  method SubstituteVariables(text: string, variables: Option<Entries>, env: map<string, string>) returns (r: string)
    ensures r == Scanner.Expanded(text, 0, Lookup(variables, env))
  {
    r := Scanner.Substitute(text, Lookup(variables, env));
  }

  /** Whether `s` begins and ends with the quote character `q`. */
  predicate Enclosed(s: string, q: char)
  {
    Text.StartsWith(s, [q]) && Text.EndsWith(s, [q])
  }

  /** An argument is quoted when it holds a space and is not already in double or single quotes. */
  predicate NeedsQuotes(arg: string)
  {
    ' ' in arg && !Enclosed(arg, '"') && !Enclosed(arg, '\'')
  }

  /** What is appended to the command for one processed argument: a space, then the argument, quoted if needed. */
  function ArgText(arg: string): (r: string)
  {
    if NeedsQuotes(arg) then " \"" + arg + "\"" else " " + arg
  }

  /** Quoting happens at most once: the text appended for an argument, read back as an argument, is not quoted again. */
  lemma QuotedOnce(arg: string)
    ensures |ArgText(arg)| > 0 && ArgText(arg)[0] == ' '
    ensures NeedsQuotes(arg) ==> ArgText(arg)[1..] == "\"" + arg + "\"" && !NeedsQuotes(ArgText(arg)[1..])
    ensures !NeedsQuotes(arg) ==> ArgText(arg)[1..] == arg
  {
    if NeedsQuotes(arg) {
      var q := ArgText(arg)[1..];
      assert q == "\"" + arg + "\"";
      assert q[..1] == "\"" && q[|q| - 1..] == "\"";
    }
  }

  /** The command line built from `cmd` and an `args` array: each string argument substituted and appended. */
  function Assembled(cmd: string, args: seq<Value>, lookup: string -> Option<string>): string
  {
    if |args| == 0 then cmd
    else
      var last := args[|args| - 1];
      Assembled(cmd, args[..|args| - 1], lookup)
        + (if last.String? then ArgText(Scanner.Expanded(last.s, 0, lookup)) else "")
  }

  /** The full command of an entry: assembled from `args` when that is an array, otherwise `cmd` alone. */
  function FullCommand(cmd: string, item: Value, lookup: string -> Option<string>): string
  {
    match Field(item, "args")
    case Some(Array(a)) => Assembled(cmd, a, lookup)
    case _ => cmd
  }

  /** The program started for an entry, or why the entry is rejected. The full command is substituted once more. */
  function InvocationOf(item: Value, lookup: string -> Option<string>): (r: Result<Processes.Invocation>)
    ensures r.Ok? <==> CommandOf(item).Some?
  {
    if !item.Table? then Err("Invalid external command format: expected a table")
    else
      match Field(item, "cmd")
      case Some(String(cmd)) =>
        Ok(Processes.ShellInvocation(Scanner.Expanded(FullCommand(cmd, item, lookup), 0, lookup), SudoOf(item)))
      case _ => Err("Missing 'cmd' in external command")
  }

  /** What running the entries does: the programs started, and the error that stopped the run, if any. */
  datatype Run = Run(started: seq<Processes.Invocation>, failure: Option<string>)

  /** What one entry adds to a run that has not failed yet. */
  function EntryRun(item: Value, lookup: string -> Option<string>, spawns: bool, dryRun: bool): Run
  {
    match InvocationOf(item, lookup)
    case Err(e) => Run([], Some(e))
    case Ok(inv) =>
      if dryRun then Run([], None)
      else if !spawns then Run([], Some("Failed to start the shell"))
      else Run([inv], None)
  }

  /** The run over a list of entries: stops at a rejected entry or at a program that cannot be started. */
  function Executed(items: seq<Value>, lookup: string -> Option<string>, spawns: bool, dryRun: bool): Run
  {
    if |items| == 0 then Run([], None)
    else
      var prev := Executed(items[..|items| - 1], lookup, spawns, dryRun);
      if prev.failure.Some? then prev
      else
        var step := EntryRun(items[|items| - 1], lookup, spawns, dryRun);
        Run(prev.started + step.started, step.failure)
  }

  /** The command line for one entry with an `args` array, built by appending one argument at a time. */
  method AssembleCommand(cmd: string, args: seq<Value>, lookup: string -> Option<string>) returns (line: string)
    ensures line == Assembled(cmd, args, lookup)
  {
    line := cmd;
    var i := 0;
    while i < |args|
      invariant i <= |args|
      invariant line == Assembled(cmd, args[..i], lookup)
    {
      assert args[..i + 1][..i] == args[..i];
      if args[i].String? {
        var processed := Scanner.Substitute(args[i].s, lookup);
        line := line + ArgText(processed);
      }
      i := i + 1;
    }
    assert args[..|args|] == args;
  }

  /** One entry: checks it, builds and substitutes its command line. */
  method PrepareCommand(item: Value, lookup: string -> Option<string>) returns (r: Result<Processes.Invocation>)
    ensures r == InvocationOf(item, lookup)
  {
    if !item.Table? {
      return Err("Invalid external command format: expected a table");
    }
    var cmdField := Field(item, "cmd");
    if !(cmdField.Some? && cmdField.value.String?) {
      return Err("Missing 'cmd' in external command");
    }
    var cmd := cmdField.value.s;
    var full := cmd;
    var argsField := Field(item, "args");
    if argsField.Some? && argsField.value.Array? {
      full := AssembleCommand(cmd, argsField.value.items, lookup);
    }
    var processed := Scanner.Substitute(full, lookup);
    return Ok(Processes.ShellInvocation(processed, SudoOf(item)));
  }

  /** One entry of `execute_external_commands`: checks it, builds its command and starts it unless in a dry run. */
  method RunEntry(item: Value, lookup: string -> Option<string>, shell: Processes.Shell, dryRun: bool)
    returns (failure: Option<string>)
    modifies shell
    ensures var step := EntryRun(item, lookup, shell.spawns, dryRun);
      shell.started == old(shell.started) + step.started && failure == step.failure
  {
    var inv := PrepareCommand(item, lookup);
    if inv.Err? {
      return Some(inv.error);
    }
    if !dryRun {
      var ran := shell.Run(inv.value);
      if ran.None? {
        return Some("Failed to start the shell");
      }
    }
    return None;
  }

  /**
   * `execute_external_commands`: runs each entry's command through the
   * shell, one after another. A rejected entry or a shell that cannot be
   * started ends the run with an error; a command that exits with failure
   * is only reported, so its exit status has no effect here.
   */
  method ExecuteExternalCommands(config: Value, env: map<string, string>, shell: Processes.Shell, dryRun: bool)
    returns (r: Result<()>)
    modifies shell
    ensures var run := Executed(CommandItems(config), Lookup(Variables(config), env), shell.spawns, dryRun);
      shell.started == old(shell.started) + run.started && (r.Ok? <==> run.failure.None?)
  {
    var items := CommandItems(config);
    var lookup := Lookup(Variables(config), env);
    ghost var step := EntryStep(lookup, shell.spawns, dryRun);
    r := ExecuteEntries(items, lookup, shell, dryRun, step);
    RunUpToExecuted(items, |items|, step, lookup, shell.spawns, dryRun);
    assert items[..|items|] == items;
  }

  /**
   * The loop of `execute_external_commands` over the entries; `step` is
   * what one entry adds to the run.
   */
  method ExecuteEntries(items: seq<Value>, lookup: string -> Option<string>, shell: Processes.Shell, dryRun: bool,
                        ghost step: Value -> Run)
    returns (r: Result<()>)
    requires IsEntryStep(step, lookup, shell.spawns, dryRun)
    modifies shell
    ensures var run := RunUpTo(items, |items|, step);
      shell.started == old(shell.started) + run.started && (r.Ok? <==> run.failure.None?)
  {
    var failure: Option<string> := None;
    var i := 0;
    while i < |items| && failure.None?
      invariant i <= |items|
      invariant failure == RunUpTo(items, i, step).failure
      invariant shell.started == old(shell.started) + RunUpTo(items, i, step).started
    {
      RunUpToNext(items, i, step);
      failure := RunStep(items[i], lookup, shell, dryRun, step);
      i := i + 1;
    }
    RunUpToStops(items, i, |items|, step);
    r := if failure.None? then Ok(()) else Err(failure.value);
  }

  /** `RunEntry`, its outcome read through the step function of the run. */
  method RunStep(item: Value, lookup: string -> Option<string>, shell: Processes.Shell, dryRun: bool,
                 ghost step: Value -> Run)
    returns (failure: Option<string>)
    requires IsEntryStep(step, lookup, shell.spawns, dryRun)
    modifies shell
    ensures shell.started == old(shell.started) + step(item).started && failure == step(item).failure
  {
    failure := RunEntry(item, lookup, shell, dryRun);
  }

  /** `step` adds, for every entry, what `EntryRun` says that entry adds. */
  ghost predicate IsEntryStep(step: Value -> Run, lookup: string -> Option<string>, spawns: bool, dryRun: bool)
  {
    forall item {:trigger EntryRun(item, lookup, spawns, dryRun)} :: step(item) == EntryRun(item, lookup, spawns, dryRun)
  }

  /** What one entry adds to a run, as a function of the entry. */
  function EntryStep(lookup: string -> Option<string>, spawns: bool, dryRun: bool): (step: Value -> Run)
    ensures IsEntryStep(step, lookup, spawns, dryRun)
  {
    item => EntryRun(item, lookup, spawns, dryRun)
  }

  /** The run over the first `n` entries, counted by position, each adding its `step`. */
  function RunUpTo(items: seq<Value>, n: nat, step: Value -> Run): Run
    requires n <= |items|
  {
    if n == 0 then Run([], None)
    else
      var prev := RunUpTo(items, n - 1, step);
      if prev.failure.Some? then prev
      else Run(prev.started + step(items[n - 1]).started, step(items[n - 1]).failure)
  }

  /** The run over the first `n` entries is the run over the prefix of length `n`. */
  lemma {:induction false} RunUpToExecuted(items: seq<Value>, n: nat, step: Value -> Run,
                                           lookup: string -> Option<string>, spawns: bool, dryRun: bool)
    requires n <= |items| && IsEntryStep(step, lookup, spawns, dryRun)
    ensures RunUpTo(items, n, step) == Executed(items[..n], lookup, spawns, dryRun)
  {
    if n > 0 {
      RunUpToExecuted(items, n - 1, step, lookup, spawns, dryRun);
      assert items[..n][..n - 1] == items[..n - 1];
      assert items[..n][n - 1] == items[n - 1];
    }
  }

  /** One more entry of a run that has not failed adds its programs and its outcome. */
  lemma RunUpToNext(items: seq<Value>, i: nat, step: Value -> Run)
    requires i < |items| && RunUpTo(items, i, step).failure.None?
    ensures RunUpTo(items, i + 1, step)
      == Run(RunUpTo(items, i, step).started + step(items[i]).started, step(items[i]).failure)
  {
  }

  /** Once the run has failed, or every entry is done, the later entries change nothing. */
  lemma {:induction false} RunUpToStops(items: seq<Value>, n: nat, m: nat, step: Value -> Run)
    requires n <= m <= |items|
    requires n < |items| ==> RunUpTo(items, n, step).failure.Some?
    ensures RunUpTo(items, m, step) == RunUpTo(items, n, step)
    decreases m
  {
    if n < m {
      RunUpToStops(items, n, m - 1, step);
    }
  }

  /** A dry run starts nothing. */
  lemma {:induction false} DryRunStartsNothing(items: seq<Value>, lookup: string -> Option<string>, spawns: bool)
    ensures Executed(items, lookup, spawns, true).started == []
  {
    if |items| > 0 {
      DryRunStartsNothing(items[..|items| - 1], lookup, spawns);
    }
  }

  /** Every entry is a table with a string `cmd`. */
  predicate AllValid(items: seq<Value>)
  {
    forall i :: 0 <= i < |items| ==> CommandOf(items[i]).Some?
  }

  lemma AllValidSnoc(items: seq<Value>)
    requires |items| > 0
    ensures AllValid(items) <==> AllValid(items[..|items| - 1]) && CommandOf(items[|items| - 1]).Some?
  {
    var init := items[..|items| - 1];
    assert forall i :: 0 <= i < |init| ==> init[i] == items[i];
  }

  /**
   * The run succeeds exactly when every entry is a table with a string
   * `cmd` and, outside a dry run with something to run, the shell starts.
   */
  lemma {:induction false} ExecutedSucceeds(items: seq<Value>, lookup: string -> Option<string>, spawns: bool, dryRun: bool)
    ensures Executed(items, lookup, spawns, dryRun).failure.None? <==> AllValid(items) && (dryRun || spawns || |items| == 0)
  {
    if |items| > 0 {
      ExecutedSucceeds(items[..|items| - 1], lookup, spawns, dryRun);
      AllValidSnoc(items);
    }
  }

  /**
   * When every entry is valid and the commands run, the programs started
   * are the recorded states one for one: the same count, and `sudo sh -c`
   * exactly for the states with `sudo`.
   */
  lemma {:induction false} StartedMatchesExtracted(items: seq<Value>, lookup: string -> Option<string>)
    requires AllValid(items)
    ensures var run := Executed(items, lookup, true, false);
      && run.failure.None?
      && |run.started| == |Extracted(items)| == |items|
      && forall i :: 0 <= i < |items| ==>
           run.started[i].program == (if Extracted(items)[i].sudo then "sudo" else "sh")
  {
    if |items| > 0 {
      AllValidSnoc(items);
      StartedMatchesExtracted(items[..|items| - 1], lookup);
    }
  }

  /**
   * Substitution runs twice on an argument: for any command without `$`,
   * an argument `$A` whose variable holds `$B` runs as the command
   * followed by the value of `B`.
   */
  lemma ArgumentsSubstitutedTwice(cmd: string, a: string, b: string, x: string, lookup: string -> Option<string>)
    requires '$' !in cmd
    requires |a| == 1 && Text.IsAsciiLetter(a[0]) && |b| == 1 && Text.IsAsciiLetter(b[0])
    requires lookup(a) == Some("$" + b) && lookup(b) == Some(x)
    ensures InvocationOf(Table([("cmd", String(cmd)), ("args", Array([String("$" + a)]))]), lookup)
            == Ok(Processes.Invocation("sh", ["-c", cmd + " " + x]))
  {
    var item := Table([("cmd", String(cmd)), ("args", Array([String("$" + a)]))]);
    CommandFields(cmd, [String("$" + a)]);
    ArgumentAppended(cmd, a, b, lookup);
    ReferenceExpanded(cmd, b, x, lookup);
    assert FullCommand(cmd, item, lookup) == cmd + " $" + b;
  }

  /** The fields of an entry with a `cmd` and an `args` array and no `sudo`. */
  lemma CommandFields(cmd: string, args: seq<Value>)
    ensures var item := Table([("cmd", String(cmd)), ("args", Array(args))]);
      && Field(item, "cmd") == Some(String(cmd))
      && Field(item, "args") == Some(Array(args))
      && Field(item, "sudo") == None
  {
    var t := [("cmd", String(cmd)), ("args", Array(args))];
    assert t[1..] == [("args", Array(args))];
    assert Get(t[1..], "args") == Some(Array(args));
  }

  /** An argument `$A`, where `A` holds `$B`, is appended as ` $B`. */
  lemma ArgumentAppended(cmd: string, a: string, b: string, lookup: string -> Option<string>)
    requires |a| == 1 && Text.IsAsciiLetter(a[0]) && |b| == 1 && Text.IsAsciiLetter(b[0])
    requires lookup(a) == Some("$" + b)
    ensures Assembled(cmd, [String("$" + a)], lookup) == cmd + " $" + b
  {
    ExpandedOne("$" + a, 0, a, "$" + b, lookup);
    assert [String("$" + a)][..0] == [];
    assert ("$" + b)[1] == b[0];
    assert !NeedsQuotes("$" + b);
  }

  /** A line of plain text, a space and a final reference `$B` expands to the text, the space and the value of `B`. */
  lemma ReferenceExpanded(cmd: string, b: string, x: string, lookup: string -> Option<string>)
    requires '$' !in cmd
    requires |b| == 1 && Text.IsAsciiLetter(b[0])
    requires lookup(b) == Some(x)
    ensures Scanner.Expanded(cmd + " $" + b, 0, lookup) == cmd + " " + x
  {
    var line := cmd + " $" + b;
    ExpandedOne(line, |cmd| + 1, b, x, lookup);
    assert forall k :: 0 <= k < |cmd| ==> line[k] == cmd[k];
    Scanner.ExpandedPlain(line, 0, |cmd| + 1, lookup);
    assert line[0..|cmd| + 1] == cmd + " ";
  }

  /** A text ending in `$` and a one-letter name expands, from the `$` on, to that name's value. */
  lemma ExpandedOne(s: string, k: nat, name: string, value: string, lookup: string -> Option<string>)
    requires |name| == 1 && Text.IsAsciiLetter(name[0]) && k + 2 == |s| && s[k..] == "$" + name
    requires lookup(name) == Some(value)
    ensures Scanner.Expanded(s, k, lookup) == value
  {
    assert s[k] == '$' && s[k + 1] == name[0];
    assert Scanner.WordEnd(s, k + 2) == k + 2;
    assert Scanner.SpanEnd(s, k) == k + 2;
    assert s[k..k + 2] == "$" + name;
    assert Scanner.NameOf(s[k..k + 2]) == name;
  }
}
