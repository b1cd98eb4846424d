/**
 * The newer external-command runner (src/external/runner.rs): every table
 * under `commands` with a string `run` is one command, its line
 * substituted from `vars` and then from the environment. `run_all` starts
 * every command, substituting each line once more, and only counts the
 * failures; `run_one` starts the named command and reports its failure.
 *
 * A variable is rendered as in src/external.rs (a string as itself, an
 * array's strings joined by spaces, anything else as TOML) and the lookup
 * is the same: `External.Lookup`. The environment is a parameter.
 */
module ExternalRunner {
  import opened Wrappers
  import opened Toml
  import Scanner
  import Processes
  import External

  /** What `extract` records for one command: its substituted line and whether it runs under `sudo`. */
  datatype CommandState = CommandState(run: string, sudo: bool)

  /** The `vars` table of the configuration, if it is a table. */
  function Vars(config: Value): Option<Entries>
  {
    match External.Field(config, "vars")
    case Some(Table(vars)) => Some(vars)
    case _ => None
  }

  /** The entries of the `commands` table: none when it is absent or not a table. */
  function CommandEntries(config: Value): Entries
  {
    match External.Field(config, "commands")
    case Some(Table(cmds)) => cmds
    case _ => []
  }

  /** The lookup both passes use: `vars` first, then the environment. */
  function LookupOf(config: Value, env: map<string, string>): string -> Option<string>
  {
    External.Lookup(Vars(config), env)
  }

  /** The state recorded for one command entry, if it is a table with a string `run`. */
  function StateOf(entry: Value, lookup: string -> Option<string>): (r: Option<CommandState>)
    ensures r.Some? <==> entry.Table? && External.Field(entry, "run").Some? && External.Field(entry, "run").value.String?
    ensures r.Some? ==> r.value.run == Scanner.Expanded(External.Field(entry, "run").value.s, 0, lookup)
    ensures r.Some? ==> (r.value.sudo <==> External.Field(entry, "sudo") == Some(Boolean(true)))
  {
    match External.Field(entry, "run")
    case Some(String(template)) =>
      var sudo := match External.Field(entry, "sudo") case Some(Boolean(b)) => b case _ => false;
      Some(CommandState(Scanner.Expanded(template, 0, lookup), sudo))
    case _ => None
  }

  /** The states recorded for the command entries, in the table's order. */
  function Extracted(entries: Entries, lookup: string -> Option<string>): (r: seq<CommandState>)
    ensures |r| <= |entries|
  {
    if |entries| == 0 then []
    else
      var last := entries[|entries| - 1].1;
      Extracted(entries[..|entries| - 1], lookup) + (if StateOf(last, lookup).Some? then [StateOf(last, lookup).value] else [])
  }

  /** `extract`: one state per command table with a string `run`; other entries are skipped. */
  method Extract(config: Value, env: map<string, string>) returns (out: seq<CommandState>)
    ensures out == Extracted(CommandEntries(config), LookupOf(config, env))
  {
    var cmds := CommandEntries(config);
    var lookup := LookupOf(config, env);
    out := [];
    var i := 0;
    while i < |cmds|
      invariant i <= |cmds|
      invariant out == Extracted(cmds[..i], lookup)
    {
      assert cmds[..i + 1][..i] == cmds[..i];
      var tbl := cmds[i].1;
      var run := External.Field(tbl, "run");
      if run.Some? && run.value.String? {
        var finalLine := Scanner.Substitute(run.value.s, lookup);
        var sudo := match External.Field(tbl, "sudo") case Some(Boolean(b)) => b case _ => false;
        out := out + [CommandState(finalLine, sudo)];
      }
      i := i + 1;
    }
    assert cmds[..|cmds|] == cmds;
  }

  /** A state is extracted exactly when some command entry yields it. */
  lemma {:induction false} ExtractedMembers(entries: Entries, lookup: string -> Option<string>, c: CommandState)
    ensures c in Extracted(entries, lookup) <==> exists i :: 0 <= i < |entries| && StateOf(entries[i].1, lookup) == Some(c)
  {
    if |entries| > 0 {
      var init := entries[..|entries| - 1];
      ExtractedMembers(init, lookup, c);
      if c in Extracted(entries, lookup) && c !in Extracted(init, lookup) {
        assert StateOf(entries[|entries| - 1].1, lookup) == Some(c);
      }
      if exists i :: 0 <= i < |entries| && StateOf(entries[i].1, lookup) == Some(c) {
        var i :| 0 <= i < |entries| && StateOf(entries[i].1, lookup) == Some(c);
        if i < |entries| - 1 {
          assert init[i] == entries[i];
        }
      }
    }
  }

  /** When every command entry is a table with a string `run`, there is one state per entry, in order. */
  lemma {:induction false} ExtractedAll(entries: Entries, lookup: string -> Option<string>)
    requires forall i :: 0 <= i < |entries| ==> StateOf(entries[i].1, lookup).Some?
    ensures |Extracted(entries, lookup)| == |entries|
    ensures forall i :: 0 <= i < |entries| ==> Extracted(entries, lookup)[i] == StateOf(entries[i].1, lookup).value
  {
    if |entries| > 0 {
      var init := entries[..|entries| - 1];
      assert forall i :: 0 <= i < |init| ==> init[i] == entries[i];
      ExtractedAll(init, lookup);
    }
  }

  /** The program `run_all` starts for a state: its line substituted a second time. */
  function TaskInvocation(state: CommandState, lookup: string -> Option<string>): Processes.Invocation
  {
    Processes.ShellInvocation(Scanner.Expanded(state.run, 0, lookup), state.sudo)
  }

  /** Whether the task for a state ends in an error: it cannot be started, or it exits with failure. */
  predicate TaskFails(state: CommandState, lookup: string -> Option<string>, dryRun: bool, spawns: bool,
                      succeeds: Processes.Invocation -> bool)
  {
    !dryRun && (!spawns || !succeeds(TaskInvocation(state, lookup)))
  }

  /** The programs the tasks start: none in a dry run or when nothing can be started. */
  function TasksStarted(states: seq<CommandState>, lookup: string -> Option<string>, dryRun: bool, spawns: bool)
    : seq<Processes.Invocation>
  {
    if |states| == 0 then []
    else
      TasksStarted(states[..|states| - 1], lookup, dryRun, spawns)
        + (if !dryRun && spawns then [TaskInvocation(states[|states| - 1], lookup)] else [])
  }

  /** The number of tasks that end in an error. */
  function Failures(states: seq<CommandState>, lookup: string -> Option<string>, dryRun: bool, spawns: bool,
                    succeeds: Processes.Invocation -> bool): (n: nat)
    ensures n <= |states|
  {
    if |states| == 0 then 0
    else
      Failures(states[..|states| - 1], lookup, dryRun, spawns, succeeds)
        + (if TaskFails(states[|states| - 1], lookup, dryRun, spawns, succeeds) then 1 else 0)
  }

  /** One task of `run_all`: substitutes the line again and starts it unless in a dry run; whether it failed. */
  method RunTask(state: CommandState, lookup: string -> Option<string>, dryRun: bool, shell: Processes.Shell)
    returns (failed: bool)
    modifies shell
    ensures failed == TaskFails(state, lookup, dryRun, shell.spawns, shell.succeeds)
    ensures shell.started == old(shell.started) + (if !dryRun && shell.spawns then [TaskInvocation(state, lookup)] else [])
  {
    var finalCmd := Scanner.Substitute(state.run, lookup);
    if dryRun {
      return false;
    }
    var ran := shell.Run(Processes.ShellInvocation(finalCmd, state.sudo));
    failed := ran.None? || !ran.value;
  }

  /**
   * `run_all`: every extracted command is run and its failure counted; the
   * result is `Ok` whatever the count.
   */
  method RunAll(config: Value, env: map<string, string>, dryRun: bool, shell: Processes.Shell)
    returns (r: Result<()>, failures: nat)
    modifies shell
    ensures var lookup := LookupOf(config, env);
      var states := Extracted(CommandEntries(config), lookup);
      && r == Ok(())
      && failures == Failures(states, lookup, dryRun, shell.spawns, shell.succeeds)
      && shell.started == old(shell.started) + TasksStarted(states, lookup, dryRun, shell.spawns)
  {
    var lookup := LookupOf(config, env);
    var cmds := Extract(config, env);
    ghost var started0 := shell.started;
    failures := 0;
    var i := 0;
    while i < |cmds|
      invariant i <= |cmds|
      invariant failures == Failures(cmds[..i], lookup, dryRun, shell.spawns, shell.succeeds)
      invariant shell.started == started0 + TasksStarted(cmds[..i], lookup, dryRun, shell.spawns)
    {
      failures := RunNext(cmds, i, lookup, dryRun, shell, failures, started0);
      i := i + 1;
    }
    assert cmds[..|cmds|] == cmds;
    r := Ok(());
  }

  /** One more task of `run_all`: it is run, its failure counted, and what it starts added to the rest. */
  method RunNext(cmds: seq<CommandState>, i: nat, lookup: string -> Option<string>, dryRun: bool, shell: Processes.Shell,
                 failures: nat, ghost started0: seq<Processes.Invocation>)
    returns (failures': nat)
    requires i < |cmds|
    requires failures == Failures(cmds[..i], lookup, dryRun, shell.spawns, shell.succeeds)
    requires shell.started == started0 + TasksStarted(cmds[..i], lookup, dryRun, shell.spawns)
    modifies shell
    ensures failures' == Failures(cmds[..i + 1], lookup, dryRun, shell.spawns, shell.succeeds)
    ensures shell.started == started0 + TasksStarted(cmds[..i + 1], lookup, dryRun, shell.spawns)
  {
    assert cmds[..i + 1][..i] == cmds[..i];
    var failed := RunTask(cmds[i], lookup, dryRun, shell);
    failures' := if failed then failures + 1 else failures;
  }

  /** A dry run starts nothing and counts no failure. */
  lemma {:induction false} DryRunQuiet(states: seq<CommandState>, lookup: string -> Option<string>, spawns: bool,
                                       succeeds: Processes.Invocation -> bool)
    ensures TasksStarted(states, lookup, true, spawns) == []
    ensures Failures(states, lookup, true, spawns, succeeds) == 0
  {
    if |states| > 0 {
      DryRunQuiet(states[..|states| - 1], lookup, spawns, succeeds);
    }
  }

  /** Outside a dry run, when programs can be started, every state's program is started, in order. */
  lemma {:induction false} AllStarted(states: seq<CommandState>, lookup: string -> Option<string>)
    ensures |TasksStarted(states, lookup, false, true)| == |states|
    ensures forall i :: 0 <= i < |states| ==> TasksStarted(states, lookup, false, true)[i] == TaskInvocation(states[i], lookup)
  {
    if |states| > 0 {
      AllStarted(states[..|states| - 1], lookup);
    }
  }

  /** No failure is counted exactly when it is a dry run, or every program starts and exits with success. */
  lemma {:induction false} NoFailures(states: seq<CommandState>, lookup: string -> Option<string>, dryRun: bool, spawns: bool,
                                      succeeds: Processes.Invocation -> bool)
    ensures Failures(states, lookup, dryRun, spawns, succeeds) == 0 <==>
      dryRun || |states| == 0 || (spawns && forall i :: 0 <= i < |states| ==> succeeds(TaskInvocation(states[i], lookup)))
  {
    if |states| > 0 {
      var init := states[..|states| - 1];
      NoFailures(init, lookup, dryRun, spawns, succeeds);
      assert forall i :: 0 <= i < |init| ==> init[i] == states[i];
    }
  }

  /** When no program can be started, every task fails (outside a dry run). */
  lemma {:induction false} NothingSpawns(states: seq<CommandState>, lookup: string -> Option<string>,
                                         succeeds: Processes.Invocation -> bool)
    ensures Failures(states, lookup, false, false, succeeds) == |states|
  {
    if |states| > 0 {
      NothingSpawns(states[..|states| - 1], lookup, succeeds);
    }
  }

  /** The program `run_one` starts for the named command, or why it starts none. */
  function OneInvocation(config: Value, which: string, lookup: string -> Option<string>): (r: Result<Processes.Invocation>)
    ensures r.Ok? <==> OneTable(config, which).Some? && External.Field(OneTable(config, which).value, "run").Some?
                       && External.Field(OneTable(config, which).value, "run").value.String?
    ensures r.Ok? ==> exists i :: 0 <= i < |CommandEntries(config)| && CommandEntries(config)[i].0 == which
  {
    match OneTable(config, which)
    case None => Err("no such command '" + which + "'")
    case Some(tbl) =>
      match External.Field(tbl, "run")
      case Some(String(template)) =>
        var sudo := match External.Field(tbl, "sudo") case Some(Boolean(b)) => b case _ => false;
        Ok(Processes.ShellInvocation(Scanner.Expanded(template, 0, lookup), sudo))
      case _ => Err("command '" + which + "': missing `run` field")
  }

  /** The table under `which` in `commands`, if `commands` is a table and that entry is one. */
  function OneTable(config: Value, which: string): (r: Option<Value>)
    ensures r.Some? ==> r.value.Table? && Get(CommandEntries(config), which) == r
  {
    match Get(CommandEntries(config), which)
    case Some(Table(e)) => Some(Table(e))
    case _ => None
  }

  /**
   * `run_one` runs the line `extract` records for the command, substituted
   * once, where `run_all` substitutes that line a second time.
   */
  lemma OneRunsExtracted(config: Value, which: string, lookup: string -> Option<string>)
    requires OneTable(config, which).Some?
    ensures var state := StateOf(OneTable(config, which).value, lookup);
      && (OneInvocation(config, which, lookup).Ok? <==> state.Some?)
      && (state.Some? ==> OneInvocation(config, which, lookup).value == Processes.ShellInvocation(state.value.run, state.value.sudo))
  {
  }

  /** `run_one`: the named command, substituted once and started unless in a dry run; `Err` when it fails. */
  method RunOne(config: Value, which: string, env: map<string, string>, dryRun: bool, shell: Processes.Shell)
    returns (r: Result<()>)
    modifies shell
    ensures var inv := OneInvocation(config, which, LookupOf(config, env));
      && (inv.Err? ==> r.Err? && shell.started == old(shell.started))
      && (inv.Ok? ==>
            && (r.Ok? <==> dryRun || (shell.spawns && shell.succeeds(inv.value)))
            && shell.started == old(shell.started) + (if !dryRun && shell.spawns then [inv.value] else []))
  {
    var lookup := LookupOf(config, env);
    var cmdTable := OneTable(config, which);
    if cmdTable.None? {
      return Err("no such command '" + which + "'");
    }
    var template := External.Field(cmdTable.value, "run");
    if !(template.Some? && template.value.String?) {
      return Err("command '" + which + "': missing `run` field");
    }
    var finalCmd := Scanner.Substitute(template.value.s, lookup);
    var sudo := match External.Field(cmdTable.value, "sudo") case Some(Boolean(b)) => b case _ => false;
    if dryRun {
      return Ok(());
    }
    var ran := shell.Run(Processes.ShellInvocation(finalCmd, sudo));
    if ran.None? {
      return Err("failed to start the shell");
    }
    r := if ran.value then Ok(()) else Err("cmd failed");
  }
  /**
   * For any command table whose `run` is `$A`, where `A` holds `$B` and
   * `B` holds `x`: the command is recorded as `$B`, `run_all` then starts
   * `sh -c x`, while `run_one` starts `sh -c $B`.
   */
  lemma SubstitutedTwiceByRunAll(config: Value, which: string, a: string, b: string, x: string,
                                 lookup: string -> Option<string>)
    requires OneTable(config, which).Some?
    requires External.Field(OneTable(config, which).value, "run") == Some(String("$" + a))
    requires External.Field(OneTable(config, which).value, "sudo").None?
    requires |a| == 1 && Text.IsAsciiLetter(a[0]) && |b| == 1 && Text.IsAsciiLetter(b[0])
    requires lookup(a) == Some("$" + b) && lookup(b) == Some(x)
    ensures StateOf(OneTable(config, which).value, lookup) == Some(CommandState("$" + b, false))
    ensures TaskInvocation(CommandState("$" + b, false), lookup) == Processes.Invocation("sh", ["-c", x])
    ensures OneInvocation(config, which, lookup) == Ok(Processes.Invocation("sh", ["-c", "$" + b]))
  {
    External.ExpandedOne("$" + a, 0, a, "$" + b, lookup);
    External.ExpandedOne("$" + b, 0, b, x, lookup);
  }
}
