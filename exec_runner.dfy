/**
 * The second copy of the command runner (src/exec/runner.rs). Extraction,
 * filtering, ordering and counting are those of src/exec/core.rs; the
 * substitution is the two-pass index scanner (`Scanner`), and a reference
 * that resolves to nothing is kept as it was written instead of being
 * rewritten as `${NAME}`. The job filter, `all_bins_present`,
 * `execute_command` and the counting loops read the same in both files
 * and are those of `ExecCore`.
 */
module ExecRunner {
  import opened Wrappers
  import Scanner
  import Text
  import Processes
  import ExecCore

  type ExecJob = ExecCore.ExecJob
  type ExecConfig = ExecCore.ExecConfig

  /** How a name is looked up: `[vars]` first, then the environment. */
  function Lookup(vars: Option<map<string, string>>, env: ExecCore.Env): string -> Option<string>
  {
    (name: string) => if vars.Some? && name in vars.value then Some(vars.value[name]) else env(name)
  }

  /** The result of `substitute`: every span replaced by its looked-up value, or kept. */
  function Substitution(text: string, vars: Option<map<string, string>>, env: ExecCore.Env): string
  {
    Scanner.Expanded(text, 0, Lookup(vars, env))
  }

  /** `substitute`: the scanner, with this file's lookup. */
  method Substitute(text: string, vars: Option<map<string, string>>, env: ExecCore.Env) returns (result: string)
    ensures result == Substitution(text, vars, env)
  {
    result := Scanner.Substitute(text, Lookup(vars, env));
  }

  /**
   * With nothing to resolve it, `$NAME` stays `$NAME` here, where
   * src/exec/core.rs turns it into `${NAME}`.
   */
  lemma UnresolvedDiffers(name: string, vars: Option<map<string, string>>, env: ExecCore.Env)
    requires ExecCore.IsName(name)
    requires !(vars.Some? && name in vars.value) && env(name).None?
    ensures Substitution("$" + name, vars, env) == "$" + name
    ensures ExecCore.Substitute("$" + name, vars, env) == "${" + name + "}"
  {
    var s := "$" + name;
    assert s[1] == name[0];
    ExecCore.WordAll(s, 1, |s|);
    assert s[1..] == name;
    assert s[0..|s|] == s;
    assert Scanner.SpanEnd(s, 0) == |s|;
    assert !Text.StartsWith(s, "${");
    assert Scanner.NameOf(s) == name;
    assert Scanner.Resolved(s, Lookup(vars, env)) == s;
    assert Scanner.Expanded(s, |s|, Lookup(vars, env)) == "";
    assert Scanner.Expanded(s, 0, Lookup(vars, env)) == Scanner.Resolved(s[0..|s|], Lookup(vars, env)) + "";
    ExecCore.ReferenceReplaced(name, "", vars, env);
    assert s + "" == s;
  }

  /**
   * `extract_cmd`: as in src/exec/core.rs, with this file's substitution
   * of the line.
   */
  function ExtractCmd(config: ExecConfig, name: string, env: ExecCore.Env): (r: Result<ExecJob>)
    ensures r.Ok? <==> config.command.Some? && name in config.command.value
    ensures r.Ok? ==> var c := config.command.value[name];
      && r.value.name == name
      && r.value.run == Substitution(c.run, config.vars, env)
      && (r.value.sudo <==> c.sudo == Some(true))
      && (r.value.flag <==> c.flag == Some(true))
      && (r.value.ensureFirst <==> c.ensureFirst == Some(true))
      && r.value.required == (if c.required.Some? then c.required.value else [])
  {
    if config.command.None? then Err("no command exists")
    else if name !in config.command.value then Err("no such command " + name)
    else
      var c := config.command.value[name];
      Ok(ExecCore.ExecJob(name, Substitution(c.run, config.vars, env), c.sudo.GetOr(false), c.ensureFirst.GetOr(false),
                          c.flag.GetOr(false), if c.required.Some? then c.required.value else []))
  }

  /** The jobs of the commands named in `order`, in that order. */
  function Jobs(config: ExecConfig, order: seq<string>, env: ExecCore.Env): (r: seq<ExecJob>)
    requires config.command.Some? && forall n :: n in order ==> n in config.command.value
    ensures |r| == |order|
    ensures forall i :: 0 <= i < |order| ==> r[i] == ExtractCmd(config, order[i], env).value
  {
    if |order| == 0 then []
    else Jobs(config, order[..|order| - 1], env) + [ExtractCmd(config, order[|order| - 1], env).value]
  }

  /** `extract_all_cmds`: one job per command table, in the map's order. */
  method ExtractAllCmds(config: ExecConfig, env: ExecCore.Env) returns (jobs: seq<ExecJob>, ghost order: seq<string>)
    ensures config.command.None? ==> jobs == []
    ensures config.command.Some? ==> ExecCore.Lists(order, config.command.value) && jobs == Jobs(config, order, env)
  {
    jobs, order := [], [];
    if config.command.None? {
      return;
    }
    var names := ExecCore.Order(config.command.value);
    order := names;
    var i := 0;
    while i < |names|
      invariant i <= |names|
      invariant jobs == Jobs(config, names[..i], env)
    {
      assert names[..i + 1][..i] == names[..i];
      var c := config.command.value[names[i]];
      var line := Substitute(c.run, config.vars, env);
      var job := ExecCore.ExecJob(names[i], line, c.sudo.GetOr(false), c.ensureFirst.GetOr(false),
                                  c.flag.GetOr(false), if c.required.Some? then c.required.value else []);
      jobs := jobs + [job];
      i := i + 1;
    }
    assert names[..|names|] == names;
  }

  /** `run_all`: the jobs the mode and the binaries allow, `ensure_first` ones first; the number of successes. */
  method RunAll(config: ExecConfig, mode: ExecCore.ExecMode, env: ExecCore.Env, path: set<string>, dryRun: bool,
                shell: Processes.Shell)
    returns (r: nat, ghost order: seq<string>)
    modifies shell
    ensures config.command.None? ==> r == 0 && shell.started == old(shell.started)
    ensures config.command.Some? ==>
      && ExecCore.Lists(order, config.command.value)
      && var jobs := Jobs(config, order, env);
         var first := ExecCore.Partition(jobs, mode, path, true);
         var regular := ExecCore.Partition(jobs, mode, path, false);
         && r == ExecCore.Successes(first + regular, dryRun, shell.spawns, shell.succeeds)
         && shell.started == old(shell.started) + ExecCore.Started(first, dryRun, shell.spawns)
                                                + ExecCore.Started(regular, dryRun, shell.spawns)
  {
    var jobs;
    jobs, order := ExtractAllCmds(config, env);
    var first, regular := ExecCore.Split(jobs, mode, path);
    var s1, f1 := ExecCore.RunJobs(first, dryRun, shell);
    var s2, f2 := ExecCore.RunJobs(regular, dryRun, shell);
    ExecCore.SuccessesAppend(first, regular, dryRun, shell.spawns, shell.succeeds);
    r := s1 + s2;
  }

  /** `run_one`: the named job, unless it does not exist or a binary it needs is missing. */
  method RunOne(config: ExecConfig, name: string, env: ExecCore.Env, path: set<string>, dryRun: bool, shell: Processes.Shell)
    returns (r: Result<()>)
    modifies shell
    ensures ExtractCmd(config, name, env).Err? ==> r.Err? && shell.started == old(shell.started)
    ensures ExtractCmd(config, name, env).Ok? ==>
      var job := ExtractCmd(config, name, env).value;
      if !ExecCore.AllPresent(job.required, path) then r.Err? && shell.started == old(shell.started)
      else
        && (r.Ok? <==> ExecCore.Succeeds(job, dryRun, shell.spawns, shell.succeeds))
        && shell.started == old(shell.started) + ExecCore.Started([job], dryRun, shell.spawns)
  {
    if config.command.None? {
      return Err("no command exists");
    }
    if name !in config.command.value {
      return Err("no such command " + name);
    }
    var c := config.command.value[name];
    var line := Substitute(c.run, config.vars, env);
    var job := ExecCore.ExecJob(name, line, c.sudo.GetOr(false), c.ensureFirst.GetOr(false),
                                c.flag.GetOr(false), if c.required.Some? then c.required.value else []);
    var present := ExecCore.AllBinsPresent(job.required, path);
    if !present {
      return Err("Cannot execute command due to missing binaries.");
    }
    r := ExecCore.ExecuteCommand(job, dryRun, shell);
  }
}
