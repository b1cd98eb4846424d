/**
 * The command runner of src/exec/core.rs: the `[command.<name>]` tables of
 * the configuration become jobs, `$NAME` and `${NAME}` in a job's line are
 * replaced by a regular expression, and `run_all` runs the jobs the mode
 * and the binaries on the path allow, the `ensure_first` ones before the
 * others, counting successes and failures.
 *
 * The environment, the directories of `$PATH` and the dry-run switch are
 * parameters; the shell is the one of src/exec/runner.rs and
 * src/external.rs (`Processes.Shell`).
 */
module ExecCore {
  import opened Wrappers
  import Text
  import Scanner
  import Processes

  // ---- the configuration ----

  /** A `[command.<name>]` table. */
  datatype CommandSpec = CommandSpec(
    run: string,
    ensureFirst: Option<bool>,
    required: Option<seq<string>>,
    flag: Option<bool>,
    sudo: Option<bool>)

  /** The parts of the configuration the runner reads: `[vars]` and the command tables. */
  datatype ExecConfig = ExecConfig(vars: Option<map<string, string>>, command: Option<map<string, CommandSpec>>)

  /** `ExecJob`: a command ready to run. */
  datatype ExecJob = ExecJob(name: string, run: string, sudo: bool, ensureFirst: bool, flag: bool, required: seq<string>)

  /** Which jobs `run_all` runs: the unflagged ones, all, or the flagged ones. */
  datatype ExecMode = Regular | All | Flagged

  /** What `std::env::var` gives for a name. */
  type Env = string -> Option<string>

  // ---- substitution ----

  /** `[A-Za-z_]`: what may start a name. */
  predicate IsNameStart(c: char)
  {
    Text.IsAsciiLetter(c) || c == '_'
  }

  /** `[A-Za-z_][A-Za-z0-9_]*` */
  predicate IsName(n: string)
  {
    |n| > 0 && IsNameStart(n[0]) && forall k :: 0 <= k < |n| ==> Scanner.IsNameChar(n[k])
  }

  /** Every character between `i` and the end of the run of name characters is one. */
  lemma {:induction false} WordChars(s: string, i: nat)
    requires i <= |s|
    ensures forall k :: i <= k < Scanner.WordEnd(s, i) ==> Scanner.IsNameChar(s[k])
    decreases |s| - i
  {
    if i < |s| && Scanner.IsNameChar(s[i]) {
      WordChars(s, i + 1);
    }
  }

  /**
   * What the pattern `\$([A-Za-z_][A-Za-z0-9_]*)|\$\{([A-Za-z_][A-Za-z0-9_]*)\}`
   * matches at the start of `s`, if anything: the bounds `(a, b)` of the
   * name and the end `e` of the match. The first alternative is tried
   * first and takes as many name characters as there are; the second
   * needs the `}` right after the name.
   */
  function MatchAt(s: string): (r: Option<(nat, nat, nat)>)
    requires |s| > 0
    ensures r.Some? ==> s[0] == '$' && 1 <= r.value.0 < r.value.1 <= r.value.2 <= |s|
    ensures r.Some? ==> IsName(s[r.value.0..r.value.1])
    ensures r.Some? ==> r.value.2 == r.value.1 || (r.value.2 == r.value.1 + 1 && s[r.value.1] == '}')
  {
    if s[0] != '$' || |s| == 1 then None
    else if IsNameStart(s[1]) then
      var b := Scanner.WordEnd(s, 2);
      WordChars(s, 2);
      Some((1, b, b))
    else if s[1] == '{' && |s| > 2 && IsNameStart(s[2]) then
      var b := Scanner.WordEnd(s, 3);
      WordChars(s, 3);
      if b < |s| && s[b] == '}' then Some((2, b, b + 1)) else None
    else None
  }

  /** The value of a variable: `[vars]` first, then the environment, else the reference written `${NAME}`. */
  function Resolve(vars: Option<map<string, string>>, env: Env, name: string): (r: string)
    ensures vars.Some? && name in vars.value ==> r == vars.value[name]
    ensures !(vars.Some? && name in vars.value) && env(name).Some? ==> r == env(name).value
    ensures !(vars.Some? && name in vars.value) && env(name).None? ==> r == "${" + name + "}"
  {
    if vars.Some? && name in vars.value then vars.value[name]
    else if env(name).Some? then env(name).value
    else "${" + name + "}"
  }

  /**
   * `substitute`: `Regex::replace_all`, read from left to right. Matches
   * do not overlap and a replacement is never scanned again; every
   * character outside a match, a `$` that starts none included, is kept.
   */
  function Substitute(s: string, vars: Option<map<string, string>>, env: Env): string
    decreases |s|
  {
    if |s| == 0 then ""
    else
      match MatchAt(s)
      case Some((a, b, e)) => Resolve(vars, env, s[a..b]) + Substitute(s[e..], vars, env)
      case None => [s[0]] + Substitute(s[1..], vars, env)
  }

  /** Text without `$` in front of the rest is copied as it is. */
  lemma {:induction false} PlainCopied(plain: string, rest: string, vars: Option<map<string, string>>, env: Env)
    requires Scanner.NoDollar(plain, 0, |plain|)
    ensures Substitute(plain + rest, vars, env) == plain + Substitute(rest, vars, env)
  {
    if |plain| > 0 {
      var tail := plain[1..];
      var sub := Substitute(rest, vars, env);
      NoDollarTail(plain);
      calc {
        Substitute(plain + rest, vars, env);
        { FirstCopied(plain + rest, vars, env); }
        [plain[0]] + Substitute((plain + rest)[1..], vars, env);
        { assert (plain + rest)[1..] == tail + rest; }
        [plain[0]] + Substitute(tail + rest, vars, env);
        { PlainCopied(tail, rest, vars, env); }
        [plain[0]] + (tail + sub);
        { assert [plain[0]] + (tail + sub) == ([plain[0]] + tail) + sub; assert [plain[0]] + tail == plain; }
        plain + sub;
      }
    } else {
      assert plain + rest == rest;
    }
  }

  /** The text after the first character of a text without `$` has none either. */
  lemma NoDollarTail(plain: string)
    requires |plain| > 0 && Scanner.NoDollar(plain, 0, |plain|)
    ensures Scanner.NoDollar(plain[1..], 0, |plain| - 1)
  {
    forall k | 0 <= k < |plain| - 1 ensures plain[1..][k] != '$' {
      assert plain[1..][k] == plain[k + 1];
    }
  }

  /** A first character other than `$` is copied, and the rest substituted on its own. */
  lemma FirstCopied(s: string, vars: Option<map<string, string>>, env: Env)
    requires |s| > 0 && s[0] != '$'
    ensures Substitute(s, vars, env) == [s[0]] + Substitute(s[1..], vars, env)
  {
    assert MatchAt(s).None?;
  }

  /** A text without `$` comes back unchanged. */
  lemma PlainKept(s: string, vars: Option<map<string, string>>, env: Env)
    requires Scanner.NoDollar(s, 0, |s|)
    ensures Substitute(s, vars, env) == s
  {
    PlainCopied(s, "", vars, env);
    assert s + "" == s;
  }

  /** A `$` that starts neither form is kept, and the text after it is substituted on its own. */
  lemma LoneDollarKept(rest: string, vars: Option<map<string, string>>, env: Env)
    requires |rest| == 0 || (!IsNameStart(rest[0]) && rest[0] != '{')
    ensures Substitute("$" + rest, vars, env) == "$" + Substitute(rest, vars, env)
  {
    assert ("$" + rest)[1..] == rest;
  }

  /**
   * `$NAME` becomes the variable's value, whatever that value holds: a `$`
   * in it is not substituted again.
   */
  lemma ReferenceReplaced(name: string, rest: string, vars: Option<map<string, string>>, env: Env)
    requires IsName(name)
    requires |rest| == 0 || !Scanner.IsNameChar(rest[0])
    ensures Substitute("$" + name + rest, vars, env) == Resolve(vars, env, name) + Substitute(rest, vars, env)
  {
    var s := "$" + name + rest;
    WordAll(s, 2, |name| + 1);
    assert s[1..|name| + 1] == name;
    assert s[|name| + 1..] == rest;
  }

  /** `${NAME}` becomes the variable's value in the same way. */
  lemma BracedReplaced(name: string, rest: string, vars: Option<map<string, string>>, env: Env)
    requires IsName(name)
    ensures Substitute("${" + name + "}" + rest, vars, env) == Resolve(vars, env, name) + Substitute(rest, vars, env)
  {
    var t := "${" + name + "}" + rest;
    var b: nat := |name| + 2;
    assert t[0] == '$' && t[1] == '{' && t[2] == name[0];
    assert forall j :: 3 <= j < b ==> t[j] == name[j - 2];
    assert t[b] == '}';
    WordAll(t, 3, b);
    assert t[2..b] == name;
    var e: nat := b + 1;
    assert MatchAt(t) == Some((2, b, e));
    assert t[b + 1..] == rest;
  }

  /** A run of name characters from `i` to `k`, followed by something else, ends at `k`. */
  lemma {:induction false} WordAll(s: string, i: nat, k: nat)
    requires i <= k <= |s|
    requires forall j :: i <= j < k ==> Scanner.IsNameChar(s[j])
    requires k == |s| || !Scanner.IsNameChar(s[k])
    ensures Scanner.WordEnd(s, i) == k
    decreases k - i
  {
    if i < k {
      WordAll(s, i + 1, k);
    }
  }

  // ---- extracting jobs ----

  /**
   * `extract_cmd`: the job named `name`, with its line substituted; an
   * error when there are no command tables or none of that name. `sudo`,
   * `flag` and `ensure_first` default to false, `required` to nothing.
   */
  function ExtractCmd(config: ExecConfig, name: string, env: Env): (r: Result<ExecJob>)
    ensures r.Ok? <==> config.command.Some? && name in config.command.value
    ensures r.Ok? ==> var c := config.command.value[name];
      && r.value.name == name
      && r.value.run == Substitute(c.run, config.vars, env)
      && (r.value.sudo <==> c.sudo == Some(true))
      && (r.value.flag <==> c.flag == Some(true))
      && (r.value.ensureFirst <==> c.ensureFirst == Some(true))
      && r.value.required == (if c.required.Some? then c.required.value else [])
  {
    if config.command.None? then Err("no command exists")
    else if name !in config.command.value then Err("no such command " + name)
    else
      var c := config.command.value[name];
      Ok(ExecJob(name, Substitute(c.run, config.vars, env), c.sudo.GetOr(false), c.ensureFirst.GetOr(false),
                 c.flag.GetOr(false), if c.required.Some? then c.required.value else []))
  }

  /** The names of a map, each once, in the (unspecified) iteration order of a `HashMap`. */
  ghost predicate Lists<V>(order: seq<string>, m: map<string, V>)
  {
    |order| == |m| && forall n :: n in order <==> n in m
  }

  /** Picks the names one by one, as a `HashMap` iterates them. */
  method Order<V>(m: map<string, V>) returns (order: seq<string>)
    ensures Lists(order, m)
  {
    order := [];
    var rest := m.Keys;
    while rest != {}
      invariant rest <= m.Keys
      invariant |order| + |rest| == |m|
      invariant forall n :: n in order <==> n in m && n !in rest
      decreases |rest|
    {
      var n :| n in rest;
      order := order + [n];
      rest := rest - {n};
    }
  }

  /** The jobs of the commands named in `order`, in that order. */
  function Jobs(config: ExecConfig, order: seq<string>, env: Env): (r: seq<ExecJob>)
    requires config.command.Some? && forall n :: n in order ==> n in config.command.value
    ensures |r| == |order|
    ensures forall i :: 0 <= i < |order| ==> r[i] == ExtractCmd(config, order[i], env).value
  {
    if |order| == 0 then []
    else Jobs(config, order[..|order| - 1], env) + [ExtractCmd(config, order[|order| - 1], env).value]
  }

  /** `extract_all_cmds`: one job per command table, in the map's order; none without command tables. */
  method ExtractAllCmds(config: ExecConfig, env: Env) returns (jobs: seq<ExecJob>, ghost order: seq<string>)
    ensures config.command.None? ==> jobs == []
    ensures config.command.Some? ==> Lists(order, config.command.value) && jobs == Jobs(config, order, env)
  {
    jobs, order := [], [];
    if config.command.None? {
      return;
    }
    var names := Order(config.command.value);
    order := names;
    var i := 0;
    while i < |names|
      invariant i <= |names|
      invariant jobs == Jobs(config, names[..i], env)
    {
      assert names[..i + 1][..i] == names[..i];
      var job := ExtractCmd(config, names[i], env);
      if job.Ok? {
        jobs := jobs + [job.value];
      }
      i := i + 1;
    }
    assert names[..|names|] == names;
  }

  // ---- running ----

  /** Whether every required binary is on the path. */
  predicate AllPresent(required: seq<string>, path: set<string>)
  {
    forall k :: 0 <= k < |required| ==> required[k] in path
  }

  /** `all_bins_present`: looks every binary up (warning about each missing one). */
  method AllBinsPresent(required: seq<string>, path: set<string>) returns (present: bool)
    ensures present <==> AllPresent(required, path)
    ensures |required| == 0 ==> present
  {
    present := true;
    var i := 0;
    while i < |required|
      invariant i <= |required|
      invariant present <==> forall k :: 0 <= k < i ==> required[k] in path
    {
      if required[i] !in path {
        present := false;
      }
      i := i + 1;
    }
  }

  /** Whether `run_all` keeps a job: its binaries are there and the mode admits its flag. */
  predicate Kept(job: ExecJob, mode: ExecMode, path: set<string>)
  {
    && AllPresent(job.required, path)
    && !(mode == Regular && job.flag)
    && !(mode == Flagged && !job.flag)
  }

  /** The kept jobs of one kind (`ensure_first` or not), in order. */
  function Partition(jobs: seq<ExecJob>, mode: ExecMode, path: set<string>, first: bool): seq<ExecJob>
  {
    if |jobs| == 0 then []
    else
      var j := jobs[|jobs| - 1];
      Partition(jobs[..|jobs| - 1], mode, path, first) + (if Kept(j, mode, path) && j.ensureFirst == first then [j] else [])
  }

  /** A job lands in the part of its kind exactly when it is kept. */
  lemma {:induction false} PartitionMembers(jobs: seq<ExecJob>, mode: ExecMode, path: set<string>, first: bool, j: ExecJob)
    ensures j in Partition(jobs, mode, path, first) <==> j in jobs && Kept(j, mode, path) && j.ensureFirst == first
  {
    if |jobs| > 0 {
      PartitionMembers(jobs[..|jobs| - 1], mode, path, first, j);
      assert jobs == jobs[..|jobs| - 1] + [jobs[|jobs| - 1]];
    }
  }

  /** The number of kept jobs. */
  function CountKept(jobs: seq<ExecJob>, mode: ExecMode, path: set<string>): nat
  {
    if |jobs| == 0 then 0
    else CountKept(jobs[..|jobs| - 1], mode, path) + (if Kept(jobs[|jobs| - 1], mode, path) then 1 else 0)
  }

  /** The two kinds together hold every kept job once. */
  lemma {:induction false} PartitionCounts(jobs: seq<ExecJob>, mode: ExecMode, path: set<string>)
    ensures |Partition(jobs, mode, path, true)| + |Partition(jobs, mode, path, false)| == CountKept(jobs, mode, path)
  {
    if |jobs| > 0 {
      PartitionCounts(jobs[..|jobs| - 1], mode, path);
    }
  }

  /** The filtering loop of `run_all`. */
  method Split(jobs: seq<ExecJob>, mode: ExecMode, path: set<string>) returns (first: seq<ExecJob>, regular: seq<ExecJob>)
    ensures first == Partition(jobs, mode, path, true)
    ensures regular == Partition(jobs, mode, path, false)
  {
    first, regular := [], [];
    var i := 0;
    while i < |jobs|
      invariant i <= |jobs|
      invariant first == Partition(jobs[..i], mode, path, true)
      invariant regular == Partition(jobs[..i], mode, path, false)
    {
      assert jobs[..i + 1][..i] == jobs[..i];
      var job := jobs[i];
      var present := AllBinsPresent(job.required, path);
      if !present || (mode == Regular && job.flag) || (mode == Flagged && !job.flag) {
      } else if job.ensureFirst {
        first := first + [job];
      } else {
        regular := regular + [job];
      }
      i := i + 1;
    }
    assert jobs[..|jobs|] == jobs;
  }

  /** What a job starts: `sh -c <run>`, or `sudo sh -c <run>`. */
  function Invocation(job: ExecJob): Processes.Invocation
  {
    Processes.ShellInvocation(job.run, job.sudo)
  }

  /** Whether a job counts as a success: in a dry run always, else when it starts and exits with success. */
  predicate Succeeds(job: ExecJob, dryRun: bool, spawns: bool, succeeds: Processes.Invocation -> bool)
  {
    dryRun || (spawns && succeeds(Invocation(job)))
  }

  /** The programs the jobs start, in order: none in a dry run or when nothing can be started. */
  function Started(jobs: seq<ExecJob>, dryRun: bool, spawns: bool): seq<Processes.Invocation>
  {
    if |jobs| == 0 || dryRun || !spawns then []
    else Started(jobs[..|jobs| - 1], dryRun, spawns) + [Invocation(jobs[|jobs| - 1])]
  }

  /** Outside a dry run, each job starts its shell line, in order; a dry run starts nothing. */
  lemma {:induction false} StartedLines(jobs: seq<ExecJob>, dryRun: bool, spawns: bool)
    ensures dryRun || !spawns ==> Started(jobs, dryRun, spawns) == []
    ensures !dryRun && spawns ==> var r := Started(jobs, dryRun, spawns);
      |r| == |jobs| && forall i :: 0 <= i < |jobs| ==> r[i] == Invocation(jobs[i])
  {
    if |jobs| > 0 {
      StartedLines(jobs[..|jobs| - 1], dryRun, spawns);
    }
  }

  lemma {:induction false} StartedAppend(a: seq<ExecJob>, b: seq<ExecJob>, dryRun: bool, spawns: bool)
    ensures Started(a + b, dryRun, spawns) == Started(a, dryRun, spawns) + Started(b, dryRun, spawns)
  {
    if |b| > 0 && !dryRun && spawns {
      assert (a + b)[..|a + b| - 1] == a + b[..|b| - 1];
      StartedAppend(a, b[..|b| - 1], dryRun, spawns);
    } else if |b| == 0 {
      assert a + b == a;
    }
  }

  /** The number of jobs that succeed. */
  function Successes(jobs: seq<ExecJob>, dryRun: bool, spawns: bool, succeeds: Processes.Invocation -> bool): nat
  {
    if |jobs| == 0 then 0
    else Successes(jobs[..|jobs| - 1], dryRun, spawns, succeeds) + (if Succeeds(jobs[|jobs| - 1], dryRun, spawns, succeeds) then 1 else 0)
  }

  /** At most every job succeeds, and in a dry run every one does. */
  lemma {:induction false} SuccessesBounded(jobs: seq<ExecJob>, dryRun: bool, spawns: bool, succeeds: Processes.Invocation -> bool)
    ensures Successes(jobs, dryRun, spawns, succeeds) <= |jobs|
    ensures dryRun ==> Successes(jobs, dryRun, spawns, succeeds) == |jobs|
  {
    if |jobs| > 0 {
      SuccessesBounded(jobs[..|jobs| - 1], dryRun, spawns, succeeds);
    }
  }

  lemma {:induction false} SuccessesAppend(a: seq<ExecJob>, b: seq<ExecJob>, dryRun: bool, spawns: bool, succeeds: Processes.Invocation -> bool)
    ensures Successes(a + b, dryRun, spawns, succeeds) == Successes(a, dryRun, spawns, succeeds) + Successes(b, dryRun, spawns, succeeds)
  {
    if |b| > 0 {
      assert (a + b)[..|a + b| - 1] == a + b[..|b| - 1];
      SuccessesAppend(a, b[..|b| - 1], dryRun, spawns, succeeds);
    } else {
      assert a + b == a;
    }
  }

  /** `execute_command`: a dry run starts nothing and succeeds; otherwise the job's shell line runs. */
  method ExecuteCommand(job: ExecJob, dryRun: bool, shell: Processes.Shell) returns (r: Result<()>)
    modifies shell
    ensures r.Ok? <==> Succeeds(job, dryRun, shell.spawns, shell.succeeds)
    ensures shell.started == old(shell.started) + Started([job], dryRun, shell.spawns)
  {
    if dryRun {
      return Ok(());
    }
    var status := shell.Run(Invocation(job));
    if status.None? {
      return Err("the shell could not be started");
    }
    if !status.value {
      return Err("Command " + job.name + " failed to execute.");
    }
    return Ok(());
  }

  /** Runs the jobs one after the other, counting successes and failures; a failure does not stop the rest. */
  method RunJobs(jobs: seq<ExecJob>, dryRun: bool, shell: Processes.Shell) returns (successes: nat, failures: nat)
    modifies shell
    ensures successes == Successes(jobs, dryRun, shell.spawns, shell.succeeds)
    ensures successes + failures == |jobs|
    ensures shell.started == old(shell.started) + Started(jobs, dryRun, shell.spawns)
  {
    successes, failures := 0, 0;
    var i := 0;
    while i < |jobs|
      invariant i <= |jobs|
      invariant successes == Successes(jobs[..i], dryRun, shell.spawns, shell.succeeds)
      invariant successes + failures == i
      invariant shell.started == old(shell.started) + Started(jobs[..i], dryRun, shell.spawns)
    {
      StartedAppend(jobs[..i], [jobs[i]], dryRun, shell.spawns);
      assert jobs[..i] + [jobs[i]] == jobs[..i + 1];
      successes, failures := RunNext(jobs, i, dryRun, shell, successes, failures);
      i := i + 1;
    }
    assert jobs[..|jobs|] == jobs;
  }

  /** One more job of `RunJobs`: it is run and counted, and what it starts is added to the rest. */
  method RunNext(jobs: seq<ExecJob>, i: nat, dryRun: bool, shell: Processes.Shell, successes: nat, failures: nat)
    returns (successes': nat, failures': nat)
    requires i < |jobs|
    requires successes == Successes(jobs[..i], dryRun, shell.spawns, shell.succeeds)
    modifies shell
    ensures successes' == Successes(jobs[..i + 1], dryRun, shell.spawns, shell.succeeds)
    ensures successes' + failures' == successes + failures + 1
    ensures shell.started == old(shell.started) + Started([jobs[i]], dryRun, shell.spawns)
  {
    assert jobs[..i + 1][..i] == jobs[..i];
    var r := ExecuteCommand(jobs[i], dryRun, shell);
    if r.Err? {
      successes', failures' := successes, failures + 1;
    } else {
      successes', failures' := successes + 1, failures;
    }
  }

  /**
   * `run_all`: extracts the jobs (in the order handed back), keeps those
   * the binaries and the mode allow, runs the `ensure_first` ones and then
   * the others, and returns the number of successes.
   */
  method RunAll(config: ExecConfig, mode: ExecMode, env: Env, path: set<string>, dryRun: bool, shell: Processes.Shell)
    returns (r: nat, ghost order: seq<string>)
    modifies shell
    ensures config.command.None? ==> r == 0 && shell.started == old(shell.started)
    ensures config.command.Some? ==>
      && Lists(order, config.command.value)
      && var jobs := Jobs(config, order, env);
         var first := Partition(jobs, mode, path, true);
         var regular := Partition(jobs, mode, path, false);
         && r == Successes(first + regular, dryRun, shell.spawns, shell.succeeds)
         && shell.started == old(shell.started) + Started(first, dryRun, shell.spawns) + Started(regular, dryRun, shell.spawns)
  {
    var jobs;
    jobs, order := ExtractAllCmds(config, env);
    var first, regular := Split(jobs, mode, path);
    var s1, f1 := RunJobs(first, dryRun, shell);
    var s2, f2 := RunJobs(regular, dryRun, shell);
    SuccessesAppend(first, regular, dryRun, shell.spawns, shell.succeeds);
    r := s1 + s2;
  }

  /** Every kept job is run, and counted either as a success or as a failure. */
  lemma RunAllCounts(jobs: seq<ExecJob>, mode: ExecMode, path: set<string>, dryRun: bool, spawns: bool,
                     succeeds: Processes.Invocation -> bool)
    ensures var all := Partition(jobs, mode, path, true) + Partition(jobs, mode, path, false);
      && |all| == CountKept(jobs, mode, path)
      && Successes(all, dryRun, spawns, succeeds) <= CountKept(jobs, mode, path)
      && (dryRun ==> Successes(all, dryRun, spawns, succeeds) == CountKept(jobs, mode, path))
  {
    PartitionCounts(jobs, mode, path);
    SuccessesBounded(Partition(jobs, mode, path, true) + Partition(jobs, mode, path, false), dryRun, spawns, succeeds);
  }

  /** In mode `All` every job whose binaries are there is run, flagged or not. */
  lemma AllModeKeeps(job: ExecJob, path: set<string>)
    ensures Kept(job, All, path) <==> AllPresent(job.required, path)
  {
  }

  /** `run_one`: the named job, unless it does not exist or a binary it needs is missing. */
  method RunOne(config: ExecConfig, name: string, env: Env, path: set<string>, dryRun: bool, shell: Processes.Shell)
    returns (r: Result<()>)
    modifies shell
    ensures ExtractCmd(config, name, env).Err? ==> r.Err? && shell.started == old(shell.started)
    ensures ExtractCmd(config, name, env).Ok? ==>
      var job := ExtractCmd(config, name, env).value;
      if !AllPresent(job.required, path) then r.Err? && shell.started == old(shell.started)
      else
        && (r.Ok? <==> Succeeds(job, dryRun, shell.spawns, shell.succeeds))
        && shell.started == old(shell.started) + Started([job], dryRun, shell.spawns)
  {
    var job := ExtractCmd(config, name, env);
    if job.Err? {
      return Err(job.error);
    }
    var present := AllBinsPresent(job.value.required, path);
    if !present {
      return Err("Cannot execute command due to missing binaries.");
    }
    r := ExecuteCommand(job.value, dryRun, shell);
  }
}
