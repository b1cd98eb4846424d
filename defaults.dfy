/**
 * The `defaults` command line as the older commands drive it
 * (src/defaults.rs): `defaults read <domain> <key>` to see a value,
 * `defaults write <domain> <key> <flag> <text>` and
 * `defaults delete <domain> <key>` to change one. The preference system
 * behind the command is a map from domain and key to the text
 * `defaults read` prints; whether the program can be started, whether a
 * command exits with success and what a written value reads back as are
 * given.
 */
module DefaultsCli {
  import opened Wrappers
  import Domains

  /** A preference: its domain and its key. */
  type PrefKey = (string, string)

  /** A `defaults write` or `defaults delete` that was started. */
  datatype Command =
    | Write(domain: string, key: string, flag: string, text: string)
    | Delete(domain: string, key: string)
  {
    function Key(): PrefKey { (domain, key) }
  }

  /** What cannot be seen from the program: the behaviour of the `defaults` program. */
  datatype Tool = Tool(
    /** Whether `defaults` can be started at all (`output()` does not fail). */
    spawns: bool,
    /** Whether a started command exits with success. */
    succeeds: Command -> bool,
    /** What `defaults read` prints for a value written with this flag and text. */
    printed: (string, string) -> string)

  /** The preferences (as `defaults read` prints them) and the commands started so far. */
  datatype Session = Session(shown: map<PrefKey, string>, ran: seq<Command>)

  /** `defaults read <domain> <key>`: fails when the key is not set. */
  function Read(tool: Tool, shown: map<PrefKey, string>, k: PrefKey): (r: Domains.Output)
    ensures r.Exited? <==> tool.spawns
    ensures r.Exited? ==> (r.success <==> k in shown)
  {
    if !tool.spawns then Domains.NotSpawned
    else if k in shown then Domains.Exited(true, shown[k])
    else Domains.Exited(false, "")
  }

  /** The preferences after a started command: a failed command changes nothing. */
  function Effect(tool: Tool, shown: map<PrefKey, string>, c: Command): map<PrefKey, string>
  {
    if !tool.succeeds(c) then shown
    else
      match c
      case Write(d, k, flag, text) => shown[(d, k) := tool.printed(flag, text)]
      case Delete(d, k) => shown - {(d, k)}
  }

  /**
   * `execute_defaults_write` / `execute_defaults_delete`: a dry run starts
   * nothing and succeeds; otherwise the command is started, and only a
   * program that cannot be started is an error; a non-zero exit is logged.
   */
  function Issued(tool: Tool, s: Session, c: Command, dryRun: bool): (r: Result<Session>)
    ensures r.Ok? <==> dryRun || tool.spawns
    ensures dryRun ==> r == Ok(s)
    ensures r.Ok? && !dryRun ==> r.value.ran == s.ran + [c]
  {
    if dryRun then Ok(s)
    else if !tool.spawns then Err("Failed to start defaults")
    else Ok(Session(Effect(tool, s.shown, c), s.ran + [c]))
  }

  /** A successful write reads back as the printed text; a successful delete leaves the key unset. */
  lemma IssuedThenRead(tool: Tool, s: Session, c: Command)
    requires tool.spawns && tool.succeeds(c)
    ensures var after := Issued(tool, s, c, false).value.shown;
      match c
      case Write(d, k, flag, text) => Read(tool, after, (d, k)) == Domains.Exited(true, tool.printed(flag, text))
      case Delete(d, k) => Read(tool, after, (d, k)) == Domains.Exited(false, "")
  {
  }

  /** A command leaves every other key as it was, whether it succeeds or not. */
  lemma IssuedKeepsOthers(tool: Tool, s: Session, c: Command, dryRun: bool, k: PrefKey)
    requires Issued(tool, s, c, dryRun).Ok? && k != c.Key()
    ensures Read(tool, Issued(tool, s, c, dryRun).value.shown, k) == Read(tool, s.shown, k)
  {
  }

  /** The `defaults` program and the preferences behind it. */
  class Defaults {
    const tool: Tool
    /** What `defaults read` prints for each key that is set. */
    var shown: map<PrefKey, string>
    /** The `defaults write` and `defaults delete` commands started so far. */
    var ran: seq<Command>

    constructor(tool: Tool, shown: map<PrefKey, string>)
      ensures this.tool == tool && this.shown == shown && ran == []
    {
      this.tool := tool;
      this.shown := shown;
      ran := [];
    }

    function State(): Session
      reads this
    {
      Session(shown, ran)
    }

    /** `get_current_value` (src/domains.rs): the trimmed output of `defaults read`, when it is not blank. */
    method GetCurrentValue(domain: string, key: string) returns (r: Option<string>)
      ensures r == Domains.CurrentValue(Read(tool, shown, (domain, key)))
    {
      var output: Domains.Output;
      if !tool.spawns {
        output := Domains.NotSpawned;
      } else if (domain, key) in shown {
        output := Domains.Exited(true, shown[(domain, key)]);
      } else {
        output := Domains.Exited(false, "");
      }
      r := Domains.CurrentValue(output);
    }

    /** Starts `c`, unless in a dry run. */
    method Execute(c: Command, dryRun: bool) returns (r: Result<()>)
      modifies this
      ensures var i := Issued(tool, old(State()), c, dryRun);
        (r.Ok? <==> i.Ok?) && State() == (if i.Ok? then i.value else old(State()))
    {
      if dryRun {
        return Ok(());
      }
      if !tool.spawns {
        return Err("Failed to start defaults");
      }
      ran := ran + [c];
      if tool.succeeds(c) {
        match c
        case Write(d, k, flag, text) =>
          shown := shown[(d, k) := tool.printed(flag, text)];
        case Delete(d, k) =>
          shown := shown - {(d, k)};
      }
      return Ok(());
    }

    /** `execute_defaults_write`. */
    method ExecuteWrite(domain: string, key: string, flag: string, text: string, dryRun: bool) returns (r: Result<()>)
      modifies this
      ensures var i := Issued(tool, old(State()), Write(domain, key, flag, text), dryRun);
        (r.Ok? <==> i.Ok?) && State() == (if i.Ok? then i.value else old(State()))
    {
      r := Execute(Write(domain, key, flag, text), dryRun);
    }

    /** `execute_defaults_delete`. */
    method ExecuteDelete(domain: string, key: string, dryRun: bool) returns (r: Result<()>)
      modifies this
      ensures var i := Issued(tool, old(State()), Delete(domain, key), dryRun);
        (r.Ok? <==> i.Ok?) && State() == (if i.Ok? then i.value else old(State()))
    {
      r := Execute(Delete(domain, key), dryRun);
    }
  }
}
