/**
 * Starting other programs (`std::process::Command`, `tokio::process::Command`).
 * Nothing is run by the model: a started program is recorded, and whether
 * it can be started at all and whether it exits with success are given.
 */
module Processes {
  import opened Wrappers

  /** A program started with its arguments. */
  datatype Invocation = Invocation(program: string, args: seq<string>)

  /** `sh -c <line>`, or `sudo sh -c <line>` when the command asks for `sudo`. */
  function ShellInvocation(line: string, sudo: bool): Invocation
  {
    if sudo then Invocation("sudo", ["sh", "-c", line]) else Invocation("sh", ["-c", line])
  }

  /** The programs started so far. */
  class Shell {
    /** Whether a program can be started at all (`output()` does not fail). */
    const spawns: bool
    /** Whether a started program exits with success. */
    const succeeds: Invocation -> bool
    var started: seq<Invocation>

    constructor(spawns: bool, succeeds: Invocation -> bool)
      ensures this.spawns == spawns && this.succeeds == succeeds && started == []
    {
      this.spawns := spawns;
      this.succeeds := succeeds;
      started := [];
    }

    /** Starts `inv` and waits for it: `None` when it cannot be started, else whether it succeeded. */
    method Run(inv: Invocation) returns (r: Option<bool>)
      modifies this
      ensures started == old(started) + (if spawns then [inv] else [])
      ensures r == (if spawns then Some(succeeds(inv)) else None)
    {
      if !spawns {
        return None;
      }
      started := started + [inv];
      return Some(succeeds(inv));
    }
  }
}
