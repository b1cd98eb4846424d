/**
 * The first generation of the program (src/lib.rs). Its snapshot is a copy
 * of the configuration file: `apply_defaults` compares the configured
 * domains with those of the snapshot, writes the settings of the new and
 * changed domains, deletes the settings of the removed ones that still
 * show the value the snapshot gave them, and copies the configuration
 * over the snapshot; `unapply_defaults` deletes, in the same guarded way,
 * every setting of the snapshot.
 *
 * Unlike src/domains.rs, this `flatten_domains` emits a table's own
 * settings before its nested tables, and `collect_domains` does not skip
 * the `external` table. The domains come in a `HashMap`, so the order they
 * are visited in is chosen by the methods and handed back as a ghost
 * result. The `defaults` program is the one of src/defaults.rs, without a
 * dry run.
 */
module Lib {
  import opened Wrappers
  import opened Toml
  import Text
  import Domains
  import DomainsConvert
  import DefaultsFlags
  import DefaultsCli
  import OlderCommands

  type PrefKey = DefaultsCli.PrefKey
  type DomainTable = Domains.DomainTable

  // ---- flattening ----

  /** The entries of `t[..n]` that are tables, in order. */
  function Tables(t: Entries, n: nat): (r: Entries)
    requires n <= |t|
    ensures forall i :: 0 <= i < |r| ==> r[i].1.Table? && r[i] in t[..n]
  {
    if n == 0 then []
    else if t[n - 1].1.Table? then Tables(t, n - 1) + [t[n - 1]]
    else Tables(t, n - 1)
  }

  /**
   * What this `flatten_domains` appends: the table's own non-table
   * entries under the prefix, when there are any, then every nested table,
   * each flattened in turn.
   */
  function Flattened(prefix: Option<string>, t: Entries): seq<DomainTable>
    decreases Table(t), 1
  {
    var flat := Domains.Flat(t, |t|);
    var tables := Tables(t, |t|);
    assert t[..|t|] == t;
    (if |flat| > 0 then [(prefix.GetOr(""), flat)] else []) + Nested(prefix, t, tables, |tables|)
  }

  /** The flattening of the nested tables `ts[..n]` of `t`, in order. */
  function Nested(prefix: Option<string>, t: Entries, ts: Entries, n: nat): seq<DomainTable>
    requires n <= |ts|
    requires forall i :: 0 <= i < |ts| ==> ts[i].1.Table? && ts[i] in t
    decreases Table(t), 0, n
  {
    if n == 0 then []
    else
      assert ts[n - 1] in t;
      Nested(prefix, t, ts, n - 1) + Flattened(Some(Domains.ChildPrefix(prefix, ts[n - 1].0)), ts[n - 1].1.entries)
  }

  /** The first loop of `flatten_domains`: the table's own settings and its nested tables, each in order. */
  method Split(table: Entries) returns (flat: Entries, nested: Entries)
    ensures flat == Domains.Flat(table, |table|) && nested == Tables(table, |table|)
  {
    flat, nested := [], [];
    var i := 0;
    while i < |table|
      invariant 0 <= i <= |table|
      invariant flat == Domains.Flat(table, i) && nested == Tables(table, i)
    {
      if table[i].1.Table? {
        nested := nested + [table[i]];
      } else {
        flat := flat + [table[i]];
      }
      i := i + 1;
    }
  }

  /** `flatten_domains`: appends the flattening of `table` under `prefix` to `dest`. */
  method FlattenDomains(prefix: Option<string>, table: Entries, dest: seq<DomainTable>) returns (out: seq<DomainTable>)
    ensures out == dest + Flattened(prefix, table)
    decreases Table(table), 1
  {
    var flat, nested := Split(table);
    assert table[..|table|] == table;
    out := dest;
    if |flat| > 0 {
      out := out + [(prefix.GetOr(""), flat)];
    }
    out := FlattenNested(prefix, table, nested, out);
  }

  /** The second loop of `flatten_domains`: each nested table of `table`, flattened under its own name. */
  method FlattenNested(prefix: Option<string>, table: Entries, nested: Entries, dest: seq<DomainTable>) returns (out: seq<DomainTable>)
    requires forall i :: 0 <= i < |nested| ==> nested[i].1.Table? && nested[i] in table
    ensures out == dest + Nested(prefix, table, nested, |nested|)
    decreases Table(table), 0
  {
    out := dest;
    var j := 0;
    while j < |nested|
      invariant 0 <= j <= |nested|
      invariant out == dest + Nested(prefix, table, nested, j)
    {
      assert nested[j] in table;
      out := FlattenDomains(Some(Domains.ChildPrefix(prefix, nested[j].0)), nested[j].1.entries, out);
      j := j + 1;
    }
  }

  /** A table with settings of its own comes first, ahead of everything nested in it. */
  lemma ParentFirst(prefix: Option<string>, t: Entries)
    requires exists i :: 0 <= i < |t| && !t[i].1.Table?
    ensures |Flattened(prefix, t)| > 0 && Flattened(prefix, t)[0] == (prefix.GetOr(""), Domains.Flat(t, |t|))
  {
    var i :| 0 <= i < |t| && !t[i].1.Table?;
    FlatKeeps(t, |t|, i);
  }

  /** A non-table entry among the first `n` lands in `Flat`. */
  lemma {:induction false} FlatKeeps(t: Entries, n: nat, i: nat)
    requires i < n <= |t| && !t[i].1.Table?
    ensures t[i] in Domains.Flat(t, n)
  {
    if i < n - 1 {
      FlatKeeps(t, n - 1, i);
    }
  }

  /**
   * This flattening and the one of src/domains.rs produce the same
   * domains with the same settings; only the order differs.
   */
  lemma {:induction false} SameDomainsAsOlder(prefix: Option<string>, t: Entries, x: DomainTable)
    ensures x in Flattened(prefix, t) <==> x in Domains.Flattened(prefix, t)
    decreases Table(t), 1
  {
    var tables := Tables(t, |t|);
    assert t[..|t|] == t;
    NestedSame(prefix, t, tables, |tables|, |t|, x);
  }

  /** The nested tables among the first `m` entries are `ts[..n]`, and both flattenings agree on them. */
  lemma {:induction false} NestedSame(prefix: Option<string>, t: Entries, ts: Entries, n: nat, m: nat, x: DomainTable)
    requires n <= |ts| && m <= |t|
    requires forall i :: 0 <= i < |ts| ==> ts[i].1.Table? && ts[i] in t
    requires ts[..n] == Tables(t, m)
    ensures x in Nested(prefix, t, ts, n) <==> x in Domains.Nested(prefix, t, m)
    decreases Table(t), 0, m
  {
    if m > 0 {
      var e := t[m - 1];
      assert e in t;
      if e.1.Table? {
        assert ts[..n - 1] == Tables(t, m - 1) by {
          assert ts[..n - 1] == ts[..n][..n - 1];
        }
        assert ts[n - 1] == ts[..n][n - 1] == e;
        NestedSame(prefix, t, ts, n - 1, m - 1, x);
        SameDomainsAsOlder(Some(Domains.ChildPrefix(prefix, e.0)), e.1.entries, x);
      } else {
        NestedSame(prefix, t, ts, n, m - 1, x);
      }
    }
  }

  /** `collect_domains` of src/lib.rs: every top-level table, `external` included, flattened, keyed by domain. */
  function Collected(root: Entries, n: nat): map<string, Entries>
    requires n <= |root|
  {
    if n == 0 then map[]
    else if !root[n - 1].1.Table? then Collected(root, n - 1)
    else Domains.Inserted(Collected(root, n - 1), Flattened(Some(root[n - 1].0), root[n - 1].1.entries))
  }

  /**
   * Without a top-level `external` table, this `collect_domains` finds the
   * same domain names as the one of src/domains.rs.
   */
  lemma {:induction false} CollectedSameNames(root: Entries, n: nat, d: string)
    requires n <= |root|
    requires forall i :: 0 <= i < n ==> root[i].0 != "external"
    ensures d in Collected(root, n) <==> d in Domains.Collected(root, n)
  {
    if n > 0 {
      CollectedSameNames(root, n - 1, d);
      var e := root[n - 1];
      if e.1.Table? {
        var mine := Flattened(Some(e.0), e.1.entries);
        var older := Domains.Flattened(Some(e.0), e.1.entries);
        if i :| 0 <= i < |mine| && mine[i].0 == d {
          SameDomainsAsOlder(Some(e.0), e.1.entries, mine[i]);
          var j :| 0 <= j < |older| && older[j] == mine[i];
        }
        if j :| 0 <= j < |older| && older[j].0 == d {
          SameDomainsAsOlder(Some(e.0), e.1.entries, older[j]);
          var i :| 0 <= i < |mine| && mine[i] == older[j];
        }
      }
    }
  }

  /** The configured domains of a table; fails on any other value. */
  method CollectDomains(parsed: Value) returns (r: Result<map<string, Entries>>)
    ensures parsed.Table? ==> r == Ok(Collected(parsed.entries, |parsed.entries|))
    ensures !parsed.Table? ==> r.Err?
  {
    if !parsed.Table? {
      return Err("Invalid config format: expected table at top level");
    }
    var root := parsed.entries;
    var domains: map<string, Entries> := map[];
    var i := 0;
    while i < |root|
      invariant 0 <= i <= |root|
      invariant domains == Collected(root, i)
    {
      if root[i].1.Table? {
        var flat := FlattenDomains(Some(root[i].0), root[i].1.entries, []);
        assert flat == Flattened(Some(root[i].0), root[i].1.entries);
        domains := Domains.InsertAll(domains, flat);
      }
      i := i + 1;
    }
    return Ok(domains);
  }

  /** The domains of a configuration that is a table. */
  function ConfigDomains(parsed: Value): map<string, Entries>
    requires parsed.Table?
  {
    Collected(parsed.entries, |parsed.entries|)
  }

  // ---- values ----

  /**
   * `normalize_desired`: booleans as `1`/`0` and integers and strings as
   * elsewhere, but a float as its `Display` text and any other value as
   * the empty text.
   */
  function NormalizeDesired(v: Value): (r: string)
    ensures v.Boolean? || v.Integer? || v.String? ==> r == DefaultsFlags.Normalize(v)
    ensures v.Float? ==> r == v.f.display
    ensures !DomainsConvert.IsScalar(v) ==> r == ""
  {
    match v
    case Boolean(b) => if b then "1" else "0"
    case Integer(i) => Text.I64Text(i)
    case Float(f) => f.display
    case String(s) => s
    case _ => ""
  }

  // ---- the snapshot: a copy of the configuration file ----

  /** What a file holds: a configuration that parses, or text that does not. */
  datatype Stored = Parsed(config: Value) | Malformed

  /** The snapshot file (`~/.cutler_snapshot`). */
  class SnapshotCopy {
    /** What is there; `None` when there is no file. */
    var content: Option<Stored>
    /** Whether the file system lets the file be written and removed. */
    const writable: bool

    constructor(initial: Option<Stored>, writable: bool)
      ensures content == initial && this.writable == writable
    {
      content := initial;
      this.writable := writable;
    }

    /** `fs::copy` of the configuration file over the snapshot: a later load parses to the same configuration. */
    method CopyFrom(config: Value) returns (r: Result<()>)
      modifies this
      ensures r.Ok? <==> writable
      ensures content == (if writable then Some(Parsed(config)) else old(content))
    {
      if !writable {
        return Err("Could not copy the configuration file.");
      }
      content := Some(Parsed(config));
      return Ok(());
    }

    /** `fs::remove_file`: fails when there is no file. */
    method Remove() returns (r: Result<()>)
      modifies this
      ensures r.Ok? <==> old(content).Some? && writable
      ensures content == (if r.Ok? then None else old(content))
    {
      if content.None? || !writable {
        return Err("Could not remove the snapshot file.");
      }
      content := None;
      return Ok(());
    }
  }

  /** The domains of a loaded snapshot; a file that does not parse, or is not a table, is an error. */
  function SnapshotDomains(s: Stored): (r: Result<map<string, Entries>>)
    ensures r.Ok? <==> s.Parsed? && s.config.Table?
  {
    if s.Parsed? && s.config.Table? then Ok(ConfigDomains(s.config)) else Err("Invalid snapshot")
  }

  // ---- classifying the domains ----

  /** The domains of `order` the snapshot does not have, in order. */
  function Added(order: seq<string>, snapshot: map<string, Entries>): (r: seq<string>)
    ensures forall d :: d in r <==> d in order && d !in snapshot
  {
    if |order| == 0 then []
    else
      var d := order[|order| - 1];
      Added(order[..|order| - 1], snapshot) + (if d !in snapshot then [d] else [])
  }

  /** The domains of `order` the snapshot has with another table, in order. */
  function Modified(order: seq<string>, current: map<string, Entries>, snapshot: map<string, Entries>): (r: seq<string>)
    requires forall d :: d in order ==> d in current
    ensures forall d :: d in r <==> d in order && d in snapshot && snapshot[d] != current[d]
  {
    if |order| == 0 then []
    else
      var d := order[|order| - 1];
      Modified(order[..|order| - 1], current, snapshot) + (if d in snapshot && snapshot[d] != current[d] then [d] else [])
  }

  /** The domains of `snapOrder` the configuration no longer has, in order. */
  function Removed(snapOrder: seq<string>, current: map<string, Entries>): (r: seq<string>)
    ensures forall d :: d in r <==> d in snapOrder && d !in current
  {
    if |snapOrder| == 0 then []
    else
      var d := snapOrder[|snapOrder| - 1];
      Removed(snapOrder[..|snapOrder| - 1], current) + (if d !in current then [d] else [])
  }

  /** The first comparison loop of `apply_defaults`: the new and the modified domains, in the configuration's order. */
  method NewAndModified(current: map<string, Entries>, snapshot: map<string, Entries>, order: seq<string>)
    returns (added: seq<string>, modified: seq<string>)
    requires forall d :: d in order ==> d in current
    ensures added == Added(order, snapshot)
    ensures modified == Modified(order, current, snapshot)
  {
    added, modified := [], [];
    var i := 0;
    while i < |order|
      invariant i <= |order|
      invariant added == Added(order[..i], snapshot) && modified == Modified(order[..i], current, snapshot)
    {
      assert order[..i + 1][..i] == order[..i];
      var d := order[i];
      if d !in snapshot {
        added := added + [d];
      } else if snapshot[d] != current[d] {
        modified := modified + [d];
      }
      i := i + 1;
    }
    assert order[..|order|] == order;
  }

  /** The second comparison loop: the removed domains, in the snapshot's order. */
  method RemovedDomains(current: map<string, Entries>, snapOrder: seq<string>) returns (removed: seq<string>)
    ensures removed == Removed(snapOrder, current)
  {
    removed := [];
    var j := 0;
    while j < |snapOrder|
      invariant j <= |snapOrder|
      invariant removed == Removed(snapOrder[..j], current)
    {
      assert snapOrder[..j + 1][..j] == snapOrder[..j];
      if snapOrder[j] !in current {
        removed := removed + [snapOrder[j]];
      }
      j := j + 1;
    }
    assert snapOrder[..|snapOrder|] == snapOrder;
  }

  /**
   * Every configured domain is new, modified or unchanged, every snapshot
   * domain not configured is removed, and no domain is in two classes.
   */
  lemma ClassesPartition(current: map<string, Entries>, snapshot: map<string, Entries>, order: seq<string>, snapOrder: seq<string>, d: string)
    requires forall e :: e in order <==> e in current
    requires forall e :: e in snapOrder <==> e in snapshot
    ensures d in Added(order, snapshot) <==> d in current && d !in snapshot
    ensures d in Modified(order, current, snapshot) <==> d in current && d in snapshot && snapshot[d] != current[d]
    ensures d in Removed(snapOrder, current) <==> d in snapshot && d !in current
    ensures !(d in Added(order, snapshot) && d in Modified(order, current, snapshot))
    ensures !(d in Added(order, snapshot) && d in Removed(snapOrder, current))
    ensures !(d in Modified(order, current, snapshot) && d in Removed(snapOrder, current))
  {
  }

  // ---- writing and deleting ----

  /** What the walk does with each setting: write it (new and modified domains) or delete it (removed domains, unapply). */
  datatype Mode = Writing | Removing

  /** The preferences and commands so far, and whether the command has aborted. */
  datatype Run = Run(session: DefaultsCli.Session, failed: bool)

  /** `defaults write` or `defaults delete`, which only fails when `defaults` cannot be started. */
  function Issue(u: Run, tool: DefaultsCli.Tool, c: DefaultsCli.Command): (r: Run)
    ensures r.failed <==> !tool.spawns
    ensures !r.failed ==> r.session == DefaultsCli.Session(DefaultsCli.Effect(tool, u.session.shown, c), u.session.ran + [c])
    ensures r.failed ==> r.session == u.session
  {
    match DefaultsCli.Issued(tool, u.session, c, false)
    case Err(_) => u.(failed := true)
    case Ok(session) => Run(session, false)
  }

  /**
   * One setting, written to `k`, with `desired` its normalised value,
   * `flag` its flag and text, and `current` what `get_current_value`
   * gives. A write happens only when the preference does not already show
   * the value, and a value of an unsupported type then aborts. A delete
   * happens only when the preference still shows the value: one that is
   * unset or was changed by the user is left alone.
   */
  function KeyStep(u: Run, tool: DefaultsCli.Tool, mode: Mode, k: PrefKey, desired: string,
                   flag: Result<(string, string)>, current: Option<string>): (r: Run)
    requires !u.failed
    ensures mode.Writing? ==>
      if current == Some(desired) then r == u
      else if flag.Err? then r == u.(failed := true)
      else r == Issue(u, tool, DefaultsCli.Write(k.0, k.1, flag.value.0, flag.value.1))
    ensures mode.Removing? ==>
      r == if current == Some(desired) then Issue(u, tool, DefaultsCli.Delete(k.0, k.1)) else u
  {
    match mode
    case Writing =>
      if current == Some(desired) then u
      else if flag.Err? then u.(failed := true)
      else Issue(u, tool, DefaultsCli.Write(k.0, k.1, flag.value.0, flag.value.1))
    case Removing =>
      if current == Some(desired) then Issue(u, tool, DefaultsCli.Delete(k.0, k.1)) else u
  }

  /** The setting `key = value` of `domain`. */
  function SettingStep(u: Run, tool: DefaultsCli.Tool, mode: Mode, domain: string, key: string, value: Value): Run
    requires !u.failed
  {
    var k := Domains.EffectiveDomainAndKey(domain, key);
    KeyStep(u, tool, mode, k, NormalizeDesired(value), DefaultsFlags.ToFlag(value),
      Domains.CurrentValue(DefaultsCli.Read(tool, u.session.shown, k)))
  }

  /** The first `n` settings of a domain's table, stopping at the first failure. */
  function SettingsRun(u: Run, tool: DefaultsCli.Tool, mode: Mode, domain: string, t: Entries, n: nat): (r: Run)
    requires n <= |t|
    ensures u.failed ==> r == u
  {
    if n == 0 then u
    else
      var prev := SettingsRun(u, tool, mode, domain, t, n - 1);
      if prev.failed then prev else SettingStep(prev, tool, mode, domain, t[n - 1].0, t[n - 1].1)
  }

  /** The walk over one more setting takes one more step, unless it has aborted. */
  lemma SettingsRunNext(u: Run, tool: DefaultsCli.Tool, mode: Mode, domain: string, t: Entries, n: nat)
    requires n < |t|
    ensures var prev := SettingsRun(u, tool, mode, domain, t, n);
      SettingsRun(u, tool, mode, domain, t, n + 1) == if prev.failed then prev else SettingStep(prev, tool, mode, domain, t[n].0, t[n].1)
  {
  }

  /** `check_domain_exists` of src/lib.rs: `defaults read <domain>` must start and succeed. */
  predicate DomainReadable(tool: DefaultsCli.Tool, readable: set<string>, name: string)
  {
    tool.spawns && name in readable
  }

  /** One domain: it must exist, then each of its settings. */
  function DomainRun(u: Run, tool: DefaultsCli.Tool, readable: set<string>, mode: Mode, domain: string, t: Entries): (r: Run)
    requires !u.failed
    ensures !DomainReadable(tool, readable, Domains.EffectiveDomain(domain)) ==> r == u.(failed := true)
  {
    if !DomainReadable(tool, readable, Domains.EffectiveDomain(domain)) then u.(failed := true)
    else SettingsRun(u, tool, mode, domain, t, |t|)
  }

  /** The domains of `visit`, in turn, stopping at the first failure. */
  function Visited(u: Run, tool: DefaultsCli.Tool, readable: set<string>, mode: Mode, domains: map<string, Entries>, visit: seq<string>): (r: Run)
    requires forall d :: d in visit ==> d in domains
    ensures u.failed ==> r == u
  {
    if |visit| == 0 then u
    else
      var prev := Visited(u, tool, readable, mode, domains, visit[..|visit| - 1]);
      var d := visit[|visit| - 1];
      if prev.failed then prev else DomainRun(prev, tool, readable, mode, d, domains[d])
  }

  lemma {:induction false} VisitedAppend(u: Run, tool: DefaultsCli.Tool, readable: set<string>, mode: Mode,
                                         domains: map<string, Entries>, a: seq<string>, b: seq<string>)
    requires forall d :: d in a + b ==> d in domains
    ensures Visited(u, tool, readable, mode, domains, a + b) == Visited(Visited(u, tool, readable, mode, domains, a), tool, readable, mode, domains, b)
  {
    if |b| == 0 {
      assert a + b == a;
    } else {
      var b' := b[..|b| - 1];
      assert (a + b)[..|a + b| - 1] == a + b';
      assert (a + b)[|a + b| - 1] == b[|b| - 1];
      VisitedAppend(u, tool, readable, mode, domains, a, b');
    }
  }

  /** The body of the inner loops, for the setting `key = value` of `domain`. */
  method RunSetting(mode: Mode, domain: string, key: string, value: Value, defaults: DefaultsCli.Defaults) returns (failed: bool)
    modifies defaults
    ensures var k := Domains.EffectiveDomainAndKey(domain, key);
      Run(defaults.State(), failed)
        == KeyStep(Run(old(defaults.State()), false), defaults.tool, mode, k, NormalizeDesired(value), DefaultsFlags.ToFlag(value),
             Domains.CurrentValue(DefaultsCli.Read(defaults.tool, old(defaults.shown), k)))
  {
    var (d, k) := Domains.EffectiveDomainAndKey(domain, key);
    var desired := NormalizeDesired(value);
    var current := defaults.GetCurrentValue(d, k);
    failed := false;
    match mode {
      case Writing =>
        if current == Some(desired) {
          return;
        }
        var flag := DefaultsFlags.ToFlag(value);
        if flag.Err? {
          return true;
        }
        var written := defaults.ExecuteWrite(d, k, flag.value.0, flag.value.1, false);
        failed := written.Err?;
      case Removing =>
        if current != Some(desired) {
          return;
        }
        var deleted := defaults.ExecuteDelete(d, k, false);
        failed := deleted.Err?;
    }
  }

  /** One domain: `check_domain_exists` on its effective domain, then the loop over its settings. */
  method RunDomain(mode: Mode, domain: string, t: Entries, defaults: DefaultsCli.Defaults, readable: set<string>) returns (failed: bool)
    modifies defaults
    ensures Run(defaults.State(), failed) == DomainRun(Run(old(defaults.State()), false), defaults.tool, readable, mode, domain, t)
  {
    ghost var u0 := Run(defaults.State(), false);
    var name := Domains.EffectiveDomain(domain);
    if !defaults.tool.spawns || name !in readable {
      return true;
    }
    failed := false;
    var j := 0;
    while j < |t|
      invariant j <= |t|
      invariant Run(defaults.State(), failed) == SettingsRun(u0, defaults.tool, mode, domain, t, j)
    {
      if !failed {
        failed := RunSetting(mode, domain, t[j].0, t[j].1, defaults);
      }
      j := j + 1;
    }
  }

  /** The domains of `visit`, in turn, until one fails. */
  method RunDomains(mode: Mode, domains: map<string, Entries>, visit: seq<string>, defaults: DefaultsCli.Defaults, readable: set<string>)
    returns (failed: bool)
    requires forall d :: d in visit ==> d in domains
    modifies defaults
    ensures Run(defaults.State(), failed) == Visited(Run(old(defaults.State()), false), defaults.tool, readable, mode, domains, visit)
  {
    ghost var u0 := Run(defaults.State(), false);
    failed := false;
    var i := 0;
    while i < |visit|
      invariant i <= |visit|
      invariant Run(defaults.State(), failed) == Visited(u0, defaults.tool, readable, mode, domains, visit[..i])
    {
      assert visit[..i + 1][..i] == visit[..i];
      if !failed {
        failed := RunDomain(mode, visit[i], domains[visit[i]], defaults, readable);
      }
      i := i + 1;
    }
    assert visit[..|visit|] == visit;
  }

  // ---- what a whole walk does ----

  /** Every setting of the visited domains whose preference is `k` wants a value other than `v`. */
  ghost predicate NoneWants(domains: map<string, Entries>, visit: seq<string>, k: PrefKey, v: string)
    requires forall d :: d in visit ==> d in domains
  {
    forall j :: 0 <= j < |visit| ==> TableNoneWants(visit[j], domains[visit[j]], |domains[visit[j]]|, k, v)
  }

  /** Every setting among `t[..n]` of `domain` whose preference is `k` wants a value other than `v`. */
  ghost predicate TableNoneWants(domain: string, t: Entries, n: nat, k: PrefKey, v: string)
    requires n <= |t|
  {
    forall i :: 0 <= i < n && Domains.EffectiveDomainAndKey(domain, t[i].0) == k ==> NormalizeDesired(t[i].1) != v
  }

  /**
   * A delete walk never sets a preference, and it leaves alone a
   * preference whose value no visited setting wants: a value the user
   * changed since the snapshot survives.
   */
  lemma {:induction false} RemovingKeeps(u: Run, tool: DefaultsCli.Tool, readable: set<string>,
                                         domains: map<string, Entries>, visit: seq<string>, k: PrefKey)
    requires forall d :: d in visit ==> d in domains
    ensures var r := Visited(u, tool, readable, Removing, domains, visit);
      && (k !in u.session.shown ==> k !in r.session.shown)
      && (k in u.session.shown && NoneWants(domains, visit, k, Text.Trim(u.session.shown[k])) ==>
            k in r.session.shown && r.session.shown[k] == u.session.shown[k])
  {
    if |visit| > 0 {
      var rest := visit[..|visit| - 1];
      var d := visit[|visit| - 1];
      RemovingKeeps(u, tool, readable, domains, rest, k);
      var prev := Visited(u, tool, readable, Removing, domains, rest);
      if k in u.session.shown && NoneWants(domains, visit, k, Text.Trim(u.session.shown[k])) {
        assert NoneWants(domains, rest, k, Text.Trim(u.session.shown[k])) by {
          forall j | 0 <= j < |rest|
            ensures TableNoneWants(rest[j], domains[rest[j]], |domains[rest[j]]|, k, Text.Trim(u.session.shown[k]))
          {
            assert rest[j] == visit[j];
          }
        }
        assert TableNoneWants(d, domains[d], |domains[d]|, k, Text.Trim(u.session.shown[k]));
      }
      if !prev.failed && DomainReadable(tool, readable, Domains.EffectiveDomain(d)) {
        SettingsKeep(prev, tool, d, domains[d], |domains[d]|, k);
      }
    }
  }

  /** `RemovingKeeps` for the settings of one domain. */
  lemma {:induction false} SettingsKeep(u: Run, tool: DefaultsCli.Tool, domain: string, t: Entries, n: nat, k: PrefKey)
    requires n <= |t|
    ensures var r := SettingsRun(u, tool, Removing, domain, t, n);
      && (k !in u.session.shown ==> k !in r.session.shown)
      && (k in u.session.shown && TableNoneWants(domain, t, n, k, Text.Trim(u.session.shown[k])) ==>
            k in r.session.shown && r.session.shown[k] == u.session.shown[k])
  {
    if n > 0 {
      SettingsKeep(u, tool, domain, t, n - 1, k);
      var prev := SettingsRun(u, tool, Removing, domain, t, n - 1);
      if !prev.failed {
        StepKeeps(prev, tool, domain, t[n - 1].0, t[n - 1].1, k);
      }
    }
  }

  /** A delete step only removes its own preference, and only when it shows the value the setting wants. */
  lemma StepKeeps(u: Run, tool: DefaultsCli.Tool, domain: string, key: string, value: Value, k: PrefKey)
    requires !u.failed
    ensures var r := SettingStep(u, tool, Removing, domain, key, value);
      && (k !in u.session.shown ==> k !in r.session.shown)
      && (k in u.session.shown && (Domains.EffectiveDomainAndKey(domain, key) == k ==> NormalizeDesired(value) != Text.Trim(u.session.shown[k])) ==>
            k in r.session.shown && r.session.shown[k] == u.session.shown[k])
  {
    var k0 := Domains.EffectiveDomainAndKey(domain, key);
    KeyStepKeeps(u, tool, k0, NormalizeDesired(value), DefaultsFlags.ToFlag(value), k);
  }

  /** `StepKeeps`, for the preference `k0` and the value `desired`. */
  lemma KeyStepKeeps(u: Run, tool: DefaultsCli.Tool, k0: PrefKey, desired: string, flag: Result<(string, string)>, k: PrefKey)
    requires !u.failed
    ensures var r := KeyStep(u, tool, Removing, k0, desired, flag, Domains.CurrentValue(DefaultsCli.Read(tool, u.session.shown, k0)));
      && (k !in u.session.shown ==> k !in r.session.shown)
      && (k in u.session.shown && (k0 == k ==> desired != Text.Trim(u.session.shown[k])) ==>
            k in r.session.shown && r.session.shown[k] == u.session.shown[k])
  {
    var current := Domains.CurrentValue(DefaultsCli.Read(tool, u.session.shown, k0));
    var r := KeyStep(u, tool, Removing, k0, desired, flag, current);
    if current == Some(desired) {
      var c := DefaultsCli.Delete(k0.0, k0.1);
      assert r == Issue(u, tool, c);
      assert k0 in u.session.shown && desired == Text.Trim(u.session.shown[k0]);
    } else {
      assert r == u;
    }
  }

  /** Whether the preference of `key` in `domain` already shows the value `value` normalises to. */
  predicate Shows(tool: DefaultsCli.Tool, shown: map<PrefKey, string>, domain: string, key: string, value: Value)
  {
    Domains.CurrentValue(DefaultsCli.Read(tool, shown, Domains.EffectiveDomainAndKey(domain, key))) == Some(NormalizeDesired(value))
  }

  /** Every visited domain exists and every one of its settings already shows its value. */
  predicate Settled(tool: DefaultsCli.Tool, readable: set<string>, shown: map<PrefKey, string>, domains: map<string, Entries>, visit: seq<string>)
    requires forall d :: d in visit ==> d in domains
  {
    forall j :: 0 <= j < |visit| ==>
      && DomainReadable(tool, readable, Domains.EffectiveDomain(visit[j]))
      && AllShown(tool, shown, visit[j], domains[visit[j]], |domains[visit[j]]|)
  }

  /** Every one of the settings `t[..n]` of `domain` already shows its value. */
  predicate AllShown(tool: DefaultsCli.Tool, shown: map<PrefKey, string>, domain: string, t: Entries, n: nat)
    requires n <= |t|
  {
    n == 0 || (AllShown(tool, shown, domain, t, n - 1) && Shows(tool, shown, domain, t[n - 1].0, t[n - 1].1))
  }

  /**
   * A write walk over preferences that already show what the domains want
   * starts no command and changes nothing: applying a configuration the
   * system already has is a no-op.
   */
  lemma {:induction false} WritingSettled(u: Run, tool: DefaultsCli.Tool, readable: set<string>,
                                          domains: map<string, Entries>, visit: seq<string>)
    requires forall d :: d in visit ==> d in domains
    requires !u.failed && Settled(tool, readable, u.session.shown, domains, visit)
    ensures Visited(u, tool, readable, Writing, domains, visit) == u
  {
    if |visit| > 0 {
      var rest := visit[..|visit| - 1];
      var d := visit[|visit| - 1];
      assert Settled(tool, readable, u.session.shown, domains, rest) by {
        forall j | 0 <= j < |rest|
          ensures DomainReadable(tool, readable, Domains.EffectiveDomain(rest[j]))
          ensures AllShown(tool, u.session.shown, rest[j], domains[rest[j]], |domains[rest[j]]|)
        {
          assert rest[j] == visit[j];
        }
      }
      WritingSettled(u, tool, readable, domains, rest);
      assert |visit| - 1 < |visit|;
      SettingsSettled(u, tool, d, domains[d], |domains[d]|);
    }
  }

  /** `WritingSettled` for the settings of one domain. */
  lemma {:induction false} SettingsSettled(u: Run, tool: DefaultsCli.Tool, domain: string, t: Entries, n: nat)
    requires n <= |t| && !u.failed && AllShown(tool, u.session.shown, domain, t, n)
    ensures SettingsRun(u, tool, Writing, domain, t, n) == u
  {
    if n == 0 {
      assert SettingsRun(u, tool, Writing, domain, t, n) == u;
    } else {
      SettingsSettled(u, tool, domain, t, n - 1);
      assert SettingsRun(u, tool, Writing, domain, t, n - 1) == u;
      SettledStep(u, tool, domain, t, n);
      assert SettingsRun(u, tool, Writing, domain, t, n) == u;
    }
  }

  /** One more setting whose preference already shows its value leaves the walk where it was. */
  lemma SettledStep(u: Run, tool: DefaultsCli.Tool, domain: string, t: Entries, n: nat)
    requires 0 < n <= |t| && !u.failed && SettingsRun(u, tool, Writing, domain, t, n - 1) == u
    requires Shows(tool, u.session.shown, domain, t[n - 1].0, t[n - 1].1)
    ensures SettingsRun(u, tool, Writing, domain, t, n) == u
  {
    SettingsRunNext(u, tool, Writing, domain, t, n - 1);
    StepSettled(u, tool, domain, t[n - 1].0, t[n - 1].1);
  }

  /** A write step whose preference already shows the value starts nothing. */
  lemma StepSettled(u: Run, tool: DefaultsCli.Tool, domain: string, key: string, value: Value)
    requires !u.failed && Shows(tool, u.session.shown, domain, key, value)
    ensures SettingStep(u, tool, Writing, domain, key, value) == u
  {
  }

  /** A setting of a type `defaults` cannot store aborts the write walk, whatever the preference shows. */
  lemma UnsupportedAborts(u: Run, tool: DefaultsCli.Tool, domain: string, key: string, value: Value)
    requires !u.failed && !DomainsConvert.IsScalar(value)
    ensures SettingStep(u, tool, Writing, domain, key, value) == u.(failed := true)
  {
  }

  // ---- the commands ----

  /**
   * The walks of `apply_defaults`: without a snapshot, a write walk over
   * every configured domain; with one, a write walk over the new and then
   * the modified domains, and a delete walk over the removed ones.
   */
  function ApplyWalk(u: Run, tool: DefaultsCli.Tool, readable: set<string>, current: map<string, Entries>,
                     snapshot: Option<map<string, Entries>>, order: seq<string>, snapOrder: seq<string>): Run
    requires forall d :: d in order ==> d in current
    requires snapshot.Some? ==> forall d :: d in snapOrder ==> d in snapshot.value
  {
    if snapshot.None? then Visited(u, tool, readable, Writing, current, order)
    else
      var written := Visited(u, tool, readable, Writing, current, Added(order, snapshot.value) + Modified(order, current, snapshot.value));
      Visited(written, tool, readable, Removing, snapshot.value, Removed(snapOrder, current))
  }

  /**
   * Once an apply has copied the configuration over the snapshot, applying
   * the same configuration again finds no new, modified or removed
   * domain and starts nothing.
   */
  lemma ReapplyIdle(u: Run, tool: DefaultsCli.Tool, readable: set<string>, current: map<string, Entries>,
                    order: seq<string>, snapOrder: seq<string>)
    requires OlderCommands.Lists(order, current) && OlderCommands.Lists(snapOrder, current)
    ensures ApplyWalk(u, tool, readable, current, Some(current), order, snapOrder) == u
  {
    var added := Added(order, current);
    var modified := Modified(order, current, current);
    var removed := Removed(snapOrder, current);
    NoneAdded(order, current);
    NoneModified(order, current);
    NoneRemoved(snapOrder, current);
    assert added + modified == [];
  }

  /** Against a snapshot that has every domain, nothing is new. */
  lemma {:induction false} NoneAdded(order: seq<string>, snapshot: map<string, Entries>)
    requires forall d :: d in order ==> d in snapshot
    ensures Added(order, snapshot) == []
  {
    if |order| > 0 {
      NoneAdded(order[..|order| - 1], snapshot);
    }
  }

  /** Against a snapshot equal to the configuration, nothing is modified. */
  lemma {:induction false} NoneModified(order: seq<string>, current: map<string, Entries>)
    requires forall d :: d in order ==> d in current
    ensures Modified(order, current, current) == []
  {
    if |order| > 0 {
      NoneModified(order[..|order| - 1], current);
    }
  }

  /** When the configuration has every domain of the snapshot, nothing is removed. */
  lemma {:induction false} NoneRemoved(snapOrder: seq<string>, current: map<string, Entries>)
    requires forall d :: d in snapOrder ==> d in current
    ensures Removed(snapOrder, current) == []
  {
    if |snapOrder| > 0 {
      NoneRemoved(snapOrder[..|snapOrder| - 1], current);
    }
  }

  /** The configuration a file holds, when it parses to a table. */
  predicate HoldsTable(file: Option<Stored>)
  {
    file.Some? && file.value.Parsed? && file.value.config.Table?
  }

  /**
   * `apply_defaults`. `config` is the configuration file (`None` when
   * there is none; the prompt then offers an example, and `createExample`
   * holds when the answer is yes and the example file is written). A configuration that does not load, or a snapshot
   * that exists but does not load, is an error before anything is
   * started. Otherwise the walks run in the orders handed back; when they
   * succeed, the configuration is copied over the snapshot.
   */
  method ApplyDefaults(config: Option<Stored>, snapshot: SnapshotCopy, defaults: DefaultsCli.Defaults,
                       readable: set<string>, createExample: bool)
    returns (r: Result<()>, ghost order: seq<string>, ghost snapOrder: seq<string>)
    modifies snapshot, defaults
    ensures config.None? ==> r.Ok? == createExample && unchanged(snapshot, defaults)
    ensures config.Some? && ApplyInputs(config.value, old(snapshot.content)).Err? ==> r.Err? && unchanged(snapshot, defaults)
    ensures config.Some? && ApplyInputs(config.value, old(snapshot.content)).Ok? ==>
      var (current, snap) := ApplyInputs(config.value, old(snapshot.content)).value;
      && OlderCommands.Lists(order, current)
      && (snap.Some? ==> OlderCommands.Lists(snapOrder, snap.value))
      && var walk := ApplyWalk(Run(old(defaults.State()), false), defaults.tool, readable, current, snap, order, snapOrder);
         && defaults.State() == walk.session
         && (r.Ok? <==> !walk.failed && snapshot.writable)
         && snapshot.content == (if r.Ok? then Some(config.value) else old(snapshot.content))
  {
    order, snapOrder := [], [];
    if config.None? {
      if createExample {
        return Ok(()), order, snapOrder;
      }
      return Err("No config file present. Exiting."), order, snapOrder;
    }
    var inputs := LoadInputs(config.value, snapshot.content);
    if inputs.Err? {
      return Err(inputs.error), order, snapOrder;
    }
    var (current, snap) := inputs.value;
    var visit := OlderCommands.Order(current);
    order := visit;
    var failed;
    failed, snapOrder := Walk(current, snap, visit, defaults, readable);
    if failed {
      return Err("A domain does not exist, a value is unsupported or defaults did not start."), order, snapOrder;
    }
    r := snapshot.CopyFrom(config.value.config);
  }

  /**
   * What `apply_defaults` loads: the configured domains, and those of the
   * snapshot when there is one. A configuration or an existing snapshot
   * that does not parse to a table is an error.
   */
  function ApplyInputs(config: Stored, snapshot: Option<Stored>): (r: Result<(map<string, Entries>, Option<map<string, Entries>>)>)
    ensures r.Ok? <==> HoldsTable(Some(config)) && (snapshot.None? || SnapshotDomains(snapshot.value).Ok?)
    ensures r.Ok? ==> r.value.0 == ConfigDomains(config.config)
    ensures r.Ok? ==> r.value.1 == if snapshot.None? then None else Some(SnapshotDomains(snapshot.value).value)
  {
    if !HoldsTable(Some(config)) then Err("The configuration file does not load.")
    else if snapshot.None? then Ok((ConfigDomains(config.config), None))
    else
      match SnapshotDomains(snapshot.value)
      case Err(e) => Err(e)
      case Ok(snap) => Ok((ConfigDomains(config.config), Some(snap)))
  }

  /** The loading of `apply_defaults`: the configuration first, then the snapshot. */
  method LoadInputs(config: Stored, snapshot: Option<Stored>) returns (r: Result<(map<string, Entries>, Option<map<string, Entries>>)>)
    ensures r == ApplyInputs(config, snapshot)
  {
    if !config.Parsed? {
      return Err("The configuration file does not load.");
    }
    var collected := CollectDomains(config.config);
    if collected.Err? {
      return Err("The configuration file does not load.");
    }
    if snapshot.None? {
      return Ok((collected.value, None));
    }
    var loaded := SnapshotDomains(snapshot.value);
    if loaded.Err? {
      return Err(loaded.error);
    }
    return Ok((collected.value, Some(loaded.value)));
  }

  /** The walks of `apply_defaults`, over the configured domains in the order `visit`. */
  method Walk(current: map<string, Entries>, snap: Option<map<string, Entries>>, visit: seq<string>,
              defaults: DefaultsCli.Defaults, readable: set<string>)
    returns (failed: bool, ghost snapOrder: seq<string>)
    requires forall d :: d in visit ==> d in current
    modifies defaults
    ensures snap.Some? ==> OlderCommands.Lists(snapOrder, snap.value)
    ensures Run(defaults.State(), failed) == ApplyWalk(Run(old(defaults.State()), false), defaults.tool, readable, current, snap, visit, snapOrder)
  {
    snapOrder := [];
    if snap.None? {
      failed := RunDomains(Writing, current, visit, defaults, readable);
    } else {
      var snapVisit := OlderCommands.Order(snap.value);
      snapOrder := snapVisit;
      var added, modified := NewAndModified(current, snap.value, visit);
      var removed := RemovedDomains(current, snapVisit);
      failed := RunDomains(Writing, current, added + modified, defaults, readable);
      if !failed {
        failed := RunDomains(Removing, snap.value, removed, defaults, readable);
      }
    }
  }

  /**
   * `unapply_defaults`: without a snapshot, or with a snapshot or a
   * configuration that does not load, it fails before anything is
   * started; when the two differ, it goes on only if the user confirms.
   * Then a delete walk over every domain of the snapshot, in the order
   * handed back, and the snapshot is removed.
   */
  method UnapplyDefaults(config: Option<Stored>, snapshot: SnapshotCopy, defaults: DefaultsCli.Defaults,
                         readable: set<string>, confirmed: bool)
    returns (r: Result<()>, ghost snapOrder: seq<string>)
    modifies snapshot, defaults
    ensures old(snapshot.content).None? ==> r.Err? && unchanged(snapshot, defaults)
    ensures old(snapshot.content).Some? && SnapshotDomains(old(snapshot.content).value).Err? ==> r.Err? && unchanged(snapshot, defaults)
    ensures !HoldsTable(config) ==> r.Err? && unchanged(snapshot, defaults)
    ensures old(snapshot.content).Some? && SnapshotDomains(old(snapshot.content).value).Ok? && HoldsTable(config) ==>
      var snap := SnapshotDomains(old(snapshot.content).value).value;
      if snap != ConfigDomains(config.value.config) && !confirmed then
        r.Err? && unchanged(snapshot, defaults)
      else
        && OlderCommands.Lists(snapOrder, snap)
        && var walk := Visited(Run(old(defaults.State()), false), defaults.tool, readable, Removing, snap, snapOrder);
           && defaults.State() == walk.session
           && (r.Ok? <==> !walk.failed && snapshot.writable)
           && snapshot.content == (if r.Ok? then None else old(snapshot.content))
  {
    snapOrder := [];
    if snapshot.content.None? {
      return Err("No snapshot found. Please apply settings first before unapplying."), snapOrder;
    }
    var loaded := SnapshotDomains(snapshot.content.value);
    if loaded.Err? {
      return Err(loaded.error), snapOrder;
    }
    var snap := loaded.value;
    if config.None? || !config.value.Parsed? {
      return Err("The configuration file does not load."), snapOrder;
    }
    var collected := CollectDomains(config.value.config);
    if collected.Err? {
      return Err(collected.error), snapOrder;
    }
    if snap != collected.value && !confirmed {
      return Err("Aborted unapply due to configuration differences."), snapOrder;
    }
    var visit := OlderCommands.Order(snap);
    snapOrder := visit;
    var failed := RunDomains(Removing, snap, visit, defaults, readable);
    if failed {
      return Err("A domain does not exist or defaults did not start."), snapOrder;
    }
    r := snapshot.Remove();
  }
}
