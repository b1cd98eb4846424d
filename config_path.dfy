/**
 * Where the configuration file is looked for (src/config/path.rs): up to
 * four candidates built from `$HOME` and `$XDG_CONFIG_HOME`, the first that
 * exists chosen, else the first candidate, else a path under the home
 * directory; the choice is kept for the rest of the process.
 *
 * The two environment variables, which paths exist (`fs::try_exists`, an
 * error read as "does not exist") and `dirs::home_dir` are parameters.
 */
module ConfigPath {
  import opened Wrappers
  import Text

  /** `PathBuf::from(root).join(parts[0]).join(parts[1])...`: a path as it is built, before it is written out. */
  datatype Path = Path(root: string, parts: seq<string>)

  /** `PathBuf::push` with a relative part: a `/` between the two unless the base is empty or already ends in one. */
  function Join(base: string, part: string): (r: string)
    ensures Text.EndsWith(r, part)
  {
    if base == "" || Text.EndsWith(base, "/") then base + part else base + "/" + part
  }

  /** The text of a path: its parts joined to its root one after the other. */
  function Rendered(p: Path): (r: string)
    ensures |p.parts| > 0 ==> Text.EndsWith(r, p.parts[|p.parts| - 1])
    decreases |p.parts|
  {
    if |p.parts| == 0 then p.root
    else Join(Rendered(Path(p.root, p.parts[..|p.parts| - 1])), p.parts[|p.parts| - 1])
  }

  /** The candidates in the order they are tried: the two under `$HOME/.config`, then the two under `$XDG_CONFIG_HOME`. */
  function Candidates(home: Option<string>, xdg: Option<string>): seq<Path>
  {
    (if home.Some? then [Path(home.value, [".config", "cutler", "config.toml"])] else [])
    + (if home.Some? then [Path(home.value, [".config", "cutler.toml"])] else [])
    + (if xdg.Some? then [Path(xdg.value, ["cutler", "config.toml"])] else [])
    + (if xdg.Some? then [Path(xdg.value, ["cutler.toml"])] else [])
  }

  /** The path used when neither variable is set: `<home_dir or ~>/.config/cutler/config.toml`. */
  function Fallback(homeDir: Option<string>): Path
  {
    Path(if homeDir.Some? then homeDir.value else "~", [".config", "cutler", "config.toml"])
  }

  /** The position of the first candidate that exists, if any. */
  function FirstExisting(candidates: seq<Path>, exists_: Path -> bool): (r: Option<nat>)
    ensures r.Some? ==> r.value < |candidates| && exists_(candidates[r.value])
    ensures r.Some? ==> forall j :: 0 <= j < r.value ==> !exists_(candidates[j])
    ensures r.None? ==> forall j :: 0 <= j < |candidates| ==> !exists_(candidates[j])
  {
    if |candidates| == 0 then None
    else if exists_(candidates[0]) then Some(0)
    else
      match FirstExisting(candidates[1..], exists_)
      case Some(i) => Some(i + 1)
      case None => None
  }

  /** The first existing candidate, else the first candidate, else the fallback. */
  function Choose(candidates: seq<Path>, exists_: Path -> bool, fallback: Path): Path
  {
    match FirstExisting(candidates, exists_)
    case Some(i) => candidates[i]
    case None => if |candidates| > 0 then candidates[0] else fallback
  }

  /** The path chosen on the first call. */
  function Chosen(home: Option<string>, xdg: Option<string>, exists_: Path -> bool, homeDir: Option<string>): Path
  {
    Choose(Candidates(home, xdg), exists_, Fallback(homeDir))
  }

  /** The candidate list, built by pushing each candidate whose variable is set. */
  method BuildCandidates(home: Option<string>, xdg: Option<string>) returns (candidates: seq<Path>)
    ensures candidates == Candidates(home, xdg)
  {
    candidates := [];
    if home.Some? {
      candidates := candidates + [Path(home.value, [".config", "cutler", "config.toml"])];
    }
    if home.Some? {
      candidates := candidates + [Path(home.value, [".config", "cutler.toml"])];
    }
    if xdg.Some? {
      candidates := candidates + [Path(xdg.value, ["cutler", "config.toml"])];
    }
    if xdg.Some? {
      candidates := candidates + [Path(xdg.value, ["cutler.toml"])];
    }
  }

  /** The search loop: the first candidate that exists, stopping there. */
  method FindExisting(candidates: seq<Path>, exists_: Path -> bool) returns (found: Option<Path>)
    ensures found.Some? ==> found.value in candidates && exists_(found.value)
    ensures found == (match FirstExisting(candidates, exists_) case Some(i) => Some(candidates[i]) case None => None)
  {
    found := None;
    var i := 0;
    while i < |candidates|
      invariant i <= |candidates|
      invariant forall j :: 0 <= j < i ==> !exists_(candidates[j])
    {
      if exists_(candidates[i]) {
        found := Some(candidates[i]);
        FirstIs(candidates, exists_, i);
        return;
      }
      i := i + 1;
    }
  }

  /** A candidate that exists after only candidates that do not is the first existing one. */
  lemma {:induction false} FirstIs(candidates: seq<Path>, exists_: Path -> bool, i: nat)
    requires i < |candidates| && exists_(candidates[i])
    requires forall j :: 0 <= j < i ==> !exists_(candidates[j])
    ensures FirstExisting(candidates, exists_) == Some(i)
  {
    if i > 0 {
      FirstIs(candidates[1..], exists_, i - 1);
    }
  }

  /** `CONFIG_PATH`: the path decided for this process, once it is decided. */
  class PathCache {
    var path: Option<Path>

    constructor()
      ensures path == None
    {
      path := None;
    }

    /**
     * `get_config_path`: the cached path when there is one; otherwise the
     * first existing candidate, else the first candidate, else the
     * fallback, which is then cached.
     */
    method GetConfigPath(home: Option<string>, xdg: Option<string>, exists_: Path -> bool, homeDir: Option<string>)
      returns (chosen: Path)
      modifies this
      ensures old(path).Some? ==> chosen == old(path).value && path == old(path)
      ensures old(path).None? ==> chosen == Chosen(home, xdg, exists_, homeDir) && path == Some(chosen)
    {
      if path.Some? {
        return path.value;
      }
      var candidates := BuildCandidates(home, xdg);
      var found := FindExisting(candidates, exists_);
      if found.Some? {
        chosen := found.value;
      } else if |candidates| > 0 {
        chosen := candidates[0];
      } else {
        chosen := Fallback(homeDir);
      }
      path := Some(chosen);
    }
  }

  /** The last part of a path: the file it names. */
  function FileName(p: Path): string
  {
    if |p.parts| == 0 then p.root else p.parts[|p.parts| - 1]
  }

  /** Both variables set: four candidates, the `$HOME` ones first, a `config.toml` and then a `cutler.toml` under each. */
  lemma CandidateOrder(home: string, xdg: string)
    ensures var c := Candidates(Some(home), Some(xdg));
      && |c| == 4
      && c[0].root == home && c[1].root == home && c[2].root == xdg && c[3].root == xdg
      && FileName(c[0]) == "config.toml" && FileName(c[2]) == "config.toml"
      && FileName(c[1]) == "cutler.toml" && FileName(c[3]) == "cutler.toml"
  {
  }

  /** The choice is one of the candidates, or the fallback when there are none. */
  lemma ChooseIsCandidate(candidates: seq<Path>, exists_: Path -> bool, fallback: Path)
    ensures var p := Choose(candidates, exists_, fallback);
      if |candidates| > 0 then p in candidates else p == fallback
  {
  }

  /** Whatever the environment, the chosen path names a `config.toml` or a `cutler.toml`, and its text ends with that name. */
  lemma ChosenIsConfigFile(home: Option<string>, xdg: Option<string>, exists_: Path -> bool, homeDir: Option<string>)
    ensures var p := Chosen(home, xdg, exists_, homeDir);
      && (FileName(p) == "config.toml" || FileName(p) == "cutler.toml")
      && Text.EndsWith(Rendered(p), FileName(p))
  {
    ChooseIsCandidate(Candidates(home, xdg), exists_, Fallback(homeDir));
  }

  /** The choice is a candidate that exists, preceded only by candidates that do not, whenever one exists. */
  lemma ChooseFirstExisting(candidates: seq<Path>, exists_: Path -> bool, fallback: Path, i: nat)
    requires i < |candidates| && exists_(candidates[i])
    ensures var p := Choose(candidates, exists_, fallback);
      exists_(p) && exists k :: 0 <= k <= i && candidates[k] == p && forall j :: 0 <= j < k ==> !exists_(candidates[j])
  {
  }

  /** When no candidate exists, the first one is chosen, or the fallback when there are none. */
  lemma ChooseWithoutExisting(candidates: seq<Path>, exists_: Path -> bool, fallback: Path)
    requires forall j :: 0 <= j < |candidates| ==> !exists_(candidates[j])
    ensures Choose(candidates, exists_, fallback) == if |candidates| > 0 then candidates[0] else fallback
  {
  }

  /** With neither variable set, the path is the fallback under the home directory, whatever exists. */
  lemma ChosenWithoutVariables(exists_: Path -> bool, homeDir: Option<string>)
    ensures Chosen(None, None, exists_, homeDir) == Fallback(homeDir)
  {
  }

  /** An existing `$HOME/.config/cutler/config.toml` wins over everything else. */
  lemma HomeConfigWins(home: string, xdg: Option<string>, exists_: Path -> bool, homeDir: Option<string>)
    requires exists_(Path(home, [".config", "cutler", "config.toml"]))
    ensures Chosen(Some(home), xdg, exists_, homeDir) == Path(home, [".config", "cutler", "config.toml"])
  {
    FirstIs(Candidates(Some(home), xdg), exists_, 0);
  }
}
