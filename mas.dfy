/**
 * The App Store applications `mas list` reports (src/mas/core.rs). Each
 * output line is `<id> <name words> <version>`: the id is the text before
 * the first space, and the name is the words after it without the last
 * one, joined by single spaces. A line without a space gives no
 * application.
 *
 * Whether `mas` is installed (`mas version` succeeds) and what `mas list`
 * gives are parameters.
 */
module Mas {
  import opened Wrappers
  import Text
  import Domains

  /** `MasApplication` */
  datatype MasApplication = MasApplication(id: string, name: string)

  /** `splitn(2, ' ')` when it yields two parts: the text before the first space and the text after it. */
  function SplitOnce(line: string): (r: Option<(string, string)>)
    ensures r.Some? <==> ' ' in line
    ensures r.Some? ==> line == r.value.0 + " " + r.value.1 && ' ' !in r.value.0
  {
    if ' ' in line then
      var i := Text.IndexOf(line, ' ');
      assert line == line[..i] + " " + line[i + 1..];
      Some((line[..i], line[i + 1..]))
    else None
  }

  /** The name read from the text after the id: its words but the last, joined by single spaces. */
  function NameOf(rest: string): string
  {
    var words := Text.SplitWhitespace(rest);
    if |words| == 0 then "" else Text.Join(words[..|words| - 1], " ")
  }

  /** The application one line describes, if it has a space. */
  function ParseLine(line: string): (r: Option<MasApplication>)
    ensures r.Some? <==> ' ' in line
    ensures r.Some? ==> ' ' !in r.value.id && exists rest :: line == r.value.id + " " + rest && r.value.name == NameOf(rest)
  {
    match SplitOnce(line)
    case Some((id, rest)) => Some(MasApplication(id, NameOf(rest)))
    case None => None
  }

  /** The applications the lines describe, in line order. */
  function Apps(lines: seq<string>): (r: seq<MasApplication>)
    ensures |r| <= |lines|
  {
    if |lines| == 0 then []
    else
      var last := ParseLine(lines[|lines| - 1]);
      Apps(lines[..|lines| - 1]) + (if last.Some? then [last.value] else [])
  }

  /**
   * `list_apps`: an error when `mas` is not installed, cannot be started or
   * fails; otherwise the applications of the output's lines.
   */
  function ListApps(installed: bool, list: Domains.Output): (r: Result<seq<MasApplication>>)
    ensures r.Ok? <==> installed && list.Exited? && list.success
    ensures r.Ok? ==> r.value == Apps(Text.Lines(list.stdout)) && |r.value| <= |Text.Lines(list.stdout)|
  {
    if !installed then Err("mas was not found in $PATH, so cannot check for installed apps.")
    else if list.NotSpawned? then Err("mas list could not be started")
    else if !list.success then Err("Failed to check app list using `mas list`.")
    else Ok(Apps(Text.Lines(list.stdout)))
  }

  /** The lines are read in order: the applications of two blocks of lines are those of each block, one after the other. */
  lemma {:induction false} AppsAppend(a: seq<string>, b: seq<string>)
    ensures Apps(a + b) == Apps(a) + Apps(b)
    decreases |b|
  {
    if |b| == 0 {
      assert a + b == a;
    } else {
      var init := b[..|b| - 1];
      assert (a + b)[..|a + b| - 1] == a + init;
      assert (a + b)[|a + b| - 1] == b[|b| - 1];
      AppsAppend(a, init);
    }
  }

  /** An application is listed exactly when some line describes it. */
  lemma {:induction false} AppsMembers(lines: seq<string>, app: MasApplication)
    ensures app in Apps(lines) <==> exists i :: 0 <= i < |lines| && ParseLine(lines[i]) == Some(app)
  {
    if |lines| > 0 {
      var init := lines[..|lines| - 1];
      AppsMembers(init, app);
      if app in Apps(lines) && app !in Apps(init) {
        assert ParseLine(lines[|lines| - 1]) == Some(app);
      }
      if exists i :: 0 <= i < |lines| && ParseLine(lines[i]) == Some(app) {
        var i :| 0 <= i < |lines| && ParseLine(lines[i]) == Some(app);
        if i < |lines| - 1 {
          assert init[i] == lines[i];
        }
      }
    }
  }

  /** A word: not empty, and no white space in it. */
  predicate IsWord(w: string)
  {
    |w| > 0 && forall c :: c in w ==> !Text.IsWhitespace(c)
  }

  /** Words joined by single spaces are split back into exactly those words. */
  lemma WordsReadBack(words: seq<string>)
    requires forall i :: 0 <= i < |words| ==> IsWord(words[i])
    ensures Text.SplitWhitespace(Text.Join(words, " ")) == words
  {
    RunsOfJoin(words, "");
  }

  lemma {:induction false} RunsOfJoin(words: seq<string>, run: string)
    requires run == ""
    requires forall i :: 0 <= i < |words| ==> IsWord(words[i])
    ensures Text.Runs(Text.Join(words, " "), Text.IsWhitespace, run) == words
    decreases |words|
  {
    if |words| == 1 {
      RunsOfWord(words[0], "", "");
      assert words[0] + "" == words[0] && "" + words[0] == words[0];
      assert Text.Runs("", Text.IsWhitespace, words[0]) == [words[0]];
      assert words == [words[0]];
    } else if |words| > 1 {
      var rest := Text.Join(words[1..], " ");
      assert Text.Join(words, " ") == words[0] + (" " + rest);
      RunsOfWord(words[0], " " + rest, "");
      assert "" + words[0] == words[0];
      var tail := " " + rest;
      assert tail[0] == ' ' && tail[1..] == rest;
      assert Text.IsWhitespace(' ');
      assert Text.Runs(tail, Text.IsWhitespace, words[0]) == [words[0]] + Text.Runs(rest, Text.IsWhitespace, "");
      RunsOfJoin(words[1..], "");
      assert [words[0]] + words[1..] == words;
    }
  }

  /** Reading a word only extends the current run. */
  lemma {:induction false} RunsOfWord(w: string, rest: string, run: string)
    requires forall c :: c in run ==> !Text.IsWhitespace(c)
    requires forall c :: c in w ==> !Text.IsWhitespace(c)
    ensures Text.Runs(w + rest, Text.IsWhitespace, run) == Text.Runs(rest, Text.IsWhitespace, run + w)
    decreases |w|
  {
    if |w| > 0 {
      assert (w + rest)[0] == w[0];
      assert (w + rest)[1..] == w[1..] + rest;
      RunsOfWord(w[1..], rest, run + [w[0]]);
      assert run + [w[0]] + w[1..] == run + w;
    } else {
      assert w + rest == rest;
      assert run + w == run;
    }
  }

  /** The words of a name are the words after the id without the last one; none when there is at most one. */
  lemma NameWords(rest: string)
    ensures var words := Text.SplitWhitespace(rest);
      Text.SplitWhitespace(NameOf(rest)) == if |words| == 0 then [] else words[..|words| - 1]
  {
    var words := Text.SplitWhitespace(rest);
    if |words| > 0 {
      var init := words[..|words| - 1];
      assert forall i :: 0 <= i < |init| ==> init[i] == words[i];
      WordsReadBack(init);
    }
  }

  /** Reading a line splits at its first space: an id without spaces is read back whole. */
  lemma SplitAtId(id: string, rest: string)
    requires ' ' !in id
    ensures SplitOnce(id + " " + rest) == Some((id, rest))
  {
    var line := id + " " + rest;
    assert line[|id|] == ' ';
    var i := Text.IndexOf(line, ' ');
    assert forall k :: 0 <= k < |id| ==> line[k] == id[k];
    assert i == |id|;
    assert line[..i] == id && line[i + 1..] == rest;
  }

  /**
   * A line laid out as `mas list` prints it, an id, the words of the name
   * and a version, is read back as that id and that name.
   */
  lemma PrintedLineReadsBack(id: string, words: seq<string>, version: string)
    requires ' ' !in id && IsWord(version)
    requires forall i :: 0 <= i < |words| ==> IsWord(words[i])
    ensures ParseLine(id + " " + Text.Join(words + [version], " ")) == Some(MasApplication(id, Text.Join(words, " ")))
  {
    var all := words + [version];
    assert forall i :: 0 <= i < |all| ==> IsWord(all[i]);
    SplitAtId(id, Text.Join(all, " "));
    WordsReadBack(all);
    assert all[..|all| - 1] == words;
  }
}
