/**
 * The note-writing skill: where the data repository is, the note's file
 * name, how the piped content is normalised, and the outcome of the git
 * steps that publish the note. Paths are strings; git, the file system
 * and the date parser are parameters.
 */
module WriteNote {
  import opened Wrappers
  import opened Text

  /* ---------------------------------------------------------------- */
  /* Paths                                                             */
  /* ---------------------------------------------------------------- */

  predicate IsAbsolute(p: string) { |p| > 0 && p[0] == '/' }

  /** `a / b` on paths: an absolute right side replaces the left one. */
  function PathJoin(a: string, b: string): (r: string)
    ensures IsAbsolute(b) ==> r == b
    ensures !IsAbsolute(b) && a != "" ==> StartsWith(r, a) && EndsWith(r, b)
    ensures IsAbsolute(a) || IsAbsolute(b) ==> IsAbsolute(r)
  {
    if IsAbsolute(b) || a == "" then b
    else if EndsWith(a, "/") then a + b
    else a + "/" + b
  }

  /** `Path.expanduser()` for `~` and `~/...`. */
  function ExpandUser(p: string, home: string): (r: string)
    ensures !StartsWith(p, "~") ==> r == p
  {
    if p == "~" then home
    else if StartsWith(p, "~/") then home + p[1..]
    else p
  }

  /** `Path.absolute()`: a relative path is taken from the working directory. */
  function Absolute(p: string, cwd: string): (r: string)
    ensures IsAbsolute(p) ==> r == p
    ensures IsAbsolute(cwd) ==> IsAbsolute(r)
  {
    if IsAbsolute(p) then p else PathJoin(cwd, p)
  }

  /**
   * `get_data_repo`: a non-empty `--workspace` wins, with `~` expanded;
   * then a non-empty `data_repo` from the configuration, a relative one
   * being taken from the processor directory; then `~/git/meeting-notes`.
   */
  function DataRepo(workspace: Option<string>, configDataRepo: Option<string>,
                    processorDir: string, home: string, cwd: string): string
  {
    if workspace.Some? && workspace.value != "" then
      Absolute(ExpandUser(workspace.value, home), cwd)
    else if configDataRepo.Some? && configDataRepo.value != "" then
      var d := configDataRepo.value;
      Absolute(if IsAbsolute(d) then d else PathJoin(processorDir, d), cwd)
    else
      PathJoin(PathJoin(home, "git"), "meeting-notes")
  }

  /**
   * The precedence of `get_data_repo`: a workspace makes the configuration
   * irrelevant; a relative configured path lands under the processor
   * directory; with neither, the default sits under the home directory.
   * With an absolute home, processor directory and working directory the
   * result is absolute.
   */
  lemma DataRepoPrecedence(workspace: Option<string>, config: Option<string>, other: Option<string>,
                           processorDir: string, home: string, cwd: string)
    ensures workspace.Some? && workspace.value != "" ==>
              DataRepo(workspace, config, processorDir, home, cwd) == DataRepo(workspace, other, processorDir, home, cwd)
    ensures (workspace.None? || workspace.value == "") && config.Some? && config.value != "" &&
            !IsAbsolute(config.value) && IsAbsolute(processorDir) ==>
              StartsWith(DataRepo(workspace, config, processorDir, home, cwd), processorDir) &&
              EndsWith(DataRepo(workspace, config, processorDir, home, cwd), config.value)
    ensures (workspace.None? || workspace.value == "") && (config.None? || config.value == "") && home != "" ==>
              StartsWith(DataRepo(workspace, config, processorDir, home, cwd), home) &&
              EndsWith(DataRepo(workspace, config, processorDir, home, cwd), "meeting-notes")
    ensures IsAbsolute(processorDir) && IsAbsolute(home) && IsAbsolute(cwd) ==>
              IsAbsolute(DataRepo(workspace, config, processorDir, home, cwd))
  {
    if (workspace.None? || workspace.value == "") && (config.None? || config.value == "") && home != "" {
      var g := PathJoin(home, "git");
      assert StartsWith(g, home);
      assert g[..|home|] == home;
      var r := PathJoin(g, "meeting-notes");
      assert r[..|g|] == g;
      assert r[..|home|] == g[..|home|];
    }
    if workspace.Some? && workspace.value != "" && IsAbsolute(home) && IsAbsolute(cwd) {
      var w := workspace.value;
      if w == "~" {
      } else if StartsWith(w, "~/") {
        assert (home + w[1..])[0] == home[0];
      }
    }
  }

  /* ---------------------------------------------------------------- */
  /* The note's file                                                   */
  /* ---------------------------------------------------------------- */

  /** `date.replace('-', '')[:8]`. */
  function DatePrefix(date: string): (r: string)
    ensures |r| <= 8
  {
    Slice(ReplaceAll(date, "-", ""), 0, 8)
  }

  /** `f"{date_prefix}-{slug}.org"`. */
  function NoteFilename(date: string, slug: string): string
  {
    DatePrefix(date) + "-" + slug + ".org"
  }

  /** The note's path: `notes/` under the data repository. */
  function NotePath(repo: string, date: string, slug: string): string
  {
    PathJoin(PathJoin(repo, "notes"), NoteFilename(date, slug))
  }

  /** A date written `YYYY-MM-DD`. */
  predicate IsIsoDate(date: string)
  {
    |date| == 10 && date[4] == '-' && date[7] == '-' &&
    AllDigits(date[..4]) && AllDigits(date[5..7]) && AllDigits(date[8..])
  }

  lemma {:induction false} ReplaceAllAppend(a: string, b: string, c: char)
    ensures ReplaceAll(a + b, [c], "") == ReplaceAll(a, [c], "") + ReplaceAll(b, [c], "")
    decreases |a|
  {
    if |a| > 0 {
      assert (a + b)[0] == a[0];
      assert StartsWith(a + b, [c]) == StartsWith(a, [c]);
      assert (a + b)[1..] == a[1..] + b;
      ReplaceAllAppend(a[1..], b, c);
    } else {
      assert a + b == b;
    }
  }

  lemma DigitsHaveNoHyphen(s: string)
    requires AllDigits(s)
    ensures ReplaceAll(s, "-", "") == s
  {
    forall k | 0 <= k < |s| ensures !OccursAt(s, "-", k) {
      assert s[k..k + 1][0] == s[k];
    }
    assert !Contains(s, "-");
    ReplaceAllAbsent(s, "-", "");
  }

  /** For a `YYYY-MM-DD` date the prefix is its eight digits, year, month and day in order. */
  lemma IsoDatePrefix(date: string)
    requires IsIsoDate(date)
    ensures DatePrefix(date) == date[..4] + date[5..7] + date[8..]
    ensures |DatePrefix(date)| == 8 && AllDigits(DatePrefix(date))
  {
    var y, m, d := date[..4], date[5..7], date[8..];
    assert date == y + "-" + m + "-" + d;
    ReplaceAllAppend(y + "-" + m + "-", d, '-');
    ReplaceAllAppend(y + "-" + m, "-", '-');
    ReplaceAllAppend(y + "-", m, '-');
    ReplaceAllAppend(y, "-", '-');
    assert ReplaceAll("-", "-", "") == "";
    DigitsHaveNoHyphen(y);
    DigitsHaveNoHyphen(m);
    DigitsHaveNoHyphen(d);
    var r := y + m + d;
    assert ReplaceAll(date, "-", "") == r;
    assert Slice(r, 0, 8) == r[..8] == r;
    assert forall i :: 0 <= i < 8 ==> IsDigit(r[i]) by {
      forall i | 0 <= i < 8 ensures IsDigit(r[i]) {
        if i < 4 { assert r[i] == y[i]; }
        else if i < 6 { assert r[i] == m[i - 4]; }
        else { assert r[i] == d[i - 6]; }
      }
    }
  }

  /** A note for a `YYYY-MM-DD` date lands in the repository's `notes/` directory under its `.org` name. */
  lemma NotePathInNotes(repo: string, date: string, slug: string)
    requires IsIsoDate(date) && repo != ""
    ensures var dir := PathJoin(repo, "notes");
            NotePath(repo, date, slug) == dir + "/" + NoteFilename(date, slug) &&
            StartsWith(NotePath(repo, date, slug), repo) && EndsWith(NotePath(repo, date, slug), ".org")
  {
    IsoDatePrefix(date);
    var dir := PathJoin(repo, "notes");
    var name := NoteFilename(date, slug);
    assert name[0] == DatePrefix(date)[0];
    assert IsDigit(name[0]);
    assert EndsWith(dir, "notes");
    assert dir[|dir| - 1] == 's';
    assert !EndsWith(dir, "/");
    var p := dir + "/" + name;
    assert p[..|dir|] == dir;
    assert dir[..|repo|] == repo;
    assert p[..|repo|] == repo;
    assert p[|p| - 4..] == name[|name| - 4..];
  }

  /**
   * The content step of the script: content that strips to nothing is
   * rejected; otherwise a trailing newline is added when it is missing.
   */
  function PrepareContent(content: string): Option<string>
  {
    if Strip(content) == "" then None
    else if EndsWith(content, "\n") then Some(content)
    else Some(content + "\n")
  }

  /**
   * Content is rejected exactly when it is all whitespace; accepted
   * content is kept in full, ends with a newline, gains at most that one
   * character, and a second pass leaves it unchanged.
   */
  lemma PrepareContentMeaning(content: string)
    ensures PrepareContent(content).None? <==> IsBlank(content)
    ensures PrepareContent(content).Some? ==>
              var r := PrepareContent(content).value;
              StartsWith(r, content) && EndsWith(r, "\n") && |r| <= |content| + 1 &&
              PrepareContent(r) == Some(r)
  {
    StripEmptyIff(content);
    if PrepareContent(content).Some? {
      var r := PrepareContent(content).value;
      assert r[..|content|] == content;
      StripEmptyIff(r);
    }
  }

  /* ---------------------------------------------------------------- */
  /* Git                                                               */
  /* ---------------------------------------------------------------- */

  /** What one `git` run returned. */
  datatype GitResult = GitResult(returnCode: int, stdout: string, stderr: string)

  const PullCommand: seq<string> := ["pull", "--rebase", "origin", "main"]
  const PushCommand: seq<string> := ["push", "origin", "main"]

  function AddCommand(relPath: string): seq<string> { ["add", relPath] }

  function CommitCommand(title: string): seq<string> { ["commit", "-m", "Add WorkIQ note: " + title] }

  /** A pull passes when it succeeded or reports that the branch is already up to date. */
  predicate PullPassed(r: GitResult)
  {
    r.returnCode == 0 || Contains(r.stdout, "Already up to date") || Contains(r.stderr, "Already up to date")
  }

  predicate NothingToCommit(r: GitResult)
  {
    Contains(r.stdout, "nothing to commit") || Contains(r.stderr, "nothing to commit")
  }

  /**
   * When the git workflow reports success: the first pull and the add
   * pass, the commit either succeeds or finds nothing to commit, and a
   * commit that is to be pushed needs the second pull and the push to
   * pass.
   */
  predicate GitSucceeds(push: bool, pull1: GitResult, add: GitResult, commit: GitResult,
                        pull2: GitResult, pushed: GitResult)
  {
    PullPassed(pull1) && add.returnCode == 0 &&
    (commit.returnCode != 0 ==> NothingToCommit(commit)) &&
    (commit.returnCode == 0 && push ==> PullPassed(pull2) && pushed.returnCode == 0)
  }

  /** `" → ".join(steps)`. */
  function Progress(steps: seq<string>): string { JoinWith(steps, " → ") }

  /**
   * `git_sync_and_commit`: pull, add, commit, and, unless pushing is
   * off, pull again and push, stopping at the first step that fails.
   * `commands` lists the git runs made, in order; each git result is the
   * one the run at that step would give.
   */
  method GitSyncAndCommit(relPath: string, title: string, push: bool,
                          pull1: GitResult, add: GitResult, commit: GitResult, pull2: GitResult, pushed: GitResult)
    returns (ok: bool, message: string, commands: seq<seq<string>>)
    ensures ok == GitSucceeds(push, pull1, add, commit, pull2, pushed)
    ensures !PullPassed(pull1) ==>
              commands == [PullCommand] && message == "Initial pull --rebase failed: " + Strip(pull1.stderr)
    ensures PullPassed(pull1) && add.returnCode != 0 ==>
              commands == [PullCommand, AddCommand(relPath)] && message == "git add failed: " + Strip(add.stderr)
    ensures PullPassed(pull1) && add.returnCode == 0 && commit.returnCode != 0 ==>
              commands == [PullCommand, AddCommand(relPath), CommitCommand(title)] &&
              message == (if NothingToCommit(commit) then "Nothing to commit (file unchanged)"
                          else "git commit failed: " + Strip(commit.stderr))
    ensures PullPassed(pull1) && add.returnCode == 0 && commit.returnCode == 0 && !push ==>
              commands == [PullCommand, AddCommand(relPath), CommitCommand(title)] &&
              message == Progress(["Pulled", "Committed"]) + " (push skipped)"
    ensures PullPassed(pull1) && add.returnCode == 0 && commit.returnCode == 0 && push ==>
              |commands| >= 3 && commands[..3] == [PullCommand, AddCommand(relPath), CommitCommand(title)] &&
              (!PullPassed(pull2) ==> (commands == commands[..3] + [PullCommand] &&
                 message == "Pre-push pull --rebase failed: " + Strip(pull2.stderr))) &&
              (PullPassed(pull2) ==> commands == commands[..3] + [PullCommand, PushCommand]) &&
              (PullPassed(pull2) && pushed.returnCode != 0 ==> message == "git push failed: " + Strip(pushed.stderr)) &&
              (PullPassed(pull2) && pushed.returnCode == 0 ==> message == Progress(["Pulled", "Committed", "Pushed"]))
    ensures PushCommand in commands ==> |commands| == 5 && push && commands[3] == PullCommand && PullPassed(pull2)
  {
    var messages: seq<string> := [];
    commands := [PullCommand];
    if !PullPassed(pull1) {
      return false, "Initial pull --rebase failed: " + Strip(pull1.stderr), commands;
    }
    messages := messages + ["Pulled"];
    commands := commands + [AddCommand(relPath)];
    if add.returnCode != 0 {
      return false, "git add failed: " + Strip(add.stderr), commands;
    }
    commands := commands + [CommitCommand(title)];
    if commit.returnCode != 0 {
      if NothingToCommit(commit) {
        return true, "Nothing to commit (file unchanged)", commands;
      }
      return false, "git commit failed: " + Strip(commit.stderr), commands;
    }
    messages := messages + ["Committed"];
    if !push {
      return true, Progress(messages) + " (push skipped)", commands;
    }
    commands := commands + [PullCommand];
    if !PullPassed(pull2) {
      return false, "Pre-push pull --rebase failed: " + Strip(pull2.stderr), commands;
    }
    commands := commands + [PushCommand];
    if pushed.returnCode != 0 {
      return false, "git push failed: " + Strip(pushed.stderr), commands;
    }
    messages := messages + ["Pushed"];
    assert messages == ["Pulled", "Committed", "Pushed"];
    return true, Progress(messages), commands;
  }

  /* ---------------------------------------------------------------- */
  /* The script                                                        */
  /* ---------------------------------------------------------------- */

  /** The script's arguments, apart from the git results. */
  datatype Args = Args(date: string, slug: string, title: string, workspace: Option<string>,
                       noPush: bool, dryRun: bool)

  /** Where the script runs: the configuration, its directories, and which paths exist. */
  datatype Env = Env(configDataRepo: Option<string>, processorDir: string, home: string, cwd: string,
                     existing: set<string>)

  /**
   * The script's main flow. A date the parser rejects, a terminal on
   * standard input, and blank content each end with status 1 before
   * anything is written; a dry run ends with status 0 without writing; a
   * missing repository or `notes/` directory ends with status 1. Otherwise
   * the normalised content is written to the note's path and the status is
   * 0 exactly when the git workflow succeeds.
   */
  method Run(args: Args, dateValid: bool, stdinIsTty: bool, content: string, env: Env,
             pull1: GitResult, add: GitResult, commit: GitResult, pull2: GitResult, pushed: GitResult)
    returns (exitCode: int, written: Option<(string, string)>, commands: seq<seq<string>>)
    ensures var repo := DataRepo(args.workspace, env.configDataRepo, env.processorDir, env.home, env.cwd);
            var proceeds := dateValid && !stdinIsTty && PrepareContent(content).Some? && !args.dryRun &&
                            repo in env.existing && PathJoin(repo, "notes") in env.existing;
            (!proceeds ==> (written.None? && commands == [] &&
               (exitCode == 0 <==> dateValid && !stdinIsTty && PrepareContent(content).Some? && args.dryRun))) &&
            (proceeds ==> (written == Some((NotePath(repo, args.date, args.slug), PrepareContent(content).value)) &&
               |commands| > 0 && commands[0] == PullCommand &&
               (exitCode == 0 <==> GitSucceeds(!args.noPush, pull1, add, commit, pull2, pushed))))
    ensures exitCode == 0 || exitCode == 1
  {
    written := None;
    commands := [];
    if !dateValid || stdinIsTty {
      return 1, written, commands;
    }
    var prepared := PrepareContent(content);
    if prepared.None? {
      return 1, written, commands;
    }
    var repo := DataRepo(args.workspace, env.configDataRepo, env.processorDir, env.home, env.cwd);
    var notesDir := PathJoin(repo, "notes");
    var name := NoteFilename(args.date, args.slug);
    var path := PathJoin(notesDir, name);
    if args.dryRun {
      return 0, written, commands;
    }
    if repo !in env.existing || notesDir !in env.existing {
      return 1, written, commands;
    }
    written := Some((path, prepared.value));
    var ok, message;
    ok, message, commands := GitSyncAndCommit(PathJoin("notes", name), args.title, !args.noPush,
                                              pull1, add, commit, pull2, pushed);
    exitCode := if ok then 0 else 1;
  }
}
