/**
 * The bookkeeping of the transcriber appliance: cleaning whisper output
 * (the run-length hallucination filter and timestamp stripping), the
 * lifecycle of a recording through `/start`, `/stop` and the sequential
 * transcription worker, the newest-first list of recent recordings,
 * age-based cleanup of the recordings directory, and the header checks of
 * the VBAN capture.
 */
module Transcriber {
  import opened Wrappers
  import opened Text
  import Vban
  import Segmenting

  /* ---------------------------------------------------------------- */
  /* The timestamp prefix `^\[[\d:.]+\s*-->\s*[\d:.]+\]\s*`            */
  /* ---------------------------------------------------------------- */

  predicate IsClockChar(c: char) { IsDigit(c) || c == ':' || c == '.' }

  /** The end of the run of `[\d:.]` characters starting at `i`. */
  function ClockSpan(s: string, i: nat): (j: nat)
    requires i <= |s|
    ensures i <= j <= |s|
    ensures j < |s| ==> !IsClockChar(s[j])
    decreases |s| - i
  {
    if i == |s| || !IsClockChar(s[i]) then i else ClockSpan(s, i + 1)
  }

  /** The length of the timestamp prefix at the start of `line`, if there is one. */
  function TimestampPrefix(line: string): (n: Option<nat>)
    ensures n.Some? ==> 0 < n.value <= |line| && line[0] == '['
  {
    if |line| == 0 || line[0] != '[' then None
    else
      var a := ClockSpan(line, 1);
      var b := SkipSpace(line, a);
      if a == 1 || !StartsWith(line[b..], "-->") then None
      else
        var c := SkipSpace(line, b + 3);
        var d := ClockSpan(line, c);
        if d == c || d == |line| || line[d] != ']' then None
        else Some(SkipSpace(line, d + 1))
  }

  /** The text a line is compared by: the line without its timestamp prefix, stripped. */
  function LineText(line: string): string
  {
    match TimestampPrefix(line)
    case Some(n) => Strip(line[n..])
    case None => Strip(line)
  }

  /* ---------------------------------------------------------------- */
  /* The hallucination filter                                          */
  /* ---------------------------------------------------------------- */

  /** Runs of at least this many identical lines are dropped. */
  const RepeatThreshold: nat := 3

  /** What the filter keeps of a finished run. */
  function Kept(run: seq<string>): seq<string>
  {
    if |run| < RepeatThreshold then run else []
  }

  /** The filter as the source computes it: one run after another, each kept or dropped whole. */
  function Filter(lines: seq<string>, text: string -> string): seq<string>
    decreases |lines|, 0
  {
    if |lines| == 0 then [] else Pass([lines[0]], lines[1..], text)
  }

  /** The filter with `run` in progress: the next line extends it if its text is the run's, and not empty. */
  function Pass(run: seq<string>, rest: seq<string>, text: string -> string): seq<string>
    requires |run| > 0
    decreases |rest|, 1
  {
    if |rest| > 0 && text(rest[0]) != "" && text(rest[0]) == text(run[0]) then
      Pass(run + [rest[0]], rest[1..], text)
    else Kept(run) + Filter(rest, text)
  }

  /** Line `i` repeats line `i - 1`: the same text, and not empty. */
  predicate Joins(lines: seq<string>, i: int, text: string -> string)
  {
    0 < i < |lines| && text(lines[i]) != "" && text(lines[i]) == text(lines[i - 1])
  }

  /** How many lines of the run of line `i` come before it. */
  function RunBefore(lines: seq<string>, i: nat, text: string -> string): nat
    requires i < |lines|
    decreases i
  {
    if Joins(lines, i, text) then 1 + RunBefore(lines, i - 1, text) else 0
  }

  /** How many lines of the run of line `i` come after it. */
  function RunAfter(lines: seq<string>, i: nat, text: string -> string): nat
    requires i < |lines|
    decreases |lines| - i
  {
    if Joins(lines, i + 1, text) then 1 + RunAfter(lines, i + 1, text) else 0
  }

  /** The length of the maximal run of repeated lines that holds line `i`. */
  function RunSize(lines: seq<string>, i: nat, text: string -> string): nat
    requires i < |lines|
  {
    RunBefore(lines, i, text) + 1 + RunAfter(lines, i, text)
  }

  /** Line `i` belongs to a run long enough to be taken for a hallucination. */
  predicate Hallucinated(lines: seq<string>, i: nat, text: string -> string)
    requires i < |lines|
  {
    RunSize(lines, i, text) >= RepeatThreshold
  }

  /** The reference definition: the lines from `i` on that are not hallucinated, in order. */
  function Survivors(lines: seq<string>, i: nat, text: string -> string): seq<string>
    requires i <= |lines|
    decreases |lines| - i
  {
    if i == |lines| then []
    else (if Hallucinated(lines, i, text) then [] else [lines[i]]) + Survivors(lines, i + 1, text)
  }

  /** In a run from `s` to `i`, every line has the run's text. */
  predicate RunFrom(lines: seq<string>, s: nat, i: nat, text: string -> string)
    requires s < i <= |lines|
  {
    (s == 0 || !Joins(lines, s, text)) &&
    forall j :: s < j < i ==> Joins(lines, j, text) && text(lines[j]) == text(lines[s])
  }

  /** In a maximal run from `s` to `i`, each line has `j - s` run lines before it. */
  lemma {:induction false} RunBeforeInRun(lines: seq<string>, s: nat, i: nat, j: nat, text: string -> string)
    requires s < i <= |lines| && RunFrom(lines, s, i, text) && s <= j < i
    ensures RunBefore(lines, j, text) == j - s
    decreases j
  {
    if j > s {
      RunBeforeInRun(lines, s, i, j - 1, text);
    }
  }

  /** In a maximal run from `s` to `i`, each line has `i - 1 - j` run lines after it. */
  lemma {:induction false} RunAfterInRun(lines: seq<string>, s: nat, i: nat, j: nat, text: string -> string)
    requires s < i <= |lines| && RunFrom(lines, s, i, text) && !Joins(lines, i, text) && s <= j < i
    ensures RunAfter(lines, j, text) == i - 1 - j
    decreases i - j
  {
    if j + 1 < i {
      RunAfterInRun(lines, s, i, j + 1, text);
    }
  }

  /** The survivors from `s`: line `s` if it is not hallucinated, then the survivors after it. */
  lemma SurvivorsCons(lines: seq<string>, s: nat, text: string -> string)
    requires s < |lines|
    ensures Hallucinated(lines, s, text) ==> Survivors(lines, s, text) == Survivors(lines, s + 1, text)
    ensures !Hallucinated(lines, s, text) ==> Survivors(lines, s, text) == [lines[s]] + Survivors(lines, s + 1, text)
  {
  }

  /** Lines that share one decision contribute all or nothing to the survivors. */
  lemma {:induction false} SurvivorsUniform(lines: seq<string>, s: nat, i: nat, drop: bool, text: string -> string)
    requires s <= i <= |lines|
    requires forall j :: s <= j < i ==> Hallucinated(lines, j, text) == drop
    ensures drop ==> Survivors(lines, s, text) == Survivors(lines, i, text)
    ensures !drop ==> Survivors(lines, s, text) == lines[s..i] + Survivors(lines, i, text)
    decreases i - s
  {
    if s < i {
      SurvivorsUniform(lines, s + 1, i, drop, text);
      SurvivorsCons(lines, s, text);
      if !drop {
        assert lines[s..i] == [lines[s]] + lines[s + 1..i];
      }
    }
  }

  /** A maximal run is kept whole or dropped whole, as `Kept` decides. */
  lemma SurvivorsOfRun(lines: seq<string>, s: nat, i: nat, text: string -> string)
    requires s < i <= |lines| && RunFrom(lines, s, i, text) && !Joins(lines, i, text)
    ensures Survivors(lines, s, text) == Kept(lines[s..i]) + Survivors(lines, i, text)
  {
    forall j | s <= j < i ensures Hallucinated(lines, j, text) == (i - s >= RepeatThreshold) {
      RunBeforeInRun(lines, s, i, j, text);
      RunAfterInRun(lines, s, i, j, text);
    }
    SurvivorsUniform(lines, s, i, i - s >= RepeatThreshold, text);
    if i - s >= RepeatThreshold {
      assert Kept(lines[s..i]) == [];
    }
  }

  /** The filter from a run boundary `s` on yields the survivors from `s`. */
  lemma {:induction false} FilterFrom(lines: seq<string>, s: nat, text: string -> string)
    requires s <= |lines| && (s == |lines| || s == 0 || !Joins(lines, s, text))
    ensures Filter(lines[s..], text) == Survivors(lines, s, text)
    decreases |lines| - s, |lines| - s + 1
  {
    if s < |lines| {
      assert lines[s..][1..] == lines[s + 1..];
      assert [lines[s..][0]] == lines[s..s + 1];
      PassFrom(lines, s, s + 1, text);
    }
  }

  /** The filter with the run from `s` to `i` in progress yields the survivors from `s`. */
  lemma {:induction false} PassFrom(lines: seq<string>, s: nat, i: nat, text: string -> string)
    requires s < i <= |lines| && RunFrom(lines, s, i, text)
    ensures Pass(lines[s..i], lines[i..], text) == Survivors(lines, s, text)
    decreases |lines| - s, |lines| - i
  {
    var run, rest := lines[s..i], lines[i..];
    assert run[0] == lines[s];
    if |rest| > 0 && text(rest[0]) != "" && text(rest[0]) == text(run[0]) {
      assert rest[0] == lines[i] && rest[1..] == lines[i + 1..];
      assert run + [rest[0]] == lines[s..i + 1];
      PassFrom(lines, s, i + 1, text);
    } else {
      assert i < |lines| ==> rest[0] == lines[i];
      FilterFrom(lines, i, text);
      SurvivorsOfRun(lines, s, i, text);
    }
  }

  /**
   * The filter keeps exactly the lines whose maximal run of repeated
   * text is shorter than three, in their original order.
   */
  lemma FilterKeepsSurvivors(lines: seq<string>, text: string -> string)
    ensures Filter(lines, text) == Survivors(lines, 0, text)
  {
    FilterFrom(lines, 0, text);
    assert lines[0..] == lines;
  }

  /** `a` is `b` with some elements left out, the rest in order. */
  predicate IsSubsequence(a: seq<string>, b: seq<string>)
    decreases |b|
  {
    if |a| == 0 then true
    else if |b| == 0 then false
    else (a[0] == b[0] && IsSubsequence(a[1..], b[1..])) || IsSubsequence(a, b[1..])
  }

  /** The survivors are an order-preserving subsequence of the lines. */
  lemma {:induction false} SurvivorsSubsequence(lines: seq<string>, i: nat, text: string -> string)
    requires i <= |lines|
    ensures IsSubsequence(Survivors(lines, i, text), lines[i..])
    decreases |lines| - i
  {
    if i < |lines| {
      SurvivorsSubsequence(lines, i + 1, text);
      var a, b, rest := Survivors(lines, i, text), lines[i..], Survivors(lines, i + 1, text);
      assert b[0] == lines[i] && b[1..] == lines[i + 1..];
      if !Hallucinated(lines, i, text) {
        assert a == [lines[i]] + rest;
        assert a[1..] == rest;
      } else {
        assert a == rest;
      }
    }
  }

  /** A blank line never joins a run, so the filter always keeps it. */
  lemma BlankLineKept(lines: seq<string>, i: nat, text: string -> string)
    requires i < |lines| && text(lines[i]) == ""
    ensures !Hallucinated(lines, i, text)
  {
    assert !Joins(lines, i, text) && !Joins(lines, i + 1, text);
  }

  /** No line repeats the two lines before it. */
  predicate NoTripleRun(lines: seq<string>, text: string -> string)
  {
    forall i :: 0 < i < |lines| - 1 ==> !(Joins(lines, i, text) && Joins(lines, i + 1, text))
  }

  /** Without three repeated lines in a row, no line is hallucinated. */
  lemma NoTripleNoHallucination(lines: seq<string>, i: nat, text: string -> string)
    requires i < |lines| && NoTripleRun(lines, text)
    ensures !Hallucinated(lines, i, text)
  {
    if Joins(lines, i, text) {
      assert !Joins(lines, i - 1, text) || !(0 < i - 1 < |lines| - 1);
      assert RunBefore(lines, i, text) == 1;
      assert !Joins(lines, i + 1, text);
    } else if Joins(lines, i + 1, text) {
      assert !Joins(lines, i + 2, text);
      assert RunAfter(lines, i, text) == 1;
    }
  }

  /** Without three repeated lines in a row, every line survives. */
  lemma {:induction false} NoTripleAllSurvive(lines: seq<string>, i: nat, text: string -> string)
    requires i <= |lines| && NoTripleRun(lines, text)
    ensures Survivors(lines, i, text) == lines[i..]
    decreases |lines| - i
  {
    if i < |lines| {
      NoTripleNoHallucination(lines, i, text);
      NoTripleAllSurvive(lines, i + 1, text);
      assert lines[i..] == [lines[i]] + lines[i + 1..];
    }
  }

  /** One step of the filter: the next line either extends the run or closes it and starts the next. */
  lemma PassStep(run: seq<string>, rest: seq<string>, text: string -> string)
    requires |run| > 0 && |rest| > 0
    ensures text(rest[0]) != "" && text(rest[0]) == text(run[0]) ==>
              Pass(run, rest, text) == Pass(run + [rest[0]], rest[1..], text)
    ensures !(text(rest[0]) != "" && text(rest[0]) == text(run[0])) ==>
              Pass(run, rest, text) == Kept(run) + Pass([rest[0]], rest[1..], text)
  {
  }

  /** A line that does not repeat the run closes it: what was kept so far grows by what the run keeps. */
  lemma CloseRun(kept: seq<string>, run: seq<string>, rest: seq<string>, text: string -> string)
    requires |run| > 0 && |rest| > 0 && !(text(rest[0]) != "" && text(rest[0]) == text(run[0]))
    ensures kept + Pass(run, rest, text) == (kept + Kept(run)) + Pass([rest[0]], rest[1..], text)
  {
    PassStep(run, rest, text);
  }

  /** The loop state of the filter: what it has kept, and the run in progress before line `i`, account for the whole result. */
  predicate Progress(kept: seq<string>, run: seq<string>, lines: seq<string>, i: nat, text: string -> string)
  {
    |run| > 0 && i <= |lines| && kept + Pass(run, lines[i..], text) == Filter(lines, text)
  }

  /** One turn of the filter loop over line `i` keeps `Progress`. */
  lemma FilterStep(kept: seq<string>, run: seq<string>, lines: seq<string>, i: nat, text: string -> string)
    requires i < |lines| && Progress(kept, run, lines, i, text)
    ensures (run + [lines[i]])[0] == run[0]
    ensures text(lines[i]) != "" && text(lines[i]) == text(run[0]) ==>
              Progress(kept, run + [lines[i]], lines, i + 1, text)
    ensures !(text(lines[i]) != "" && text(lines[i]) == text(run[0])) && |run| < RepeatThreshold ==>
              Progress(kept + run, [lines[i]], lines, i + 1, text)
    ensures !(text(lines[i]) != "" && text(lines[i]) == text(run[0])) && |run| >= RepeatThreshold ==>
              Progress(kept, [lines[i]], lines, i + 1, text)
  {
    var rest := lines[i..];
    assert rest[0] == lines[i] && rest[1..] == lines[i + 1..];
    if text(lines[i]) != "" && text(lines[i]) == text(run[0]) {
      PassStep(run, rest, text);
    } else {
      CloseRun(kept, run, rest, text);
      if |run| >= RepeatThreshold {
        assert kept + Kept(run) == kept;
      }
    }
  }

  /** At the end of the lines, what the loop kept plus what the last run keeps is the result. */
  lemma FilterEnd(kept: seq<string>, run: seq<string>, lines: seq<string>, text: string -> string)
    requires Progress(kept, run, lines, |lines|, text)
    ensures |run| < RepeatThreshold ==> kept + run == Survivors(lines, 0, text)
    ensures |run| >= RepeatThreshold ==> kept == Survivors(lines, 0, text)
  {
    assert lines[|lines|..] == [];
    PassEnd(run, text);
    FilterKeepsSurvivors(lines, text);
    if |run| >= RepeatThreshold {
      assert kept + Kept(run) == kept;
    }
  }

  /** At the end of the lines, the run in progress is the last one. */
  lemma PassEnd(run: seq<string>, text: string -> string)
    requires |run| > 0
    ensures Pass(run, [], text) == Kept(run)
  {
  }

  /**
   * The loop of `_remove_hallucinated_lines` over the lines, comparing
   * them by `text`: each run of identical text is kept while it is short
   * and dropped whole once it reaches three lines.
   */
  method DropRepeatedRuns(lines: seq<string>, text: string -> string) returns (kept: seq<string>)
    requires |lines| > 0
    ensures kept == Survivors(lines, 0, text)
  {
    kept := [];
    var pending := [lines[0]];
    var prevText := text(lines[0]);
    var runLength := 1;
    var i := 1;
    while i < |lines|
      invariant 1 <= i <= |lines|
      invariant Progress(kept, pending, lines, i, text)
      invariant |pending| == runLength
      invariant prevText == text(pending[0])
    {
      var line := lines[i];
      var stripped := text(line);
      FilterStep(kept, pending, lines, i, text);
      if stripped == prevText && stripped != "" {
        runLength := runLength + 1;
        pending := pending + [line];
      } else {
        if runLength < RepeatThreshold {
          kept := kept + pending;
        }
        prevText := stripped;
        runLength := 1;
        pending := [line];
      }
      i := i + 1;
    }
    FilterEnd(kept, pending, lines, text);
    if runLength < RepeatThreshold {
      kept := kept + pending;
    }
  }

  /**
   * `_remove_hallucinated_lines`: the transcript's lines, compared by
   * their text without the timestamp prefix, with every run of three or
   * more identical lines removed.
   */
  method RemoveHallucinatedLines(transcript: string) returns (r: string)
    ensures r == Join(Survivors(Split(transcript, '\n'), 0, LineText), '\n')
  {
    var kept := DropRepeatedRuns(Split(transcript, '\n'), LineText);
    r := Join(kept, '\n');
  }

  /** A transcript without three repeated lines in a row comes back unchanged; so does `""`. */
  lemma UnrepeatedTranscriptUnchanged(transcript: string)
    requires NoTripleRun(Split(transcript, '\n'), LineText)
    ensures Join(Survivors(Split(transcript, '\n'), 0, LineText), '\n') == transcript
  {
    var lines := Split(transcript, '\n');
    NoTripleAllSurvive(lines, 0, LineText);
    assert lines[0..] == lines;
    JoinSplit(transcript, '\n');
  }

  /* ---------------------------------------------------------------- */
  /* Timestamp stripping                                               */
  /* ---------------------------------------------------------------- */

  /** The end of the run of ASCII digits starting at `i`. */
  function DigitSpan(s: string, i: nat): (j: nat)
    requires i <= |s|
    ensures i <= j <= |s|
    decreases |s| - i
  {
    if i == |s| || !IsDigit(s[i]) then i else DigitSpan(s, i + 1)
  }

  /** The end of a clock reading `\d+:\d+:\d+\.\d+` starting at `i`, if there is one. */
  function ClockEnd(s: string, i: nat): (j: Option<nat>)
    requires i <= |s|
    ensures j.Some? ==> i < j.value <= |s|
  {
    var a := DigitSpan(s, i);
    if a == i || a == |s| || s[a] != ':' then None
    else
      var b := DigitSpan(s, a + 1);
      if b == a + 1 || b == |s| || s[b] != ':' then None
      else
        var c := DigitSpan(s, b + 1);
        if c == b + 1 || c == |s| || s[c] != '.' then None
        else
          var d := DigitSpan(s, c + 1);
          if d == c + 1 then None else Some(d)
  }

  /**
   * The text after a full timestamp `[h:m:s.f --> h:m:s.f]` and the
   * blanks behind it, if `line` starts with one.
   */
  function TimestampedText(line: string): (text: Option<string>)
  {
    if |line| == 0 || line[0] != '[' then None
    else match ClockEnd(line, 1)
      case None => None
      case Some(a) =>
        var b := SkipSpace(line, a);
        if !StartsWith(line[b..], "-->") then None
        else match ClockEnd(line, SkipSpace(line, b + 3))
          case None => None
          case Some(d) =>
            if d == |line| || line[d] != ']' then None
            else Some(line[SkipSpace(line, d + 1)..])
  }

  /** A timestamped line becomes its stripped text with speaker turns marked `[S]`; other lines pass through. */
  function PlainLine(line: string): string
  {
    match TimestampedText(line)
    case Some(text) => ReplaceAll(Strip(text), "[SPEAKER_TURN]", "[S]")
    case None => line
  }

  /** Every line made plain, in order. */
  function PlainLines(lines: seq<string>): (r: seq<string>)
    ensures |r| == |lines|
  {
    if |lines| == 0 then [] else PlainLines(lines[..|lines| - 1]) + [PlainLine(lines[|lines| - 1])]
  }

  /** Replacing with something shorter never lengthens, and shortens when the pattern occurs. */
  lemma {:induction false} ReplaceShorter(s: string, pat: string, rep: string)
    requires |rep| < |pat|
    ensures |ReplaceAll(s, pat, rep)| <= |s|
    ensures Contains(s, pat) ==> |ReplaceAll(s, pat, rep)| < |s|
    decreases |s|
  {
    if |s| > 0 {
      if StartsWith(s, pat) {
        ReplaceShorter(s[|pat|..], pat, rep);
      } else {
        ReplaceShorter(s[1..], pat, rep);
        if Contains(s, pat) {
          var k :| 0 <= k <= |s| - |pat| && OccursAt(s, pat, k);
          assert k != 0;
          assert s[1..][k - 1..k - 1 + |pat|] == s[k..k + |pat|];
          assert OccursAt(s[1..], pat, k - 1);
        }
      }
    }
  }

  /** A string starting with neither whitespace nor the pattern's first character keeps its first character. */
  lemma {:induction false} ReplaceKeepsEdges(s: string, pat: string, rep: string)
    requires |pat| > 0 && |s| > 0 && s[0] != pat[0] && s[|s| - 1] != pat[|pat| - 1]
    ensures var r := ReplaceAll(s, pat, rep); |r| > 0 && r[0] == s[0] && r[|r| - 1] == s[|s| - 1]
    decreases |s|
  {
    var r := ReplaceAll(s, pat, rep);
    assert !StartsWith(s, pat) by { if |pat| <= |s| { assert s[..|pat|][0] == s[0]; } }
    assert r == [s[0]] + ReplaceAll(s[1..], pat, rep);
    if |s| > 1 {
      var t := s[1..];
      if t[0] == pat[0] {
        EndKept(t, pat, rep);
      } else {
        ReplaceKeepsEdges(t, pat, rep);
      }
    }
  }

  /** A non-empty string not ending like the pattern keeps its last character. */
  lemma {:induction false} EndKept(s: string, pat: string, rep: string)
    requires |pat| > 0 && |s| > 0 && s[|s| - 1] != pat[|pat| - 1]
    ensures var r := ReplaceAll(s, pat, rep); |r| > 0 && r[|r| - 1] == s[|s| - 1]
    decreases |s|
  {
    if StartsWith(s, pat) {
      var t := s[|pat|..];
      assert t[|t| - 1] == s[|s| - 1];
      EndKept(t, pat, rep);
    } else if |s| > 1 {
      assert s[1..][|s| - 2] == s[|s| - 1];
      EndKept(s[1..], pat, rep);
    }
  }

  /** Neither the first nor the last character is whitespace. */
  predicate NoEdgeSpace(s: string)
  {
    |s| == 0 || (s[0] !in Whitespace && s[|s| - 1] !in Whitespace)
  }

  /** One replacement pass shortens the string and keeps clean edges clean. */
  lemma CollapseStep(s: string)
    requires Contains(s, "\n\n\n")
    ensures |ReplaceAll(s, "\n\n\n", "\n\n")| < |s|
    ensures NoEdgeSpace(s) ==> NoEdgeSpace(ReplaceAll(s, "\n\n\n", "\n\n"))
  {
    ReplaceShorter(s, "\n\n\n", "\n\n");
    if NoEdgeSpace(s) {
      assert '\n' in Whitespace;
      ReplaceKeepsEdges(s, "\n\n\n", "\n\n");
    }
  }

  /** Replacing `\n\n\n` by `\n\n` until none is left, as the source's loop does. */
  function CollapseBlankRuns(s: string): (r: string)
    ensures !Contains(r, "\n\n\n")
    ensures |r| <= |s|
    ensures NoEdgeSpace(s) ==> NoEdgeSpace(r)
    decreases |s|
  {
    if Contains(s, "\n\n\n") then
      CollapseStep(s);
      CollapseBlankRuns(ReplaceAll(s, "\n\n\n", "\n\n"))
    else s
  }

  /** The result of `_strip_timestamps_with_gaps`. */
  function StrippedTranscript(transcript: string): string
  {
    CollapseBlankRuns(Strip(Join(PlainLines(Split(transcript, '\n')), '\n')))
  }

  /** A stripped string has no whitespace at either edge. */
  lemma StripNoEdgeSpace(s: string)
    ensures NoEdgeSpace(Strip(s))
  {
    TrimShape(s, Whitespace);
  }

  /**
   * `_strip_timestamps_with_gaps`: each line made plain, the whole
   * stripped, and blank runs of three newlines collapsed until none is
   * left; the result has no whitespace at its edges.
   */
  method StripTimestampsWithGaps(transcript: string) returns (cleaned: string)
    ensures cleaned == StrippedTranscript(transcript)
    ensures !Contains(cleaned, "\n\n\n") && NoEdgeSpace(cleaned)
  {
    var lines := Split(transcript, '\n');
    var result: seq<string> := [];
    for i := 0 to |lines|
      invariant result == PlainLines(lines[..i])
    {
      assert lines[..i + 1][..i] == lines[..i];
      result := result + [PlainLine(lines[i])];
    }
    assert lines[..|lines|] == lines;
    cleaned := Strip(Join(result, '\n'));
    StripNoEdgeSpace(Join(result, '\n'));
    while Contains(cleaned, "\n\n\n")
      invariant CollapseBlankRuns(cleaned) == StrippedTranscript(transcript)
      invariant NoEdgeSpace(cleaned)
      decreases |cleaned|
    {
      CollapseStep(cleaned);
      cleaned := ReplaceAll(cleaned, "\n\n\n", "\n\n");
    }
  }

  /** Lines without a timestamp pass through unchanged. */
  lemma {:induction false} PlainLinesUnchanged(lines: seq<string>)
    requires forall i :: 0 <= i < |lines| ==> TimestampedText(lines[i]).None?
    ensures PlainLines(lines) == lines
  {
    if |lines| > 0 {
      PlainLinesUnchanged(lines[..|lines| - 1]);
      assert lines == lines[..|lines| - 1] + [lines[|lines| - 1]];
    }
  }

  /** A transcript without timestamps is only stripped and has its blank runs collapsed. */
  lemma UntimedTranscript(transcript: string)
    requires forall i :: 0 <= i < |Split(transcript, '\n')| ==> TimestampedText(Split(transcript, '\n')[i]).None?
    ensures StrippedTranscript(transcript) == CollapseBlankRuns(Strip(transcript))
  {
    PlainLinesUnchanged(Split(transcript, '\n'));
    JoinSplit(transcript, '\n');
  }

  /* ---------------------------------------------------------------- */
  /* File names                                                        */
  /* ---------------------------------------------------------------- */

  /** `str.isalnum`, restricted to ASCII letters and digits. */
  predicate IsAlnum(c: char) { 'a' <= c <= 'z' || 'A' <= c <= 'Z' || IsDigit(c) }

  /** The characters the title filter of `/start` lets through. */
  predicate TitleChar(c: char) { IsAlnum(c) || c == '-' || c == '_' || c == ' ' }

  /** The characters of a safe title. */
  predicate SafeTitleChar(c: char) { IsAlnum(c) || c == '-' || c == '_' }

  function KeepTitleChars(s: string): (r: string)
    ensures forall i :: 0 <= i < |r| ==> TitleChar(r[i])
  {
    if |s| == 0 then ""
    else (if TitleChar(s[0]) then [s[0]] else "") + KeepTitleChars(s[1..])
  }

  function SpacesToHyphens(s: string): (r: string)
    ensures |r| == |s|
    ensures forall i :: 0 <= i < |s| ==> r[i] == if s[i] == ' ' then '-' else s[i]
  {
    seq(|s|, i requires 0 <= i < |s| => if s[i] == ' ' then '-' else s[i])
  }

  /** The title part of an audio file name: filtered, stripped, spaces to hyphens, cut to 50. */
  function SafeTitle(title: string): (r: string)
  {
    var t := SpacesToHyphens(Strip(KeepTitleChars(title)));
    if |t| <= 50 then t else t[..50]
  }

  /** A safe title has at most 50 characters, all letters, digits, `-` or `_`. */
  lemma SafeTitleShape(title: string)
    ensures |SafeTitle(title)| <= 50
    ensures forall i :: 0 <= i < |SafeTitle(title)| ==> SafeTitleChar(SafeTitle(title)[i])
  {
    var k := KeepTitleChars(title);
    TrimShape(k, Whitespace);
    var st := Strip(k);
    assert forall i :: 0 <= i < |st| ==> TitleChar(st[i]) by {
      forall i | 0 <= i < |st| ensures TitleChar(st[i]) {
        assert st[i] == k[LeadingCount(k, Whitespace) + i];
      }
    }
  }

  /** A title already made of letters, digits, `-` and `_`, at most 50 long, is its own safe title. */
  lemma SafeTitleKeepsSafe(title: string)
    requires |title| <= 50 && forall i :: 0 <= i < |title| ==> SafeTitleChar(title[i])
    ensures SafeTitle(title) == title
  {
    KeepsAllTitleChars(title);
    StripKeepsSafe(title);
    HyphensKeepSafe(title);
  }

  lemma StripKeepsSafe(title: string)
    requires forall i :: 0 <= i < |title| ==> SafeTitleChar(title[i])
    ensures Strip(title) == title
  {
    if |title| > 0 {
      assert title[0] !in Whitespace && title[|title| - 1] !in Whitespace;
      TrimNoEdges(title, Whitespace);
    }
  }

  lemma HyphensKeepSafe(title: string)
    requires forall i :: 0 <= i < |title| ==> SafeTitleChar(title[i])
    ensures SpacesToHyphens(title) == title
  {
  }

  lemma {:induction false} KeepsAllTitleChars(s: string)
    requires forall i :: 0 <= i < |s| ==> TitleChar(s[i])
    ensures KeepTitleChars(s) == s
  {
    if |s| > 0 {
      KeepsAllTitleChars(s[1..]);
      assert s == [s[0]] + s[1..];
    }
  }

  /** `Path(name).suffix`: from the last dot, unless that dot is first or last. */
  function Suffix(name: string): (r: string)
    ensures r == "" || (r[0] == '.' && EndsWith(name, r) && |r| < |name|)
  {
    match LastIndexOf(name, '.')
    case Some(i) => if 0 < i < |name| - 1 then name[i..] else ""
    case None => ""
  }

  /** `Path(name).with_suffix(ext)`. */
  function WithSuffix(name: string, ext: string): string
  {
    name[..|name| - |Suffix(name)|] + ext
  }

  /** `{ts}-{safe_title}.wav`, the name of a new recording. */
  function AudioName(stamp: string, title: string): string
  {
    stamp + "-" + SafeTitle(title) + ".wav"
  }

  /** The name of a recording's audio file ends in `.wav`, and its transcript sits beside it as `.txt`. */
  lemma AudioNameSuffix(stamp: string, title: string)
    ensures Suffix(AudioName(stamp, title)) == ".wav"
    ensures WithSuffix(AudioName(stamp, title), ".txt") == stamp + "-" + SafeTitle(title) + ".txt"
  {
    var name := AudioName(stamp, title);
    var front := stamp + "-" + SafeTitle(title);
    assert name == front + ['.'] + "wav";
    LastIndexOfBefore(front, '.', "wav");
    assert name[|front|..] == ".wav";
  }

  /* ---------------------------------------------------------------- */
  /* Recordings and the server's state                                 */
  /* ---------------------------------------------------------------- */

  /** `RecordingState`; `Capturing` is the source's RECORDING. */
  datatype RecordingState = Capturing | Transcribing | Completed | Failed

  /** Recordings kept in the recent list. */
  const MaxRecent: nat := 20

  /** Audio files smaller than this are taken as empty. */
  const MinAudioBytes: nat := 1000

  /** What `whisper-cli` returned. */
  datatype WhisperRun = WhisperRun(returnCode: int, stdout: string, stderr: string)

  /** What posting the transcript to the webhook gave: a status code, or an exception. */
  datatype PostResult = PostRaised(error: string) | PostStatus(code: int)

  /** The transcript `_transcribe` keeps: whisper's output without hallucinated runs and timestamps. */
  function CleanTranscript(raw: string): string
  {
    StrippedTranscript(Join(Survivors(Split(raw, '\n'), 0, LineText), '\n'))
  }

  /** The two cleaning passes `_transcribe` runs over whisper's output, in order. */
  method Clean(raw: string) returns (text: string)
    ensures text == CleanTranscript(raw)
    ensures !Contains(text, "\n\n\n")
  {
    text := RemoveHallucinatedLines(raw);
    text := StripTimestampsWithGaps(text);
  }

  /** The last `n` characters, as `s[-n:]`. */
  function LastChars(s: string, n: nat): (r: string)
    ensures |r| <= n && EndsWith(s, r)
  {
    if |s| <= n then s else s[|s| - n..]
  }

  /** The front matter of a posted transcript, from the local meeting times. */
  function FrontMatter(startIso: string, endIso: string): (r: string)
    ensures StartsWith(r, "---")
  {
    "---\nmeeting_start: " + startIso + "\nmeeting_end: " + endIso + "\nrecording_source: transcriber\n---\n\n"
  }

  /** One recording, from `/start` to the end of its transcription. */
  class Recording {
    const title: string
    const audioName: string
    const meetingStart: int
    var state: RecordingState
    var meetingEnd: Option<int>
    var transcriptName: Option<string>
    var transcript: Option<string>
    var posted: Option<string>
    var error: Option<string>
    var webhookSent: bool

    constructor(title: string, audioName: string, meetingStart: int)
      ensures this.title == title && this.audioName == audioName && this.meetingStart == meetingStart
      ensures state == Capturing && meetingEnd.None? && transcriptName.None? && transcript.None?
      ensures posted.None? && error.None? && !webhookSent
    {
      this.title := title;
      this.audioName := audioName;
      this.meetingStart := meetingStart;
      state := Capturing;
      meetingEnd := None;
      transcriptName := None;
      transcript := None;
      posted := None;
      error := None;
      webhookSent := false;
    }

    /**
     * `_transcribe`: a failed or silent whisper run fails the recording;
     * otherwise the cleaned transcript is written beside the audio and
     * posted behind its front matter. The recording is then completed
     * whatever the webhook answered, unless the post raised; only a 200
     * counts as sent.
     */
    method Transcribe(run: WhisperRun, post: PostResult, startIso: string, endIso: string)
      modifies this
      ensures run.returnCode != 0 ==>
                state == Failed && error == Some("whisper-cli failed: " + LastChars(Strip(run.stderr), 500)) &&
                transcript == old(transcript) && posted == old(posted) && webhookSent == old(webhookSent)
      ensures run.returnCode == 0 && Strip(run.stdout) == "" ==>
                state == Failed && error == Some("whisper-cli produced empty output") &&
                transcript == old(transcript) && posted == old(posted) && webhookSent == old(webhookSent)
      ensures run.returnCode == 0 && Strip(run.stdout) != "" ==>
                var cleaned := CleanTranscript(Strip(run.stdout));
                transcript == Some(cleaned) && transcriptName == Some(WithSuffix(audioName, ".txt")) &&
                posted == Some(FrontMatter(startIso, endIso) + cleaned) &&
                (post.PostRaised? ==> state == Failed && error == Some(post.error) && webhookSent == old(webhookSent)) &&
                (post.PostStatus? ==> state == Completed && error == old(error) &&
                                      webhookSent == (old(webhookSent) || post.code == 200))
      ensures meetingEnd == old(meetingEnd)
    {
      state := Transcribing;
      if run.returnCode != 0 {
        state := Failed;
        error := Some("whisper-cli failed: " + LastChars(Strip(run.stderr), 500));
        return;
      }
      var raw := Strip(run.stdout);
      if raw == "" {
        state := Failed;
        error := Some("whisper-cli produced empty output");
        return;
      }
      var text := Clean(raw);
      Deliver(text, WithSuffix(audioName, ".txt"), post, FrontMatter(startIso, endIso));
    }

    /**
     * The end of `_transcribe`: the transcript is written under `name`
     * and posted behind `header`; a raising post fails the recording, any
     * answer completes it, and only a 200 marks the webhook as sent.
     */
    method Deliver(text: string, name: string, post: PostResult, header: string)
      modifies this
      ensures transcript == Some(text) && transcriptName == Some(name) && posted == Some(header + text)
      ensures post.PostRaised? ==> state == Failed && error == Some(post.error) && webhookSent == old(webhookSent)
      ensures post.PostStatus? ==>
                state == Completed && error == old(error) && webhookSent == (old(webhookSent) || post.code == 200)
      ensures meetingEnd == old(meetingEnd)
    {
      transcript := Some(text);
      transcriptName := Some(name);
      posted := Some(header + text);
      match post {
        case PostRaised(e) =>
          state := Failed;
          error := Some(e);
        case PostStatus(code) =>
          if code == 200 {
            webhookSent := true;
          }
          state := Completed;
      }
    }
  }

  /** The recent list after archiving `r`: `r` first, then the older ones, at most `MaxRecent`. */
  function Archived(recent: seq<Recording>, r: Recording): (a: seq<Recording>)
  {
    var all := [r] + recent;
    if |all| <= MaxRecent then all else all[..MaxRecent]
  }

  /**
   * The newest recording comes first, the previous order follows, the
   * list never exceeds 20, and only the oldest entries fall off.
   */
  lemma ArchivedShape(recent: seq<Recording>, r: Recording)
    ensures var a := Archived(recent, r);
            |a| == (if |recent| < MaxRecent then |recent| + 1 else MaxRecent) &&
            a[0] == r && a[1..] == recent[..|a| - 1]
  {
  }

  /** The transcriber server: the active recording, the transcription queue and the recent list. */
  class Server {
    var active: Recording?
    var queue: seq<Recording>
    var recent: seq<Recording>

    constructor()
      ensures active == null && queue == [] && recent == []
    {
      active := null;
      queue := [];
      recent := [];
    }

    /** `_archive_recording`: insert at the front, then drop from the end while over `MaxRecent`. */
    method Archive(r: Recording)
      modifies this
      ensures recent == Archived(old(recent), r)
      ensures active == old(active) && queue == old(queue)
    {
      recent := [r] + recent;
      while |recent| > MaxRecent
        invariant |recent| >= MaxRecent ==> recent == ([r] + old(recent))[..|recent|]
        invariant |recent| < MaxRecent ==> recent == [r] + old(recent)
        invariant active == old(active) && queue == old(queue)
        decreases |recent|
      {
        recent := recent[..|recent| - 1];
      }
    }

    /**
     * `/start`: refused with 409 while a recording is capturing, with 500
     * when the capture cannot start; otherwise a new capturing recording,
     * named from the timestamp and the safe title, becomes the active one.
     */
    method Start(title: string, stamp: string, now: int, captureStarts: bool) returns (status: int, rec: Recording?)
      modifies this
      ensures old(active) != null && old(active.state) == Capturing ==> status == 409 && active == old(active)
      ensures !(old(active) != null && old(active.state) == Capturing) && !captureStarts ==>
                status == 500 && active == old(active)
      ensures !(old(active) != null && old(active.state) == Capturing) && captureStarts ==>
                status == 200 && rec != null && fresh(rec) && active == rec && rec.state == Capturing &&
                rec.title == title && rec.audioName == AudioName(stamp, title) && rec.meetingStart == now
      ensures queue == old(queue) && recent == old(recent)
    {
      if active != null && active.state == Capturing {
        return 409, null;
      }
      var r := new Recording(title, AudioName(stamp, title), now);
      if !captureStarts {
        return 500, null;
      }
      active := r;
      return 200, r;
    }

    /**
     * `/stop`: 404 without a capturing recording. Otherwise the recording
     * gets its end time and leaves the active slot; a missing or tiny
     * audio file fails it and archives it, anything else queues it.
     */
    method Stop(now: int, audioSize: Option<nat>) returns (status: int)
      modifies this, active
      ensures old(active) == null || old(active.state) != Capturing ==>
                status == 404 && active == old(active) && queue == old(queue) && recent == old(recent)
      ensures old(active) != null && old(active.state) == Capturing ==>
                var r := old(active);
                active == null && r.meetingEnd == Some(now) &&
                (audioSize.None? || audioSize.value < MinAudioBytes ==>
                   status == 500 && r.state == Failed && r.error == Some("Audio file missing or too small") &&
                   recent == Archived(old(recent), r) && queue == old(queue)) &&
                (audioSize.Some? && audioSize.value >= MinAudioBytes ==>
                   status == 200 && r.state == Capturing && queue == old(queue) + [r] && recent == old(recent))
    {
      if active == null || active.state != Capturing {
        return 404;
      }
      var r := active;
      r.meetingEnd := Some(now);
      if audioSize.None? || audioSize.value < MinAudioBytes {
        r.state := Failed;
        r.error := Some("Audio file missing or too small");
        Archive(r);
        active := null;
        return 500;
      }
      queue := queue + [r];
      active := null;
      return 200;
    }

    /**
     * One turn of `_transcription_worker`: the oldest queued recording is
     * transcribed and then archived, whatever the transcription did.
     */
    method WorkOne(run: WhisperRun, post: PostResult, startIso: string, endIso: string) returns (done: Recording)
      requires |queue| > 0
      modifies this, queue[0]
      ensures done == old(queue[0]) && queue == old(queue[1..])
      ensures recent == Archived(old(recent), done) && active == old(active)
      ensures done.state in {Failed, Completed}
    {
      done := queue[0];
      queue := queue[1..];
      done.Transcribe(run, post, startIso, endIso);
      Archive(done);
    }
  }

  /* ---------------------------------------------------------------- */
  /* Cleanup of old recordings                                         */
  /* ---------------------------------------------------------------- */

  /** A directory entry: whether it is a regular file, and its modification time in seconds. */
  datatype Entry = Entry(isFile: bool, mtime: real)

  /** The cutoff of `cleanup_old_recordings`: `now - max_age_days * 86400`. */
  function Cutoff(now: real, maxAgeDays: int): real
  {
    now - (maxAgeDays * 86400) as real
  }

  /** An entry the cleanup removes: a `.wav` or `.txt` file older than the cutoff. */
  predicate Expired(name: string, e: Entry, cutoff: real)
  {
    e.isFile && (Suffix(name) == ".wav" || Suffix(name) == ".txt") && e.mtime < cutoff
  }

  /** The names a cleanup deletes: the expired entries whose deletion does not raise. */
  function Doomed(entries: map<string, Entry>, cutoff: real, failing: set<string>): (d: set<string>)
    ensures d <= entries.Keys
  {
    set n | n in entries && Expired(n, entries[n], cutoff) && n !in failing
  }

  /** The entries left after a cleanup. */
  function Remaining(entries: map<string, Entry>, cutoff: real, failing: set<string>): map<string, Entry>
  {
    entries - Doomed(entries, cutoff, failing)
  }

  /**
   * A cleanup removes exactly the expired `.wav` and `.txt` files whose
   * deletion does not raise, and leaves every other entry as it was.
   */
  lemma RemainingExactly(entries: map<string, Entry>, cutoff: real, failing: set<string>, n: string)
    ensures n in Remaining(entries, cutoff, failing) <==>
              n in entries && !(Expired(n, entries[n], cutoff) && n !in failing)
    ensures n in Remaining(entries, cutoff, failing) ==> Remaining(entries, cutoff, failing)[n] == entries[n]
  {
  }

  /** Looking at one more name removes it when it is doomed and keeps the map otherwise. */
  lemma VisitStep(start: map<string, Entry>, visited: set<string>, doomed: set<string>, name: string)
    requires name !in visited
    ensures name in doomed ==>
              (start - visited * doomed) - {name} == start - (visited + {name}) * doomed &&
              |(visited + {name}) * doomed| == |visited * doomed| + 1
    ensures name !in doomed ==>
              start - visited * doomed == start - (visited + {name}) * doomed &&
              (visited + {name}) * doomed == visited * doomed
  {
    if name in doomed {
      assert (visited + {name}) * doomed == visited * doomed + {name};
    } else {
      assert (visited + {name}) * doomed == visited * doomed;
    }
  }

  /** The recordings directory, which may be missing. */
  class RecordingsDir {
    var present: bool
    var entries: map<string, Entry>

    constructor(present: bool, entries: map<string, Entry>)
      ensures this.present == present && this.entries == entries
    {
      this.present := present;
      this.entries := entries;
    }

    /**
     * `cleanup_old_recordings`: a missing directory gives 0; otherwise
     * every expired entry whose deletion does not raise is removed,
     * nothing else is touched, and the count of removed entries is
     * returned.
     */
    method CleanupOldRecordings(now: real, maxAgeDays: int, failing: set<string>) returns (deleted: nat)
      modifies this
      ensures !old(present) ==> deleted == 0 && entries == old(entries)
      ensures old(present) ==>
                var doomed := Doomed(old(entries), Cutoff(now, maxAgeDays), failing);
                entries == old(entries) - doomed && deleted == |doomed|
      ensures present == old(present)
    {
      deleted := 0;
      if !present {
        return;
      }
      var cutoff := Cutoff(now, maxAgeDays);
      ghost var start := entries;
      ghost var doomed := Doomed(start, cutoff, failing);
      var todo := entries.Keys;
      while todo != {}
        invariant todo <= start.Keys
        invariant entries == start - (start.Keys - todo) * doomed
        invariant deleted == |(start.Keys - todo) * doomed|
        invariant present
        decreases |todo|
      {
        var name :| name in todo;
        ghost var visited := start.Keys - todo;
        VisitStep(start, visited, doomed, name);
        assert visited + {name} == start.Keys - (todo - {name});
        if Expired(name, entries[name], cutoff) && name !in failing {
          assert name in doomed;
          entries := entries - {name};
          deleted := deleted + 1;
        } else {
          assert name !in doomed;
        }
        todo := todo - {name};
      }
      assert (start.Keys - todo) * doomed == doomed;
    }
  }

  /* ---------------------------------------------------------------- */
  /* VBAN capture                                                      */
  /* ---------------------------------------------------------------- */

  /** The capture loop's filter: longer than a header, and starting with `VBAN`. */
  predicate CaptureAccepts(data: seq<Vban.Byte>)
  {
    |data| > Vban.HeaderSize && data[..4] == Vban.Magic
  }

  /** The sample rate the capture takes from a packet: the table's, or 48000 past its end. */
  function CaptureRate(data: seq<Vban.Byte>): nat
    requires CaptureAccepts(data)
  {
    var index := data[4] % 32;
    if index < |Vban.SrTable| then Vban.SrTable[index] else 48000
  }

  /** The WAV capture of one recording: the format fixed by the first packet, and the PCM written so far. */
  class Capture {
    var sampleRate: Option<nat>
    var channels: Option<nat>
    var pcm: seq<Vban.Byte>
    var totalSamples: nat

    constructor()
      ensures sampleRate.None? && channels.None? && pcm == [] && totalSamples == 0
    {
      sampleRate := None;
      channels := None;
      pcm := [];
      totalSamples := 0;
    }

    /**
     * One packet of `_capture_loop`: a packet that is not VBAN or has no
     * payload is skipped; the first accepted packet fixes rate and channel
     * count; every accepted payload is appended, and counted in frames of
     * its own packet's channel count.
     */
    method OnPacket(data: seq<Vban.Byte>)
      modifies this
      ensures !CaptureAccepts(data) ==>
                sampleRate == old(sampleRate) && channels == old(channels) && pcm == old(pcm) &&
                totalSamples == old(totalSamples)
      ensures CaptureAccepts(data) ==>
                sampleRate == (if old(sampleRate).None? then Some(CaptureRate(data)) else old(sampleRate)) &&
                channels == (if old(sampleRate).None? then Some(data[6] as int + 1) else old(channels)) &&
                pcm == old(pcm) + data[Vban.HeaderSize..] &&
                totalSamples == old(totalSamples) + (|data| - Vban.HeaderSize) / (2 * (data[6] as int + 1))
    {
      if |data| <= Vban.HeaderSize || data[..4] != Vban.Magic {
        return;
      }
      var channelCount := data[6] as int + 1;
      var payload := data[Vban.HeaderSize..];
      if sampleRate.None? {
        sampleRate := Some(CaptureRate(data));
        channels := Some(channelCount);
      }
      pcm := pcm + payload;
      totalSamples := totalSamples + |payload| / (2 * channelCount);
    }
  }

  /**
   * Every audio packet the receiver's parser accepts with a payload is
   * also accepted by the capture, with the same channel count and, for a
   * listed rate index, the same rate.
   */
  lemma CaptureAgreesWithParser(data: seq<Vban.Byte>)
    requires Vban.ParseHeader(data).Some? && |data| > Vban.HeaderSize
    ensures CaptureAccepts(data)
    ensures data[6] as int + 1 == Vban.ParseHeader(data).value.channels
    ensures data[4] % 32 < |Vban.SrTable| ==> CaptureRate(data) == Vban.ParseHeader(data).value.sampleRate
  {
  }

  /** The capture is laxer than the parser: it keeps packets whose protocol bits are not audio. */
  lemma CaptureIgnoresProtocol()
    ensures var data := Vban.Magic + [0x20] + seq(25, i => 0);
            CaptureAccepts(data) && Vban.ParseHeader(data).None?
  {
    var data := Vban.Magic + [0x20] + seq(25, i => 0);
    assert data[..4] == Vban.Magic;
    assert data[4] == 0x20;
  }
}
