/**
 * The inbox side of the summarization pipeline: cutting a multi-meeting
 * transcript into `-partN` files, choosing collision-free output names,
 * the processing counters of one inbox run, and the calendar enrichment
 * the pipeline applies to a finished note.
 *
 * The inbox is a map from path to file text.
 */
module Pipeline {
  import opened Wrappers
  import opened Text
  import opened CalendarEnrich
  import opened Summarization
  import opened Segmenting

  /** The header of one part: interpolated start and end when both ends of the recording are known. */
  function PartHeader(meta: Header, iso: string -> Option<int>, fmt: int -> string, p: Part, length: nat): (h: Header)
    ensures Duration(meta, iso).None? ==> h == meta
    ensures Duration(meta, iso).Some? && length > 0 ==>
              var s := iso(meta["meeting_start"]).value;
              var d := Duration(meta, iso).value;
              h == meta["meeting_start" := fmt(Interpolate(s, d, p.lo, length))]
                       ["meeting_end" := fmt(Interpolate(s, d, p.hi, length))]
  {
    match Duration(meta, iso)
    case None => meta
    case Some(d) =>
      if length == 0 then meta
      else
        var s := iso(meta["meeting_start"]).value;
        meta["meeting_start" := fmt(Interpolate(s, d, p.lo, length))]
            ["meeting_end" := fmt(Interpolate(s, d, p.hi, length))]
  }

  /** The three keys a part keeps, in order, each only if present. */
  function HeaderLines(h: Header): (lines: seq<string>)
    ensures |lines| <= 3
  {
    (if "meeting_start" in h then ["meeting_start: " + h["meeting_start"]] else []) +
    (if "meeting_end" in h then ["meeting_end: " + h["meeting_end"]] else []) +
    (if "recording_source" in h then ["recording_source: " + h["recording_source"]] else [])
  }

  /** The front matter written at the top of a part. */
  function FrontMatter(h: Header): string
  {
    Join(["---"] + HeaderLines(h) + ["---\n\n"], '\n')
  }

  /** The YAML text between the delimiters: a line break before each line. */
  function YamlText(lines: seq<string>): (y: string)
    decreases |lines|
  {
    if |lines| == 0 then "" else "\n" + lines[0] + YamlText(lines[1..])
  }

  /** Joining a head, some lines and a tail with line breaks: a break before each line, one before the tail. */
  lemma {:induction false} JoinFramed(head: string, lines: seq<string>, tail: string)
    ensures Join([head] + lines + [tail], '\n') == head + YamlText(lines) + "\n" + tail
    decreases |lines|
  {
    var parts := [head] + lines + [tail];
    assert parts[0] == head && parts[1..] == lines + [tail];
    if |lines| == 0 {
      assert parts[1..] == [tail];
    } else {
      assert lines + [tail] == [lines[0]] + lines[1..] + [tail];
      JoinFramed(lines[0], lines[1..], tail);
    }
  }

  /** Lines that neither break nor start with a dash make YAML the closing search passes over. */
  lemma {:induction false} YamlNoDashLine(lines: seq<string>)
    requires forall k :: 0 <= k < |lines| ==> |lines[k]| > 0 && lines[k][0] != '-' && '\n' !in lines[k]
    ensures NoDashLine(YamlText(lines))
    decreases |lines|
  {
    if |lines| > 0 {
      YamlNoDashLine(lines[1..]);
      var y := YamlText(lines);
      var l := lines[0];
      var rest := YamlText(lines[1..]);
      assert y == "\n" + l + rest;
      forall k | 0 <= k < |y| && y[k] == '\n'
        ensures k + 1 < |y| && y[k + 1] != '-'
      {
        if k == 0 {
          assert y[1] == l[0];
        } else if k > |l| {
          assert y[k] == rest[k - 1 - |l|];
          assert y[k + 1] == rest[k - |l|];
        }
      }
    }
  }

  /** The text written for a part. */
  function PartContent(h: Header, text: string): string
  {
    FrontMatter(h) + text
  }

  /**
   * A part file reads back as its own segment: the summarizer's body
   * extraction on it returns exactly the segment text, as long as the
   * header values are single lines.
   */
  lemma PartBodyRoundTrip(h: Header, text: string)
    requires text != "" && !IsSpace(text[0])
    requires forall k :: k in h ==> '\n' !in h[k]
    ensures TranscriptBody(PartContent(h, text)) == text
  {
    var yaml := YamlText(HeaderLines(h));
    FrontMatterShape(h);
    Regroup(yaml, text);
    BodyAfterFrontMatter(yaml, "\n\n", text);
  }

  lemma Regroup(yaml: string, text: string)
    ensures "---" + yaml + "\n" + "---\n\n" + text == "---" + yaml + "\n---" + "\n\n" + text
  {
  }

  /** The front matter is the YAML of the header lines between two `---` lines, then a blank line. */
  lemma FrontMatterShape(h: Header)
    requires forall k :: k in h ==> '\n' !in h[k]
    ensures FrontMatter(h) == "---" + YamlText(HeaderLines(h)) + "\n" + "---\n\n"
    ensures NoDashLine(YamlText(HeaderLines(h)))
  {
    var lines := HeaderLines(h);
    HeaderLinesShape(h);
    YamlNoDashLine(lines);
    JoinFramed("---", lines, "---\n\n");
  }

  /** In particular a part reads back as its stripped segment. */
  lemma PartHoldsSegment(h: Header, segment: string)
    requires Strip(segment) != ""
    requires forall k :: k in h ==> '\n' !in h[k]
    ensures TranscriptBody(PartContent(h, Strip(segment))) == Strip(segment)
  {
    TrimShape(segment, Whitespace);
    PartBodyRoundTrip(h, Strip(segment));
  }

  /** Header lines of single-line values are non-empty single lines that do not start with a dash. */
  lemma HeaderLinesShape(h: Header)
    requires forall key :: key in h ==> '\n' !in h[key]
    ensures forall k :: 0 <= k < |HeaderLines(h)| ==>
              |HeaderLines(h)[k]| > 0 && HeaderLines(h)[k][0] != '-' && '\n' !in HeaderLines(h)[k]
  {
    forall k | 0 <= k < |HeaderLines(h)|
      ensures |HeaderLines(h)[k]| > 0 && HeaderLines(h)[k][0] != '-' && '\n' !in HeaderLines(h)[k]
    {
      LineShape(h, k);
    }
  }

  lemma LineShape(h: Header, k: nat)
    requires forall key :: key in h ==> '\n' !in h[key]
    requires k < |HeaderLines(h)|
    ensures |HeaderLines(h)[k]| > 0 && HeaderLines(h)[k][0] != '-' && '\n' !in HeaderLines(h)[k]
  {
    var l := HeaderLines(h)[k];
    assert ("meeting_start" in h && l == "meeting_start: " + h["meeting_start"]) ||
           ("meeting_end" in h && l == "meeting_end: " + h["meeting_end"]) ||
           ("recording_source" in h && l == "recording_source: " + h["recording_source"]);
  }

  /** The paths of the parts, in order. */
  function PartPaths(dir: string, stem: string, ext: string, parts: seq<Part>): (paths: seq<string>)
    ensures |paths| == |parts|
    ensures forall k :: 0 <= k < |parts| ==> paths[k] == PartPath(dir, stem, ext, parts[k])
    decreases |parts|
  {
    if |parts| == 0 then [] else PartPaths(dir, stem, ext, parts[..|parts| - 1]) + [PartPath(dir, stem, ext, parts[|parts| - 1])]
  }

  /** The files the parts become. */
  function Written(dir: string, stem: string, ext: string, meta: Header, iso: string -> Option<int>,
                   fmt: int -> string, body: string, parts: seq<Part>): (w: map<string, string>)
    ensures forall x :: x in w <==> x in PartPaths(dir, stem, ext, parts)
    decreases |parts|
  {
    if |parts| == 0 then map[]
    else
      var last := parts[|parts| - 1];
      Written(dir, stem, ext, meta, iso, fmt, body, parts[..|parts| - 1])
        [PartPath(dir, stem, ext, last) := PartContent(PartHeader(meta, iso, fmt, last, |body|), PartText(body, last))]
  }

  /** Writing one more part adds its path, and one more file holding its content. */
  lemma WrittenSnoc(dir: string, stem: string, ext: string, meta: Header, iso: string -> Option<int>,
                    fmt: int -> string, body: string, parts: seq<Part>, part: Part)
    ensures PartPaths(dir, stem, ext, parts + [part]) == PartPaths(dir, stem, ext, parts) + [PartPath(dir, stem, ext, part)]
    ensures Written(dir, stem, ext, meta, iso, fmt, body, parts + [part]) ==
            Written(dir, stem, ext, meta, iso, fmt, body, parts)
              [PartPath(dir, stem, ext, part) := PartContent(PartHeader(meta, iso, fmt, part, |body|), PartText(body, part))]
  {
    assert (parts + [part])[..|parts|] == parts;
  }

  /** Writing a file after a merge is the merge with the written file. */
  lemma MergeUpdate(a: map<string, string>, b: map<string, string>, k: string, v: string)
    ensures (a + b)[k := v] == a + b[k := v]
  {
  }

  /** Parts with strictly increasing indices land on pairwise different paths. */
  lemma PartPathsDistinct(dir: string, stem: string, ext: string, parts: seq<Part>)
    requires Increasing(parts)
    ensures forall k, l :: 0 <= k < l < |parts| ==> PartPath(dir, stem, ext, parts[k]) != PartPath(dir, stem, ext, parts[l])
  {
    forall k, l | 0 <= k < l < |parts|
      ensures PartPath(dir, stem, ext, parts[k]) != PartPath(dir, stem, ext, parts[l])
    {
      if PartPath(dir, stem, ext, parts[k]) == PartPath(dir, stem, ext, parts[l]) {
        PartPathInjective(dir, stem, ext, parts[k], parts[l]);
      }
    }
  }

  /* ---------------------------------------------------------------- */
  /* The inbox                                                        */
  /* ---------------------------------------------------------------- */

  class Inbox {
    var files: map<string, string>

    constructor (initial: map<string, string>)
      ensures files == initial
    {
      files := initial;
    }

    /**
     * `split_transcript`: every non-blank segment of the transcript's body
     * becomes `<stem>-part<i+1><ext>` in `dir`, holding the front matter of
     * its interpolated times and the stripped segment; the original is
     * removed afterwards. Positions past the end of the body clamp, as
     * Python slices do.
     */
    method SplitTranscript(path: string, dir: string, stem: string, ext: string, positions: seq<nat>,
                           yaml: string -> Header, iso: string -> Option<int>, fmt: int -> string)
      returns (created: seq<string>)
      requires path in files
      modifies this
      ensures var body := TranscriptBody(old(files[path]));
              var parts := Segments(body, Bounds(positions, |body|), |positions| + 1);
              created == PartPaths(dir, stem, ext, parts) &&
              files == (old(files) + Written(dir, stem, ext, Metadata(old(files[path]), yaml), iso, fmt, body, parts)) - {path}
    {
      var content := files[path];
      var body := TranscriptBody(content);
      var meta := Metadata(content, yaml);
      var b := Bounds(positions, |body|);
      created := WriteParts(body, b, meta, dir, stem, ext, iso, fmt);
      files := files - {path};
    }

    /** The loop of `split_transcript`: one file per non-blank segment, in order. */
    method WriteParts(body: string, b: seq<nat>, meta: Header, dir: string, stem: string, ext: string,
                      iso: string -> Option<int>, fmt: int -> string)
      returns (created: seq<string>)
      requires |b| >= 1
      modifies this
      ensures var parts := Segments(body, b, |b| - 1);
              created == PartPaths(dir, stem, ext, parts) &&
              files == old(files) + Written(dir, stem, ext, meta, iso, fmt, body, parts)
    {
      created := [];
      ghost var parts: seq<Part> := [];
      for i := 0 to |b| - 1
        invariant parts == Segments(body, b, i)
        invariant created == PartPaths(dir, stem, ext, parts)
        invariant files == old(files) + Written(dir, stem, ext, meta, iso, fmt, body, parts)
      {
        var part := Part(i, b[i], b[i + 1]);
        var segment := PartText(body, part);
        PartWritten(old(files), dir, stem, ext, meta, iso, fmt, body, b, i);
        if segment != "" {
          var target := PartPath(dir, stem, ext, part);
          files := files[target := PartContent(PartHeader(meta, iso, fmt, part, |body|), segment)];
          created := created + [target];
          parts := parts + [part];
        }
      }
    }
  }

  /** One step of the loop: a gap whose stripped slice is not empty adds its part and writes its file. */
  lemma PartWritten(before: map<string, string>, dir: string, stem: string, ext: string, meta: Header,
                    iso: string -> Option<int>, fmt: int -> string, body: string, b: seq<nat>, i: nat)
    requires i + 1 < |b|
    ensures var parts := Segments(body, b, i);
            var p := Part(i, b[i], b[i + 1]);
            if PartText(body, p) == "" then Segments(body, b, i + 1) == parts
            else
              Segments(body, b, i + 1) == parts + [p] &&
              PartPaths(dir, stem, ext, parts + [p]) == PartPaths(dir, stem, ext, parts) + [PartPath(dir, stem, ext, p)] &&
              (before + Written(dir, stem, ext, meta, iso, fmt, body, parts))
                [PartPath(dir, stem, ext, p) := PartContent(PartHeader(meta, iso, fmt, p, |body|), PartText(body, p))]
              == before + Written(dir, stem, ext, meta, iso, fmt, body, parts + [p])
  {
    var parts := Segments(body, b, i);
    var p := Part(i, b[i], b[i + 1]);
    SegmentsStep(body, b, i);
    WrittenSnoc(dir, stem, ext, meta, iso, fmt, body, parts, p);
    MergeUpdate(before, Written(dir, stem, ext, meta, iso, fmt, body, parts), PartPath(dir, stem, ext, p),
                PartContent(PartHeader(meta, iso, fmt, p, |body|), PartText(body, p)));
  }

  /** The parts of one split are written to pairwise different files. */
  lemma SplitPathsDistinct(body: string, positions: seq<nat>, dir: string, stem: string, ext: string)
    ensures var parts := Segments(body, Bounds(positions, |body|), |positions| + 1);
            forall k, l :: 0 <= k < l < |parts| ==> PartPath(dir, stem, ext, parts[k]) != PartPath(dir, stem, ext, parts[l])
  {
    var parts := Segments(body, Bounds(positions, |body|), |positions| + 1);
    SegmentsIncreasing(body, Bounds(positions, |body|), |positions| + 1);
    PartPathsDistinct(dir, stem, ext, parts);
  }

  /**
   * The split of positions found in the body leaves the parts in order,
   * without overlap, and within the body.
   */
  lemma SplitPartsOrdered(body: string, positions: seq<nat>, k: nat, l: nat)
    requires forall i :: 0 <= i < |positions| ==> positions[i] <= |body|
    requires k < l < |Segments(body, Bounds(positions, |body|), |positions| + 1)|
    ensures |body| > 0
    ensures var parts := Segments(body, Bounds(positions, |body|), |positions| + 1);
            parts[k].lo <= parts[k].hi <= parts[l].lo <= parts[l].hi <= |body|
  {
    PartsOrdered(body, Bounds(positions, |body|), |positions| + 1, k, l);
  }

  /**
   * Parts in order get interpolated times in order: each part's start is
   * no later than its end, an earlier part ends no later than a later one
   * starts, and all lie within the recording.
   */
  lemma PartTimesOrdered(start: int, total: nat, p: Part, q: Part, length: nat)
    requires length > 0 && p.lo <= p.hi <= q.lo <= q.hi <= length
    ensures start <= Interpolate(start, total, p.lo, length) <= Interpolate(start, total, p.hi, length)
    ensures Interpolate(start, total, p.hi, length) <= Interpolate(start, total, q.lo, length)
    ensures Interpolate(start, total, q.lo, length) <= Interpolate(start, total, q.hi, length) <= start + total
  {
    InterpolateWithin(start, total, p.lo, p.hi, length);
    InterpolateWithin(start, total, p.hi, q.lo, length);
    InterpolateWithin(start, total, q.lo, q.hi, length);
  }

  /* ---------------------------------------------------------------- */
  /* Unique output names                                              */
  /* ---------------------------------------------------------------- */

  function PlainName(dir: string, base: string, ext: string): string
  {
    PathJoin(dir, base + "." + ext)
  }

  function NumberedName(dir: string, base: string, n: nat, ext: string): string
  {
    NumberedPath(dir, base + "-", n, "." + ext)
  }

  lemma NumberedNameInjective(dir: string, base: string, ext: string, i: nat, j: nat)
    requires NumberedName(dir, base, i, ext) == NumberedName(dir, base, j, ext)
    ensures i == j
  {
    NumberedPathInjective(dir, base + "-", i, j, "." + ext);
  }

  /**
   * `ensure_unique_filename`: `base.ext` when free, otherwise `base-N.ext`
   * for the least N from 1 on that is free; never an existing path.
   */
  method EnsureUniqueFilename(existing: set<string>, dir: string, base: string, ext: string) returns (path: string)
    ensures path !in existing
    ensures PlainName(dir, base, ext) !in existing ==> path == PlainName(dir, base, ext)
    ensures PlainName(dir, base, ext) in existing ==>
              exists n: nat :: n >= 1 && path == NumberedName(dir, base, n, ext) &&
                forall k: nat :: 1 <= k < n ==> NumberedName(dir, base, k, ext) in existing
  {
    path := PlainName(dir, base, ext);
    if path !in existing {
      return;
    }
    var counter: nat := 1;
    path := NumberedName(dir, base, counter, ext);
    while path in existing
      invariant counter >= 1 && path == NumberedName(dir, base, counter, ext)
      invariant NamesBelow(dir, base, ext, counter) <= existing
      decreases existing - NamesBelow(dir, base, ext, counter)
    {
      NotBelow(dir, base, ext, counter, counter);
      counter := counter + 1;
      path := NumberedName(dir, base, counter, ext);
    }
  }

  lemma NumberedNameDistinct(dir: string, base: string, ext: string, i: nat, j: nat)
    requires i != j
    ensures NumberedName(dir, base, i, ext) != NumberedName(dir, base, j, ext)
  {
    if NumberedName(dir, base, i, ext) == NumberedName(dir, base, j, ext) {
      NumberedNameInjective(dir, base, ext, i, j);
    }
  }

  /** The numbered names `base-1.ext` to `base-(n-1).ext`. */
  function NamesBelow(dir: string, base: string, ext: string, n: nat): (names: set<string>)
    ensures forall k: nat :: 1 <= k < n ==> NumberedName(dir, base, k, ext) in names
    decreases n
  {
    if n <= 1 then {} else NamesBelow(dir, base, ext, n - 1) + {NumberedName(dir, base, n - 1, ext)}
  }

  /** A numbered name is not among those with smaller numbers. */
  lemma {:induction false} NotBelow(dir: string, base: string, ext: string, m: nat, n: nat)
    requires m >= n
    ensures NumberedName(dir, base, m, ext) !in NamesBelow(dir, base, ext, n)
    decreases n
  {
    if n > 1 {
      var x := NumberedName(dir, base, m, ext);
      assert x !in NamesBelow(dir, base, ext, n - 1) by {
        NotBelow(dir, base, ext, m, n - 1);
      }
      assert x != NumberedName(dir, base, n - 1, ext) by {
        NumberedNameDistinct(dir, base, ext, m, n - 1);
      }
      assert NamesBelow(dir, base, ext, n) == NamesBelow(dir, base, ext, n - 1) + {NumberedName(dir, base, n - 1, ext)};
    }
  }

  /* ---------------------------------------------------------------- */
  /* One inbox run                                                    */
  /* ---------------------------------------------------------------- */

  /** The transcripts that pass the junk filter, in order. */
  function Kept(files: seq<string>, worth: string -> bool): (r: seq<string>)
    ensures |r| <= |files|
    ensures forall f :: f in r <==> f in files && worth(f)
    decreases |files|
  {
    if |files| == 0 then []
    else Kept(files[..|files| - 1], worth) + (if worth(files[|files| - 1]) then [files[|files| - 1]] else [])
  }

  lemma {:induction false} KeptNone(files: seq<string>, worth: string -> bool)
    requires forall f :: f in files ==> !worth(f)
    ensures Kept(files, worth) == []
    decreases |files|
  {
    if |files| > 0 {
      assert files[|files| - 1] in files;
      KeptNone(files[..|files| - 1], worth);
    }
  }

  /** Each kept transcript replaced by the files it turns into: itself, or its parts after a split. */
  function Expanded(files: seq<string>, expand: string -> seq<string>): seq<string>
    decreases |files|
  {
    if |files| == 0 then [] else Expanded(files[..|files| - 1], expand) + expand(files[|files| - 1])
  }

  /** How many of `files` are summarized successfully. */
  function Successes(files: seq<string>, ok: string -> bool): (n: nat)
    ensures n <= |files|
    decreases |files|
  {
    if |files| == 0 then 0 else Successes(files[..|files| - 1], ok) + (if ok(files[|files| - 1]) then 1 else 0)
  }

  lemma KeptStep(files: seq<string>, i: nat, worth: string -> bool)
    requires i < |files|
    ensures Kept(files[..i + 1], worth) == Kept(files[..i], worth) + (if worth(files[i]) then [files[i]] else [])
  {
    assert files[..i + 1][..i] == files[..i];
  }

  lemma ExpandedStep(files: seq<string>, i: nat, expand: string -> seq<string>)
    requires i < |files|
    ensures Expanded(files[..i + 1], expand) == Expanded(files[..i], expand) + expand(files[i])
  {
    assert files[..i + 1][..i] == files[..i];
  }

  lemma SuccessesStep(files: seq<string>, i: nat, ok: string -> bool)
    requires i < |files|
    ensures Successes(files[..i + 1], ok) == Successes(files[..i], ok) + (if ok(files[i]) then 1 else 0)
  {
    assert files[..i + 1][..i] == files[..i];
  }

  /** The files summarized in the last step of a run. */
  function FinalFiles(files: seq<string>, worth: string -> bool, expand: string -> seq<string>): seq<string>
  {
    Expanded(Kept(files, worth), expand)
  }

  /**
   * `process_inbox`. `worth` is the junk filter's verdict, `expand` the
   * outcome of the multi-meeting step for one transcript, and `ok` whether
   * summarizing one file succeeds, an exception counting as a failure.
   * A missing inbox counts as one failure; otherwise every final file is
   * counted exactly once, as a success or as a failure.
   */
  method ProcessInbox(inboxExists: bool, files: seq<string>, worth: string -> bool,
                      expand: string -> seq<string>, ok: string -> bool)
    returns (successful: nat, failed: nat)
    ensures !inboxExists ==> successful == 0 && failed == 1
    ensures inboxExists ==> successful == Successes(FinalFiles(files, worth, expand), ok) &&
                            successful + failed == |FinalFiles(files, worth, expand)|
  {
    if !inboxExists {
      return 0, 1;
    }
    if |files| == 0 {
      return 0, 0;
    }
    var skipped := 0;
    var filtered: seq<string> := [];
    for i := 0 to |files|
      invariant filtered == Kept(files[..i], worth)
      invariant skipped == i - |filtered|
    {
      if worth(files[i]) {
        filtered := filtered + [files[i]];
      } else {
        skipped := skipped + 1;
      }
      KeptStep(files, i, worth);
    }
    assert files[..|files|] == files;
    var final: seq<string> := [];
    for i := 0 to |filtered|
      invariant final == Expanded(filtered[..i], expand)
    {
      final := final + expand(filtered[i]);
      ExpandedStep(filtered, i, expand);
    }
    assert filtered[..|filtered|] == filtered;
    if |final| == 0 {
      return 0, 0;
    }
    successful, failed := 0, 0;
    for i := 0 to |final|
      invariant successful == Successes(final[..i], ok)
      invariant successful + failed == i
    {
      if ok(final[i]) {
        successful := successful + 1;
      } else {
        failed := failed + 1;
      }
      SuccessesStep(final, i, ok);
    }
    assert final[..|final|] == final;
  }

  /**
   * The exit code of a run: 1 for a missing inbox or any failed file, 2
   * when nothing was left to summarize (an empty inbox or only junk), and
   * 0 when every final file was summarized.
   */
  lemma RunExitCode(inboxExists: bool, files: seq<string>, worth: string -> bool,
                    expand: string -> seq<string>, ok: string -> bool, successful: nat, failed: nat)
    requires !inboxExists ==> successful == 0 && failed == 1
    requires inboxExists ==> successful == Successes(FinalFiles(files, worth, expand), ok) &&
                             successful + failed == |FinalFiles(files, worth, expand)|
    ensures !inboxExists ==> ExitCode(Some((successful, failed))) == 1
    ensures inboxExists && (forall f :: f in files ==> !worth(f)) ==> ExitCode(Some((successful, failed))) == 2
    ensures inboxExists ==> (ExitCode(Some((successful, failed))) == 0 <==>
              |FinalFiles(files, worth, expand)| > 0 && successful == |FinalFiles(files, worth, expand)|)
  {
    if inboxExists && forall f :: f in files ==> !worth(f) {
      KeptNone(files, worth);
    }
  }

  /* ---------------------------------------------------------------- */
  /* Calendar enrichment of a finished note                           */
  /* ---------------------------------------------------------------- */

  /** `\[(\d{4}-\d{2}-\d{2}) (\w{3})(?: (\d{2}:\d{2}))?\]` at `i`: single spaces and a weekday. */
  function DayStampAt(s: string, i: nat): (st: Option<Stamp>)
    requires i <= |s|
    ensures st.Some? ==> IsDate(st.value.date) && StartsWith(s[i..], st.value.text)
    ensures st.Some? && st.value.time.Some? ==> IsClock(st.value.time.value)
  {
    if i < |s| && s[i] == '[' && DateAt(s, i + 1) && i + 11 < |s| && s[i + 11] == ' ' && WordAt(s, i + 12) then
      var date := s[i + 1..i + 11];
      if i + 21 < |s| && s[i + 15] == ' ' && ClockAt(s, i + 16) && s[i + 21] == ']' then
        Some(Stamp(s[i..i + 22], date, Some(s[i + 16..i + 21])))
      else if i + 15 < |s| && s[i + 15] == ']' then
        Some(Stamp(s[i..i + 16], date, None))
      else None
    else None
  }

  function FindDayStamp(s: string, i: nat): (st: Option<Stamp>)
    requires i <= |s|
    ensures st.Some? ==> IsDate(st.value.date) && Contains(s, st.value.text)
    ensures st.Some? && st.value.time.Some? ==> IsClock(st.value.time.value)
    decreases |s| - i
  {
    if i == |s| then None
    else match DayStampAt(s, i)
      case Some(st) =>
        assert OccursAt(s, st.text, i) by { assert s[i..][..|st.text|] == s[i..i + |st.text|]; }
        Some(st)
      case None => FindDayStamp(s, i + 1)
  }

  /** `parse_notes_org_for_calendar`: as the calendar module's parser, but a timestamp needs its weekday. */
  function ParseNotesForCalendar(content: string): (n: Notes)
    ensures n.content == content
    ensures n.date.Some? <==> n.timestamp.Some?
    ensures n.date.Some? ==> IsDate(n.date.value) && Contains(content, n.timestamp.value)
  {
    NotesFrom(content, FindDayStamp(content, 0))
  }

  /** What `enrich_with_calendar` does with a note. */
  datatype NoteOutcome =
    | Skipped
      /** The title step raises on a note without a title. */
    | Failed
      /**
       * The rewritten text when something changed; the old and new note
       * paths returned when the slug changed; and the renames made then,
       * of the note and of the transcript.
       */
    | Done(written: Option<string>, renamed: Option<Move>, noteMove: Option<Move>, transcriptMove: Option<Move>)

  /** A file moved from one path to another. */
  datatype Move = Move(from: string, to: string)

  /** `os.path.join(os.path.dirname(path), f"{date_str}-{slug}{ext}")` with the date's dashes removed. */
  function RenamedPath(path: string, date: string, slug: string, ext: string): (r: string)
    ensures EndsWith(r, Undashed(date) + "-" + slug + ext)
  {
    PathJoin(DirName(path), Undashed(date) + "-" + slug + ext)
  }

  /**
   * `enrich_with_calendar`: nothing without a note date, same-day entries,
   * a reply, and a confident match (0.7 or more); otherwise the rewrite
   * steps of the calendar module and a write when anything changed. Only
   * for a non-empty new slug different from the old one, the note is
   * renamed to `<date without dashes>-<slug>.org` in its own directory
   * unless it already has that path, the transcript to the same name
   * with `.txt` in its directory if it exists and is not there already,
   * and the note's old and new paths are returned.
   */
  function EnrichWithCalendar(notes: Notes, entries: seq<Entry>, reply: Option<MatchResult>, confidence: real,
                              orgPath: string, transcriptPath: string, transcriptExists: bool): (r: NoteOutcome)
    ensures r.Done? ==> notes.date.Some? && notes.date.value != "" && FilterByDate(entries, notes.date.value) != []
    ensures r.Done? ==> reply.Some? && reply.value.matched && confidence >= 0.7
    ensures r.Done? ==> !(TitleStep(notes, reply.value) && notes.title.None?)
    ensures r.Done? ==> (r.written.Some? <==> |Rewrite(notes, reply.value).changes| > 0)
    ensures r.Done? && r.written.Some? ==> r.written.value == Rewrite(notes, reply.value).content
    ensures r.Done? ==> (r.renamed.Some? <==> r.written.Some? && SlugStep(notes, reply.value))
    ensures r.Done? && r.renamed.Some? ==>
              r.renamed.value == Move(orgPath, RenamedPath(orgPath, notes.date.value, NewSlug(notes, reply.value).value, ".org"))
    ensures r.Done? ==> (r.noteMove.Some? <==> r.renamed.Some? && r.renamed.value.from != r.renamed.value.to)
    ensures r.Done? && r.noteMove.Some? ==> r.noteMove == r.renamed
    ensures r.Done? ==>
              (r.transcriptMove.Some? <==>
                 r.renamed.Some? && transcriptExists &&
                 transcriptPath != RenamedPath(transcriptPath, notes.date.value, NewSlug(notes, reply.value).value, ".txt"))
    ensures r.Done? && r.transcriptMove.Some? ==>
              r.transcriptMove.value ==
                Move(transcriptPath, RenamedPath(transcriptPath, notes.date.value, NewSlug(notes, reply.value).value, ".txt"))
  {
    if notes.date.None? || notes.date.value == "" then Skipped
    else if FilterByDate(entries, notes.date.value) == [] then Skipped
    else if reply.None? then Skipped
    else
      var m := reply.value;
      if !m.matched || confidence < 0.7 then Skipped
      else if TitleStep(notes, m) && notes.title.None? then Failed
      else
        var d := Rewrite(notes, m);
        if |d.changes| == 0 then Done(None, None, None, None)
        else if SlugStep(notes, m) then
          var slug := NewSlug(notes, m).value;
          var newOrg := RenamedPath(orgPath, notes.date.value, slug, ".org");
          var newTranscript := RenamedPath(transcriptPath, notes.date.value, slug, ".txt");
          Done(Some(d.content), Some(Move(orgPath, newOrg)),
               if orgPath != newOrg then Some(Move(orgPath, newOrg)) else None,
               if transcriptPath != newTranscript && transcriptExists then Some(Move(transcriptPath, newTranscript)) else None)
        else Done(Some(d.content), None, None, None)
  }

  /** A renamed note and transcript stay in the directories they were in. */
  lemma RenamesStayInPlace(notes: Notes, entries: seq<Entry>, reply: Option<MatchResult>, confidence: real,
                           orgPath: string, transcriptPath: string, transcriptExists: bool)
    requires var r := EnrichWithCalendar(notes, entries, reply, confidence, orgPath, transcriptPath, transcriptExists);
             r.Done? && r.renamed.Some?
    requires '/' !in notes.date.value && '/' !in NewSlug(notes, reply.value).value
    ensures var r := EnrichWithCalendar(notes, entries, reply, confidence, orgPath, transcriptPath, transcriptExists);
            DirName(r.renamed.value.to) == DirName(orgPath) &&
            (r.transcriptMove.Some? ==> DirName(r.transcriptMove.value.to) == DirName(transcriptPath))
  {
    var date, slug := notes.date.value, NewSlug(notes, reply.value).value;
    ExtensionsHaveNoSlash();
    RenamedPathStaysInDir(orgPath, date, slug, ".org");
    RenamedPathStaysInDir(transcriptPath, date, slug, ".txt");
  }

  lemma ExtensionsHaveNoSlash()
    ensures '/' !in ".org" && '/' !in ".txt"
  {
  }

  /** A renamed file keeps its directory when neither the date nor the slug holds a `/`. */
  lemma RenamedPathStaysInDir(path: string, date: string, slug: string, ext: string)
    requires '/' !in date && '/' !in slug && '/' !in ext
    ensures DirName(RenamedPath(path, date, slug, ext)) == DirName(path)
  {
    UndashedKeepsOut(date, '/');
    NoSlashInName(Undashed(date), slug, ext);
    RenameStaysInDir(path, Undashed(date) + "-" + slug + ext);
  }

  /** Removing dashes adds no character. */
  lemma {:induction false} UndashedKeepsOut(s: string, c: char)
    requires c !in s
    ensures c !in Undashed(s)
    decreases |s|
  {
    if |s| > 0 {
      assert c !in s[1..];
      UndashedKeepsOut(s[1..], c);
    }
  }

  lemma NoSlashInName(a: string, slug: string, ext: string)
    requires '/' !in a && '/' !in slug && '/' !in ext
    ensures '/' !in a + "-" + slug + ext
  {
    var n := a + "-" + slug + ext;
    forall k | 0 <= k < |n| ensures n[k] != '/' {
      if k < |a| { assert n[k] == a[k]; }
      else if |a| < k < |a| + 1 + |slug| { assert n[k] == slug[k - |a| - 1]; }
      else if k >= |a| + 1 + |slug| { assert n[k] == ext[k - |a| - 1 - |slug|]; }
    }
  }

  /**
   * Where the pipeline and the stand-alone tool part ways: a null slug
   * suggestion with some other change is reported as a rename by the tool
   * but not by the pipeline, which then renames no file.
   */
  lemma NullSlugRenames(notes: Notes, m: MatchResult, entries: seq<Entry>,
                        orgPath: string, transcriptPath: string, transcriptExists: bool)
    requires m.matched && m.suggestedSlug.Null? && notes.slug.Some?
    requires notes.date.Some? && notes.date.value != "" && FilterByDate(entries, notes.date.value) != []
    requires !EntryIndexFails(m, entries) && !(TitleStep(notes, m) && notes.title.None?)
    requires |Rewrite(notes, m).changes| > 0
    ensures ApplyEnrichment(notes, m, entries, false).renamed == Some(Rename(notes.slug, None))
    ensures var r := EnrichWithCalendar(notes, entries, Some(m), 1.0, orgPath, transcriptPath, transcriptExists);
            r.renamed.None? && r.noteMove.None? && r.transcriptMove.None?
  {
  }
}
