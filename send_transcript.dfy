/**
 * The transcript sender script: the title it derives from a transcript
 * file (the first content line after any front matter, else the file
 * name) and the success rule of its single webhook post. The file system
 * and the HTTP exchange are parameters.
 */
module SendTranscript {
  import opened Wrappers
  import opened Text

  /** `os.path.basename`: the part of the path after its last `/`. */
  function BaseName(path: string): (r: string)
    ensures '/' !in r && EndsWith(path, r)
    ensures |r| == |path| || path[|path| - |r| - 1] == '/'
  {
    match LastIndexOf(path, '/')
    case None => path
    case Some(i) => path[i + 1..]
  }

  /**
   * `os.path.splitext(name)[0]`: the name up to its last dot, when some
   * character other than a dot comes before that dot; the whole name
   * otherwise.
   */
  function Stem(name: string): (r: string)
    ensures StartsWith(name, r)
  {
    match LastIndexOf(name, '.')
    case None => name
    case Some(i) => if exists k :: 0 <= k < i && name[k] != '.' then name[..i] else name
  }

  /**
   * A file name `base.ext` loses its last extension, provided the base
   * has a character other than a dot; a name without a dot is kept.
   */
  lemma StemDropsExtension(base: string, ext: string)
    requires '.' !in ext
    ensures (exists k :: 0 <= k < |base| && base[k] != '.') ==> Stem(base + "." + ext) == base
    ensures '.' !in base ==> Stem(base) == base
  {
    LastIndexOfBefore(base, '.', ext);
    var name := base + "." + ext;
    assert name == base + ['.'] + ext;
    if k :| 0 <= k < |base| && base[k] != '.' {
      assert name[k] == base[k];
      assert name[..|base|] == base;
    }
  }

  /** A front-matter fence: a line that is `---` once stripped. */
  predicate IsFence(line: string) { Strip(line) == "---" }

  /** The first fence at or after `from`. */
  function ClosingFence(lines: seq<string>, from: nat): (r: Option<nat>)
    requires from <= |lines|
    ensures r.Some? ==> from <= r.value < |lines| && IsFence(lines[r.value])
    ensures r.Some? ==> forall j :: from <= j < r.value ==> !IsFence(lines[j])
    ensures r.None? ==> forall j :: from <= j < |lines| ==> !IsFence(lines[j])
    decreases |lines| - from
  {
    if from == |lines| then None
    else if IsFence(lines[from]) then Some(from)
    else ClosingFence(lines, from + 1)
  }

  /** Where the title scan starts: after the closing fence of a leading front matter, else at line 0. */
  function ContentStart(lines: seq<string>): (start: nat)
    ensures start <= |lines|
  {
    if |lines| > 0 && IsFence(lines[0]) then
      match ClosingFence(lines, 1)
      case Some(k) => k + 1
      case None => 0
    else 0
  }

  /** The first line at or after `from` that is not blank once stripped, or `|lines|`. */
  function FirstContent(lines: seq<string>, from: nat): (k: nat)
    requires from <= |lines|
    ensures from <= k <= |lines|
    ensures k < |lines| ==> Strip(lines[k]) != ""
    ensures forall j :: from <= j < k ==> Strip(lines[j]) == ""
    decreases |lines| - from
  {
    if from == |lines| then from
    else if Strip(lines[from]) != "" then from
    else FirstContent(lines, from + 1)
  }

  /** The lines the title is looked for in. */
  function Lines(transcript: string): (lines: seq<string>)
    ensures |lines| >= 1
  {
    Split(Strip(transcript), '\n')
  }

  /** The title `send_to_webhook` derives: the first content line, stripped, or the file name's stem. */
  function TitleOf(transcript: string, filepath: string): string
  {
    var lines := Lines(transcript);
    var k := FirstContent(lines, ContentStart(lines));
    if k < |lines| then Strip(lines[k]) else Stem(BaseName(filepath))
  }

  /**
   * The title scan of `send_to_webhook`: a leading fence sends the scan
   * past the next fence, if there is one; blank lines are then skipped;
   * a line found gives the title, stripped, and otherwise the file name
   * without its extension does.
   */
  method ExtractTitle(transcript: string, filepath: string) returns (title: string)
    ensures title == TitleOf(transcript, filepath)
  {
    var lines := Split(Strip(transcript), '\n');
    var titleLine := 0;
    if Strip(lines[0]) == "---" {
      var i := 1;
      while i < |lines|
        invariant 1 <= i <= |lines|
        invariant ClosingFence(lines, 1) == ClosingFence(lines, i)
        decreases |lines| - i
      {
        if Strip(lines[i]) == "---" {
          titleLine := i + 1;
          break;
        }
        i := i + 1;
      }
    }
    assert titleLine == ContentStart(lines);
    while titleLine < |lines| && Strip(lines[titleLine]) == ""
      invariant ContentStart(lines) <= titleLine <= |lines|
      invariant FirstContent(lines, ContentStart(lines)) == FirstContent(lines, titleLine)
      decreases |lines| - titleLine
    {
      titleLine := titleLine + 1;
    }
    if titleLine < |lines| {
      title := Strip(lines[titleLine]);
    } else {
      title := Stem(BaseName(filepath));
    }
  }

  /**
   * The title is the first non-blank line after the front matter,
   * stripped, with every line before it blank; when there is no such
   * line it is the file name's stem.
   */
  lemma TitleIsFirstContent(transcript: string, filepath: string)
    ensures var lines := Lines(transcript);
            var start := ContentStart(lines);
            (forall j :: start <= j < |lines| ==> Strip(lines[j]) == "") ==> TitleOf(transcript, filepath) == Stem(BaseName(filepath))
    ensures var lines := Lines(transcript);
            var start := ContentStart(lines);
            (exists j :: start <= j < |lines| && Strip(lines[j]) != "") ==>
              exists k :: start <= k < |lines| && TitleOf(transcript, filepath) == Strip(lines[k]) &&
                TitleOf(transcript, filepath) != "" && '\n' !in lines[k] &&
                forall j :: start <= j < k ==> Strip(lines[j]) == ""
  {
    var lines := Lines(transcript);
    var start := ContentStart(lines);
    var k := FirstContent(lines, start);
    if k == |lines| {
      assert forall j :: start <= j < |lines| ==> Strip(lines[j]) == "";
    }
  }

  /** A closed front matter is skipped: the scan starts right after its closing fence. */
  lemma ClosedFrontMatterSkipped(lines: seq<string>, c: nat)
    requires 0 < c < |lines| && IsFence(lines[0]) && IsFence(lines[c])
    requires forall j :: 1 <= j < c ==> !IsFence(lines[j])
    ensures ContentStart(lines) == c + 1
  {
    var r := ClosingFence(lines, 1);
    assert r.Some? && r.value <= c;
  }

  /** A leading fence that is never closed makes the scan start at line 0, so the title is `---`. */
  lemma UnclosedFenceIsTitle(transcript: string, filepath: string)
    requires IsFence(Lines(transcript)[0])
    requires forall j :: 1 <= j < |Lines(transcript)| ==> !IsFence(Lines(transcript)[j])
    ensures TitleOf(transcript, filepath) == "---"
  {
    var lines := Lines(transcript);
    assert ClosingFence(lines, 1).None?;
    assert FirstContent(lines, 0) == 0;
  }

  /** What reading the file gave. */
  datatype FileRead = Missing | Unreadable | Contents(text: string)

  /** How the post went: no connection, another exception, or a response whose body may not be JSON. */
  datatype PostAnswer = NoConnection | PostRaised | Response(status: int, jsonBody: bool)

  /** The JSON object posted to the webhook. */
  datatype Payload = Payload(title: string, transcript: string)

  /**
   * `send_to_webhook`: a missing or unreadable file gives `False` with no
   * request. Otherwise the file's text is posted unchanged under its
   * derived title, and the result is `True` exactly for a 200 whose body
   * parses as JSON (printing it comes before the status test).
   */
  method SendToWebhook(file: FileRead, filepath: string, post: PostAnswer) returns (ok: bool, sent: Option<Payload>)
    ensures !file.Contents? ==> !ok && sent.None?
    ensures file.Contents? ==> sent == Some(Payload(TitleOf(file.text, filepath), file.text))
    ensures ok <==> file.Contents? && post == Response(200, true)
  {
    if !file.Contents? {
      return false, None;
    }
    var title := ExtractTitle(file.text, filepath);
    sent := Some(Payload(title, file.text));
    match post {
      case NoConnection => ok := false;
      case PostRaised => ok := false;
      case Response(status, jsonBody) => ok := jsonBody && status == 200;
    }
  }
}
