/**
 * The request logic of the webhook daemon: file names made from titles,
 * nested config lookup, repository URL normalisation, the front matter
 * put on a bare transcript, the validation ladders of the transcript and
 * calendar endpoints, the routing after a transcript is written, and the
 * outcome rules of the git and workflow-dispatch steps.
 *
 * Git, HTTP and the clock are parameters: each step's result is a value
 * the caller supplies.
 */
module Daemon {
  import opened Wrappers
  import opened Text
  import opened Summarization
  import opened Segmenting
  import opened Pipeline

  /* ---------------------------------------------------------------- */
  /* File names                                                       */
  /* ---------------------------------------------------------------- */

  const MaxNameLength: nat := 50

  /** The characters `[a-z0-9\-_]` a file name keeps. */
  predicate NameChar(c: char)
  {
    'a' <= c <= 'z' || IsDigit(c) || c == '-' || c == '_'
  }

  /** `re.sub(r'\s+', '-', s)`; `inRun` says the character before `s` was whitespace. */
  function HyphenateSpaces(s: string, inRun: bool): string
    decreases |s|
  {
    if |s| == 0 then ""
    else if IsSpace(s[0]) then (if inRun then "" else "-") + HyphenateSpaces(s[1..], true)
    else [s[0]] + HyphenateSpaces(s[1..], false)
  }

  /** `re.sub(r'[^a-z0-9\-_]', '', s)`. */
  function KeepNameChars(s: string): string
    decreases |s|
  {
    if |s| == 0 then "" else (if NameChar(s[0]) then [s[0]] else "") + KeepNameChars(s[1..])
  }

  /** `re.sub(r'-+', '-', s)`; `afterHyphen` says the character before `s` was a hyphen. */
  function SqueezeHyphens(s: string, afterHyphen: bool): string
    decreases |s|
  {
    if |s| == 0 then ""
    else if s[0] == '-' then (if afterHyphen then "" else "-") + SqueezeHyphens(s[1..], true)
    else [s[0]] + SqueezeHyphens(s[1..], false)
  }

  /** The last steps of `sanitize_filename`: hyphens off both ends, then at most 50 characters without a trailing hyphen. */
  function TrimAndShorten(s: string): string
  {
    var t := Trim(s, {'-'});
    if |t| > MaxNameLength then TrimRight(t[..MaxNameLength], {'-'}) else t
  }

  /** `sanitize_filename`: lower-case, hyphens for blanks, safe characters only, at most 50 of them. */
  function SanitizeFilename(title: string): string
  {
    var s := TrimAndShorten(SqueezeHyphens(KeepNameChars(HyphenateSpaces(Strip(Lower(title)), false)), false));
    if s == "" then "untitled" else s
  }

  predicate AllNameChars(s: string)
  {
    forall i :: 0 <= i < |s| ==> NameChar(s[i])
  }

  predicate NoDoubleHyphen(s: string)
  {
    forall i :: 0 <= i < |s| - 1 ==> !(s[i] == '-' && s[i + 1] == '-')
  }

  /** A name `sanitize_filename` can return: 1 to 50 safe characters, hyphens only inside and never two together. */
  predicate SafeName(s: string)
  {
    0 < |s| <= MaxNameLength && AllNameChars(s) && NoDoubleHyphen(s) && s[0] != '-' && s[|s| - 1] != '-'
  }

  lemma {:induction false} KeepNameCharsSafe(s: string)
    ensures AllNameChars(KeepNameChars(s))
    decreases |s|
  {
    if |s| > 0 {
      KeepNameCharsSafe(s[1..]);
    }
  }

  /** Squeezing keeps only characters it was given and leaves no two hyphens together. */
  lemma {:induction false} SqueezeSafe(s: string, afterHyphen: bool)
    requires AllNameChars(s)
    ensures var r := SqueezeHyphens(s, afterHyphen);
            AllNameChars(r) && NoDoubleHyphen(r) && (afterHyphen && |r| > 0 ==> r[0] != '-')
    decreases |s|
  {
    if |s| > 0 {
      var rest := SqueezeHyphens(s[1..], s[0] == '-');
      SqueezeSafe(s[1..], s[0] == '-');
      var r := SqueezeHyphens(s, afterHyphen);
      if s[0] == '-' && !afterHyphen {
        assert r == "-" + rest;
        assert forall i :: 0 < i < |r| ==> r[i] == rest[i - 1];
      } else if s[0] != '-' {
        assert r == [s[0]] + rest;
        assert forall i :: 0 < i < |r| ==> r[i] == rest[i - 1];
      }
    }
  }

  /** A piece of a string keeps its safe characters and its single hyphens. */
  lemma Piece(s: string, i: nat, j: nat)
    requires i <= j <= |s| && AllNameChars(s) && NoDoubleHyphen(s)
    ensures AllNameChars(s[i..j]) && NoDoubleHyphen(s[i..j])
  {
    assert forall k :: 0 <= k < j - i ==> s[i..j][k] == s[i + k];
  }

  /** The hyphen-trimmed, shortened name is safe or empty. */
  lemma CutSafe(s: string)
    requires AllNameChars(s) && NoDoubleHyphen(s)
    ensures TrimAndShorten(s) == "" || SafeName(TrimAndShorten(s))
  {
    var t := Trim(s, {'-'});
    TrimShape(s, {'-'});
    var k := LeadingCount(s, {'-'});
    Piece(s, k, k + |t|);
    if |t| > MaxNameLength {
      var u := TrimRight(t[..MaxNameLength], {'-'});
      Piece(t, 0, MaxNameLength);
      Piece(t[..MaxNameLength], 0, |u|);
      if |u| > 0 {
        assert u[0] == t[0];
      }
    }
  }

  /** `sanitize_filename` always returns a safe name. */
  lemma SanitizeSafe(title: string)
    ensures SafeName(SanitizeFilename(title))
  {
    var s := KeepNameChars(HyphenateSpaces(Strip(Lower(title)), false));
    KeepNameCharsSafe(HyphenateSpaces(Strip(Lower(title)), false));
    SqueezeSafe(s, false);
    CutSafe(SqueezeHyphens(s, false));
    UntitledSafe();
  }

  lemma UntitledSafe()
    ensures SafeName("untitled")
  {
  }

  lemma NameCharNotSpace(c: char)
    requires NameChar(c)
    ensures c !in Whitespace
  {
    if c != '-' {
      WordCharNotSpace(c);
    }
  }

  lemma {:induction false} NoSpacesUnchanged(s: string, inRun: bool)
    requires AllNameChars(s)
    ensures HyphenateSpaces(s, inRun) == s
    decreases |s|
  {
    if |s| > 0 {
      NameCharNotSpace(s[0]);
      NoSpacesUnchanged(s[1..], false);
    }
  }

  lemma {:induction false} SafeCharsKept(s: string)
    requires AllNameChars(s)
    ensures KeepNameChars(s) == s
    decreases |s|
  {
    if |s| > 0 {
      SafeCharsKept(s[1..]);
    }
  }

  lemma {:induction false} SingleHyphensKept(s: string, afterHyphen: bool)
    requires NoDoubleHyphen(s) && (afterHyphen && |s| > 0 ==> s[0] != '-')
    ensures SqueezeHyphens(s, afterHyphen) == s
    decreases |s|
  {
    if |s| > 0 {
      assert NoDoubleHyphen(s[1..]) by {
        assert forall i :: 0 <= i < |s| - 1 ==> s[1..][i] == s[i + 1];
      }
      SingleHyphensKept(s[1..], s[0] == '-');
    }
  }

  /** A safe name is already lower case and unpadded. */
  lemma SafeLowerStripped(s: string)
    requires SafeName(s)
    ensures Strip(Lower(s)) == s
  {
    assert Lower(s) == s;
    NameCharNotSpace(s[0]);
    NameCharNotSpace(s[|s| - 1]);
    TrimNoEdges(s, Whitespace);
  }

  /** A safe name passes through `sanitize_filename` unchanged. */
  lemma SafeUnchanged(s: string)
    requires SafeName(s)
    ensures SanitizeFilename(s) == s
  {
    SafeLowerStripped(s);
    NoSpacesUnchanged(s, false);
    SafeCharsKept(s);
    SingleHyphensKept(s, false);
    TrimNoEdges(s, {'-'});
  }

  /** Sanitizing a sanitized name changes nothing. */
  lemma SanitizeIdempotent(title: string)
    ensures SanitizeFilename(SanitizeFilename(title)) == SanitizeFilename(title)
  {
    SanitizeSafe(title);
    SafeUnchanged(SanitizeFilename(title));
  }

  /* ---------------------------------------------------------------- */
  /* Configuration                                                    */
  /* ---------------------------------------------------------------- */

  /** A parsed YAML config value: a mapping, or a leaf such as a string or number. */
  datatype Config = Mapping(entries: map<string, Config>) | Leaf(text: string)

  /** The value under `keys`, when every key on the way is present in a mapping. */
  function ValueAt(c: Config, keys: seq<string>): Option<Config>
    decreases |keys|
  {
    if |keys| == 0 then Some(c)
    else if c.Mapping? && keys[0] in c.entries then ValueAt(c.entries[keys[0]], keys[1..])
    else None
  }

  /** Looking up a longer path is looking up its first part, then the rest under the value found. */
  lemma {:induction false} ValueAtConcat(c: Config, a: seq<string>, b: seq<string>)
    ensures ValueAt(c, a + b) == match ValueAt(c, a) case None => None case Some(v) => ValueAt(v, b)
    decreases |a|
  {
    if |a| > 0 {
      assert (a + b)[0] == a[0] && (a + b)[1..] == a[1..] + b;
      if c.Mapping? && a[0] in c.entries {
        ValueAtConcat(c.entries[a[0]], a[1..], b);
      }
    } else {
      assert a + b == b;
    }
  }

  /** `_get_nested`: walk the keys one mapping at a time; the default when one is missing. */
  method GetNested(config: Config, keys: seq<string>, default: Config) returns (r: Config)
    ensures r == ValueAt(config, keys).GetOr(default)
  {
    var current := config;
    for i := 0 to |keys|
      invariant ValueAt(config, keys[..i]) == Some(current)
    {
      ValueAtConcat(config, keys[..i], [keys[i]]);
      assert keys[..i] + [keys[i]] == keys[..i + 1];
      if !current.Mapping? || keys[i] !in current.entries {
        ValueAtConcat(config, keys[..i + 1], keys[i + 1..]);
        assert keys[..i + 1] + keys[i + 1..] == keys;
        return default;
      }
      current := current.entries[keys[i]];
    }
    assert keys[..|keys|] == keys;
    r := current;
  }

  /** `_normalize_repo_url`. */
  function NormalizeRepoUrl(url: Option<string>): Option<string>
  {
    if url.None? || url.value == "" then None
    else
      var u := Strip(url.value);
      if StartsWith(u, "http://") || StartsWith(u, "https://") then Some(u)
      else if StartsWith(u, "github.com/") then Some("https://" + u)
      else Some(u)
  }

  /**
   * No URL or an empty one gives None; any other is stripped, and a
   * `github.com/` address comes out as an `https://` URL.
   */
  lemma NormalizeRepoUrlShape(url: Option<string>)
    ensures NormalizeRepoUrl(url).None? <==> url.None? || url.value == ""
    ensures url.Some? && url.value != "" ==>
              var u := Strip(url.value);
              NormalizeRepoUrl(url).value == (if StartsWith(u, "github.com/") then "https://" + u else u)
  {
    if url.Some? && url.value != "" {
      var u := Strip(url.value);
      if StartsWith(u, "github.com/") {
        assert u[0] == 'g';
        assert !StartsWith(u, "http://") && !StartsWith(u, "https://");
      }
    }
  }

  lemma StrippedEdges(s: string)
    requires !IsBlank(s)
    ensures var u := Strip(s); |u| > 0 && u[0] !in Whitespace && u[|u| - 1] !in Whitespace
  {
    StripEmptyIff(s);
    TrimShape(s, Whitespace);
  }

  /** Normalising a URL that is not blank a second time changes nothing. */
  lemma NormalizeRepoUrlIdempotent(url: Option<string>)
    requires url.Some? ==> !IsBlank(url.value)
    ensures NormalizeRepoUrl(NormalizeRepoUrl(url)) == NormalizeRepoUrl(url)
  {
    if url.Some? {
      var u := Strip(url.value);
      StrippedEdges(url.value);
      TrimIdempotent(url.value, Whitespace);
      if !(StartsWith(u, "http://") || StartsWith(u, "https://")) && StartsWith(u, "github.com/") {
        var v := "https://" + u;
        WordCharNotSpace('h');
        assert v[|v| - 1] == u[|u| - 1];
        TrimNoEdges(v, Whitespace);
        assert StartsWith(v, "https://");
      }
    }
  }

  /** A whitespace-only URL is truthy, so it comes out as the empty string rather than None. */
  lemma BlankRepoUrlIsEmpty()
    ensures NormalizeRepoUrl(Some(" ")) == Some("")
    ensures NormalizeRepoUrl(NormalizeRepoUrl(Some(" "))).None?
  {
    assert Strip(" ") == Strip(" "[1..]);
  }

  /* ---------------------------------------------------------------- */
  /* The front matter of a bare transcript                            */
  /* ---------------------------------------------------------------- */

  /**
   * The fields of a webhook payload the header uses. A string field that
   * is missing or empty is "" (both are falsy); `duration` is 0 when it
   * is missing or zero; `recordingSource` is None when the key is absent.
   */
  datatype Payload = Payload(meetingStart: string, startTime: string, meetingEnd: string, endTime: string,
                             duration: int, recordingSource: Option<string>)

  /** `meeting_start`, or its alias `start_time`. */
  function StartOf(data: Payload): string
  {
    if data.meetingStart != "" then data.meetingStart else data.startTime
  }

  /** `meeting_end`, or its alias `end_time`. */
  function EndOf(data: Payload): string
  {
    if data.meetingEnd != "" then data.meetingEnd else data.endTime
  }

  /**
   * The timing keys of the header, in insertion order. `now` is the
   * receipt time in seconds, `iso` is `datetime.fromisoformat` and `fmt`
   * is `isoformat`.
   */
  function TimingFields(data: Payload, now: int, iso: string -> Option<int>, fmt: int -> string): seq<(string, string)>
  {
    var start, end := StartOf(data), EndOf(data);
    var given := (if start != "" then [("meeting_start", start)] else []) +
                 (if end != "" then [("meeting_end", end)] else []);
    var timing :=
      if data.duration != 0 && start == "" && end == "" then
        [("meeting_start", fmt(now - data.duration)), ("meeting_end", fmt(now))]
      else if data.duration != 0 && start != "" && end == "" && iso(start).Some? then
        given + [("meeting_end", fmt(iso(start).value + data.duration))]
      else given;
    if timing == [] then [("meeting_end", fmt(now))] else timing
  }

  /** All keys of the header: the timing keys, then `recording_source` and `received_at`. */
  function HeaderFields(data: Payload, now: int, iso: string -> Option<int>, fmt: int -> string): seq<(string, string)>
  {
    TimingFields(data, now, iso, fmt) +
    [("recording_source", data.recordingSource.GetOr("macwhisper")), ("received_at", fmt(now))]
  }

  /** `key: value`, one line per field. */
  function FieldLines(fields: seq<(string, string)>): (lines: seq<string>)
    ensures |lines| == |fields|
    ensures forall k :: 0 <= k < |fields| ==> lines[k] == fields[k].0 + ": " + fields[k].1
  {
    seq(|fields|, k requires 0 <= k < |fields| => fields[k].0 + ": " + fields[k].1)
  }

  /** `_build_transcript_header`: the front matter, then the transcript as it came. */
  function BuildTranscriptHeader(data: Payload, transcript: string, now: int,
                                 iso: string -> Option<int>, fmt: int -> string): string
  {
    Join(["---"] + FieldLines(HeaderFields(data, now, iso, fmt)) + ["---", ""], '\n') + transcript
  }

  /** The keys of the timing fields: a start, an end, or a start then an end. */
  lemma TimingKeys(data: Payload, now: int, iso: string -> Option<int>, fmt: int -> string)
    ensures var t := TimingFields(data, now, iso, fmt);
            (|t| == 1 && (t[0].0 == "meeting_start" || t[0].0 == "meeting_end")) ||
            (|t| == 2 && t[0].0 == "meeting_start" && t[1].0 == "meeting_end")
  {
  }

  /**
   * What the timing fields hold: the given start and end (aliases
   * included) when present; with only a duration, an interval ending at
   * receipt; with a start and a duration, the end computed from them; with
   * nothing, the receipt time as the end.
   */
  lemma TimingValues(data: Payload, now: int, iso: string -> Option<int>, fmt: int -> string)
    ensures var t := TimingFields(data, now, iso, fmt);
            var start, end := StartOf(data), EndOf(data);
            (start != "" ==> t[0] == ("meeting_start", start)) &&
            (end != "" ==> t[|t| - 1] == ("meeting_end", end)) &&
            (data.duration != 0 && start == "" && end == "" ==>
               t == [("meeting_start", fmt(now - data.duration)), ("meeting_end", fmt(now))]) &&
            (data.duration != 0 && start != "" && end == "" && iso(start).Some? ==>
               t == [("meeting_start", start), ("meeting_end", fmt(iso(start).value + data.duration))]) &&
            (data.duration == 0 && start == "" && end == "" ==> t == [("meeting_end", fmt(now))])
  {
  }

  /** The header always ends with the recording source, `macwhisper` by default, and the receipt time. */
  lemma HeaderTail(data: Payload, now: int, iso: string -> Option<int>, fmt: int -> string)
    ensures var h := HeaderFields(data, now, iso, fmt);
            |h| >= 3 &&
            h[|h| - 2] == ("recording_source", if data.recordingSource.Some? then data.recordingSource.value else "macwhisper") &&
            h[|h| - 1] == ("received_at", fmt(now))
  {
    TimingKeys(data, now, iso, fmt);
  }

  /** A YAML text that gains one more line. */
  lemma {:induction false} YamlTextSnoc(lines: seq<string>, last: string)
    ensures YamlText(lines + [last]) == YamlText(lines) + "\n" + last
    decreases |lines|
  {
    if |lines| == 0 {
      assert [last][1..] == [];
    } else {
      assert (lines + [last])[1..] == lines[1..] + [last];
      YamlTextSnoc(lines[1..], last);
    }
  }

  /** The header text is `---`, the YAML lines, and a closing `---` line. */
  lemma HeaderShape(lines: seq<string>, transcript: string)
    ensures Join(["---"] + lines + ["---", ""], '\n') + transcript == "---" + YamlText(lines) + "\n---" + "\n" + transcript
  {
    assert ["---"] + lines + ["---", ""] == ["---"] + (lines + ["---"]) + [""];
    JoinFramed("---", lines + ["---"], "");
    YamlTextSnoc(lines, "---");
  }

  /** Field lines of single-line values neither break nor start with a dash. */
  lemma FieldLinesShape(data: Payload, now: int, iso: string -> Option<int>, fmt: int -> string)
    requires SingleLinePayload(data, now, iso, fmt)
    ensures var lines := FieldLines(HeaderFields(data, now, iso, fmt));
            forall k :: 0 <= k < |lines| ==> |lines[k]| > 0 && lines[k][0] != '-' && '\n' !in lines[k]
  {
    var h := HeaderFields(data, now, iso, fmt);
    var lines := FieldLines(h);
    TimingKeys(data, now, iso, fmt);
    forall k | 0 <= k < |lines|
      ensures |lines[k]| > 0 && lines[k][0] != '-' && '\n' !in lines[k]
    {
      FieldLineShape(h[k].0, h[k].1);
    }
  }

  lemma FieldLineShape(key: string, value: string)
    requires key in {"meeting_start", "meeting_end", "recording_source", "received_at"}
    requires '\n' !in value
    ensures var l := key + ": " + value; |l| > 0 && l[0] != '-' && '\n' !in l
  {
  }

  /** Every value the header can write is a single line. */
  predicate SingleLinePayload(data: Payload, now: int, iso: string -> Option<int>, fmt: int -> string)
  {
    forall k :: 0 <= k < |HeaderFields(data, now, iso, fmt)| ==> '\n' !in HeaderFields(data, now, iso, fmt)[k].1
  }

  /**
   * The summarizer reads the daemon's header back: the body it extracts
   * is the transcript unchanged and the YAML it parses is the field lines,
   * as long as the values are single lines and the transcript does not
   * start with whitespace.
   */
  lemma HeaderRoundTrip(data: Payload, transcript: string, now: int, iso: string -> Option<int>, fmt: int -> string)
    requires SingleLinePayload(data, now, iso, fmt)
    requires |transcript| > 0 ==> !IsSpace(transcript[0])
    ensures var content := BuildTranscriptHeader(data, transcript, now, iso, fmt);
            TranscriptBody(content) == transcript &&
            HeaderText(content) == Some(YamlText(FieldLines(HeaderFields(data, now, iso, fmt))))
  {
    var lines := FieldLines(HeaderFields(data, now, iso, fmt));
    HeaderShape(lines, transcript);
    FieldLinesShape(data, now, iso, fmt);
    YamlNoDashLine(lines);
    BodyAfterFrontMatter(YamlText(lines), "\n", transcript);
  }

  /* ---------------------------------------------------------------- */
  /* Validation of the two endpoints                                  */
  /* ---------------------------------------------------------------- */

  /** An HTTP reply: status code and message. */
  datatype Reply = Reply(status: int, message: string)

  /** The outcome of a validation ladder: a rejection, or the text to write. */
  datatype Checked = Rejected(reply: Reply) | Accepted(content: string)

  const MaxTranscriptBytes: nat := 256 * 1024
  const MaxCalendarBytes: nat := 1024 * 1024

  /** The parts of a transcript request the handler looks at; a missing JSON field is None. */
  datatype TranscriptRequest = TranscriptRequest(isJson: bool, title: Option<string>, transcript: Option<string>,
                                                 payload: Payload)

  /** The transcript as written: with a header unless it already opens with `---` after leading blanks. */
  function WithHeader(t: string, data: Payload, now: int, iso: string -> Option<int>, fmt: int -> string): string
  {
    if StartsWith(LStrip(t), "---") then t else BuildTranscriptHeader(data, t, now, iso, fmt)
  }

  /** The checks of the transcript endpoint, in the order the handler makes them. */
  function CheckTranscript(req: TranscriptRequest, now: int, iso: string -> Option<int>, fmt: int -> string): Checked
  {
    if !req.isJson then Rejected(Reply(400, "Content-Type must be application/json"))
    else if req.title.None? then Rejected(Reply(400, "Missing required field: 'title'"))
    else if req.transcript.None? then Rejected(Reply(400, "Missing required field: 'transcript'"))
    else if IsBlank(req.transcript.value) then Rejected(Reply(400, "Transcript cannot be empty"))
    else
      var content := WithHeader(req.transcript.value, req.payload, now, iso, fmt);
      var size := Utf8Length(content);
      if size > MaxTranscriptBytes then
        Rejected(Reply(413, "Transcript too large (" + DecimalString(size) + " bytes). Maximum size is " +
                            DecimalString(MaxTranscriptBytes) + " bytes (256KB)."))
      else Accepted(content)
  }

  /**
   * A transcript is accepted exactly when the request is JSON with a
   * title and a transcript that is not blank, and the text to write fits
   * in 256 KiB; the text is the transcript, behind a header when it had
   * none. Every rejection is a 400, except the size check's 413.
   */
  lemma CheckTranscriptOutcome(req: TranscriptRequest, now: int, iso: string -> Option<int>, fmt: int -> string)
    ensures var c := CheckTranscript(req, now, iso, fmt);
            (c.Accepted? <==>
               req.isJson && req.title.Some? && req.transcript.Some? && !IsBlank(req.transcript.value) &&
               Utf8Length(WithHeader(req.transcript.value, req.payload, now, iso, fmt)) <= MaxTranscriptBytes) &&
            (c.Accepted? ==> EndsWith(c.content, req.transcript.value)) &&
            (c.Rejected? ==> c.reply.status == 400 || c.reply.status == 413) &&
            (c.Rejected? && c.reply.status == 413 ==> req.isJson && req.title.Some? && req.transcript.Some?)
  {
    var c := CheckTranscript(req, now, iso, fmt);
    if c.Accepted? {
      var t := req.transcript.value;
      if !StartsWith(LStrip(t), "---") {
        var h := Join(["---"] + FieldLines(HeaderFields(req.payload, now, iso, fmt)) + ["---", ""], '\n');
        assert (h + t)[|h + t| - |t|..] == t;
      }
    }
  }

  /** The parts of a calendar request the handler looks at. */
  datatype CalendarRequest = CalendarRequest(isJson: bool, calendar: Option<string>, contentType: Option<string>,
                                             text: string)

  /** The checks of the calendar endpoint, in order: source of the text, emptiness, size. */
  function CheckCalendar(req: CalendarRequest): Checked
  {
    var source :=
      if req.isJson then
        if req.calendar.None? then None else Some(req.calendar.value)
      else if req.contentType.Some? && req.contentType.value != "" && Contains(req.contentType.value, "text/plain") then
        Some(req.text)
      else None;
    if source.None? then
      Rejected(Reply(400, if req.isJson then "Missing required field: 'calendar'"
                          else "Content-Type must be application/json or text/plain"))
    else if IsBlank(source.value) then Rejected(Reply(400, "Calendar content cannot be empty"))
    else
      var size := Utf8Length(source.value);
      if size > MaxCalendarBytes then
        Rejected(Reply(413, "Calendar too large (" + DecimalString(size) + " bytes). Maximum size is " +
                            DecimalString(MaxCalendarBytes) + " bytes."))
      else Accepted(source.value)
  }

  /**
   * The calendar text is the JSON `calendar` field or, for `text/plain`,
   * the body; it is accepted exactly when it is there, not blank and at
   * most 1 MiB, and it is written as it came.
   */
  lemma CheckCalendarOutcome(req: CalendarRequest)
    ensures var c := CheckCalendar(req);
            var plain := req.contentType.Some? && Contains(req.contentType.value, "text/plain");
            (req.isJson && req.calendar.None? ==> c == Rejected(Reply(400, "Missing required field: 'calendar'"))) &&
            (!req.isJson && !plain ==> c.Rejected? && c.reply.status == 400) &&
            (c.Accepted? <==>
               ((req.isJson && req.calendar.Some?) || (!req.isJson && plain)) &&
               var t := if req.isJson then req.calendar.value else req.text;
               !IsBlank(t) && Utf8Length(t) <= MaxCalendarBytes) &&
            (c.Accepted? ==> c.content == (if req.isJson then req.calendar.value else req.text))
  {
    if req.contentType.Some? && req.contentType.value == "" {
      assert !Contains(req.contentType.value, "text/plain");
    }
  }

  /* ---------------------------------------------------------------- */
  /* Git and workflow-dispatch outcomes                               */
  /* ---------------------------------------------------------------- */

  /** What one git command returned: success, and its stderr. */
  datatype GitRun = GitRun(ok: bool, stderr: string)

  /** The arguments of the pull in `sync_repo`. */
  function PullArgs(remote: string, branch: string, ffOnly: bool): seq<string>
  {
    ["pull"] + (if ffOnly then ["--ff-only"] else []) + [remote, branch]
  }

  /** `(changed, message)` of `sync_repo`, and the pull it ran, if any. */
  datatype Sync = Sync(changed: bool, message: string, pull: Option<seq<string>>)

  /**
   * `sync_repo`, given what `rev-parse HEAD` said before and after (None
   * when unknown) and what the pull returned.
   */
  function SyncRepo(enabled: bool, ffOnly: bool, remote: string, branch: string,
                    before: Option<string>, pull: GitRun, after: Option<string>): Sync
  {
    if !enabled then Sync(false, "sync disabled", None)
    else if !pull.ok then Sync(false, "git pull failed: " + Strip(pull.stderr), Some(PullArgs(remote, branch, ffOnly)))
    else
      var changed := before.Some? && after.Some? && before.value != after.value;
      Sync(changed, if changed then "pulled new commits" else "already up to date", Some(PullArgs(remote, branch, ffOnly)))
  }

  /**
   * Sync disabled pulls nothing; otherwise the pull carries `--ff-only`
   * exactly when configured, and new commits are reported exactly when
   * the pull succeeded and both heads are known and differ.
   */
  lemma SyncRepoOutcome(enabled: bool, ffOnly: bool, remote: string, branch: string,
                        before: Option<string>, pull: GitRun, after: Option<string>)
    ensures var r := SyncRepo(enabled, ffOnly, remote, branch, before, pull, after);
            (!enabled <==> r.pull.None?) &&
            (!enabled ==> r == Sync(false, "sync disabled", None)) &&
            (r.pull.Some? ==> var args := r.pull.value;
               |args| == (if ffOnly then 4 else 3) && args[0] == "pull" &&
               (ffOnly ==> args[1] == "--ff-only") && args[|args| - 2..] == [remote, branch]) &&
            (r.changed <==> enabled && pull.ok && before.Some? && after.Some? && before.value != after.value)
  {
  }

  /** What the dispatch request returned: an exception, or a status and body. */
  datatype HttpReply = Raised(error: string) | Answered(status: int, text: string)

  /** `(ok, message)` of `maybe_dispatch_workflow`, and whether it sent a request. */
  datatype Dispatch = Dispatch(ok: bool, message: string, requested: bool)

  /** `maybe_dispatch_workflow`; `token` is `GH_TOKEN`, "" when unset. */
  function MaybeDispatch(enabled: bool, repo: string, workflow: string, token: string, reply: HttpReply): Dispatch
  {
    if !enabled then Dispatch(false, "workflow dispatch disabled", false)
    else if repo == "" || workflow == "" then
      Dispatch(false, "workflow dispatch enabled but repo/workflow not configured", false)
    else if token == "" then Dispatch(false, "GH_TOKEN not set", false)
    else match reply
      case Raised(e) => Dispatch(false, "workflow dispatch failed: " + e, true)
      case Answered(status, text) =>
        if status !in {200, 201, 204} then
          Dispatch(false, "workflow dispatch failed (" + DecimalString(if status < 0 then 0 else status) + "): " + Strip(text), true)
        else Dispatch(true, "workflow dispatch triggered", true)
  }

  /**
   * No request is sent when dispatch is disabled, the repository or
   * workflow is missing, or there is no token; a dispatch succeeds exactly
   * when a request was sent and answered 200, 201 or 204.
   */
  lemma MaybeDispatchOutcome(enabled: bool, repo: string, workflow: string, token: string, reply: HttpReply)
    ensures var d := MaybeDispatch(enabled, repo, workflow, token, reply);
            (d.requested <==> enabled && repo != "" && workflow != "" && token != "") &&
            (d.ok <==> d.requested && reply.Answered? && reply.status in {200, 201, 204})
  {
  }

  /** `git_commit`: the file must lie inside the repository, then `add` and `commit` must both succeed. */
  function GitCommit(path: string, inside: bool, add: GitRun, commit: GitRun): (bool, string)
  {
    if !inside then (false, "File path is outside repository: " + path)
    else if !add.ok then (false, "Git add failed: " + Strip(add.stderr))
    else if !commit.ok then (false, "Git commit failed: " + Strip(commit.stderr))
    else (true, "Committed to repository")
  }

  /** `git_push`: nothing to do when pushing is off; otherwise a sync, then the push decides. */
  function GitPush(autoPush: bool, remote: string, branch: string, push: GitRun): (bool, string)
  {
    if !autoPush then (true, "Push disabled in config")
    else if !push.ok then (false, "Git push failed: " + Strip(push.stderr))
    else (true, "Pushed to " + remote + "/" + branch)
  }

  /** A commit succeeds only inside the repository with both steps passing; a push with pushing off always succeeds. */
  lemma GitStepsOutcome(path: string, inside: bool, add: GitRun, commit: GitRun,
                        autoPush: bool, remote: string, branch: string, push: GitRun)
    ensures GitCommit(path, inside, add, commit).0 <==> inside && add.ok && commit.ok
    ensures GitPush(autoPush, remote, branch, push).0 <==> !autoPush || push.ok
  {
  }

  /* ---------------------------------------------------------------- */
  /* What happens after a transcript is written                       */
  /* ---------------------------------------------------------------- */

  /** The configuration switches the handlers consult. */
  datatype Settings = Settings(autoCommit: bool, autoPush: bool, standalone: bool, standaloneAsync: bool,
                               dispatchEnabled: bool, syncEnabled: bool, syncBeforeAccepting: bool)

  /** A side effect a handler starts, in the order it starts them. */
  datatype Step = PreSync | Commit | Process | ProcessInBackground | Push | DispatchWorkflow

  /** What each step would return if it ran: `(ok, message)`. */
  datatype Outcomes = Outcomes(commit: (bool, string), process: (bool, string), push: (bool, string),
                               dispatch: (bool, string))

  /** The `git` part of the reply. */
  datatype GitReport = GitOff | GitReport(committed: bool, message: string, push: Option<(bool, string)>)

  /** The `processing` part of the reply. */
  datatype Processing =
    | NotStarted
    | Standalone(async: bool, result: Option<(bool, string)>)
    | Relay(dispatchEnabled: bool, success: bool, message: string)

  /** The reply of an accepted transcript, and the steps that produced it. */
  datatype Routed = Routed(git: GitReport, warning: Option<string>, processing: Processing, steps: seq<Step>)

  /** The commit, processing, push and dispatch decisions of the transcript handler. */
  function Route(s: Settings, o: Outcomes): Routed
  {
    if !s.autoCommit then Routed(GitOff, None, NotStarted, [])
    else if !o.commit.0 then
      Routed(GitReport(false, o.commit.1, None), Some("File saved but git commit failed"), NotStarted, [Commit])
    else if s.standalone then
      if s.standaloneAsync then
        Routed(GitReport(true, o.commit.1, None), None, Standalone(true, None), [Commit, ProcessInBackground])
      else if o.process.0 && s.autoPush then
        Routed(GitReport(true, o.commit.1, Some(o.push)), None, Standalone(false, Some(o.process)), [Commit, Process, Push])
      else
        Routed(GitReport(true, o.commit.1, None), None, Standalone(false, Some(o.process)), [Commit, Process])
    else if s.autoPush then
      if !o.push.0 then
        Routed(GitReport(true, o.commit.1, Some(o.push)), None,
               Relay(s.dispatchEnabled, false, "Skipped: push failed"), [Commit, Push])
      else
        Routed(GitReport(true, o.commit.1, Some(o.push)), None,
               Relay(s.dispatchEnabled, o.dispatch.0, o.dispatch.1), [Commit, Push, DispatchWorkflow])
    else
      Routed(GitReport(true, o.commit.1, None), None,
             Relay(s.dispatchEnabled, o.dispatch.0, o.dispatch.1), [Commit, DispatchWorkflow])
  }

  /**
   * Nothing runs without auto-commit, and everything starts with the
   * commit; a failed commit stops there with a warning. Standalone mode
   * processes locally and never dispatches, pushing only after a
   * synchronous run that succeeded; relay mode never processes locally,
   * dispatches only if the push (when configured) succeeded, and reports
   * a skipped dispatch otherwise.
   */
  lemma RouteOutcome(s: Settings, o: Outcomes)
    ensures var r := Route(s, o);
            (r.steps == [] <==> !s.autoCommit) &&
            (r.steps != [] ==> r.steps[0] == Commit) &&
            (r.warning.Some? <==> s.autoCommit && !o.commit.0) &&
            (r.warning.Some? ==> r.steps == [Commit] && r.processing == NotStarted) &&
            (r.git.GitOff? <==> !s.autoCommit) &&
            (Push in r.steps <==>
               s.autoCommit && o.commit.0 && s.autoPush && (!s.standalone || (!s.standaloneAsync && o.process.0))) &&
            (DispatchWorkflow in r.steps <==> s.autoCommit && o.commit.0 && !s.standalone && (!s.autoPush || o.push.0)) &&
            (DispatchWorkflow in r.steps ==> r.steps[|r.steps| - 1] == DispatchWorkflow) &&
            (s.standalone ==> DispatchWorkflow !in r.steps) &&
            (!s.standalone ==> Process !in r.steps && ProcessInBackground !in r.steps) &&
            (Push in r.steps && Process in r.steps ==> r.steps == [Commit, Process, Push]) &&
            (s.autoCommit && o.commit.0 && !s.standalone && s.autoPush && !o.push.0 ==>
               r.processing == Relay(s.dispatchEnabled, false, "Skipped: push failed"))
  {
  }

  /** The steps of the calendar handler after it wrote `calendar.org`. */
  function CalendarSteps(s: Settings, commitOk: bool): seq<Step>
  {
    if !s.autoCommit then [] else if commitOk && s.autoPush then [Commit, Push] else [Commit]
  }

  /** The sync both handlers run before writing, when configured. */
  function PreSteps(s: Settings): seq<Step>
  {
    if s.syncEnabled && s.syncBeforeAccepting then [PreSync] else []
  }

  /** `generate_filename`: a timestamp, a hyphen, the sanitized title, `.txt`. */
  function InboxName(stamp: string, title: string): (name: string)
  {
    stamp + "-" + SanitizeFilename(title) + ".txt"
  }

  /** The name of an inbox file is the timestamp and a safe title: at most 50 characters from `[a-z0-9_-]`. */
  lemma InboxNameShape(stamp: string, title: string)
    ensures var name := InboxName(stamp, title);
            exists safe :: SafeName(safe) && name == stamp + "-" + safe + ".txt"
  {
    SanitizeSafe(title);
  }

  /**
   * The daemon's visible state: the files it has written, by path, and the
   * side effects it has started, in order.
   */
  class Daemon {
    var files: map<string, string>
    var steps: seq<Step>
    const settings: Settings
    const inboxDir: string
    const repoDir: string

    constructor(settings: Settings, inboxDir: string, repoDir: string)
      ensures files == map[] && steps == []
      ensures this.settings == settings && this.inboxDir == inboxDir && this.repoDir == repoDir
    {
      this.settings := settings;
      this.inboxDir := inboxDir;
      this.repoDir := repoDir;
      files := map[];
      steps := [];
    }

    /**
     * The `/webhook` handler: a rejected request changes nothing; an
     * accepted one writes the checked text to a new inbox file named from
     * the timestamp and title, then starts the routed steps.
     */
    method ReceiveTranscript(req: TranscriptRequest, stamp: string, now: int, iso: string -> Option<int>,
                             fmt: int -> string, o: Outcomes) returns (status: int, routed: Option<Routed>)
      modifies this
      ensures match CheckTranscript(req, now, iso, fmt)
              case Rejected(reply) =>
                status == reply.status && routed.None? && files == old(files) && steps == old(steps)
              case Accepted(content) =>
                status == 200 && routed == Some(Route(settings, o)) &&
                files == old(files)[PathJoin(inboxDir, InboxName(stamp, req.title.value)) := content] &&
                steps == old(steps) + PreSteps(settings) + Route(settings, o).steps
    {
      var checked := CheckTranscript(req, now, iso, fmt);
      match checked {
        case Rejected(reply) =>
          status, routed := reply.status, None;
        case Accepted(content) =>
          steps := steps + PreSteps(settings);
          var path := PathJoin(inboxDir, InboxName(stamp, req.title.value));
          files := files[path := content];
          var r := Route(settings, o);
          steps := steps + r.steps;
          status, routed := 200, Some(r);
      }
    }

    /**
     * The `/calendar` handler: a rejected request changes nothing; an
     * accepted one replaces `calendar.org` at the top of the repository,
     * then commits and, if the commit succeeded, pushes.
     */
    method ReceiveCalendar(req: CalendarRequest, commitOk: bool) returns (status: int)
      modifies this
      ensures match CheckCalendar(req)
              case Rejected(reply) => status == reply.status && files == old(files) && steps == old(steps)
              case Accepted(content) =>
                status == 200 && files == old(files)[PathJoin(repoDir, "calendar.org") := content] &&
                steps == old(steps) + PreSteps(settings) + CalendarSteps(settings, commitOk)
    {
      match CheckCalendar(req) {
        case Rejected(reply) =>
          status := reply.status;
        case Accepted(content) =>
          steps := steps + PreSteps(settings);
          files := files[PathJoin(repoDir, "calendar.org") := content];
          steps := steps + CalendarSteps(settings, commitOk);
          status := 200;
      }
    }
  }
}
