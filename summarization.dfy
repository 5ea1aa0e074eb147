/**
 * The transcript pre-processing of the summarization pipeline: front
 * matter and body, the junk filter, the multi-meeting gate and its split
 * anchors, the calendar time-overlap test and same-day narrowing, slug
 * and date derivation, and the process exit code.
 *
 * Instants are whole seconds on one local clock; `datetime.fromisoformat`,
 * `strftime` and `yaml.safe_load` are parameters.
 */
module Summarization {
  import opened Wrappers
  import opened Text
  import opened CalendarEnrich

  /* ---------------------------------------------------------------- */
  /* Front matter                                                     */
  /* ---------------------------------------------------------------- */

  /**
   * `\n---\s*\n` matched at `k`: where the match ends. The blanks are
   * greedy and give back characters until a line break ends the match,
   * so it ends just after the last line break of the run.
   */
  function CloseAt(c: string, k: nat): (e: Option<nat>)
    ensures e.Some? ==> k + 4 < e.value <= |c| && c[e.value - 1] == '\n'
  {
    if k + 4 <= |c| && c[k] == '\n' && c[k + 1..k + 4] == "---" then
      match LastBreak(c, k + 4, SkipSpace(c, k + 4))
      case None => None
      case Some(b) => Some(b + 1)
    else None
  }

  datatype Span = Span(start: nat, end: nat)

  /** `re.search` for the closing delimiter from position `k` on: the leftmost match. */
  function CloseFrom(c: string, k: nat): (m: Option<Span>)
    ensures m.Some? ==> k <= m.value.start && m.value.start + 4 < m.value.end <= |c|
    ensures m.Some? ==> CloseAt(c, m.value.start) == Some(m.value.end)
    ensures m.Some? ==> forall j :: k <= j < m.value.start ==> CloseAt(c, j).None?
    ensures m.None? ==> forall j :: k <= j < |c| ==> CloseAt(c, j).None?
    decreases |c| - k
  {
    if k >= |c| then None
    else match CloseAt(c, k)
      case Some(e) => Some(Span(k, e))
      case None => CloseFrom(c, k + 1)
  }

  /** Positions before `n` where no delimiter closes do not change the search. */
  lemma {:induction false} CloseFromSkips(c: string, k: nat, n: nat)
    requires k <= n <= |c|
    requires forall j :: k <= j < n ==> CloseAt(c, j).None?
    ensures CloseFrom(c, k) == CloseFrom(c, n)
    decreases n - k
  {
    if k < n {
      assert CloseAt(c, k).None?;
      assert CloseFrom(c, k) == CloseFrom(c, k + 1);
      CloseFromSkips(c, k + 1, n);
    }
  }

  /** The closing delimiter of a file that opens with `---`, within `content[3:]`. */
  function FrontMatterClose(content: string): (m: Option<Span>)
    ensures m.Some? ==> StartsWith(content, "---") && 3 + m.value.end <= |content|
  {
    if StartsWith(content, "---") then CloseFrom(content[3..], 0) else None
  }

  /** `get_transcript_body`: the text after the front matter, or the whole file without one. */
  function TranscriptBody(content: string): (body: string)
    ensures |body| <= |content| && body == content[|content| - |body|..]
    ensures !StartsWith(content, "---") ==> body == content
  {
    match FrontMatterClose(content)
    case None => content
    case Some(m) => content[3 + m.end..]
  }

  /** The YAML text `parse_transcript_header` hands to the YAML parser. */
  function HeaderText(content: string): Option<string>
  {
    match FrontMatterClose(content)
    case None => None
    case Some(m) => Some(content[3..3 + m.start])
  }

  /** A file with front matter is its opening, its YAML, its closing delimiter and its body. */
  lemma HeaderAndBody(content: string)
    requires FrontMatterClose(content).Some?
    ensures var m := FrontMatterClose(content).value;
            content == "---" + HeaderText(content).value + content[3 + m.start..3 + m.end] + TranscriptBody(content)
  {
    var m := FrontMatterClose(content).value;
    FourSlices(content, 3, 3 + m.start, 3 + m.end);
    assert content[..3] == "---";
  }

  /** No line of `y` after the first starts with `-`, and `y` does not end in a line break. */
  predicate NoDashLine(y: string)
  {
    forall k :: 0 <= k < |y| && y[k] == '\n' ==> k + 1 < |y| && y[k + 1] != '-'
  }

  /**
   * Front matter written as `---`, YAML, `\n---` and blank lines ending in
   * a line break is split off exactly: the YAML comes back as the header
   * text and the rest as the body.
   */
  lemma BodyAfterFrontMatter(yaml: string, gap: string, body: string)
    requires NoDashLine(yaml)
    requires |gap| > 0 && IsBlank(gap) && gap[|gap| - 1] == '\n'
    requires |body| > 0 ==> !IsSpace(body[0])
    ensures TranscriptBody("---" + yaml + "\n---" + gap + body) == body
    ensures HeaderText("---" + yaml + "\n---" + gap + body) == Some(yaml)
  {
    var content := "---" + yaml + "\n---" + gap + body;
    FrontMatterAfterYaml(content, yaml, gap, body);
    assert content[3 + |yaml| + 4 + |gap|..] == body;
    assert content[3..3 + |yaml|] == yaml;
  }

  lemma FrontMatterAfterYaml(content: string, yaml: string, gap: string, body: string)
    requires NoDashLine(yaml)
    requires |gap| > 0 && IsBlank(gap) && gap[|gap| - 1] == '\n'
    requires |body| > 0 ==> !IsSpace(body[0])
    requires content == "---" + yaml + "\n---" + gap + body
    ensures FrontMatterClose(content) == Some(Span(|yaml|, |yaml| + 4 + |gap|))
  {
    assert content[..3] == "---";
    assert content[3..] == yaml + ("\n---" + gap + body);
    ClosesAfterYaml(content[3..], yaml, gap, body);
  }

  /** The first delimiter in `yaml` + `\n---` + `gap` + `body` is the one after the YAML. */
  lemma ClosesAfterYaml(c: string, yaml: string, gap: string, body: string)
    requires NoDashLine(yaml)
    requires |gap| > 0 && IsBlank(gap) && gap[|gap| - 1] == '\n'
    requires |body| > 0 ==> !IsSpace(body[0])
    requires c == yaml + ("\n---" + gap + body)
    ensures CloseFrom(c, 0) == Some(Span(|yaml|, |yaml| + 4 + |gap|))
  {
    var n := |yaml|;
    assert c[..n] == yaml && c[n..] == "\n---" + gap + body;
    NoCloseInside(c, yaml);
    CloseFromSkips(c, 0, n);
    CloseAfter(c, n, gap, body);
    CloseFromHere(c, n, n + 4 + |gap|);
  }

  /** A delimiter closing at `k` is the one the search from `k` finds. */
  lemma CloseFromHere(c: string, k: nat, e: nat)
    requires k < |c| && CloseAt(c, k) == Some(e)
    ensures CloseFrom(c, k) == Some(Span(k, e))
  {
  }

  /** No delimiter closes inside YAML none of whose lines starts with a dash. */
  lemma NoCloseInside(c: string, yaml: string)
    requires NoDashLine(yaml) && StartsWith(c, yaml)
    ensures forall j :: 0 <= j < |yaml| ==> CloseAt(c, j).None?
  {
    forall j | 0 <= j < |yaml|
      ensures CloseAt(c, j).None?
    {
      assert c[j] == yaml[j];
      if c[j] == '\n' && j + 4 <= |c| {
        assert c[j + 1] == yaml[j + 1];
        assert c[j + 1..j + 4][0] == c[j + 1];
      }
    }
  }

  /** `\n---`, blanks ending in a line break and a body that does not start blank: the match ends at the body. */
  lemma CloseAfter(c: string, n: nat, gap: string, body: string)
    requires n <= |c| && c[n..] == "\n---" + gap + body
    requires |gap| > 0 && IsBlank(gap) && gap[|gap| - 1] == '\n'
    requires |body| > 0 ==> !IsSpace(body[0])
    ensures CloseAt(c, n) == Some(n + 4 + |gap|)
  {
    var hi := n + 4 + |gap|;
    var rest := c[n..];
    assert rest[..4] == "\n---" && rest[4..4 + |gap|] == gap;
    assert c[n..n + 4] == rest[..4];
    assert c[n + 4..hi] == rest[4..4 + |gap|];
    if hi < |c| {
      assert rest[4 + |gap|] == body[0];
      assert c[hi] == rest[4 + |gap|];
    }
    SkipSpaceTo(c, n + 4, hi);
    assert c[hi - 1] == gap[|gap| - 1];
  }

  /** The parsed front matter: key to value, as the YAML parser returns it. */
  type Header = map<string, string>

  /** `metadata.get(key)` is truthy. */
  predicate Truthy(meta: Header, key: string)
  {
    key in meta && meta[key] != ""
  }

  /** `parse_transcript_header`: empty without front matter, otherwise whatever the YAML parser makes of it. */
  function Metadata(content: string, yaml: string -> Header): (meta: Header)
    ensures HeaderText(content).None? ==> meta == map[]
  {
    match HeaderText(content)
    case None => map[]
    case Some(y) => yaml(y)
  }

  /** The recording length in seconds, when both timestamps are present and parse. */
  function Duration(meta: Header, iso: string -> Option<int>): (d: Option<int>)
    ensures d.Some? ==> Truthy(meta, "meeting_start") && Truthy(meta, "meeting_end")
    ensures d.Some? ==> iso(meta["meeting_start"]).Some? && iso(meta["meeting_end"]).Some? &&
                        d.value == iso(meta["meeting_end"]).value - iso(meta["meeting_start"]).value
  {
    if Truthy(meta, "meeting_start") && Truthy(meta, "meeting_end") then
      match (iso(meta["meeting_start"]), iso(meta["meeting_end"]))
      case (Some(s), Some(e)) => Some(e - s)
      case _ => None
    else None
  }

  /* ---------------------------------------------------------------- */
  /* Junk filter                                                      */
  /* ---------------------------------------------------------------- */

  const MinBodyLength: nat := 200
  const MinDurationSeconds: int := 60
  const MultiMeetingMinBody: nat := 5000
  const MultiMeetingMinDuration: int := 3600

  /** The outcome of `is_transcript_worth_processing`; the reasons carry their numbers. */
  datatype Verdict = Worth | TooShort(length: nat) | TooBrief(seconds: int)

  /**
   * `is_transcript_worth_processing`: a stripped body under 200 characters
   * is too short; otherwise a recording under 60 seconds whose timestamps
   * both parse is too brief; anything else is worth processing.
   */
  function WorthProcessing(content: string, yaml: string -> Header, iso: string -> Option<int>): (v: Verdict)
    ensures v.TooShort? <==> |Strip(TranscriptBody(content))| < MinBodyLength
    ensures v.TooShort? ==> v.length == |Strip(TranscriptBody(content))|
    ensures v.TooBrief? <==> |Strip(TranscriptBody(content))| >= MinBodyLength &&
                             Duration(Metadata(content, yaml), iso).Some? &&
                             Duration(Metadata(content, yaml), iso).value < MinDurationSeconds
    ensures v.TooBrief? ==> v.seconds == Duration(Metadata(content, yaml), iso).value
  {
    var body := Strip(TranscriptBody(content));
    if |body| < MinBodyLength then TooShort(|body|)
    else match Duration(Metadata(content, yaml), iso)
      case Some(d) => if d < MinDurationSeconds then TooBrief(d) else Worth
      case None => Worth
  }

  /** Timestamps that do not parse never reject a transcript: only its length counts. */
  lemma UnparsedTimesSkipDuration(content: string, yaml: string -> Header, iso: string -> Option<int>)
    requires !Truthy(Metadata(content, yaml), "meeting_start") || iso(Metadata(content, yaml)["meeting_start"]).None?
    ensures WorthProcessing(content, yaml, iso) == if |Strip(TranscriptBody(content))| < MinBodyLength
                                                   then TooShort(|Strip(TranscriptBody(content))|) else Worth
  {
  }

  /* ---------------------------------------------------------------- */
  /* Calendar time overlap                                            */
  /* ---------------------------------------------------------------- */

  /** Five minutes of slack on either side of a calendar slot, in seconds. */
  const Tolerance: int := 300

  /** `int(part)` for the parts this model reads: a non-empty run of ASCII digits. */
  function ParseInt(s: string): (n: Option<nat>)
    ensures n.Some? ==> s != "" && AllDigits(s) && n.value == DecimalValue(s)
  {
    if s != "" && AllDigits(s) then Some(DecimalValue(s)) else None
  }

  /** `"HH:MM".split(':')` read as hour and minute; None where `int` or `replace` would raise. */
  function HourMinute(t: string): (hm: Option<(nat, nat)>)
    ensures hm.Some? ==> hm.value.0 < 24 && hm.value.1 < 60
  {
    var parts := Split(t, ':');
    if |parts| < 2 then None
    else match (ParseInt(parts[0]), ParseInt(parts[1]))
      case (Some(h), Some(m)) => if h < 24 && m < 60 then Some((h, m)) else None
      case _ => None
  }

  /** `instant.replace(hour=h, minute=m, second=0)`: the same day at `h:m`. */
  function OnSameDay(instant: int, hm: (nat, nat)): (t: int)
    requires hm.0 < 24 && hm.1 < 60
    ensures instant - instant % 86400 <= t < instant - instant % 86400 + 86400
  {
    instant - instant % 86400 + hm.0 * 3600 + hm.1 * 60
  }

  predicate AllDay(e: Entry)
  {
    e.startTime.None? || e.startTime.value == "" || e.endTime.None? || e.endTime.value == ""
  }

  /**
   * `time_overlaps`: all-day entries and entries whose times do not parse
   * always overlap; otherwise the slot, widened by five minutes each way
   * and placed on the recording's start day, must meet the recording.
   */
  function TimeOverlaps(e: Entry, start: int, end: int): (r: bool)
    ensures AllDay(e) ==> r
    ensures !AllDay(e) && (HourMinute(e.startTime.value).None? || HourMinute(e.endTime.value).None?) ==> r
    ensures !AllDay(e) && HourMinute(e.startTime.value).Some? && HourMinute(e.endTime.value).Some? ==>
              (r <==> start < OnSameDay(start, HourMinute(e.endTime.value).value) + Tolerance &&
                      OnSameDay(start, HourMinute(e.startTime.value).value) - Tolerance < end)
  {
    if AllDay(e) then true
    else match (HourMinute(e.startTime.value), HourMinute(e.endTime.value))
      case (Some(s), Some(f)) =>
        start < OnSameDay(start, f) + Tolerance && OnSameDay(start, s) - Tolerance < end
      case _ => true
  }

  /** Recording later than the end of a slot by five minutes or more: no overlap. */
  lemma SlotEndedBeforeStart(e: Entry, start: int, end: int)
    requires !AllDay(e)
    requires HourMinute(e.startTime.value).Some? && HourMinute(e.endTime.value).Some?
    requires start >= OnSameDay(start, HourMinute(e.endTime.value).value) + Tolerance
    ensures !TimeOverlaps(e, start, end)
  {
  }

  /** Lengthening the recording never loses an overlap. */
  lemma OverlapGrowsWithEnd(e: Entry, start: int, end: int, later: int)
    requires end <= later && TimeOverlaps(e, start, end)
    ensures TimeOverlaps(e, start, later)
  {
  }

  /** The entries of `entries` that overlap the recording, in order. */
  function Overlapping(entries: seq<Entry>, start: int, end: int): (r: seq<Entry>)
    ensures |r| <= |entries|
    ensures forall e :: e in r <==> e in entries && TimeOverlaps(e, start, end)
    decreases |entries|
  {
    if |entries| == 0 then []
    else (if TimeOverlaps(entries[0], start, end) then [entries[0]] else []) + Overlapping(entries[1..], start, end)
  }

  /**
   * The calendar narrowing of `process_transcript`: the entries of the
   * meeting's date, and of those only the ones that overlap the recording
   * when both ends are known and at least one does.
   */
  function NarrowCalendar(entries: seq<Entry>, date: string, start: Option<int>, end: Option<int>): (r: seq<Entry>)
    ensures forall e :: e in r ==> e in entries && e.date == date
    ensures r == [] <==> FilterByDate(entries, date) == []
    ensures start.Some? && end.Some? && Overlapping(FilterByDate(entries, date), start.value, end.value) != [] ==>
              r == Overlapping(FilterByDate(entries, date), start.value, end.value) &&
              forall e :: e in r <==> e in entries && e.date == date && TimeOverlaps(e, start.value, end.value)
    ensures start.None? || end.None? || Overlapping(FilterByDate(entries, date), start.value, end.value) == [] ==>
              r == FilterByDate(entries, date)
  {
    var day := FilterByDate(entries, date);
    forall e ensures e in day <==> e in entries && e.date == date {
      FilterByDateKeeps(entries, date, e);
    }
    if day != [] && start.Some? && end.Some? then
      var timed := Overlapping(day, start.value, end.value);
      if timed != [] then timed else day
    else day
  }

  /* ---------------------------------------------------------------- */
  /* Multi-meeting gate and anchors                                   */
  /* ---------------------------------------------------------------- */

  /**
   * How many same-day entries overlap the recording, counted only when a
   * calendar is present and the recording has a non-zero duration.
   * `dayOf` is `strftime('%Y-%m-%d')`.
   */
  function OverlapCount(calendar: Option<seq<Entry>>, meta: Header, iso: string -> Option<int>,
                        dayOf: int -> string): (n: nat)
    ensures calendar.None? || Duration(meta, iso).None? || Duration(meta, iso).value == 0 ==> n == 0
  {
    match (calendar, Duration(meta, iso))
    case (Some(cal), Some(d)) =>
      if d == 0 then 0
      else
        var s := iso(meta["meeting_start"]).value;
        var e := iso(meta["meeting_end"]).value;
        |Overlapping(FilterByDate(cal, dayOf(s)), s, e)|
    case _ => 0
  }

  /** Whether the multi-meeting model is consulted at all. */
  function ShouldCheck(bodyLength: nat, duration: Option<int>, overlapping: nat): (r: bool)
    ensures bodyLength < MultiMeetingMinBody ==> !r
    ensures bodyLength >= MultiMeetingMinBody && overlapping >= 2 ==> r
    ensures bodyLength >= 2 * MultiMeetingMinBody && duration.None? ==> r
    ensures bodyLength >= MultiMeetingMinBody && duration.Some? && duration.value >= MultiMeetingMinDuration ==> r
    ensures duration.Some? && duration.value < MultiMeetingMinDuration && overlapping < 2 ==> !r
    ensures duration.None? && bodyLength < 2 * MultiMeetingMinBody && overlapping < 2 ==> !r
  {
    bodyLength >= MultiMeetingMinBody &&
    ((duration.Some? && duration.value != 0 && duration.value >= MultiMeetingMinDuration) ||
     overlapping >= 2 ||
     (duration.None? && bodyLength >= 2 * MultiMeetingMinBody))
  }

  /** One `split_points` item; a missing or empty anchor is "". */
  datatype SplitPoint = SplitPoint(before: string, after: string)

  /** The model's verdict, with the defaults of `.get` already applied. */
  datatype Detection = Detection(meetingCount: int, confidence: real, splitPoints: seq<SplitPoint>)

  /** A reply reports a split only for more than one meeting at confidence 0.7 or more. */
  predicate ReportsSplit(d: Detection)
  {
    !(d.meetingCount <= 1 || d.confidence < 0.7)
  }

  /**
   * Where one split point lands: after the first occurrence of its
   * `before` text, else at the first occurrence of its `after` text, else
   * nowhere.
   */
  function Locate(body: string, p: SplitPoint): (r: seq<nat>)
    ensures |r| <= 1
    ensures |r| == 1 ==> r[0] <= |body|
    ensures |r| == 1 ==> (p.before != "" && r[0] >= |p.before| && OccursAt(body, p.before, r[0] - |p.before|)) ||
                         (p.after != "" && OccursAt(body, p.after, r[0]))
    ensures |r| == 0 <==> (p.before == "" || !Contains(body, p.before)) && (p.after == "" || !Contains(body, p.after))
    ensures p.before != "" && Contains(body, p.before) ==>
              |r| == 1 && r[0] >= |p.before| && OccursAt(body, p.before, r[0] - |p.before|) &&
              forall k :: 0 <= k < r[0] - |p.before| ==> !OccursAt(body, p.before, k)
    ensures (p.before == "" || !Contains(body, p.before)) && p.after != "" && Contains(body, p.after) ==>
              |r| == 1 && OccursAt(body, p.after, r[0]) && forall k :: 0 <= k < r[0] ==> !OccursAt(body, p.after, k)
  {
    var b := if p.before != "" then Find(body, p.before) else None;
    if b.Some? then [b.value + |p.before|]
    else
      var a := if p.after != "" then Find(body, p.after) else None;
      if a.Some? then [a.value] else []
  }

  /** The positions of all split points that could be located, in reply order. */
  function Anchors(body: string, points: seq<SplitPoint>): (r: seq<nat>)
    ensures |r| <= |points|
    ensures forall i :: 0 <= i < |r| ==> r[i] <= |body|
    decreases |points|
  {
    if |points| == 0 then []
    else Anchors(body, points[..|points| - 1]) + Locate(body, points[|points| - 1])
  }

  /** The anchor loop of `detect_multi_meeting`. */
  method ResolveAnchors(body: string, points: seq<SplitPoint>) returns (positions: seq<nat>)
    ensures positions == Anchors(body, points)
  {
    positions := [];
    for i := 0 to |points|
      invariant positions == Anchors(body, points[..i])
    {
      AnchorsStep(body, points, i);
      var located := LocateOne(body, points[i]);
      positions := positions + located;
    }
    assert points[..|points|] == points;
  }

  /** One split point: the end of `before` when found, else the start of `after` when found. */
  method LocateOne(body: string, sp: SplitPoint) returns (r: seq<nat>)
    ensures r == Locate(body, sp)
  {
    r := [];
    if sp.before != "" {
      var idx := Find(body, sp.before);
      if idx.Some? {
        return [idx.value + |sp.before|];
      }
    }
    if sp.after != "" {
      var idx := Find(body, sp.after);
      if idx.Some? {
        r := [idx.value];
      }
    }
  }

  lemma AnchorsStep(body: string, points: seq<SplitPoint>, i: nat)
    requires i < |points|
    ensures Anchors(body, points[..i + 1]) == Anchors(body, points[..i]) + Locate(body, points[i])
  {
    assert points[..i + 1][..i] == points[..i];
  }

  /**
   * `detect_multi_meeting`. `reply` is the parsed JSON answer, or None when
   * the model failed, timed out or gave no parsable object. Split positions
   * come back only when the gate opens, the reply reports a split and at
   * least one anchor is found in the stripped body.
   */
  method DetectMultiMeeting(content: string, yaml: string -> Header, iso: string -> Option<int>,
                            dayOf: int -> string, calendar: Option<seq<Entry>>, reply: Option<Detection>)
    returns (r: Option<seq<nat>>)
    ensures var body := Strip(TranscriptBody(content));
            var meta := Metadata(content, yaml);
            var open := ShouldCheck(|body|, Duration(meta, iso), OverlapCount(calendar, meta, iso, dayOf));
            (r.Some? <==> open && reply.Some? && ReportsSplit(reply.value) && Anchors(body, reply.value.splitPoints) != []) &&
            (r.Some? ==> r.value == Anchors(body, reply.value.splitPoints))
  {
    var body := Strip(TranscriptBody(content));
    var meta := Metadata(content, yaml);
    var duration := Duration(meta, iso);
    var overlapping := OverlapCount(calendar, meta, iso, dayOf);
    if !ShouldCheck(|body|, duration, overlapping) {
      return None;
    }
    if reply.None? {
      return None;
    }
    var detection := reply.value;
    if detection.meetingCount <= 1 || detection.confidence < 0.7 {
      return None;
    }
    var positions := ResolveAnchors(body, detection.splitPoints);
    r := if positions != [] then Some(positions) else None;
  }

  /* ---------------------------------------------------------------- */
  /* Slug and date                                                    */
  /* ---------------------------------------------------------------- */

  /** `[a-z0-9-]` after lower-casing; the characters a stored slug may hold. */
  predicate SlugChar(c: char)
  {
    'a' <= c <= 'z' || IsDigit(c) || c == '-'
  }

  /** `[a-z0-9-]` under IGNORECASE. */
  predicate SlugCharAnyCase(c: char)
  {
    SlugChar(LowerChar(c))
  }

  /** The end of the run of slug characters from `i`. */
  function SlugRun(s: string, i: nat): (j: nat)
    requires i <= |s|
    ensures i <= j <= |s|
    ensures forall k :: i <= k < j ==> SlugCharAnyCase(s[k])
    ensures j < |s| ==> !SlugCharAnyCase(s[j])
    decreases |s| - i
  {
    if i == |s| || !SlugCharAnyCase(s[i]) then i else SlugRun(s, i + 1)
  }

  lemma {:induction false} SlugRunTo(s: string, i: nat, j: nat)
    requires i <= j <= |s|
    requires forall k :: i <= k < j ==> SlugCharAnyCase(s[k])
    requires j < |s| ==> !SlugCharAnyCase(s[j])
    ensures SlugRun(s, i) == j
    decreases j - i
  {
    if i < j {
      SlugRunTo(s, i + 1, j);
    }
  }

  /** `:SLUG:\s+([a-z0-9-]+)` with IGNORECASE matched at `i`: the captured slug. */
  function SlugAt(s: string, i: nat): (g: Option<string>)
    requires i <= |s|
    ensures g.Some? ==> |g.value| > 0 && forall k :: 0 <= k < |g.value| ==> SlugCharAnyCase(g.value[k])
  {
    if i + 6 <= |s| && Lower(s[i..i + 6]) == ":slug:" then
      var w := SkipSpace(s, i + 6);
      var e := SlugRun(s, w);
      if w > i + 6 && e > w then Some(s[w..e]) else None
    else None
  }

  /** The first match of the slug pattern at or after `i`. */
  function FirstSlug(s: string, i: nat): (g: Option<string>)
    requires i <= |s|
    ensures g.Some? ==> |g.value| > 0 && forall k :: 0 <= k < |g.value| ==> SlugCharAnyCase(g.value[k])
    decreases |s| - i
  {
    if i == |s| then None
    else if SlugAt(s, i).Some? then SlugAt(s, i)
    else FirstSlug(s, i + 1)
  }

  /** A slug that `extract_slug_from_org` keeps. */
  predicate ValidSlug(slug: string)
  {
    0 < |slug| <= 50 && forall k :: 0 <= k < |slug| ==> SlugChar(slug[k])
  }

  /**
   * `extract_slug_from_org` on the summary's text, None when it cannot be
   * read: the first slug property, lower-cased, if at most 50 characters
   * long, and `meeting` otherwise.
   */
  function ExtractSlug(content: Option<string>): (slug: string)
    ensures slug == "meeting" || ValidSlug(slug)
  {
    if content.None? then "meeting"
    else match FirstSlug(content.value, 0)
      case None => "meeting"
      case Some(g) =>
        var slug := Lower(g);
        if |slug| <= 50 then slug else "meeting"
  }

  /** Positions where no slug property starts do not change the first match. */
  lemma {:induction false} FirstSlugSkips(s: string, i: nat, j: nat)
    requires i <= j <= |s|
    requires forall k :: i <= k < j ==> SlugAt(s, k).None?
    ensures FirstSlug(s, i) == FirstSlug(s, j)
    decreases j - i
  {
    if i < j {
      FirstSlugSkips(s, i + 1, j);
    }
  }

  /** No slug property starts inside a prefix that holds no `:slug:` in any letter case. */
  lemma NoSlugInPrefix(pre: string, s: string, k: nat)
    requires StartsWith(s, pre + ":SLUG: ") && !Contains(Lower(pre), ":slug:") && k < |pre|
    ensures SlugAt(s, k).None?
  {
    var n := |pre|;
    assert s[..n + 7] == pre + ":SLUG: ";
    if k + 6 <= n {
      assert s[k..k + 6] == s[..n + 7][k..k + 6] == (pre + ":SLUG: ")[k..k + 6] == pre[k..k + 6];
      assert Lower(pre)[k..k + 6] == Lower(pre[k..k + 6]);
      assert !OccursAt(Lower(pre), ":slug:", k);
    } else if k + 5 > n {
      assert s[k + 5] == (pre + ":SLUG: ")[k + 5];
      assert LowerChar(s[k + 5]) != ':';
      assert Lower(s[k..k + 6])[5] != ':';
    } else {
      assert s[k + 6] == 'S';
      assert SkipSpace(s, k + 6) == k + 6;
    }
  }

  /** A slug property line at `n` captures its slug. */
  lemma SlugPropertyAt(s: string, n: nat, slug: string)
    requires 0 < |slug| && (forall k :: 0 <= k < |slug| ==> SlugChar(slug[k])) && n + 8 + |slug| <= |s| && s[n..n + 8 + |slug|] == ":SLUG: " + slug + "\n"
    ensures SlugAt(s, n) == Some(slug)
  {
    var line := ":SLUG: " + slug + "\n";
    assert s[n..n + 6] == line[..6] == ":SLUG:";
    assert Lower(s[n..n + 6]) == ":slug:";
    assert s[n + 6] == line[6] == ' ' && s[n + 7] == line[7] == slug[0];
    assert s[n + 6..n + 7] == " ";
    SkipSpaceTo(s, n + 6, n + 7);
    var e := n + 7 + |slug|;
    forall k | n + 7 <= k < e ensures SlugCharAnyCase(s[k]) {
      assert s[k] == line[k - n] == slug[k - n - 7];
    }
    assert s[e] == line[7 + |slug|] == '\n';
    SlugRunTo(s, n + 7, e);
    forall k | 0 <= k < |slug| ensures s[n + 7..e][k] == slug[k] {
      assert s[n + 7 + k] == line[7 + k];
    }
    assert s[n + 7..e] == slug;
  }

  /**
   * The first slug property of a summary gives the slug, whatever text
   * comes before it, as long as that text holds no `:slug:` marker.
   */
  lemma ExtractSlugFinds(pre: string, slug: string, rest: string)
    requires ValidSlug(slug) && !Contains(Lower(pre), ":slug:")
    ensures ExtractSlug(Some(pre + ":SLUG: " + slug + "\n" + rest)) == slug
  {
    FirstSlugAfter(pre, slug, rest);
    assert Lower(slug) == slug;
  }

  /** Only the first slug property counts: an over-long one falls back to `meeting`. */
  lemma ExtractSlugFirstOnly(pre: string, slug: string, rest: string)
    requires |slug| > 50 && (forall k :: 0 <= k < |slug| ==> SlugChar(slug[k])) && !Contains(Lower(pre), ":slug:")
    ensures ExtractSlug(Some(pre + ":SLUG: " + slug + "\n" + rest)) == "meeting"
  {
    FirstSlugAfter(pre, slug, rest);
  }

  /** The first slug property is the one after a prefix that holds none. */
  lemma FirstSlugAfter(pre: string, slug: string, rest: string)
    requires 0 < |slug| && (forall k :: 0 <= k < |slug| ==> SlugChar(slug[k])) && !Contains(Lower(pre), ":slug:")
    ensures FirstSlug(pre + ":SLUG: " + slug + "\n" + rest, 0) == Some(slug)
  {
    var s := pre + ":SLUG: " + slug + "\n" + rest;
    var n := |pre|;
    assert s[..n + 7] == pre + ":SLUG: ";
    forall k | 0 <= k < n ensures SlugAt(s, k).None? {
      NoSlugInPrefix(pre, s, k);
    }
    FirstSlugSkips(s, 0, n);
    assert s[n..n + 8 + |slug|] == ":SLUG: " + slug + "\n";
    SlugPropertyAt(s, n, slug);
  }

  /** `^(\d{8})-` on the file name. */
  predicate DatePrefixed(name: string)
  {
    |name| >= 9 && AllDigits(name[..8]) && name[8] == '-'
  }

  /** `get_date_from_file`: the name's eight-digit prefix, or the modification date. */
  function DateFromFile(name: string, mtimeDate: string): (d: string)
    ensures DatePrefixed(name) ==> |d| == 8 && AllDigits(d) && StartsWith(name, d + "-")
    ensures !DatePrefixed(name) ==> d == mtimeDate
  {
    if DatePrefixed(name) then
      assert name[..9] == name[..8] + "-";
      name[..8]
    else mtimeDate
  }

  /** The meeting date and known times of `process_transcript`. */
  datatype Timing = Timing(dateStr: string, start: Option<int>, end: Option<int>)

  /**
   * The header's start decides the date when it parses, unless an end is
   * given and fails to parse, which drops to the file's date while the
   * parsed start is kept. `ymd` is `strftime('%Y%m%d')`.
   */
  function MeetingTiming(meta: Header, iso: string -> Option<int>, ymd: int -> string, fileDate: string): (t: Timing)
    ensures t.end.Some? ==> t.start.Some?
    ensures t.start.Some? ==> Truthy(meta, "meeting_start") && iso(meta["meeting_start"]) == t.start
    ensures t.end.Some? ==> Truthy(meta, "meeting_end") && iso(meta["meeting_end"]) == t.end
    ensures t.start.Some? && (t.end.Some? || !Truthy(meta, "meeting_end")) ==> t.dateStr == ymd(t.start.value)
    ensures t.start.None? || (t.end.None? && Truthy(meta, "meeting_end")) ==> t.dateStr == fileDate
  {
    if !Truthy(meta, "meeting_start") then Timing(fileDate, None, None)
    else match iso(meta["meeting_start"])
      case None => Timing(fileDate, None, None)
      case Some(s) =>
        if !Truthy(meta, "meeting_end") then Timing(ymd(s), Some(s), None)
        else match iso(meta["meeting_end"])
          case None => Timing(fileDate, Some(s), None)
          case Some(e) => Timing(ymd(s), Some(s), Some(e))
  }

  /** `f"{d[:4]}-{d[4:6]}-{d[6:8]}"`. */
  function MeetingDate(d: string): (date: string)
    ensures |d| == 8 && AllDigits(d) ==> IsDate(date)
  {
    Slice(d, 0, 4) + "-" + Slice(d, 4, 6) + "-" + Slice(d, 6, 8)
  }

  /** `s.replace('-', '')`. */
  function Undashed(s: string): (r: string)
    ensures '-' !in r
    decreases |s|
  {
    if |s| == 0 then "" else (if s[0] == '-' then "" else [s[0]]) + Undashed(s[1..])
  }

  lemma {:induction false} UndashedAppend(a: string, b: string)
    ensures Undashed(a + b) == Undashed(a) + Undashed(b)
    decreases |a|
  {
    if |a| > 0 {
      assert (a + b)[1..] == a[1..] + b;
      UndashedAppend(a[1..], b);
    } else {
      assert a + b == b;
    }
  }

  lemma {:induction false} UndashedDigits(s: string)
    requires AllDigits(s)
    ensures Undashed(s) == s
    decreases |s|
  {
    if |s| > 0 {
      UndashedDigits(s[1..]);
    }
  }

  /** The dashed meeting date turns back into the eight digits it came from. */
  lemma MeetingDateRoundTrip(d: string)
    requires |d| == 8 && AllDigits(d)
    ensures Undashed(MeetingDate(d)) == d
  {
    var a, b, c := d[0..4], d[4..6], d[6..8];
    assert MeetingDate(d) == a + ("-" + (b + ("-" + c)));
    assert AllDigits(a) && AllDigits(b) && AllDigits(c);
    UndashedDashed(a, b, c);
    assert d == a + b + c;
  }

  /** Dropping the dashes from `a-b-c` for digit strings gives `abc`. */
  lemma UndashedDashed(a: string, b: string, c: string)
    requires AllDigits(a) && AllDigits(b) && AllDigits(c)
    ensures Undashed(a + ("-" + (b + ("-" + c)))) == a + b + c
  {
    calc {
      Undashed(a + ("-" + (b + ("-" + c))));
      { UndashedAppend(a, "-" + (b + ("-" + c))); }
      Undashed(a) + Undashed("-" + (b + ("-" + c)));
      { UndashedDigits(a); UndashedDash(b + ("-" + c)); }
      a + Undashed(b + ("-" + c));
      { UndashedAppend(b, "-" + c); }
      a + (Undashed(b) + Undashed("-" + c));
      { UndashedDigits(b); UndashedDash(c); UndashedDigits(c); }
      a + (b + c);
    }
  }

  lemma UndashedDash(s: string)
    ensures Undashed("-" + s) == Undashed(s)
  {
    assert ("-" + s)[1..] == s;
  }

  /* ---------------------------------------------------------------- */
  /* Prompt text and exit code                                        */
  /* ---------------------------------------------------------------- */

  /**
   * `format_calendar_for_prompt` of the pipeline: the calendar module's
   * listing, with its own message for an empty list.
   */
  function FormatCalendarForPrompt(entries: seq<Entry>): (text: string)
    ensures entries == [] ==> text == "No calendar entries found for this date."
    ensures entries != [] ==> text == FormatCalendar(entries)
  {
    if entries == [] then "No calendar entries found for this date." else Join(Lines(entries, 1), '\n')
  }

  /** The process exit code for the inbox result; None stands for an unexpected missing result. */
  function ExitCode(result: Option<(nat, nat)>): (code: nat)
    ensures code == 0 <==> result.Some? && result.value.1 == 0 && result.value.0 > 0
    ensures code == 2 <==> result.Some? && result.value.1 == 0 && result.value.0 == 0
    ensures code == 1 <==> result.None? || result.value.1 > 0
  {
    match result
    case None => 1
    case Some((successful, failed)) =>
      if failed > 0 then 1 else if successful == 0 then 2 else 0
  }
}
