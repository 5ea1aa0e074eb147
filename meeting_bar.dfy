/**
 * The menu-bar recorder: meeting detection (Zoom before Teams), the
 * recording-state record with its elapsed-time display, and the poll
 * step that starts and stops recordings on its own. Process listings,
 * window lists and the clock are parameters.
 */
module MeetingBar {
  import opened Wrappers
  import opened Text

  /* ---------------------------------------------------------------- */
  /* Meeting detection                                                 */
  /* ---------------------------------------------------------------- */

  /** A window on screen: its owner application and its title; a missing one is empty. */
  datatype Window = Window(owner: string, title: string)

  /** Title fragments that mark a Teams meeting window, matched in lower case. */
  const MeetingPatterns: seq<string> := ["meeting with", "call with", "| meeting", "| call"]

  /** A Teams window whose title shows a meeting or a call. */
  predicate TeamsMeetingWindow(w: Window)
  {
    Contains(Lower(w.owner), "teams") &&
    exists p :: 0 <= p < |MeetingPatterns| && Contains(Lower(w.title), MeetingPatterns[p])
  }

  /** `detect_teams_meeting`: the windows are scanned in order until a meeting window turns up. */
  function DetectTeamsMeeting(windows: seq<Window>): bool
    decreases |windows|
  {
    if |windows| == 0 then false
    else if TeamsMeetingWindow(windows[0]) then true
    else DetectTeamsMeeting(windows[1..])
  }

  /** The scan finds a meeting exactly when some window is a Teams meeting window. */
  lemma {:induction false} DetectTeamsExactly(windows: seq<Window>)
    ensures DetectTeamsMeeting(windows) <==> exists i :: 0 <= i < |windows| && TeamsMeetingWindow(windows[i])
    decreases |windows|
  {
    if |windows| > 0 {
      DetectTeamsExactly(windows[1..]);
      if exists i :: 0 <= i < |windows| && TeamsMeetingWindow(windows[i]) {
        var i :| 0 <= i < |windows| && TeamsMeetingWindow(windows[i]);
        if i > 0 {
          assert windows[1..][i - 1] == windows[i];
        }
      }
      if DetectTeamsMeeting(windows[1..]) {
        var i :| 0 <= i < |windows[1..]| && TeamsMeetingWindow(windows[1..][i]);
        assert windows[i + 1] == windows[1..][i];
      }
    }
  }

  /** `detect_meeting`: `"Zoom"` while Zoom's meeting process runs, else `"Teams"` for a Teams meeting window. */
  function DetectMeeting(zoomRunning: bool, windows: seq<Window>): Option<string>
  {
    if zoomRunning then Some("Zoom")
    else if DetectTeamsMeeting(windows) then Some("Teams")
    else None
  }

  /**
   * Zoom is checked first; Teams is reported only without Zoom and with
   * a Teams-owned meeting window; otherwise no meeting.
   */
  lemma DetectMeetingOutcome(zoomRunning: bool, windows: seq<Window>)
    ensures DetectMeeting(zoomRunning, windows) == Some("Zoom") <==> zoomRunning
    ensures DetectMeeting(zoomRunning, windows) == Some("Teams") <==>
              !zoomRunning && exists i :: 0 <= i < |windows| && TeamsMeetingWindow(windows[i])
    ensures DetectMeeting(zoomRunning, windows).None? <==>
              !zoomRunning && forall i :: 0 <= i < |windows| ==> !TeamsMeetingWindow(windows[i])
  {
    DetectTeamsExactly(windows);
  }

  /** A window that Teams does not own never counts, whatever its title. */
  lemma OwnerDecides(w: Window)
    requires !Contains(Lower(w.owner), "teams")
    ensures !DetectTeamsMeeting([w])
  {
  }

  /* ---------------------------------------------------------------- */
  /* Elapsed time                                                      */
  /* ---------------------------------------------------------------- */

  /** `f"{n:02d}"` for `n` below 100. */
  function TwoDigits(n: nat): (s: string)
    requires n < 100
  {
    [DigitChar(n / 10), DigitChar(n % 10)]
  }

  /** `str(n)` for any integer. */
  function IntString(n: int): string
  {
    if n < 0 then "-" + DecimalString(-n) else DecimalString(n)
  }

  /**
   * The elapsed-time text for `secs` seconds: minutes and seconds under
   * an hour, hours, minutes and seconds otherwise, with Python's floor
   * division (so a negative span shows negative hours).
   */
  function FormatDuration(secs: int): string
  {
    var minutes := secs / 60;
    var seconds := secs % 60;
    var hours := minutes / 60;
    var mins := minutes % 60;
    if hours != 0 then IntString(hours) + ":" + TwoDigits(mins) + ":" + TwoDigits(seconds)
    else DecimalString(mins) + ":" + TwoDigits(seconds)
  }

  /** Reads a duration text back: `M:SS` or `H:MM:SS`, all fields plain digits. */
  function ParseDuration(s: string): Option<int>
  {
    var parts := Split(s, ':');
    if |parts| == 2 && AllDigits(parts[0]) && AllDigits(parts[1]) then
      Some(DecimalValue(parts[0]) * 60 + DecimalValue(parts[1]))
    else if |parts| == 3 && AllDigits(parts[0]) && AllDigits(parts[1]) && AllDigits(parts[2]) then
      Some(DecimalValue(parts[0]) * 3600 + DecimalValue(parts[1]) * 60 + DecimalValue(parts[2]))
    else None
  }

  lemma DigitCharValue(d: nat)
    requires d < 10
    ensures IsDigit(DigitChar(d)) && DigitChar(d) as int - '0' as int == d
  {
  }

  lemma TwoDigitsValue(n: nat)
    requires n < 100
    ensures AllDigits(TwoDigits(n)) && DecimalValue(TwoDigits(n)) == n
  {
    DigitCharValue(n / 10);
    DigitCharValue(n % 10);
    var s := TwoDigits(n);
    assert s[..1][..0] == [];
    assert s[..|s| - 1] == [DigitChar(n / 10)];
  }

  lemma DigitsNoColon(s: string)
    requires AllDigits(s)
    ensures ':' !in s
  {
    forall i | 0 <= i < |s|
      ensures s[i] != ':'
    {
      assert IsDigit(s[i]);
    }
  }

  lemma SplitTwo(a: string, b: string)
    requires AllDigits(a) && AllDigits(b)
    ensures Split(a + ":" + b, ':') == [a, b]
  {
    DigitsNoColon(a);
    DigitsNoColon(b);
    assert Join([a, b], ':') == a + ":" + b;
    SplitJoin([a, b], ':');
  }

  lemma SplitThree(a: string, b: string, c: string)
    requires AllDigits(a) && AllDigits(b) && AllDigits(c)
    ensures Split(a + ":" + b + ":" + c, ':') == [a, b, c]
  {
    DigitsNoColon(a);
    DigitsNoColon(b);
    DigitsNoColon(c);
    assert [a, b, c][1..] == [b, c];
    assert Join([b, c], ':') == b + ":" + c;
    assert Join([a, b, c], ':') == a + ":" + (b + ":" + c);
    assert a + ":" + (b + ":" + c) == a + ":" + b + ":" + c;
    SplitJoin([a, b, c], ':');
  }

  /** The fields of a span: hours, minutes below 60 and seconds below 60 make it up again. */
  lemma SpanFields(secs: nat)
    ensures secs == (secs / 60 / 60) * 3600 + (secs / 60 % 60) * 60 + secs % 60
    ensures secs / 60 / 60 == 0 <==> secs < 3600
  {
    var minutes := secs / 60;
    assert secs == minutes * 60 + secs % 60;
    assert minutes == (minutes / 60) * 60 + minutes % 60;
  }

  lemma ParseTwo(m: nat, sec: nat)
    requires sec < 60
    ensures ParseDuration(DecimalString(m) + ":" + TwoDigits(sec)) == Some(m * 60 + sec)
    ensures |Split(DecimalString(m) + ":" + TwoDigits(sec), ':')| == 2
  {
    TwoDigitsValue(sec);
    DecimalRoundTrip(m);
    SplitTwo(DecimalString(m), TwoDigits(sec));
  }

  lemma ParseThree(h: nat, m: nat, sec: nat)
    requires m < 60 && sec < 60
    ensures ParseDuration(DecimalString(h) + ":" + TwoDigits(m) + ":" + TwoDigits(sec)) == Some(h * 3600 + m * 60 + sec)
    ensures |Split(DecimalString(h) + ":" + TwoDigits(m) + ":" + TwoDigits(sec), ':')| == 3
  {
    TwoDigitsValue(sec);
    TwoDigitsValue(m);
    DecimalRoundTrip(h);
    SplitThree(DecimalString(h), TwoDigits(m), TwoDigits(sec));
  }

  /**
   * A non-negative span reads back to itself from its text, and it is
   * shown with two fields exactly when it is under an hour.
   */
  lemma DurationRoundTrip(secs: nat)
    ensures ParseDuration(FormatDuration(secs)) == Some(secs)
    ensures |Split(FormatDuration(secs), ':')| == (if secs < 3600 then 2 else 3)
  {
    if secs / 60 / 60 != 0 {
      LongRoundTrip(secs);
    } else {
      ShortRoundTrip(secs);
    }
  }

  lemma LongRoundTrip(secs: nat)
    requires secs / 60 / 60 != 0
    ensures ParseDuration(FormatDuration(secs)) == Some(secs)
    ensures |Split(FormatDuration(secs), ':')| == 3 && secs >= 3600
  {
    var h, m, sc := secs / 60 / 60, secs / 60 % 60, secs % 60;
    assert m < 60 && sc < 60;
    SpanFields(secs);
    FormatLong(secs);
    ParseThree(h, m, sc);
  }

  lemma ShortRoundTrip(secs: nat)
    requires secs / 60 / 60 == 0
    ensures ParseDuration(FormatDuration(secs)) == Some(secs)
    ensures |Split(FormatDuration(secs), ':')| == 2 && secs < 3600
  {
    var m, sc := secs / 60 % 60, secs % 60;
    assert m < 60 && sc < 60;
    SpanFields(secs);
    FormatShort(secs);
    ParseTwo(m, sc);
  }

  lemma FormatLong(secs: nat)
    requires secs / 60 / 60 != 0
    ensures FormatDuration(secs) == DecimalString(secs / 60 / 60) + ":" + TwoDigits(secs / 60 % 60) + ":" + TwoDigits(secs % 60)
  {
  }

  lemma FormatShort(secs: nat)
    requires secs / 60 / 60 == 0
    ensures FormatDuration(secs) == DecimalString(secs / 60 % 60) + ":" + TwoDigits(secs % 60)
  {
  }

  /** Under an hour the text is the minute count, a colon and two second digits. */
  lemma DurationUnderAnHour(secs: nat)
    requires secs < 3600
    ensures FormatDuration(secs) == DecimalString(secs / 60) + ":" + TwoDigits(secs % 60)
  {
  }

  /* ---------------------------------------------------------------- */
  /* The recording-state record                                        */
  /* ---------------------------------------------------------------- */

  datatype Status = Idle | Recording | Error

  /** What the menu bar knows about the current recording. */
  class RecordingState {
    var state: Status
    var meetingTitle: Option<string>
    var meetingApp: Option<string>
    var startedAt: Option<int>
    var autoDetected: bool

    constructor()
      ensures state == Idle && meetingTitle.None? && meetingApp.None? && startedAt.None? && !autoDetected
    {
      state := Idle;
      meetingTitle := None;
      meetingApp := None;
      startedAt := None;
      autoDetected := false;
    }

    /** `start`: recording, with the title, the app, the start time and whether detection started it. */
    method Start(title: string, app: string, auto: bool, now: int)
      modifies this
      ensures state == Recording && meetingTitle == Some(title) && meetingApp == Some(app)
      ensures startedAt == Some(now) && autoDetected == auto
    {
      state := Recording;
      meetingTitle := Some(title);
      meetingApp := Some(app);
      startedAt := Some(now);
      autoDetected := auto;
    }

    /** `stop`: back to idle, forgetting the recording. */
    method Stop()
      modifies this
      ensures state == Idle && meetingTitle.None? && meetingApp.None? && startedAt.None? && !autoDetected
    {
      state := Idle;
      meetingTitle := None;
      meetingApp := None;
      startedAt := None;
      autoDetected := false;
    }

    /** `error`: only the state changes. */
    method Error()
      modifies this
      ensures state == Status.Error
      ensures meetingTitle == old(meetingTitle) && meetingApp == old(meetingApp)
      ensures startedAt == old(startedAt) && autoDetected == old(autoDetected)
    {
      state := Status.Error;
    }

    /**
     * `duration` at time `now`, in whole seconds: `0:00` without a start
     * time, and otherwise a text that reads back to the seconds elapsed.
     */
    function Duration(now: int): (d: string)
      reads this
      ensures startedAt.None? ==> d == "0:00"
      ensures startedAt.Some? && now >= startedAt.value ==> ParseDuration(d) == Some(now - startedAt.value)
    {
      if startedAt.None? then "0:00"
      else
        var secs := now - startedAt.value;
        if secs < 0 then FormatDuration(secs)
        else
          DurationRoundTrip(secs);
          FormatDuration(secs)
    }
  }

  /* ---------------------------------------------------------------- */
  /* The poll step                                                     */
  /* ---------------------------------------------------------------- */

  datatype PollAction = NoAction | AutoStart(app: string) | AutoStop

  /** A detected meeting in Python's sense: present and not empty. */
  predicate Detected(meeting: Option<string>) { meeting.Some? && meeting.value != "" }

  /** The detection part of `_poll_work`, from the state read under the lock and the detected app. */
  function PollDecision(enabled: bool, state: Status, wasAuto: bool, meeting: Option<string>): PollAction
  {
    if !enabled then NoAction
    else if state == Idle && Detected(meeting) then AutoStart(meeting.value)
    else if state == Recording && wasAuto && !Detected(meeting) then AutoStop
    else NoAction
  }

  /**
   * With detection off nothing happens; an idle bar starts recording for
   * the detected app; only a recording that detection started is stopped
   * when the meeting is gone; a manual recording or an error state is
   * never touched.
   */
  lemma PollDecisionOutcome(enabled: bool, state: Status, wasAuto: bool, meeting: Option<string>)
    ensures !enabled ==> PollDecision(enabled, state, wasAuto, meeting) == NoAction
    ensures PollDecision(enabled, state, wasAuto, meeting).AutoStart? <==> enabled && state == Idle && Detected(meeting)
    ensures PollDecision(enabled, state, wasAuto, meeting).AutoStart? ==>
              PollDecision(enabled, state, wasAuto, meeting).app == meeting.value
    ensures PollDecision(enabled, state, wasAuto, meeting) == AutoStop <==>
              enabled && state == Recording && wasAuto && !Detected(meeting)
    ensures !wasAuto ==> PollDecision(enabled, state, wasAuto, meeting) != AutoStop
    ensures state == Status.Error ==> PollDecision(enabled, state, wasAuto, meeting) == NoAction
  {
  }
}
