/**
 * The `meeting.py` command line: the guard sequence of `start`, the
 * transcriber's start call as the command sees it, and the sender's PID
 * file. HTTP replies, the device list and the set of live processes are
 * parameters; printing and sleeping are not modelled.
 */
module MeetingCli {
  import opened Wrappers
  import opened Text
  import opened Devices

  /* ---------------------------------------------------------------- */
  /* The sender's PID file                                             */
  /* ---------------------------------------------------------------- */

  /** `int(s)` for an optional sign followed by ASCII digits. */
  function ParseInt(s: string): (r: Option<int>)
    ensures r.Some? && |s| > 0 && s[0] != '-' ==> r.value >= 0
  {
    if |s| > 0 && (s[0] == '+' || s[0] == '-') then
      var digits := s[1..];
      if |digits| > 0 && AllDigits(digits) then
        var v: int := DecimalValue(digits);
        Some(if s[0] == '-' then -v else v)
      else None
    else if |s| > 0 && AllDigits(s) then Some(DecimalValue(s))
    else None
  }

  lemma DigitsNotSpace(s: string)
    requires |s| > 0 && AllDigits(s)
    ensures s[0] !in Whitespace && s[|s| - 1] !in Whitespace
  {
    assert IsDigit(s[0]) && IsDigit(s[|s| - 1]);
  }

  /** What `start_sender` writes, `str(pid)`, is read back as the same PID. */
  lemma PidReadsBack(pid: nat)
    ensures ParseInt(Strip(DecimalString(pid))) == Some(pid)
  {
    var s := DecimalString(pid);
    DigitsNotSpace(s);
    TrimNoEdges(s, Whitespace);
    DecimalRoundTrip(pid);
  }

  /** The PID file of the background audio sender; `None` when the file does not exist. */
  class PidFile {
    var contents: Option<string>

    constructor(contents: Option<string>)
      ensures this.contents == contents
    {
      this.contents := contents;
    }

    /** `start_sender` records the new process. */
    method Write(pid: nat)
      modifies this
      ensures contents == Some(DecimalString(pid))
    {
      contents := Some(DecimalString(pid));
    }

    /**
     * `_sender_running`: no file means no sender. A file whose text is
     * not a number, or names a process that is gone, is removed and
     * means no sender; otherwise the PID is returned and the file kept.
     */
    method SenderRunning(live: set<int>) returns (pid: Option<int>)
      modifies this
      ensures old(contents).None? ==> pid.None? && contents.None?
      ensures old(contents).Some? ==>
                var parsed := ParseInt(Strip(old(contents).value));
                (parsed.Some? && parsed.value in live ==> pid == parsed && contents == old(contents)) &&
                (!(parsed.Some? && parsed.value in live) ==> pid.None? && contents.None?)
    {
      if contents.None? {
        return None;
      }
      var parsed := ParseInt(Strip(contents.value));
      if parsed.Some? && parsed.value in live {
        return parsed;
      }
      contents := None;
      return None;
    }
  }

  /* ---------------------------------------------------------------- */
  /* The transcriber's start call                                      */
  /* ---------------------------------------------------------------- */

  /** An HTTP exchange: the request raised, or a status with a body that may not be JSON. */
  datatype HttpAnswer = RequestFailed | Answer(status: int, body: Option<map<string, string>>)

  /**
   * `transcriber_start`: a 409 gives its JSON body; another 4xx or 5xx
   * raises and gives nothing, as does a failed request or a body that is
   * not JSON; any other status gives the body.
   */
  function TranscriberStart(answer: HttpAnswer): Option<map<string, string>>
  {
    match answer
    case RequestFailed => None
    case Answer(status, body) =>
      if status == 409 then body
      else if 400 <= status < 600 then None
      else body
  }

  /** Python truth of the start call's result: a dictionary with at least one key. */
  predicate Truthy(result: Option<map<string, string>>)
  {
    result.Some? && |result.value| > 0
  }

  /**
   * A 409 ("already recording") with a detail body counts as started;
   * any other client or server error does not.
   */
  lemma StartReplyTruth(status: int, body: map<string, string>)
    ensures status == 409 && |body| > 0 ==> Truthy(TranscriberStart(Answer(status, Some(body))))
    ensures status != 409 && 400 <= status < 600 ==> !Truthy(TranscriberStart(Answer(status, Some(body))))
    ensures 200 <= status < 300 ==> (Truthy(TranscriberStart(Answer(status, Some(body)))) <==> |body| > 0)
  {
  }

  /* ---------------------------------------------------------------- */
  /* `start`                                                           */
  /* ---------------------------------------------------------------- */

  /** The `/status` body: how many keys it has and whether its `recording` entry is truthy. */
  datatype StatusBody = StatusBody(size: nat, recording: bool)

  /** What `start` asks other processes to do, in order. */
  datatype CliStep = StartSender(device: string) | StartRecording(title: string) | StopSender

  datatype ExitReason = PilotUnreachable | AlreadyRecording | NoDevice | StartFailed

  /** How `start` ends: recording from a device of some quality, or exit status 1 for a reason. */
  datatype StartOutcome = Recording(device: string, quality: string) | Exit(reason: ExitReason)

  /**
   * The device `start` uses: the one named with `-d`, classed by its
   * name, or else the preferred available device; none when the name is
   * empty.
   */
  function DeviceFor(deviceArg: string, devices: seq<Device>): Option<(string, string)>
  {
    if deviceArg != "" then Some((deviceArg, Quality(deviceArg)))
    else match Best(DevicePreference, InputNames(devices))
      case None => None
      case Some(n) => if n == "" then None else Some((n, Quality(n)))
  }

  /** A device named with `-d` is `full` exactly when its name mentions BlackHole. */
  lemma ExplicitDeviceQuality(deviceArg: string, devices: seq<Device>)
    requires deviceArg != ""
    ensures DeviceFor(deviceArg, devices).Some?
    ensures DeviceFor(deviceArg, devices).value.0 == deviceArg
    ensures DeviceFor(deviceArg, devices).value.1 == "full" <==> Contains(Lower(deviceArg), "blackhole")
  {
  }

  predicate Reachable(status: Option<StatusBody>) { status.Some? && status.value.size > 0 }

  /**
   * `cmd_start`: the command stops before starting the sender when the
   * transcriber is unreachable, already recording, or no device is
   * found. Otherwise it starts the sender, then asks the transcriber to
   * record; when that gives nothing truthy it stops the sender again.
   */
  method CmdStart(title: string, status: Option<StatusBody>, deviceArg: string, devices: seq<Device>, answer: HttpAnswer)
    returns (steps: seq<CliStep>, outcome: StartOutcome)
    ensures !Reachable(status) ==> steps == [] && outcome == Exit(PilotUnreachable)
    ensures Reachable(status) && status.value.recording ==> steps == [] && outcome == Exit(AlreadyRecording)
    ensures Reachable(status) && !status.value.recording && DeviceFor(deviceArg, devices).None? ==>
              steps == [] && outcome == Exit(NoDevice)
    ensures Reachable(status) && !status.value.recording && DeviceFor(deviceArg, devices).Some? ==>
              var (device, quality) := DeviceFor(deviceArg, devices).value;
              (Truthy(TranscriberStart(answer)) ==>
                 steps == [StartSender(device), StartRecording(title)] && outcome == Recording(device, quality)) &&
              (!Truthy(TranscriberStart(answer)) ==>
                 steps == [StartSender(device), StartRecording(title), StopSender] && outcome == Exit(StartFailed))
  {
    steps := [];
    if !Reachable(status) {
      return steps, Exit(PilotUnreachable);
    }
    if status.value.recording {
      return steps, Exit(AlreadyRecording);
    }
    var deviceName: Option<string>;
    var quality: Option<string>;
    if deviceArg != "" {
      deviceName := Some(deviceArg);
      quality := Some(Quality(deviceArg));
    } else {
      deviceName, quality := FindBestDevice(devices);
    }
    if deviceName.None? || deviceName.value == "" {
      return steps, Exit(NoDevice);
    }
    steps := steps + [StartSender(deviceName.value)];
    steps := steps + [StartRecording(title)];
    var result := TranscriberStart(answer);
    if Truthy(result) {
      return steps, Recording(deviceName.value, quality.value);
    }
    steps := steps + [StopSender];
    return steps, Exit(StartFailed);
  }
}
