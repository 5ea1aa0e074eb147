# Meeting notes processor, modelled in Dafny

The meeting notes processor turns meeting recordings into org-mode notes.

- **Transcriber appliance.** It captures a VBAN audio stream, transcribes it with whisper, cleans the output and posts it to the daemon.
- **Audio streaming.** A VBAN sender and receiver stream audio between hosts.
- **Webhook daemon.** The `meetingnotesd` daemon receives transcripts and calendar snapshots. It writes them into a git repository and routes them on.
- **Summarizer.** `run_summarization.py` is the inbox pipeline. It drops junk transcripts, splits recordings that hold several meetings, and summarizes each transcript. It then enriches the note from the calendar.
- **Calendar enrichment.** The calendar module parses the calendar and the notes and applies a calendar match to a note.
- **Front ends.** A macOS menu-bar app and a command line start and stop recordings.
- **Helper scripts.** Two scripts post a transcript and write a note into the data repository.

This project models the decision logic of these parts. It also proves the properties they promise:

- the junk filter and the multi-meeting gate;
- the transcript split and its part files, which read back as their segments;
- unique file names;
- the calendar and note parsers and the enrichment rewrite;
- the daemon's validation, header building and routing;
- the hallucination filter and timestamp stripping;
- the recording life cycle and its archive;
- the VBAN header round trip, packetisation and the receiver's jitter buffer;
- device choice, meeting detection and the menu-bar state;
- the PID file, and the two helper scripts.

**External effects are parameters.** Whatever the code gets from outside is a parameter of the model:

- YAML and ISO-8601 parsing, clocks and file systems;
- git runs, HTTP exchanges and the language-model replies;
- the sound-device list.

**Modules.** The model is split into modules that follow the source files:

- `Wrappers`, `Text`: shared helpers;
- `Summarization`, `Segmenting`, `Pipeline`: `run_summarization.py`;
- `CalendarEnrich`: `calendar_enrich.py`;
- `Templates`: the replacement templates that `re.sub` parses, used by the calendar rewrite;
- `Daemon`: `meetingnotesd.py`;
- `Transcriber`: `transcriber/server/transcriber.py`;
- `Vban`, `VbanSend`, `VbanRecv`: the VBAN sender and receiver;
- `Devices`, `MeetingBar`, `MeetingCli`: the menu-bar app and `meeting.py`;
- `SendTranscript`, `WriteNote`: the two helper scripts.

**Form of the model.** The model follows the form of the source:

- Pure parsers and formatters are functions.
- Loops are methods with invariants, proved against specification functions.
- Objects whose fields change are classes:
  - `Pipeline.Inbox`, `Daemon.Daemon` and `Transcriber.RecordingsDir` model the file systems they write;
  - `Transcriber.Recording`, `Transcriber.Server` and `Transcriber.Capture` model the recording and the server's state;
  - `VbanSend.Sender` and `VbanRecv.JitterBuffer` model the two VBAN endpoints;
  - `MeetingBar.RecordingState` is the menu bar's state;
  - `MeetingCli.PidFile` is the sender's PID file.

## Model

| member | source | states |
|---|---|---|
| Summarization.TranscriptBody | run_summarization.py:226-241 | The body is a suffix of the file; a file that does not open with `---` is its own body |
| Summarization.BodyAfterFrontMatter | run_summarization.py:188-241 | Front matter of `---`, YAML, `\n---` and blank lines is split off exactly: the YAML is the header text and the rest is the body |
| Summarization.Metadata | run_summarization.py:188-223 | A file without front matter has empty metadata |
| Summarization.Duration | run_summarization.py:297-303 | A duration exists only when both timestamps are present and parse, and it is their difference |
| Summarization.WorthProcessing | run_summarization.py:259-281 | Too short exactly when the stripped body is under 200 characters; too brief exactly when it is long enough and a parsed duration is under 60 seconds; otherwise worth processing |
| Summarization.UnparsedTimesSkipDuration | run_summarization.py:259-281 | Timestamps that do not parse never reject a transcript; only its length counts |
| Summarization.TimeOverlaps | run_summarization.py:513-545 | All-day and unparsable entries always overlap; otherwise the slot, widened five minutes each way on the start day, overlaps exactly when it meets the recording |
| Summarization.SlotEndedBeforeStart | run_summarization.py:513-545 | A recording that starts five minutes or more after a slot ends does not overlap it |
| Summarization.OverlapGrowsWithEnd | run_summarization.py:513-545 | Extending the recording's end never loses an overlap |
| Summarization.NarrowCalendar | run_summarization.py:984-998 | Only entries of the meeting date; empty exactly when that date has none; when both times are known and some entry of the date overlaps, exactly the overlapping entries of that date in calendar order; all of the date's entries otherwise |
| Summarization.OverlapCount | run_summarization.py:307-318 | No calendar, or no or zero duration, counts no overlaps |
| Summarization.ShouldCheck | run_summarization.py:335-339 | The gate is shut below the minimum body; two overlapping entries, a long recording, or a body twice the minimum without a duration open it; nothing else does |
| Summarization.ResolveAnchors | run_summarization.py:419-442 | The anchor loop yields the located positions of the split points, in reply order |
| Summarization.Locate | run_summarization.py:424-438 | A found `before` text wins: the point lands right after its first occurrence. Otherwise a found `after` text places it at that text's first occurrence. With neither found, there is no point |
| Summarization.LocateOne | run_summarization.py:424-438 | The anchor step computes exactly `Locate`: after the first `before`, else at the first `after`, else nowhere |
| Summarization.DetectMultiMeeting | run_summarization.py:284-442 | Split positions come back exactly when the gate opens, the reply reports a split and some anchor is located; they are the located anchors |
| Summarization.ExtractSlug | run_summarization.py:155-174 | The slug is `meeting` or a valid lower-case slug of at most 50 characters |
| Summarization.ExtractSlugFinds | run_summarization.py:155-174 | A valid slug property line `:SLUG: <slug>` yields that slug, wherever it sits, as long as no `:slug:` (in any case) comes before it |
| Summarization.ExtractSlugFirstOnly | run_summarization.py:155-174 | Only the first slug property counts: an over-long first one gives `meeting` even when a later one is valid |
| Summarization.DateFromFile | run_summarization.py:176-186 | An eight-digit name prefix followed by `-` is the date; otherwise the modification date |
| Summarization.MeetingTiming | run_summarization.py:955-970 | A parsed start fixes the date unless a given end fails to parse, which falls back to the file's date; an end is kept only after a start |
| Summarization.MeetingDate | run_summarization.py:972 | Eight digits become a `YYYY-MM-DD` date |
| Summarization.MeetingDateRoundTrip | run_summarization.py:972 | Removing the dashes from the meeting date gives back the eight digits |
| Summarization.FormatCalendarForPrompt | run_summarization.py:72-87 | An empty list gives the no-entries message; otherwise the calendar listing |
| Summarization.ExitCode | run_summarization.py:1435-1442 | Exit 0 exactly when some file succeeded and none failed, 2 exactly when nothing was processed, 1 for a missing result or any failure |
| Segmenting.SortPositions | run_summarization.py:467 | The positions sorted, as a permutation |
| Segmenting.Insert | run_summarization.py:467 | Inserting into a sorted sequence gives a sorted sequence one longer, headed by the new element or the old head |
| Segmenting.Bounds | run_summarization.py:467 | The bounds start at 0, end at the body length and hold the sorted positions between |
| Segmenting.BoundsWithin | run_summarization.py:467 | Positions within the body give sorted bounds |
| Segmenting.Segments | run_summarization.py:470-503 | Every kept part comes from one of the gaps looked at |
| Segmenting.SegmentsIncreasing | run_summarization.py:470-503 | The indices of kept parts strictly increase, so numbering can skip blank segments |
| Segmenting.SegmentsAreSlices | run_summarization.py:470-503 | Each part is the stripped, non-blank slice of its own gap |
| Segmenting.SegmentsKeepNonBlank | run_summarization.py:470-503 | Every gap whose stripped slice is not empty yields a part |
| Segmenting.PartsOrdered | run_summarization.py:470-503 | Within sorted bounds the parts follow one another through the body without overlap |
| Segmenting.InterpolateWithin | run_summarization.py:477-485 | Interpolated times never decrease along the body and stay within the recording |
| Segmenting.PathJoinInjective | run_summarization.py:498 | Two names joined to one directory give one path only when they are equal |
| Segmenting.NumberedPathInjective | run_summarization.py:498 | Different part numbers give different part paths |
| Pipeline.PartHeader | run_summarization.py:477-492 | Without a duration the header is kept as is; with one, start and end become the times interpolated at the part's bounds |
| Pipeline.HeaderLines | run_summarization.py:487-492 | A part header has at most three lines |
| Pipeline.PartBodyRoundTrip | run_summarization.py:487-492 | A part file read back by the body extractor gives exactly its segment text |
| Pipeline.PartHoldsSegment | run_summarization.py:487-503 | A part file reads back as its stripped segment |
| Pipeline.Inbox.SplitTranscript | run_summarization.py:445-510 | The created paths are the part paths; the files gain exactly the parts' contents and lose the original |
| Pipeline.Inbox.WriteParts | run_summarization.py:470-503 | The loop writes one file per non-blank segment, in order, and records their paths |
| Pipeline.SplitPathsDistinct | run_summarization.py:498 | The parts of one split are written to pairwise different files |
| Pipeline.SplitPartsOrdered | run_summarization.py:467-503 | The parts of a split lie in order within the body, without overlap |
| Pipeline.PartTimesOrdered | run_summarization.py:477-485 | Each part starts no later than it ends, earlier parts end before later ones start, and all lie within the recording |
| Pipeline.EnsureUniqueFilename | run_summarization.py:548-559 | The path is never an existing one: the plain name when free, else the least free numbered name |
| Pipeline.ProcessInbox | run_summarization.py:1272-1382 | A missing inbox is one failure; otherwise successes count the summarized final files and successes plus failures cover them all |
| Pipeline.RunExitCode | run_summarization.py:1272-1442 | Missing inbox exits 1; an inbox of junk exits 2; exit 0 exactly when there were final files and all succeeded |
| Pipeline.ParseNotesForCalendar | run_summarization.py:693-724 | A date is found exactly when a weekday timestamp is, and it is a valid date whose stamp appears in the note |
| Pipeline.EnrichWithCalendar | run_summarization.py:821-939 | Enrichment needs a note date with calendar entries and a confident match (0.7 or more). The note is written exactly when the rewrite changed something. The old and new note paths come back exactly when it was written and the slug changed, the new one being `<date without dashes>-<slug>.org` in the note's own directory. The note is moved exactly when that path differs. The transcript is moved to the `.txt` name in its own directory exactly then, when it exists and is not already there |
| Pipeline.RenamesStayInPlace | run_summarization.py:921-935 | A renamed note and a moved transcript stay in the directories they were in |
| Pipeline.NullSlugRenames | run_summarization.py:921-937 | For a null slug suggestion the calendar tool reports a rename, and the pipeline reports none and moves no file |
| Segmenting.DirName | run_summarization.py:924-925 | The directory is a prefix of the path; a path without `/` has the empty directory; a directory ending in `/` is made of slashes only |
| Segmenting.DirNameOfJoin | run_summarization.py:924-928 | A directory in the form `DirName` gives, joined to a name without `/`, has that directory again |
| Segmenting.RenameStaysInDir | run_summarization.py:924-928 | A name without `/` joined to the directory of a path stays in that directory |
| CalendarEnrich.ParseCalendar | calendar_enrich.py:22-83 | Every entry has both times or neither; its participant names are non-empty and stripped; its body is stripped; and its participants, location and links are the ones read from that body |
| CalendarEnrich.ParseTimedEntry | calendar_enrich.py:22-83 | A timed heading followed by one body line yields exactly one entry with that title, date, time range and stripped body |
| CalendarEnrich.TimedEntryLink | calendar_enrich.py:22-83 | A timed entry whose body is one video-call link has exactly that link, with the heading's time range |
| CalendarEnrich.RemoveTags | calendar_enrich.py:56 | Removing angle-bracket tags never lengthens a name |
| CalendarEnrich.RemoveTagsPlain | calendar_enrich.py:56 | A name without angle brackets is left alone |
| CalendarEnrich.RemoveTagsAfterName | calendar_enrich.py:56 | A name without `<` that ends in a non-blank character passes whole, and removal goes on after it |
| CalendarEnrich.RemoveTagsDropsAddress | calendar_enrich.py:56 | `Name <address>` loses the blank and the bracketed address and keeps the name |
| CalendarEnrich.CleanNames | calendar_enrich.py:53-58 | The names are non-empty and stripped, and no more than the parts |
| CalendarEnrich.CleanNamesAppend | calendar_enrich.py:53-58 | Cleaning works part by part: the names of two lists joined are the names of each, in order |
| CalendarEnrich.CleanNamesMembers | calendar_enrich.py:53-58 | A name is listed exactly when it is the non-empty cleaned form of some part |
| CalendarEnrich.CleanNameOfAddress | calendar_enrich.py:53-58 | `Name <address>` cleans to the name |
| CalendarEnrich.MeetingLinks | calendar_enrich.py:67-70 | Every link found is an `https://` URL without `]` |
| CalendarEnrich.MeetingLinksSkip | calendar_enrich.py:67-70 | Text without `[` adds no link and hides none that follows |
| CalendarEnrich.MeetingLinksLink | calendar_enrich.py:67-70 | A well-formed `[[url][camera caption]]` link is found with its URL, and the search goes on after it |
| CalendarEnrich.FilterByDate | calendar_enrich.py:132-134 | Only entries of the date are kept, none is invented |
| CalendarEnrich.FilterByDateAppend | calendar_enrich.py:132-134 | Filtering distributes over concatenation, so order is kept |
| CalendarEnrich.FilterByDateKeeps | calendar_enrich.py:132-134 | An entry is kept exactly when its date is the target date |
| CalendarEnrich.EntryNumbered | calendar_enrich.py:137-152 | Entry k is rendered as number k+1 between those before and after it |
| CalendarEnrich.FormatCalendarStartsAtOne | calendar_enrich.py:137-152 | A non-empty list starts with entry number 1, never with the empty-list message |
| CalendarEnrich.FirstLine | calendar_enrich.py:137-152 | The first rendered line is entry number 1's heading |
| CalendarEnrich.StampAt | calendar_enrich.py:108-112 | A matched timestamp has a valid date, is the text at the position, and its time, when present, is a clock reading |
| CalendarEnrich.StampForms | calendar_enrich.py:108-112 | Each of the three bracketed timestamp forms is read back as its date, weekday and time |
| CalendarEnrich.ParseNotes | calendar_enrich.py:86-129 | A note's date is found exactly when a timestamp is, and the timestamp appears in it |
| CalendarEnrich.AddPropertyIdempotent | calendar_enrich.py:323-351 | Adding a property twice changes nothing more |
| CalendarEnrich.AddPropertyPresent | calendar_enrich.py:323-351 | A missing property is present after adding it, when the note has a drawer end |
| CalendarEnrich.DayMatchFrom | calendar_enrich.py:356-359 | The position found is a match of `date weekday` with none before it; none is found exactly when there is no match |
| CalendarEnrich.DayAbbrev | calendar_enrich.py:356-359 | No weekday exactly when the timestamp has no `date weekday` match; otherwise the three characters after the date of the first match |
| CalendarEnrich.DayAbbrevOfStamp | calendar_enrich.py:356-359 | A note timestamp `[date day …]` gives back its own weekday |
| CalendarEnrich.ApplyEnrichment | calendar_enrich.py:283-386 | The result is unmatched exactly for an unmatched reply, and raises exactly when the entry index is out of range or a title must change on a note without one (values inserted literally) |
| CalendarEnrich.SubTitleTemplate | calendar_enrich.py:304-311 | The title substitution with its template as text fails exactly when the template does not parse, whether or not the note holds the heading |
| CalendarEnrich.SubTitleWithAround | calendar_enrich.py:304-311 | Expanding group 1, the text and group 2 at every title match is the literal substitution `SubTitle` |
| CalendarEnrich.TitleTemplateAgrees | calendar_enrich.py:304-311 | The template as written gives the literal substitution for a title without backslashes that does not open with a digit |
| CalendarEnrich.TitleTemplateRaises | calendar_enrich.py:304-311 | As written, the title "1:1 with Alice" makes the template refer to group 11 and raise, whatever the note holds |
| CalendarEnrich.TitleTemplateOctal | calendar_enrich.py:304-311 | As written, a title opening with two octal digits such as "2026 Planning" replaces `** ` and those digits by one character; literal substitution keeps the heading |
| CalendarEnrich.LiteralTitleTemplateInserts | calendar_enrich.py:304-311 | A template with named groups and doubled backslashes gives the literal substitution for any title |
| CalendarEnrich.SubEndTemplate | calendar_enrich.py:323-351 | The property insertion with its template as text fails exactly when the template does not parse |
| CalendarEnrich.SubEndWithInsert | calendar_enrich.py:323-351 | Literal text followed by group 1 inserts the text before every drawer end, as `SubEnd` does |
| CalendarEnrich.PropertyTemplateAgrees | calendar_enrich.py:323-351 | The property template as written inserts the property line literally when name and value hold no backslash |
| CalendarEnrich.PropertyTemplateRaises | calendar_enrich.py:323-351 | As written, a value holding a backslash before a letter with no escape meaning makes the insertion raise |
| CalendarEnrich.EscapedPropertyTemplateInserts | calendar_enrich.py:323-351 | With backslashes doubled, any property line followed by `\1` is inserted literally before every drawer end |
| CalendarEnrich.SlugTemplateAgrees | calendar_enrich.py:314-320 | The slug template as written is its own text when the slug holds no backslash |
| Templates.Parse | calendar_enrich.py:307-311 | A parsed template refers only to groups the pattern has |
| Templates.ExpandLiteral | calendar_enrich.py:307-311 | Literal pieces expand to their own text, whatever the groups |
| Templates.ParsePlain | calendar_enrich.py:307-311 | Text without a backslash parses as its own characters |
| Templates.ParseEscaped | calendar_enrich.py:307-311 | Text with its backslashes doubled parses as the text's own characters, whatever it holds |
| Templates.GroupThenRest | calendar_enrich.py:307-311 | `\d` not followed by a digit is a reference to group d |
| Templates.NamedGroupThenRest | calendar_enrich.py:307-311 | `\g<d>` is a reference to group d, whatever follows |
| Templates.GroupsAroundPlain | calendar_enrich.py:307-311 | `\1`, a text without backslash not opening with a digit, and `\2` parse as group 1, the text and group 2 |
| Templates.NamedGroupsAroundEscaped | calendar_enrich.py:307-311 | `\g<1>`, any text with doubled backslashes, and `\g<2>` parse as group 1, the text and group 2 |
| CalendarEnrich.RewriteUnchangedWithoutChanges | calendar_enrich.py:303-364 | The rewrite changes the text only through recorded changes |
| CalendarEnrich.ApplyEnrichmentOutcome | calendar_enrich.py:366-386 | The slug pair comes back exactly when something changed and the slug differs; a real run writes exactly the rewritten text |
| Daemon.SanitizeSafe | meetingnotesd.py:471-502 | A sanitized name is at most 50 characters of `[a-z0-9_-]` without doubled or edge hyphens |
| Daemon.SafeUnchanged | meetingnotesd.py:471-502 | A name that is already safe passes through unchanged |
| Daemon.SanitizeIdempotent | meetingnotesd.py:471-502 | Sanitizing twice is sanitizing once |
| Daemon.GetNested | meetingnotesd.py:78-84 | The walk gives the value at the key path, or the default when a key is missing |
| Daemon.NormalizeRepoUrlShape | meetingnotesd.py:87-95 | No URL or an empty one gives None; a `github.com/` address becomes an `https://` URL |
| Daemon.NormalizeRepoUrlIdempotent | meetingnotesd.py:87-95 | Normalising a normalised URL changes nothing |
| Daemon.BlankRepoUrlIsEmpty | meetingnotesd.py:87-95 | A whitespace-only URL becomes the empty string, not None |
| Daemon.TimingKeys | meetingnotesd.py:505-559 | The timing fields are a start, an end, or a start then an end |
| Daemon.TimingValues | meetingnotesd.py:505-559 | Given times and aliases are kept; a duration alone ends at receipt; start plus duration computes the end; with nothing given, the receipt time becomes the end |
| Daemon.HeaderTail | meetingnotesd.py:549-550 | The header ends with the source, `macwhisper` by default, and the receipt time |
| Daemon.HeaderShape | meetingnotesd.py:505-559 | The header is `---`, the YAML lines and a closing `---` |
| Daemon.HeaderRoundTrip | meetingnotesd.py:505-559 | The summarizer reads back the transcript unchanged as the body and the field lines as the YAML |
| Daemon.CheckTranscriptOutcome | meetingnotesd.py:719-791 | Accepted exactly when the request is JSON with a title and a non-blank transcript and the text fits in 256 KiB; the text ends with the transcript; a rejection is a 400, or a 413 for a well-formed request |
| Daemon.CheckCalendarOutcome | meetingnotesd.py:617-648 | The calendar is accepted exactly when present, not blank and at most 1 MiB, and is written as it came |
| Daemon.SyncRepoOutcome | meetingnotesd.py:199-218 | Sync off pulls nothing; `--ff-only` exactly when configured; new commits exactly when the pull worked and the heads differ |
| Daemon.MaybeDispatchOutcome | meetingnotesd.py:359-389 | No request without dispatch, repository, workflow or token; success exactly on 200, 201 or 204 |
| Daemon.GitStepsOutcome | meetingnotesd.py:391-434 | A commit succeeds only inside the repository with both steps passing; a disabled push always succeeds |
| Daemon.RouteOutcome | meetingnotesd.py:801-888 | Nothing runs without auto-commit; a failed commit stops; standalone mode never dispatches and pushes only after a successful synchronous run |
| Daemon.InboxNameShape | meetingnotesd.py:562-570 | An inbox name is the timestamp and a safe title |
| Daemon.Daemon.ReceiveTranscript | meetingnotesd.py:699-888 | A rejected request changes nothing; an accepted one writes the checked text to a new inbox file and starts the routed steps |
| Daemon.Daemon.ReceiveCalendar | meetingnotesd.py:605-688 | A rejected request changes nothing; an accepted one replaces `calendar.org`, commits and pushes after a successful commit |
| Transcriber.DropRepeatedRuns | transcriber/server/transcriber.py:299-334 | The loop keeps exactly the lines whose run of identical text is shorter than three |
| Transcriber.RemoveHallucinatedLines | transcriber/server/transcriber.py:286-342 | Lines compared without timestamps; every run of three or more identical lines is removed |
| Transcriber.FilterKeepsSurvivors | transcriber/server/transcriber.py:286-342 | The filter keeps exactly the lines of short runs, in order |
| Transcriber.SurvivorsSubsequence | transcriber/server/transcriber.py:286-342 | The survivors are an order-preserving subsequence of the lines |
| Transcriber.BlankLineKept | transcriber/server/transcriber.py:286-342 | A blank line is always kept |
| Transcriber.NoTripleAllSurvive | transcriber/server/transcriber.py:286-342 | Without three repeated lines in a row every line survives |
| Transcriber.UnrepeatedTranscriptUnchanged | transcriber/server/transcriber.py:286-342 | Such a transcript, and the empty one, come back unchanged |
| Transcriber.CollapseBlankRuns | transcriber/server/transcriber.py:378-379 | No triple newline remains, the text never grows, and clean edges stay clean |
| Transcriber.StripTimestampsWithGaps | transcriber/server/transcriber.py:351-380 | Each line made plain, the whole stripped and blank runs collapsed; no whitespace at the edges |
| Transcriber.PlainLinesUnchanged | transcriber/server/transcriber.py:351-380 | Lines without timestamps pass through unchanged |
| Transcriber.UntimedTranscript | transcriber/server/transcriber.py:351-380 | A transcript without timestamps is only stripped and collapsed |
| Transcriber.SafeTitleShape | transcriber/server/transcriber.py:527-528 | A safe title is at most 50 letters, digits, `-` or `_` |
| Transcriber.SafeTitleKeepsSafe | transcriber/server/transcriber.py:527-528 | A title already safe and short is its own safe title |
| Transcriber.Suffix | transcriber/server/transcriber.py:157 | The suffix is empty, or starts with a dot, ends the name and is shorter than it |
| Transcriber.AudioNameSuffix | transcriber/server/transcriber.py:386 | A recording's audio name ends in `.wav` and its transcript sits beside it as `.txt` |
| Transcriber.Clean | transcriber/server/transcriber.py:424-429 | The hallucination filter, then timestamp stripping; no triple newline remains |
| Transcriber.FrontMatter | transcriber/server/transcriber.py:436-443 | The posted text opens with a front-matter fence |
| Transcriber.Recording.Transcribe | transcriber/server/transcriber.py:383-465 | A failed or silent whisper run fails the recording; otherwise the cleaned text is written and posted behind its front matter |
| Transcriber.Recording.Deliver | transcriber/server/transcriber.py:446-465 | A raising post fails the recording, any answer completes it, and only a 200 marks the webhook sent |
| Transcriber.ArchivedShape | transcriber/server/transcriber.py:593-597 | The newest recording comes first, the old order follows, at most 20 remain, only the oldest fall off |
| Transcriber.Server.Archive | transcriber/server/transcriber.py:593-597 | The archive becomes the archived list with the recording in front |
| Transcriber.Server.Start | transcriber/server/transcriber.py:512-545 | 409 while capturing, 500 when capture fails; otherwise a new capturing recording becomes active |
| Transcriber.Server.Stop | transcriber/server/transcriber.py:551-590 | 404 without a capture; otherwise the recording ends, a missing or tiny file fails and is archived, else it is queued |
| Transcriber.Server.WorkOne | transcriber/server/transcriber.py:468-486 | The oldest queued recording is transcribed, then archived whatever happened |
| Transcriber.RemainingExactly | transcriber/server/transcriber.py:143-168 | A cleanup removes exactly the expired recordings whose deletion does not raise |
| Transcriber.RecordingsDir.CleanupOldRecordings | transcriber/server/transcriber.py:143-168 | A missing directory gives 0; otherwise the doomed entries go, nothing else changes, and their count is returned |
| Transcriber.Capture.OnPacket | transcriber/server/transcriber.py:219-268 | Non-VBAN or empty packets are skipped; the first accepted packet fixes rate and channels; accepted payloads are appended and counted |
| Transcriber.CaptureAgreesWithParser | transcriber/server/transcriber.py:232-245 | Every packet the receiver's parser accepts with a payload is accepted by the capture with the same channels and rate |
| Transcriber.CaptureIgnoresProtocol | transcriber/server/transcriber.py:232-233 | The capture keeps packets whose protocol is not audio, which the parser rejects |
| Vban.SrIndex | transcriber/vban/vban_send.py:87-95 | A listed rate gives its table index; any other rate gives none |
| Vban.U32RoundTrip | transcriber/vban/vban_recv.py:100 | Reading back a packed 32-bit little-endian counter gives it modulo 2^32 |
| Vban.Int16RoundTrip | transcriber/vban/vban_recv.py:283 | An int16 sample reads back from its two bytes |
| Vban.PcmRoundTrip | transcriber/vban/vban_recv.py:283 | A block of samples reads back from its bytes |
| Vban.NameField | transcriber/vban/vban_send.py:119 | The name field is 16 bytes: the name cut to 16 and padded with NUL |
| Vban.NameRoundTrip | transcriber/vban/vban_recv.py:99 | The receiver reads the stream name back, cut to 16 characters |
| Vban.BuildHeader | transcriber/vban/vban_send.py:98-129 | A header exactly for an ASCII name: 28 bytes, `VBAN`, the rate index and audio protocol, counts minus one, int16 PCM, the name field and the counter modulo 2^32 |
| Vban.ParseHeader | transcriber/vban/vban_recv.py:80-112 | Short packets, a wrong magic and non-audio protocols give none; otherwise counts, format, codec, name, counter and table rate (0 off the table) are read from their bytes |
| Vban.HeaderRoundTrip | transcriber/vban/vban_recv.py:80-112 | A built header parses back to its rate, counts, int16 PCM format, name and counter |
| VbanSend.ChunksCover | transcriber/vban/vban_send.py:247-264 | The chunks cover the block in order, each 1 to 256 samples, all but the last exactly 256 |
| VbanSend.CounterAfterDelivered | transcriber/vban/vban_send.py:257-262 | The counter advances by the number of delivered packets modulo 2^32 |
| VbanSend.Sender.SendChunk | transcriber/vban/vban_send.py:252-262 | One packet is built and sent; a success advances the counter |
| VbanSend.Sender.SendBlock | transcriber/vban/vban_send.py:247-264 | Every chunk goes out in order under its own header and the counter advances by the delivered packets |
| VbanRecv.DropOldestShape | transcriber/vban/vban_recv.py:287-289 | The drop loop removes a prefix of the buffer and takes its samples off the counter |
| VbanRecv.IngestKeepsCount | transcriber/vban/vban_recv.py:285-292 | Below the deque bound the frame counter stays equal to the samples held and bounded |
| VbanRecv.IngestCorrectedKeepsCount | transcriber/vban/vban_recv.py:179 | The corrected step keeps the counter exact whatever the deque length |
| VbanRecv.IngestOvercountsAfterEviction | transcriber/vban/vban_recv.py:179 | After a silent eviction the counter exceeds the samples held |
| VbanRecv.JitterBuffer.Receive | transcriber/vban/vban_recv.py:261-292 | Unparsable or foreign-stream packets change nothing; empty or odd payloads are counted but not buffered (in the source an odd payload raises in `np.frombuffer`, which ends the receive loop); an even payload goes through the corrected ingest, and a consistent buffer stays consistent |
| VbanRecv.JitterBuffer.Ingest | transcriber/vban/vban_recv.py:285-292 | The drop loop runs, the chunk is appended and counted and an evicted chunk is taken off, so a consistent buffer stays consistent |
| VbanRecv.JitterBuffer.DropLoop | transcriber/vban/vban_recv.py:287-289 | The loop leaves the state the drop specification gives, failing only when `popleft` meets an empty deque |
| VbanRecv.JitterBuffer.Drain | transcriber/vban/vban_recv.py:197-227 | Up to `frames` samples are copied from the front in order, the counter drops by that much, the rest is silence, and consistency is kept |
| Devices.InputNamesExactly | transcriber/meeting_bar.py:171-174 | The available names are exactly the input devices' names, once each |
| Devices.FirstMatch | transcriber/meeting_bar.py:177-178 | The first name, in order, that a preference matches |
| Devices.BestDeviceChoice | transcriber/meeting_bar.py:176-180 | The chosen device is the first name matched by the first matching preference; none exactly when nothing matches |
| Devices.FindBestDevice | transcriber/meeting_bar.py:168-182 | The device is the preferred choice, with quality exactly when there is a device |
| Devices.FindMicDevice | transcriber/meeting_bar.py:185-204 | The default input when it is a microphone candidate; otherwise the first candidate, or none only when there is none |
| MeetingBar.DetectTeamsExactly | transcriber/meeting_bar.py:130-141 | A Teams meeting is found exactly when a Teams-owned window title holds a meeting pattern |
| MeetingBar.DetectMeetingOutcome | transcriber/meeting_bar.py:151-159 | Zoom first, then Teams, else no meeting |
| MeetingBar.OwnerDecides | transcriber/meeting_bar.py:136-137 | A window Teams does not own never counts |
| MeetingBar.DurationRoundTrip | transcriber/meeting_bar.py:359-364 | A non-negative span reads back from its text, with two fields exactly under an hour |
| MeetingBar.DurationUnderAnHour | transcriber/meeting_bar.py:364 | Under an hour the text is minutes, a colon and two second digits |
| MeetingBar.RecordingState.constructor | transcriber/meeting_bar.py:331-336 | A new state is idle with nothing recorded |
| MeetingBar.RecordingState.Start | transcriber/meeting_bar.py:338-343 | Recording with the title, app, start time and auto flag |
| MeetingBar.RecordingState.Stop | transcriber/meeting_bar.py:345-350 | Back to idle with everything forgotten |
| MeetingBar.RecordingState.Error | transcriber/meeting_bar.py:352-353 | Only the state becomes error |
| MeetingBar.RecordingState.Duration | transcriber/meeting_bar.py:356-364 | `0:00` without a start, else a text that reads back to the elapsed seconds |
| MeetingBar.PollDecisionOutcome | transcriber/meeting_bar.py:517-534 | Detection off does nothing; idle starts on a meeting; only an auto-started recording stops when the meeting is gone |
| MeetingCli.ParseInt | transcriber/meeting.py:129 | An unsigned number parses to a non-negative value |
| MeetingCli.PidReadsBack | transcriber/meeting.py:124-134 | A written PID reads back as itself |
| MeetingCli.PidFile.Write | transcriber/meeting.py:159 | The file holds the PID as decimal text |
| MeetingCli.PidFile.SenderRunning | transcriber/meeting.py:124-134 | No file gives none; a live parsed PID is returned and kept; otherwise the file is removed |
| MeetingCli.StartReplyTruth | transcriber/meeting.py:200-215 | A 409 with a body counts as started; other errors do not; a 2xx counts exactly with a non-empty body |
| MeetingCli.ExplicitDeviceQuality | transcriber/meeting.py:256-258 | A named device is used as given and is `full` exactly when it mentions BlackHole |
| MeetingCli.CmdStart | transcriber/meeting.py:237-289 | Unreachable, already recording or no device stop before the sender; otherwise the sender starts, and a failed start stops it again |
| SendTranscript.BaseName | send_transcript.py:60 | The base name ends the path and holds no `/`, and it is either the whole path or preceded by a `/` |
| SendTranscript.StemDropsExtension | send_transcript.py:60 | `base.ext` loses its extension when the base has a non-dot character; a dotless name is kept |
| SendTranscript.ClosingFence | send_transcript.py:49-53 | The first fence at or after a line, or none when no later line is a fence |
| SendTranscript.FirstContent | send_transcript.py:55-56 | The first non-blank line, with every line before it blank |
| SendTranscript.ExtractTitle | send_transcript.py:44-60 | The scan loops compute the derived title |
| SendTranscript.TitleIsFirstContent | send_transcript.py:44-60 | The title is the first non-blank line after the front matter, stripped, else the file name's stem |
| SendTranscript.ClosedFrontMatterSkipped | send_transcript.py:49-53 | A closed front matter is skipped to just after its closing fence |
| SendTranscript.UnclosedFenceIsTitle | send_transcript.py:49-58 | An unclosed leading fence makes `---` the title |
| SendTranscript.SendToWebhook | send_transcript.py:28-95 | A missing or unreadable file sends nothing; otherwise the text is posted under its title, and success is exactly a 200 with a JSON body |
| WriteNote.PathJoin | skills/workiq-notes/write_note.py:192-197 | An absolute right side replaces the left; otherwise the result joins both |
| WriteNote.DataRepoPrecedence | skills/workiq-notes/write_note.py:55-68 | A workspace wins; a relative configured path sits under the processor directory; the default sits under home |
| WriteNote.DatePrefix | skills/workiq-notes/write_note.py:195 | The prefix has at most eight characters |
| WriteNote.IsoDatePrefix | skills/workiq-notes/write_note.py:167-195 | For a `YYYY-MM-DD` date the prefix is its eight digits in order |
| WriteNote.NotePathInNotes | skills/workiq-notes/write_note.py:192-197 | A note lands in the repository's `notes/` directory under its `.org` name |
| WriteNote.PrepareContentMeaning | skills/workiq-notes/write_note.py:180-187 | Rejected exactly when blank; accepted content is kept, ends with a newline, gains at most one character, and is stable |
| WriteNote.GitSyncAndCommit | skills/workiq-notes/write_note.py:82-128 | Pull, add, commit, then pull and push unless skipped, stopping at the first failure with its message |
| WriteNote.Run | skills/workiq-notes/write_note.py:165-236 | Bad date, a terminal, or blank content exit 1 before writing; a dry run exits 0 without writing; otherwise the note is written and synced |

## Left out

- **External parsers are parameters.** YAML parsing, `datetime.fromisoformat`, `strftime` and the file modification time are parameters of the model (`yaml`, `iso`, `ymd`, `dayOf`, `fmt`), with no properties assumed.
- **Regular expressions are hand-written matchers.** A matcher for a pattern confined to one line follows the expression's greedy or lazy choices; `\d`, `\w` and `isalnum` are narrowed to ASCII digits and letters, and case folding to ASCII letters; `\s` and `str.strip` use the full `str.isspace` set. The calendar heading pattern of `parse_calendar_org` is the exception: it runs with `MULTILINE | DOTALL`, and the model reads headings one line at a time.
- **Text functions are narrowed to ASCII.** `str.lower`, `isalnum` and `\d` act on ASCII only; no case folding or normalisation is modelled.
- **Times are integer seconds.** Interpolation uses floor division, and time zones are not modelled.
- **External services are parameters.** Git, HTTP, the language model, subprocesses and the file systems are parameters or map-valued state. Their timeouts and exception texts are not modelled.
- **Concurrency is not modelled.** Threads, locks, the asyncio queue and background sync loops are out; the worker is modelled one turn at a time.
- **Wording is not modelled.** Prompt texts and log and print messages are out, except where a message is part of a result.
- **Float audio is not modelled.** `to_mono`, float-to-int16 scaling, the mixer thread of `run_sender_mixed` and the sound-device streams are out; packetisation is modelled on int16 sample sequences.
- **Two daemon operations are not modelled.** The hook run after a push and `ensure_repo_checkout` (cloning) are out.
- **JSON values are strings.** Request bodies are maps from keys to strings; JSON values of other types are not modelled.
- **Paths are simplified.** `expanduser` is modelled for `~` and `~/…` only, with no `~user` forms and no normalisation of `..`.
- **`int()` is simplified.** Digit underscores are not accepted, and the `PermissionError` of `os.kill` is not modelled.
- **`start_sender` is modelled only as its PID-file write.** Its reuse of a running sender and the process spawn are out.
- **Commands and helpers not modelled.** `stop_sender`, `list_devices`, `cmd_stop`, `cmd_status`, the menu-bar `_start_recording`, `_stop_recording` and UI callbacks, and `retranscribe` are out.
- **Zoom detection is a parameter.** Teams detection errors are modelled as an empty window list.
- MeetingBar.RecordingState.Duration: takes the clock as whole seconds, so the sub-second truncation of `int(total_seconds())` is not modelled.
- Summarization.DetectMultiMeeting: positions are measured in the stripped body while `split_transcript` splits the unstripped body. The model keeps both as written and does not reconcile the offset.
- SendTranscript.TitleOf: the file-name branch applies only when no line has content. Splitting always yields at least one line, so the `else` branch of `if lines:`, which titles the transcript with the full base name, never runs.
- Summarization.FormatCalendarForPrompt: returns the summarizer's empty-list message, which differs from the calendar module's. Both are modelled.
- CalendarEnrich.ParseCalendar: reads headings line by line and skips a heading line that no stamp of the expected form closes, such as text after the `>` or a start time without an end (`<2024-01-01 Mon 12:00>`). The original's lazy title `(.+?)` runs across lines under `DOTALL`, so it merges such a heading with the lines up to the next heading whose stamp closes its line, giving one entry with a multi-line title.
- CalendarEnrich.ParseNotes: looks for the `** Title :note:` heading line by line. The original's `\s+` before `:note:` may cross a line break, so a heading whose `:note:` tag opens the next line gives a title there and none here.
- CalendarEnrich.ApplyEnrichment: puts the suggested title, slug and property values in literally, as `SubTitle`, `SubSlug` and `SubEnd` do. The original passes them inside `re.sub` replacement templates. A title opening with a digit, or any value holding a backslash, is read as group references and escapes there: it raises `re.error` or garbles the heading, and `Raised` does not cover those cases. `CalendarEnrich.SubTitleTemplate` and `CalendarEnrich.SubEndTemplate` model the templates as written; see Findings.
- Pipeline.EnrichWithCalendar: puts values in literally as `CalendarEnrich.ApplyEnrichment` does, and so does not cover the same template errors of `run_summarization.py`.
- VbanRecv.JitterBuffer.Receive: an `OddPayload` or `Underflow` arrival is returned as a value. In the source, `np.frombuffer` raises on an odd payload and `popleft` raises on an empty deque, and either exception reaches the outer handler and ends the receive loop.
- Templates.Parse: rejects `\g<+1>` and `\g< 1>`, which Python's template parser accepts because it reads the group with `int()`. No template the calendar rewrite builds has either form.
- VbanRecv.JitterBuffer.Ingest: applies the corrected counter update, which lowers `buffer_frames` by the chunk the full deque evicts. The step as written is `VbanRecv.IngestSamples`, and its discrepancy is listed under Findings.

## Findings

| source | as written | input that shows it | evidently intended | confidence | as-written member | corrected member |
|---|---|---|---|---|---|---|
| transcriber/vban/vban_recv.py:179, 285-292 | The deque is created with `maxlen=1000`, so appending to a full deque silently evicts its oldest chunk, and `buffer_frames` is not lowered for it | 1000 one-sample chunks buffered (1000 frames, below the 48000 drop threshold), then one more one-sample packet: `buffer_frames` becomes 1001 while 1000 samples remain | The counter should equal the samples held, taking off the evicted chunk's frames as the drop loop does | not executed | VbanRecv.IngestOvercountsAfterEviction | VbanRecv.IngestCorrectedKeepsCount |
| calendar_enrich.py:304-311, run_summarization.py:886-890 | The suggested title is put unescaped into the replacement template `\1{title}\2`, so `re.sub` reads the title's leading digits, backslashes and escapes as template syntax | Title "2026 Planning": `\120` is an octal escape, so `** Sync :note:` becomes `P26 Planning :note:`. Title "1:1 with Alice": `\11` refers to a group the pattern lacks, and `re.error` is raised | The title goes in as it stands, after the kept `** ` and before the kept tags | not executed | CalendarEnrich.TitleTemplateOctal | CalendarEnrich.LiteralTitleTemplateInserts |
| calendar_enrich.py:323-351, run_summarization.py:898-904 | Property values (calendar title, time, meeting link) are put unescaped into the template `:NAME: {value}\n\1` | A calendar title `C:\Users` holds `\U`, a bad escape, so `re.error` is raised even when the note has no drawer end | The property line goes in as it stands before each drawer end | not executed | CalendarEnrich.PropertyTemplateRaises | CalendarEnrich.EscapedPropertyTemplateInserts |
