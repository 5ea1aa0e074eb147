/**
 * Calendar enrichment of meeting notes: reading calendar headings and the
 * metadata of a note out of org text, keeping one day's entries, rendering
 * them for the matching prompt, and rewriting a note with the match the
 * language model returned (new title, new slug, calendar properties and a
 * more precise timestamp).
 *
 * The regular expressions of the original are modelled by hand-written
 * scanners. A scanner for a pattern confined to one line follows the regex
 * engine's leftmost, greedy-with-backtracking choices. Calendar headings are
 * read one line at a time, where the original's `DOTALL` pattern lets a
 * lazy title run on into the next line.
 *
 * The replacement texts of `re.sub` are templates in the original; the
 * rewrite here inserts the values literally, and `SubTitleTemplate` and
 * `SubEndTemplate` model the templates as written.
 */
module CalendarEnrich {
  import opened Wrappers
  import opened Text
  import Templates

  /* ---------------------------------------------------------------- */
  /* Fixed-shape tokens                                               */
  /* ---------------------------------------------------------------- */

  /** `\d{4}-\d{2}-\d{2}` at position `i`. */
  predicate DateAt(s: string, i: nat)
  {
    i + 10 <= |s| &&
    IsDigit(s[i]) && IsDigit(s[i + 1]) && IsDigit(s[i + 2]) && IsDigit(s[i + 3]) && s[i + 4] == '-' &&
    IsDigit(s[i + 5]) && IsDigit(s[i + 6]) && s[i + 7] == '-' && IsDigit(s[i + 8]) && IsDigit(s[i + 9])
  }

  /** `\d{2}:\d{2}` at position `i`. */
  predicate ClockAt(s: string, i: nat)
  {
    i + 5 <= |s| && IsDigit(s[i]) && IsDigit(s[i + 1]) && s[i + 2] == ':' && IsDigit(s[i + 3]) && IsDigit(s[i + 4])
  }

  /** `\w{3}` at position `i`. */
  predicate WordAt(s: string, i: nat)
  {
    i + 3 <= |s| && IsWordChar(s[i]) && IsWordChar(s[i + 1]) && IsWordChar(s[i + 2])
  }

  predicate IsDate(d: string) { |d| == 10 && DateAt(d, 0) }

  predicate IsClock(t: string) { |t| == 5 && ClockAt(t, 0) }

  /** The pieces of a timed stamp `<date day from-to>`: a date, a three-letter weekday and two clock times. */
  predicate TimedStamp(date: string, day: string, from: string, to: string)
  {
    IsDate(date) && |day| == 3 && WordAt(day, 0) && IsClock(from) && IsClock(to)
  }

  /* ---------------------------------------------------------------- */
  /* Calendar entries                                                 */
  /* ---------------------------------------------------------------- */

  /** One calendar event; an all-day event has neither start nor end time. */
  datatype Entry = Entry(
    title: string,
    date: string,
    startTime: Option<string>,
    endTime: Option<string>,
    participants: seq<string>,
    location: Option<string>,
    meetingLinks: seq<string>,
    body: string)

  /** The parts of a `* Title <YYYY-MM-DD Www[ HH:MM-HH:MM]>` heading line. */
  datatype Heading = Heading(title: string, date: string, startTime: Option<string>, endTime: Option<string>)

  predicate WellFormedHeading(h: Heading)
  {
    IsDate(h.date) &&
    (h.startTime.Some? <==> h.endTime.Some?) &&
    (h.startTime.Some? ==> IsClock(h.startTime.value) && IsClock(h.endTime.value))
  }

  /**
   * The timestamp `<date Www[ HH:MM-HH:MM]>` at the start of `t`, closing
   * the line (only whitespace may follow the `>`). The optional time range
   * is tried first, as the greedy `?` does.
   */
  function StampClose(t: string): (r: Option<(string, Option<string>, Option<string>)>)
    ensures r.Some? ==> WellFormedHeading(Heading("", r.value.0, r.value.1, r.value.2))
  {
    if 15 <= |t| && t[0] == '<' && DateAt(t, 1) && t[11] == ' ' && WordAt(t, 12) then
      if 28 <= |t| && t[15] == ' ' && ClockAt(t, 16) && t[21] == '-' &&
         ClockAt(t, 22) && t[27] == '>' && IsBlank(t[28..]) then
        Some((t[1..11], Some(t[16..21]), Some(t[22..27])))
      else if 15 < |t| && t[15] == '>' && IsBlank(t[16..]) then
        Some((t[1..11], None, None))
      else None
    else None
  }

  /** The lazy title `(.+?)` ends at the first `j` where ` <timestamp>` closes the line. */
  function HeadingFrom(line: string, j: nat): (r: Option<Heading>)
    requires 3 <= j <= |line|
    ensures r.Some? ==> WellFormedHeading(r.value)
    decreases |line| - j
  {
    if j + 1 >= |line| then None
    else if line[j] == ' ' && StampClose(line[j + 1..]).Some? then
      var t := StampClose(line[j + 1..]).value;
      Some(Heading(Strip(line[2..j]), t.0, t.1, t.2))
    else HeadingFrom(line, j + 1)
  }

  /** A top-level heading `* Title <timestamp>`, or None for any other line. */
  function ParseHeading(line: string): (r: Option<Heading>)
    ensures r.Some? ==> StartsWith(line, "* ") && WellFormedHeading(r.value)
  {
    if |line| >= 3 && line[0] == '*' && line[1] == ' ' then HeadingFrom(line, 3) else None
  }

  /** The first line at or after `i` that starts with `* `, or the end. */
  function NextHeadingLine(lines: seq<string>, i: nat): (j: nat)
    requires i <= |lines|
    ensures i <= j <= |lines|
    ensures j < |lines| ==> StartsWith(lines[j], "* ")
    ensures forall k :: i <= k < j ==> !StartsWith(lines[k], "* ")
    decreases |lines| - i
  {
    if i == |lines| || StartsWith(lines[i], "* ") then i else NextHeadingLine(lines, i + 1)
  }

  /**
   * The value captured by `marker\s*(.+?)(?:\n|$)` at its first match:
   * the rest of the line after the whitespace following the marker. When
   * only whitespace follows to the end of the text, the engine backtracks
   * into that whitespace and captures its last character that is not a
   * line break.
   */
  function ValueAfter(s: string, i: nat): (r: Option<string>)
    requires i <= |s|
  {
    var w := SkipSpace(s, i);
    if w < |s| then Some(s[w..Until(s, w, '\n')])
    else LastNonBreak(s, i, |s|)
  }

  /** The last character of `s[lo..hi]` that is not `\n`, as a one-character string. */
  function LastNonBreak(s: string, lo: nat, hi: nat): (r: Option<string>)
    requires lo <= hi <= |s|
    ensures r.Some? ==> |r.value| == 1 && r.value[0] != '\n'
    decreases hi - lo
  {
    if hi == lo then None
    else if s[hi - 1] != '\n' then Some(s[hi - 1..hi])
    else LastNonBreak(s, lo, hi - 1)
  }

  function PropertyFrom(s: string, marker: string, start: nat): Option<string>
    requires |marker| > 0 && start <= |s|
    decreases |s| - start
  {
    match FindFrom(s, marker, start)
    case None => None
    case Some(k) =>
      match ValueAfter(s, k + |marker|)
      case Some(v) => Some(v)
      case None => PropertyFrom(s, marker, k + 1)
  }

  /** `re.search(marker + r'\s*(.+?)(?:\n|$)', s).group(1)`, None when there is no match. */
  function PropertyValue(s: string, marker: string): Option<string>
    requires |marker| > 0
  {
    PropertyFrom(s, marker, 0)
  }

  /** The end of a match of `\s*<[^>]+>\s*` at the start of `s`. */
  function TagMatch(s: string): (r: Option<nat>)
    ensures r.Some? ==> 0 < r.value <= |s|
  {
    var w := SkipSpace(s, 0);
    if w < |s| && s[w] == '<' then
      var k := Until(s, w + 1, '>');
      if w + 1 < k < |s| then Some(SkipSpace(s, k + 1)) else None
    else None
  }

  /** `re.sub(r'\s*<[^>]+>\s*', '', s)`: e-mail addresses in angle brackets go, with the blanks around them. */
  function RemoveTags(s: string): (r: string)
    ensures |r| <= |s|
    decreases |s|
  {
    if |s| == 0 then ""
    else match TagMatch(s)
      case Some(e) => RemoveTags(s[e..])
      case None => [s[0]] + RemoveTags(s[1..])
  }

  /** A name without angle brackets is left alone. */
  lemma {:induction false} RemoveTagsPlain(s: string)
    requires '<' !in s
    ensures RemoveTags(s) == s
    decreases |s|
  {
    if |s| > 0 {
      var w := SkipSpace(s, 0);
      assert w < |s| ==> s[w] != '<';
      assert '<' !in s[1..];
      RemoveTagsPlain(s[1..]);
    }
  }

  /** No tag starts before a name without `<` that ends in a non-blank character. */
  lemma NoTagBeforeName(n: string, t: string)
    requires |n| > 0 && '<' !in n && n[|n| - 1] !in Whitespace
    ensures TagMatch(n + t).None?
  {
    var s := n + t;
    var w := SkipSpace(s, 0);
    assert s[|n| - 1] == n[|n| - 1];
    SkipSpaceBefore(s, 0, |n| - 1);
    assert s[w] == n[w];
  }

  /** Where no tag starts, the first character is kept. */
  lemma RemoveTagsKeeps(s: string)
    requires |s| > 0 && TagMatch(s).None?
    ensures RemoveTags(s) == [s[0]] + RemoveTags(s[1..])
  {
  }

  /** What follows the first character of such a name is again such a name. */
  lemma NameTail(n: string)
    requires |n| > 0 && '<' !in n && n[|n| - 1] !in Whitespace
    ensures '<' !in n[1..] && (n[1..] == "" || n[1..][|n[1..]| - 1] !in Whitespace)
  {
    var m := n[1..];
    assert n == [n[0]] + m;
    if m != "" {
      assert m[|m| - 1] == n[|n| - 1];
    }
  }

  /** The first character of such a name is kept. */
  lemma RemoveTagsNameStep(n: string, t: string)
    requires |n| > 0 && '<' !in n && n[|n| - 1] !in Whitespace
    ensures RemoveTags(n + t) == [n[0]] + RemoveTags(n[1..] + t)
  {
    var s := n + t;
    NoTagBeforeName(n, t);
    RemoveTagsKeeps(s);
    assert s[0] == n[0] && s[1..] == n[1..] + t;
  }

  /** Scanning a name that ends in a non-blank character without `<` leaves it whole before what follows. */
  lemma {:induction false} RemoveTagsAfterName(n: string, t: string)
    requires '<' !in n && (n == "" || n[|n| - 1] !in Whitespace)
    ensures RemoveTags(n + t) == n + RemoveTags(t)
    decreases |n|
  {
    if |n| == 0 {
      assert n + t == t;
    } else {
      var m, r := n[1..], RemoveTags(t);
      RemoveTagsNameStep(n, t);
      NameTail(n);
      RemoveTagsAfterName(m, t);
      assert n == [n[0]] + m;
      ConsAppend(n[0], m, r);
    }
  }

  lemma ConsAppend(c: char, m: string, r: string)
    ensures [c] + (m + r) == ([c] + m) + r
  {
  }

  /** A lone ` <address>` goes entirely. */
  lemma RemoveTagsAddress(address: string)
    requires address != "" && '>' !in address
    ensures RemoveTags(" <" + address + ">") == ""
  {
    var t := " <" + address + ">";
    assert t[0] == ' ' && t[1] == '<';
    assert SkipSpace(t, 1) == 1;
    assert SkipSpace(t, 0) == 1;
    assert t[2..|t| - 1] == address && t[|t| - 1] == '>';
    UntilAt(t, 2, |t| - 1, '>');
    assert SkipSpace(t, |t|) == |t|;
    assert TagMatch(t) == Some(|t|);
    assert t[|t|..] == "";
  }

  /** `Name <address>`: the address in angle brackets and the blank before it go, the name stays. */
  lemma RemoveTagsDropsAddress(n: string, address: string)
    requires '<' !in n && (n == "" || n[|n| - 1] !in Whitespace)
    requires address != "" && '>' !in address
    ensures RemoveTags(n + " <" + address + ">") == n
  {
    var t := " <" + address + ">";
    assert n + " <" + address + ">" == n + t by {
      Regroup(n, " <", address, ">");
    }
    assert RemoveTags(n + t) == n + RemoveTags(t) by {
      RemoveTagsAfterName(n, t);
    }
    RemoveTagsAddress(address);
    assert n + "" == n;
  }

  /** One participant as the original cleans it: stripped, e-mails removed, stripped again. */
  function CleanName(part: string): (name: string)
    ensures Strip(name) == name
  {
    TrimIdempotent(RemoveTags(Strip(part)), Whitespace);
    Strip(RemoveTags(Strip(part)))
  }

  /** The participant names of a comma-separated list: the cleaned parts, empty names dropped. */
  function CleanNames(parts: seq<string>): (names: seq<string>)
    ensures |names| <= |parts|
    ensures forall i :: 0 <= i < |names| ==> names[i] != "" && Strip(names[i]) == names[i]
    decreases |parts|
  {
    if |parts| == 0 then []
    else if CleanName(parts[0]) != "" then [CleanName(parts[0])] + CleanNames(parts[1..])
    else CleanNames(parts[1..])
  }

  /** Cleaning works part by part, so names keep the order of the list. */
  lemma {:induction false} CleanNamesAppend(a: seq<string>, b: seq<string>)
    ensures CleanNames(a + b) == CleanNames(a) + CleanNames(b)
    decreases |a|
  {
    if |a| == 0 {
      assert a + b == b;
    } else {
      assert (a + b)[0] == a[0] && (a + b)[1..] == a[1..] + b;
      CleanNamesAppend(a[1..], b);
    }
  }

  /** A name is listed exactly when it is the non-empty cleaned form of some part. */
  lemma {:induction false} CleanNamesMembers(parts: seq<string>, x: string)
    ensures x in CleanNames(parts) <==> x != "" && exists k :: 0 <= k < |parts| && CleanName(parts[k]) == x
    decreases |parts|
  {
    if |parts| > 0 {
      CleanNamesMembers(parts[1..], x);
      if x != "" && CleanName(parts[0]) != x && exists k :: 0 <= k < |parts| && CleanName(parts[k]) == x {
        var k :| 0 <= k < |parts| && CleanName(parts[k]) == x;
        assert parts[1..][k - 1] == parts[k];
      }
      if exists k :: 0 <= k < |parts[1..]| && CleanName(parts[1..][k]) == x {
        var k :| 0 <= k < |parts[1..]| && CleanName(parts[1..][k]) == x;
        assert parts[k + 1] == parts[1..][k];
      }
    }
  }

  /** `Name <address>` with blanks around cleans to the name. */
  lemma CleanNameOfAddress(n: string, address: string)
    requires n != "" && n[0] !in Whitespace && n[|n| - 1] !in Whitespace && '<' !in n
    requires address != "" && '>' !in address
    ensures CleanName(n + " <" + address + ">") == n
  {
    var p := n + " <" + address + ">";
    assert p[0] == n[0] && p[|p| - 1] == '>';
    TrimNoEdges(p, Whitespace);
    RemoveTagsDropsAddress(n, address);
    TrimNoEdges(n, Whitespace);
  }

  function CalendarParticipants(body: string): (names: seq<string>)
    ensures forall i :: 0 <= i < |names| ==> names[i] != "" && Strip(names[i]) == names[i]
  {
    match PropertyValue(body, ":PARTICIPANTS:")
    case None => []
    case Some(v) => CleanNames(Split(v, ','))
  }

  const VideoCamera: char := '\U{1F4F9}'

  /** A match of `\[\[(https://[^\]]+)\]\[<camera>[^\]]*\]\]` at the start of `s`: the URL and the match end. */
  function LinkMatch(s: string): (r: Option<(string, nat)>)
    ensures r.Some? ==> 0 < r.value.1 <= |s| && StartsWith(r.value.0, "https://") && ']' !in r.value.0
  {
    if StartsWith(s, "[[https://") then
      var e := Until(s, 2, ']');
      if e > 10 && e + 3 <= |s| && s[e..e + 3] == "][" + [VideoCamera] then
        var f := Until(s, e + 3, ']');
        if f + 2 <= |s| && s[f..f + 2] == "]]" then
          assert s[2..10] == s[..10][2..];
          assert s[2..e][..8] == s[2..10];
          Some((s[2..e], f + 2))
        else None
      else None
    else None
  }

  /** Every video-call link of an entry body, in order (`finditer`). */
  function MeetingLinks(s: string): (links: seq<string>)
    ensures forall i :: 0 <= i < |links| ==> StartsWith(links[i], "https://") && ']' !in links[i]
    decreases |s|
  {
    if |s| == 0 then []
    else match LinkMatch(s)
      case Some(m) => [m.0] + MeetingLinks(s[m.1..])
      case None => MeetingLinks(s[1..])
  }

  /** A video-call link as the calendar export writes it: `[[url][<camera>caption]]`. */
  function LinkText(url: string, caption: string): string
  {
    "[[" + url + "][" + [VideoCamera] + caption + "]]"
  }

  lemma NoLinkWithoutBracket(s: string)
    requires |s| > 0 && s[0] != '['
    ensures LinkMatch(s).None?
  {
    assert !StartsWith(s, "[[https://") by {
      if |s| >= 10 { assert s[..10][0] == s[0]; }
    }
  }

  /** Text without `[` holds no link and hides none that follows. */
  lemma {:induction false} MeetingLinksSkip(pre: string, post: string)
    requires '[' !in pre
    ensures MeetingLinks(pre + post) == MeetingLinks(post)
    decreases |pre|
  {
    if |pre| == 0 {
      assert pre + post == post;
    } else {
      var s := pre + post;
      assert s[0] == pre[0];
      NoLinkWithoutBracket(s);
      assert MeetingLinks(s) == MeetingLinks(s[1..]);
      assert s[1..] == pre[1..] + post;
      assert '[' !in pre[1..];
      MeetingLinksSkip(pre[1..], post);
    }
  }

  /** A well-formed link at the start is found with its URL, and the search goes on after it. */
  lemma MeetingLinksLink(url: string, caption: string, post: string)
    requires StartsWith(url, "https://") && |url| > 8 && ']' !in url && ']' !in caption
    ensures MeetingLinks(LinkText(url, caption) + post) == [url] + MeetingLinks(post)
  {
    var s := LinkText(url, caption) + post;
    LinkMatchText(url, caption, post);
    assert s[|LinkText(url, caption)|..] == post;
  }

  /** The link pattern matches a whole link and reads its URL. */
  lemma LinkMatchText(url: string, caption: string, post: string)
    requires StartsWith(url, "https://") && |url| > 8 && ']' !in url && ']' !in caption
    ensures LinkMatch(LinkText(url, caption) + post) == Some((url, |LinkText(url, caption)|))
  {
    var t := LinkText(url, caption);
    var s := t + post;
    var e := 2 + |url|;
    var f := e + 3 + |caption|;
    LinkTextParts(url, caption);
    SliceOfPrefix(t, post, 0, 10);
    SliceOfPrefix(t, post, 2, e);
    SliceOfPrefix(t, post, e, e + 3);
    SliceOfPrefix(t, post, e + 3, f);
    SliceOfPrefix(t, post, f, f + 2);
    assert s[e] == s[e..e + 3][0];
    assert s[f] == s[f..f + 2][0];
    UntilAt(s, 2, e, ']');
    UntilAt(s, e + 3, f, ']');
  }

  /** Where the URL, the caption and the brackets of a link sit. */
  lemma LinkTextParts(url: string, caption: string)
    requires StartsWith(url, "https://") && |url| > 8
    ensures var t, e := LinkText(url, caption), 2 + |url|;
            |t| == e + 5 + |caption| && t[..10] == "[[https://" && t[2..e] == url &&
            t[e..e + 3] == "][" + [VideoCamera] && t[e + 3..e + 3 + |caption|] == caption &&
            t[e + 3 + |caption|..e + 5 + |caption|] == "]]"
  {
    assert url[..8] == "https://";
  }

  lemma SliceOfPrefix(t: string, u: string, i: nat, j: nat)
    requires i <= j <= |t|
    ensures (t + u)[i..j] == t[i..j]
  {
  }

  /** `re.search(r':LOCATION:\s*(.+?)(?:\n|$)', body).group(1).strip()`, None without a match. */
  function Location(body: string): Option<string>
  {
    match PropertyValue(body, ":LOCATION:") case None => None case Some(v) => Some(Strip(v))
  }

  function MakeEntry(h: Heading, body: string): Entry
  {
    Entry(h.title, h.date, h.startTime, h.endTime, CalendarParticipants(body), Location(body), MeetingLinks(body), body)
  }

  predicate WellFormedEntry(e: Entry)
  {
    WellFormedHeading(Heading(e.title, e.date, e.startTime, e.endTime)) &&
    (forall i :: 0 <= i < |e.participants| ==> e.participants[i] != "" && Strip(e.participants[i]) == e.participants[i])
  }

  /** The stripped body is kept, and participants, location and links are all read from it. */
  predicate ReadFromBody(e: Entry)
  {
    Strip(e.body) == e.body &&
    e.participants == CalendarParticipants(e.body) && e.location == Location(e.body) &&
    e.meetingLinks == MeetingLinks(e.body)
  }

  /** An entry made from a well-formed heading and a stripped body is well formed and read from that body. */
  lemma EntryFromBody(h: Heading, text: string)
    requires WellFormedHeading(h)
    ensures WellFormedEntry(MakeEntry(h, Strip(text))) && ReadFromBody(MakeEntry(h, Strip(text)))
  {
    TrimIdempotent(text, Whitespace);
  }

  /**
   * The entries whose heading is at line `i` or later. The body of an entry
   * runs from the line after its heading up to the next line starting with
   * `* `, and is stripped.
   */
  function EntriesFrom(lines: seq<string>, i: nat): (es: seq<Entry>)
    requires i <= |lines|
    ensures forall k :: 0 <= k < |es| ==> WellFormedEntry(es[k]) && ReadFromBody(es[k])
    decreases |lines| - i
  {
    if i == |lines| then []
    else
      var h := ParseHeading(lines[i]);
      if h.Some? && i + 1 < |lines| then
        var j := NextHeadingLine(lines, i + 1);
        var body := Strip(Join(lines[i + 1..j], '\n'));
        EntryFromBody(h.value, Join(lines[i + 1..j], '\n'));
        [MakeEntry(h.value, body)] + EntriesFrom(lines, j)
      else EntriesFrom(lines, i + 1)
  }

  /**
   * `parse_calendar_org` on the file's text. Every entry has either both a
   * start and an end time or neither, its participant names are non-empty
   * and stripped, its body is stripped, and its participants, location and
   * links are the ones its body holds.
   */
  function ParseCalendar(content: string): (es: seq<Entry>)
    ensures forall k :: 0 <= k < |es| ==> WellFormedEntry(es[k]) && ReadFromBody(es[k])
  {
    EntriesFrom(Split(content, '\n'), 0)
  }

  /** The heading line of a timed event as the calendar export writes it. */
  function TimedHeadingLine(title: string, date: string, day: string, from: string, to: string): string
  {
    "* " + title + " <" + date + " " + day + " " + from + "-" + to + ">"
  }

  predicate PlainTitle(title: string)
  {
    |title| > 0 && forall k :: 0 <= k < |title| ==> !IsSpace(title[k]) && title[k] != '\n'
  }

  /** A timed heading line is read back as its title, date and time range. */
  lemma ParseTimedHeading(title: string, date: string, day: string, from: string, to: string)
    requires PlainTitle(title) && TimedStamp(date, day, from, to)
    ensures ParseHeading(TimedHeadingLine(title, date, day, from, to)) == Some(Heading(title, date, Some(from), Some(to)))
  {
    var t := "<" + date + " " + day + " " + from + "-" + to + ">";
    assert TimedHeadingLine(title, date, day, from, to) == "* " + title + " " + t;
    StampCloseTimed(date, day, from, to);
    TitledLine(title, t, (date, Some(from), Some(to)));
  }

  /** A plain title followed by a space and a stamp that closes the line is a heading with that title. */
  lemma TitledLine(title: string, t: string, stamp: (string, Option<string>, Option<string>))
    requires PlainTitle(title) && StampClose(t) == Some(stamp)
    ensures ParseHeading("* " + title + " " + t) == Some(Heading(title, stamp.0, stamp.1, stamp.2))
  {
    var line, j := "* " + title + " " + t, |title| + 2;
    TitleThenStamp(title, t);
    HeadingFromSkips(line, 3, j);
    TrimNoEdges(title, Whitespace);
    HeadingAt(line, j, title, stamp);
  }

  /** Where a space and a closing stamp follow the title, the heading is found. */
  lemma HeadingAt(line: string, j: nat, title: string, stamp: (string, Option<string>, Option<string>))
    requires 3 <= j && j + 1 < |line| && line[j] == ' '
    requires StampClose(line[j + 1..]) == Some(stamp) && Strip(line[2..j]) == title
    ensures HeadingFrom(line, j) == Some(Heading(title, stamp.0, stamp.1, stamp.2))
  {
  }

  /** In `* <title> <t>` the title sits at 2 and is followed by a space and `t`, with no space inside it. */
  lemma TitleThenStamp(title: string, t: string)
    requires PlainTitle(title)
    ensures var line, j := "* " + title + " " + t, |title| + 2;
            j < |line| && line[2..j] == title && line[j] == ' ' && line[j + 1..] == t &&
            forall k :: 3 <= k < j ==> line[k] != ' '
  {
    var line, j := "* " + title + " " + t, |title| + 2;
    assert line[2..j] == title;
    assert line[j + 1..] == t;
    forall k | 3 <= k < j
      ensures line[k] != ' '
    {
      assert line[k] == title[k - 2];
    }
  }

  lemma StampCloseTimed(date: string, day: string, from: string, to: string)
    requires TimedStamp(date, day, from, to)
    ensures StampClose("<" + date + " " + day + " " + from + "-" + to + ">") == Some((date, Some(from), Some(to)))
  {
    TimedAngle(date, day, from, to);
  }

  /** Where the pieces of `<date day from-to>` sit. */
  lemma TimedAngle(date: string, day: string, from: string, to: string)
    requires TimedStamp(date, day, from, to)
    ensures var t := "<" + date + " " + day + " " + from + "-" + to + ">";
            |t| == 28 && t[0] == '<' && t[11] == ' ' && t[15] == ' ' && t[21] == '-' && t[27] == '>' &&
            t[1..11] == date && t[12..15] == day && t[16..21] == from && t[22..27] == to && t[28..] == []
  {
    var t := "<" + date + " " + day + " " + from + "-" + to + ">";
    assert t[1..11] == date;
    assert t[12..15] == day;
    assert t[16..21] == from;
    assert t[22..27] == to;
  }

  lemma HeadingFromSkips(line: string, i: nat, j: nat)
    requires 3 <= i <= j < |line|
    requires forall k :: i <= k < j ==> line[k] != ' '
    ensures HeadingFrom(line, i) == HeadingFrom(line, j)
    decreases j - i
  {
    if i < j {
      HeadingFromSkips(line, i + 1, j);
    }
  }

  lemma SplitTwoLines(a: string, b: string)
    requires '\n' !in a && '\n' !in b
    ensures Split(a + "\n" + b, '\n') == [a, b]
  {
    var s := a + "\n" + b;
    assert s[..|a|] == a;
    assert IndexOf(s, '\n') == Some(|a|);
    assert s[|a| + 1..] == b;
  }

  lemma EntriesOfTwoLines(line: string, body: string, h: Heading)
    requires ParseHeading(line) == Some(h) && !StartsWith(body, "* ")
    ensures EntriesFrom([line, body], 0) == [MakeEntry(h, Strip(body))]
  {
    var lines := [line, body];
    assert NextHeadingLine(lines, 1) == 2;
    assert lines[1..2] == [body];
    assert Join([body], '\n') == body;
  }

  lemma TimedHeadingOneLine(title: string, date: string, day: string, from: string, to: string)
    requires PlainTitle(title) && TimedStamp(date, day, from, to)
    ensures '\n' !in TimedHeadingLine(title, date, day, from, to)
  {
    var line := TimedHeadingLine(title, date, day, from, to);
    forall k | 0 <= k < |line|
      ensures line[k] != '\n'
    {
      if 2 <= k < |title| + 2 {
        assert line[k] == title[k - 2];
      }
    }
  }

  /** A timed heading followed by one body line gives exactly one timed entry. */
  lemma ParseTimedEntry(title: string, date: string, day: string, from: string, to: string, body: string)
    requires PlainTitle(title) && TimedStamp(date, day, from, to)
    requires '\n' !in body && !StartsWith(body, "* ")
    ensures ParseCalendar(TimedHeadingLine(title, date, day, from, to) + "\n" + body)
         == [MakeEntry(Heading(title, date, Some(from), Some(to)), Strip(body))]
  {
    var line := TimedHeadingLine(title, date, day, from, to);
    TimedHeadingOneLine(title, date, day, from, to);
    SplitTwoLines(line, body);
    ParseTimedHeading(title, date, day, from, to);
    EntriesOfTwoLines(line, body, Heading(title, date, Some(from), Some(to)));
  }

  /** A link on one line is a stripped body that is not a heading. */
  lemma LinkBody(url: string, caption: string)
    requires '\n' !in url && '\n' !in caption
    ensures var body := LinkText(url, caption);
            '\n' !in body && !StartsWith(body, "* ") && Strip(body) == body
  {
    var body := LinkText(url, caption);
    assert body[0] == '[' && body[|body| - 1] == ']';
    forall k | 0 <= k < |body| ensures body[k] != '\n' {
      if 2 <= k < 2 + |url| { assert body[k] == url[k - 2]; }
      if 5 + |url| <= k < 5 + |url| + |caption| { assert body[k] == caption[k - 5 - |url|]; }
    }
    TrimNoEdges(body, Whitespace);
  }

  /** A timed entry whose body is one video-call link has that link, and only it. */
  lemma TimedEntryLink(title: string, date: string, day: string, from: string, to: string, url: string, caption: string)
    requires PlainTitle(title) && TimedStamp(date, day, from, to)
    requires StartsWith(url, "https://") && |url| > 8 && ']' !in url && ']' !in caption
    requires '\n' !in url && '\n' !in caption
    ensures var es := ParseCalendar(TimedHeadingLine(title, date, day, from, to) + "\n" + LinkText(url, caption));
            |es| == 1 && es[0].meetingLinks == [url] && es[0].startTime == Some(from) && es[0].endTime == Some(to)
  {
    var body := LinkText(url, caption);
    LinkBody(url, caption);
    ParseTimedEntry(title, date, day, from, to, body);
    MeetingLinksLink(url, caption, "");
    assert body + "" == body;
    assert MeetingLinks("") == [];
    assert MakeEntry(Heading(title, date, Some(from), Some(to)), body).meetingLinks == [url];
  }

  /* ---------------------------------------------------------------- */
  /* One day's entries and their rendering                            */
  /* ---------------------------------------------------------------- */

  /** `filter_calendar_by_date`: the entries of `date`, in their original order. */
  function FilterByDate(entries: seq<Entry>, date: string): (r: seq<Entry>)
    ensures |r| <= |entries|
    ensures forall k :: 0 <= k < |r| ==> r[k].date == date
    decreases |entries|
  {
    if |entries| == 0 then []
    else (if entries[0].date == date then [entries[0]] else []) + FilterByDate(entries[1..], date)
  }

  /** Filtering distributes over concatenation, so the kept entries keep their order. */
  lemma {:induction false} FilterByDateAppend(a: seq<Entry>, b: seq<Entry>, date: string)
    ensures FilterByDate(a + b, date) == FilterByDate(a, date) + FilterByDate(b, date)
    decreases |a|
  {
    if |a| == 0 {
      assert a + b == b;
    } else {
      assert (a + b)[1..] == a[1..] + b;
      FilterByDateAppend(a[1..], b, date);
    }
  }

  /** An entry is kept exactly when its date is the target date. */
  lemma {:induction false} FilterByDateKeeps(entries: seq<Entry>, date: string, e: Entry)
    ensures e in FilterByDate(entries, date) <==> e in entries && e.date == date
    decreases |entries|
  {
    if |entries| > 0 {
      FilterByDateKeeps(entries[1..], date, e);
      assert entries == [entries[0]] + entries[1..];
    }
  }

  /** `time_str`: the time range, or `all-day` when there is no (or an empty) start time. */
  function TimeText(e: Entry): string
  {
    if e.startTime.Some? && e.startTime.value != "" then
      e.startTime.value + "-" + (if e.endTime.Some? then e.endTime.value else "None")
    else "all-day"
  }

  function ParticipantsText(e: Entry): string
  {
    if |e.participants| == 0 then "unknown" else JoinWith(e.participants, ", ")
  }

  /** The prompt lines of entry number `n`: heading, participants, first meeting link if any, blank line. */
  function EntryLines(e: Entry, n: nat): seq<string>
  {
    [DecimalString(n) + ". [" + TimeText(e) + "] " + e.title,
     "   Participants: " + ParticipantsText(e)] +
    (if |e.meetingLinks| > 0 then ["   Meeting link: " + e.meetingLinks[0]] else []) +
    [""]
  }

  /** The lines of `entries`, numbered from `n` on. */
  function Lines(entries: seq<Entry>, n: nat): seq<string>
  {
    Numbered(EntryLines, entries, n)
  }

  /** Each entry rendered with its number, the numbers counting up from `n`. */
  function Numbered(render: (Entry, nat) -> seq<string>, entries: seq<Entry>, n: nat): seq<string>
    decreases |entries|
  {
    if |entries| == 0 then [] else render(entries[0], n) + Numbered(render, entries[1..], n + 1)
  }

  /** Rendering a concatenation renders the second part numbered on from where the first stops. */
  lemma {:induction false} NumberedAppend(render: (Entry, nat) -> seq<string>, a: seq<Entry>, b: seq<Entry>, n: nat)
    ensures Numbered(render, a + b, n) == Numbered(render, a, n) + Numbered(render, b, n + |a|)
    decreases |a|
  {
    if |a| == 0 {
      assert a + b == b;
    } else {
      assert (a + b)[0] == a[0];
      assert (a + b)[1..] == a[1..] + b;
      NumberedAppend(render, a[1..], b, n + 1);
    }
  }

  lemma LinesAppend(a: seq<Entry>, b: seq<Entry>, n: nat)
    ensures Lines(a + b, n) == Lines(a, n) + Lines(b, n + |a|)
  {
    NumberedAppend(EntryLines, a, b, n);
  }

  /** Entry `k` (from 0) is rendered as number `k + 1`, between the entries before and after it. */
  lemma EntryNumbered(entries: seq<Entry>, k: nat)
    requires k < |entries|
    ensures Lines(entries, 1) == Lines(entries[..k], 1) + EntryLines(entries[k], k + 1) + Lines(entries[k + 1..], k + 2)
  {
    assert entries == entries[..k] + entries[k..];
    LinesAppend(entries[..k], entries[k..], 1);
    assert entries[k..][1..] == entries[k + 1..];
  }

  /** `format_calendar_for_prompt` of `calendar_enrich.py`. */
  function FormatCalendar(entries: seq<Entry>): (text: string)
  {
    if |entries| == 0 then "No calendar entries for this date." else Join(Lines(entries, 1), '\n')
  }

  /** A non-empty list renders starting with entry number 1, never as the empty-list message. */
  lemma FormatCalendarStartsAtOne(entries: seq<Entry>)
    requires |entries| > 0
    ensures StartsWith(FormatCalendar(entries), "1. [")
  {
    var lines := Lines(entries, 1);
    FirstLine(entries);
    JoinStartsWithFirst(lines, '\n');
    assert lines[0][..4] == "1. [";
  }

  /** The first line rendered is entry number 1's heading. */
  lemma FirstLine(entries: seq<Entry>)
    requires |entries| > 0
    ensures |Lines(entries, 1)| > 0 && Lines(entries, 1)[0] == "1. [" + TimeText(entries[0]) + "] " + entries[0].title
  {
    assert DecimalString(1) == "1";
    var head := EntryLines(entries[0], 1);
    assert head[0] == "1. [" + TimeText(entries[0]) + "] " + entries[0].title;
    assert Lines(entries, 1) == head + Lines(entries[1..], 2);
  }

  /* ---------------------------------------------------------------- */
  /* Note metadata                                                    */
  /* ---------------------------------------------------------------- */

  /** The metadata `parse_notes_org` reads from a note. */
  datatype Notes = Notes(
    title: Option<string>,
    timestamp: Option<string>,
    date: Option<string>,
    time: Option<string>,
    participants: seq<string>,
    slug: Option<string>,
    topic: Option<string>,
    content: string)

  /** The lazy title of `** Title :note:`: the first `k` after which blanks lead to `:note:`. */
  function NoteTitleFrom(line: string, k: nat): Option<string>
    requires 4 <= k <= |line|
    decreases |line| - k
  {
    if k == |line| then None
    else if IsSpace(line[k]) && StartsWith(line[SkipSpace(line, k)..], ":note:") then Some(Strip(line[3..k]))
    else NoteTitleFrom(line, k + 1)
  }

  function NoteTitleIn(lines: seq<string>): Option<string>
    decreases |lines|
  {
    if |lines| == 0 then None
    else
      var line := lines[0];
      var t := if |line| >= 4 && StartsWith(line, "** ") then NoteTitleFrom(line, 4) else None;
      if t.Some? then t else NoteTitleIn(lines[1..])
  }

  /** A bracketed timestamp found in a note: its full text, its date and its optional time. */
  datatype Stamp = Stamp(text: string, date: string, time: Option<string>)

  /** `(?:\s+(\d{2}:\d{2}))?\]` at `r`, for the stamp that opened at `i`. */
  function StampTail(s: string, i: nat, date: string, r: nat): (st: Option<Stamp>)
    requires i < r <= |s|
    ensures st.Some? ==> st.value.date == date && StartsWith(s[i..], st.value.text)
    ensures st.Some? && st.value.time.Some? ==> IsClock(st.value.time.value)
  {
    var t := SkipSpace(s, r);
    if t > r && ClockAt(s, t) && t + 5 < |s| && s[t + 5] == ']' then
      Some(Stamp(s[i..t + 6], date, Some(s[t..t + 5])))
    else if r < |s| && s[r] == ']' then
      Some(Stamp(s[i..r + 1], date, None))
    else None
  }

  /**
   * `\[(\d{4}-\d{2}-\d{2})(?:\s+\w{3})?(?:\s+(\d{2}:\d{2}))?\]` matched at `i`:
   * the weekday is tried before the form without it.
   */
  function StampAt(s: string, i: nat): (st: Option<Stamp>)
    requires i <= |s|
    ensures st.Some? ==> IsDate(st.value.date) && StartsWith(s[i..], st.value.text)
    ensures st.Some? && st.value.time.Some? ==> IsClock(st.value.time.value)
  {
    if i < |s| && s[i] == '[' && DateAt(s, i + 1) then
      var p := i + 11;
      var date := s[i + 1..p];
      var q := SkipSpace(s, p);
      var withDay := if q > p && WordAt(s, q) then StampTail(s, i, date, q + 3) else None;
      if withDay.Some? then withDay else StampTail(s, i, date, p)
    else None
  }

  function FindStamp(s: string, i: nat): (st: Option<Stamp>)
    requires i <= |s|
    ensures st.Some? ==> IsDate(st.value.date) && Contains(s, st.value.text)
    ensures st.Some? && st.value.time.Some? ==> IsClock(st.value.time.value)
    decreases |s| - i
  {
    if i == |s| then None
    else match StampAt(s, i)
      case Some(st) =>
        assert OccursAt(s, st.text, i) by { assert s[i..][..|st.text|] == s[i..i + |st.text|]; }
        Some(st)
      case None => FindStamp(s, i + 1)
  }

  /** The date of a stamp, its weekday and its time, as a note writes them. */
  lemma StampForms(date: string, day: string, time: string)
    requires IsDate(date) && |day| == 3 && WordAt(day, 0) && IsClock(time)
    ensures StampAt("[" + date + "]", 0) == Some(Stamp("[" + date + "]", date, None))
    ensures StampAt("[" + date + " " + day + "]", 0) == Some(Stamp("[" + date + " " + day + "]", date, None))
    ensures StampAt("[" + date + " " + day + " " + time + "]", 0)
         == Some(Stamp("[" + date + " " + day + " " + time + "]", date, Some(time)))
  {
    StampDateOnly(date);
    StampWithDay(date, day);
    StampWithTime(date, day, time);
  }

  lemma StampDateOnly(date: string)
    requires IsDate(date)
    ensures StampAt("[" + date + "]", 0) == Some(Stamp("[" + date + "]", date, None))
  {
    var s1 := "[" + date + "]";
    assert s1[1..11] == date;
    assert SkipSpace(s1, 11) == 11;
    assert s1[0..12] == s1;
  }

  lemma StampWithDay(date: string, day: string)
    requires IsDate(date) && |day| == 3 && WordAt(day, 0)
    ensures StampAt("[" + date + " " + day + "]", 0) == Some(Stamp("[" + date + " " + day + "]", date, None))
  {
    var s2 := "[" + date + " " + day + "]";
    assert s2[1..11] == date;
    WordCharNotSpace(s2[12]);
    assert SkipSpace(s2, 11) == 12;
    assert s2[12..15] == day;
    assert SkipSpace(s2, 15) == 15;
    assert s2[0..16] == s2;
  }

  lemma StampWithTime(date: string, day: string, time: string)
    requires IsDate(date) && |day| == 3 && WordAt(day, 0) && IsClock(time)
    ensures StampAt("[" + date + " " + day + " " + time + "]", 0)
         == Some(Stamp("[" + date + " " + day + " " + time + "]", date, Some(time)))
  {
    var s3 := "[" + date + " " + day + " " + time + "]";
    TimedBracket(date, day, time);
    assert StampTail(s3, 0, date, 15) == Some(Stamp(s3, date, Some(time)));
  }

  /** Where the pieces of `[date day time]` sit. */
  lemma TimedBracket(date: string, day: string, time: string)
    requires IsDate(date) && |day| == 3 && WordAt(day, 0) && IsClock(time)
    ensures var s3 := "[" + date + " " + day + " " + time + "]";
            |s3| == 22 && s3[0] == '[' && DateAt(s3, 1) && s3[1..11] == date &&
            SkipSpace(s3, 11) == 12 && WordAt(s3, 12) && SkipSpace(s3, 15) == 16 &&
            ClockAt(s3, 16) && s3[16..21] == time && s3[21] == ']' && s3[0..22] == s3
  {
    var s3 := "[" + date + " " + day + " " + time + "]";
    assert s3[1..11] == date;
    assert s3[12..15] == day;
    assert s3[16..21] == time;
    WordCharNotSpace(s3[12]);
    WordCharNotSpace(s3[16]);
  }

  function MapStrip(parts: seq<string>): (r: seq<string>)
    ensures |r| == |parts|
    ensures forall k :: 0 <= k < |r| ==> r[k] == Strip(parts[k])
    decreases |parts|
  {
    if |parts| == 0 then [] else [Strip(parts[0])] + MapStrip(parts[1..])
  }

  function StrippedValue(s: string, marker: string): Option<string>
    requires |marker| > 0
  {
    match PropertyValue(s, marker) case None => None case Some(v) => Some(Strip(v))
  }

  /** The metadata of a note, given the timestamp found in it. */
  function NotesFrom(content: string, st: Option<Stamp>): (n: Notes)
    requires st.Some? ==> IsDate(st.value.date) && Contains(content, st.value.text)
    requires st.Some? && st.value.time.Some? ==> IsClock(st.value.time.value)
    ensures n.content == content
    ensures n.date.Some? <==> n.timestamp.Some?
    ensures n.date.Some? ==> IsDate(n.date.value) && Contains(content, n.timestamp.value)
    ensures n.time.Some? ==> n.date.Some? && IsClock(n.time.value)
  {
    Notes(
      NoteTitleIn(Split(content, '\n')),
      if st.Some? then Some(st.value.text) else None,
      if st.Some? then Some(st.value.date) else None,
      if st.Some? then st.value.time else None,
      match PropertyValue(content, ":PARTICIPANTS:") case None => [] case Some(v) => MapStrip(Split(v, ',')),
      StrippedValue(content, ":SLUG:"),
      StrippedValue(content, ":TOPIC:"),
      content)
  }

  /** `parse_notes_org` on a note's text: the first timestamp of any of the three forms. */
  function ParseNotes(content: string): (n: Notes)
    ensures n.date.Some? <==> n.timestamp.Some?
    ensures n.date.Some? ==> IsDate(n.date.value) && Contains(content, n.timestamp.value)
  {
    NotesFrom(content, FindStamp(content, 0))
  }

  /* ---------------------------------------------------------------- */
  /* Rewriting a note                                                 */
  /* ---------------------------------------------------------------- */

  /** `suggested_slug`: missing from the reply, JSON null, or a string. */
  datatype SlugSuggestion = Unset | Null | Suggested(slug: string)

  /**
   * The model's reply. Text fields hold "" when the key is missing, null or
   * empty, which the original treats alike (all falsy).
   */
  datatype MatchResult = MatchResult(
    matched: bool,
    entryNumber: Option<int>,
    calendarTitle: string,
    calendarTime: string,
    meetingLink: string,
    suggestedTitle: string,
    suggestedSlug: SlugSuggestion)

  datatype Change = TitleChanged | SlugChanged | AddedCalendarMatch | AddedCalendarTime | AddedMeetingLink | TimestampChanged

  /** A slug change reported to the caller. */
  datatype Rename = Rename(oldSlug: Option<string>, newSlug: Option<string>)

  datatype Enrichment =
    | Unmatched
      /** An exception escapes: an entry number off the list, or a title to replace on a note without one. */
    | Raised
    | Enriched(content: string, changes: seq<Change>, written: Option<string>, renamed: Option<Rename>)

  /** The end of `(\*\* )<title>(\s+:note:)` matched at the start of `s`. */
  function TitleMatch(s: string, title: string): (r: Option<nat>)
    ensures r.Some? ==> 3 + |title| < r.value <= |s|
  {
    var h := "** " + title;
    if StartsWith(s, h) then
      var w := SkipSpace(s, |h|);
      if w > |h| && StartsWith(s[w..], ":note:") then Some(w + 6) else None
    else None
  }

  /** `re.sub(rf'(\*\* ){re.escape(title)}(\s+:note:)', rf'\1{suggested}\2', s)`. */
  function SubTitle(s: string, title: string, suggested: string): string
    decreases |s|
  {
    if |s| == 0 then ""
    else match TitleMatch(s, title)
      case Some(e) => "** " + suggested + s[3 + |title|..e] + SubTitle(s[e..], title, suggested)
      case None => [s[0]] + SubTitle(s[1..], title, suggested)
  }

  /** The groups of a title match ending at `e`: the whole match, `** `, and the blanks with `:note:`. */
  function TitleGroups(s: string, title: string, e: nat): (g: seq<string>)
    requires 3 + |title| < e <= |s|
    ensures |g| == 3 && g[0] == s[..e] && g[2] == s[3 + |title|..e]
  {
    [s[..e], s[..3], s[3 + |title|..e]]
  }

  /** `re.sub(rf'(\*\* ){re.escape(title)}(\s+:note:)', template, s)` for a parsed template. */
  function SubTitleWith(s: string, title: string, ps: seq<Templates.Piece>): string
    requires Templates.GroupsBelow(ps, 2)
    decreases |s|
  {
    if |s| == 0 then ""
    else match TitleMatch(s, title)
      case Some(e) => Templates.Expand(ps, TitleGroups(s, title, e)) + SubTitleWith(s[e..], title, ps)
      case None => [s[0]] + SubTitleWith(s[1..], title, ps)
  }

  /**
   * The same with the template given as text: None where Python raises
   * `re.error` on the template, which it parses before looking for a match.
   */
  function SubTitleTemplate(s: string, title: string, template: string): (r: Option<string>)
    ensures r.None? <==> Templates.Parse(template, 2).None?
  {
    match Templates.Parse(template, 2)
    case None => None
    case Some(ps) => Some(SubTitleWith(s, title, ps))
  }

  /** The template the original builds: `\1`, the suggested title as it stands, `\2`. */
  function TitleTemplate(suggested: string): string { "\\1" + suggested + "\\2" }

  /** A template that puts the title in as it stands: named group references and doubled backslashes. */
  function LiteralTitleTemplate(suggested: string): string
  {
    "\\g<1>" + Templates.EscapeBackslashes(suggested) + "\\g<2>"
  }

  /** Group 1, then `t` itself, then group 2. */
  function AroundPieces(t: string): (ps: seq<Templates.Piece>)
    ensures Templates.GroupsBelow(ps, 2)
  {
    var ps := [Templates.Group(1)] + Templates.Literal(t) + [Templates.Group(2)];
    assert forall k :: 0 <= k < |ps| && ps[k].Group? ==> k == 0 || k == |ps| - 1;
    ps
  }

  lemma ExpandAround(t: string, g: seq<string>)
    requires |g| == 3
    ensures Templates.Expand(AroundPieces(t), g) == g[1] + t + g[2]
  {
    var ps := AroundPieces(t);
    var two := [Templates.Group(2)];
    assert Templates.Expand(two, g) == g[2] by {
      assert two[1..] == [];
      assert Templates.Expand(two, g) == g[2] + Templates.Expand([], g);
    }
    assert Templates.Expand(Templates.Literal(t) + two, g) == t + g[2] by {
      Templates.ExpandLiteral(t, two, g);
    }
    assert ps[0] == Templates.Group(1) && ps[1..] == Templates.Literal(t) + two;
  }

  /** Expanding group 1, the text and group 2 at every title match is the literal substitution. */
  lemma {:induction false} SubTitleWithAround(s: string, title: string, t: string)
    ensures SubTitleWith(s, title, AroundPieces(t)) == SubTitle(s, title, t)
    decreases |s|
  {
    if |s| > 0 {
      match TitleMatch(s, title)
      case Some(e) =>
        assert s[..3] == ("** " + title)[..3];
        ExpandAround(t, TitleGroups(s, title, e));
        SubTitleWithAround(s[e..], title, t);
      case None =>
        SubTitleWithAround(s[1..], title, t);
    }
  }

  /** With named groups and doubled backslashes, any suggested title goes in as it stands, as `SubTitle` has it. */
  lemma LiteralTitleTemplateInserts(s: string, title: string, t: string)
    ensures SubTitleTemplate(s, title, LiteralTitleTemplate(t)) == Some(SubTitle(s, title, t))
  {
    Templates.NamedGroupsAroundEscaped(t);
    assert Templates.Parse(LiteralTitleTemplate(t), 2) == Some(AroundPieces(t));
    SubTitleWithAround(s, title, t);
  }

  /** The template as written agrees with `SubTitle` on a title without backslashes that does not open with a digit. */
  lemma TitleTemplateAgrees(s: string, title: string, t: string)
    requires '\\' !in t && (t == "" || !IsDigit(t[0]))
    ensures SubTitleTemplate(s, title, TitleTemplate(t)) == Some(SubTitle(s, title, t))
  {
    Templates.GroupsAroundPlain(t);
    assert Templates.Parse(TitleTemplate(t), 2) == Some(AroundPieces(t));
    SubTitleWithAround(s, title, t);
  }

  /** As written, a title opening with a digit makes `\1` and that digit one group number, which a two-group pattern lacks: Python raises. */
  lemma TitleTemplateRaises(s: string, title: string)
    ensures SubTitleTemplate(s, title, TitleTemplate("1:1 with Alice")).None?
  {
    var t := TitleTemplate("1:1 with Alice");
    assert t[0] == '\\' && t[1] == '1' && t[2] == '1' && t[3] == ':';
    assert t[1..3] == "11" && "11"[..1] == "1" && "1"[..0] == [];
    assert Templates.Parse(t, 2) == Templates.GroupThen(11, 2, Templates.Parse(t[3..], 2));
  }

  /** As written, a title opening with two octal digits parses as one character from the octal escape `\1` and those digits, the rest of the title, and group 2. */
  lemma OctalTitleParse(a: char, b: char, rest: string)
    requires Templates.IsOctal(a) && Templates.IsOctal(b) && '\\' !in rest
    ensures Templates.Parse(TitleTemplate([a, b] + rest), 2) ==
            Some([Templates.Lit((64 + 8 * (a as int - '0' as int) + (b as int - '0' as int)) as char)] +
                 (Templates.Literal(rest) + [Templates.Group(2)]))
  {
    var t := TitleTemplate([a, b] + rest);
    assert t == ['\\', '1', a, b] + (rest + "\\2");
    assert t[0] == '\\' && t[1] == '1' && t[2] == a && t[3] == b;
    assert t[4..] == rest + "\\2";
    Templates.GroupAlone('2', 2);
    Templates.ParsePlain(rest, "\\2", 2);
    assert Templates.Parse(t[4..], 2) == Some(Templates.Literal(rest) + [Templates.Group(2)]);
    var v := 64 + 8 * (a as int - '0' as int) + (b as int - '0' as int);
    assert Templates.Parse(t, 2) == Templates.Prepend([Templates.Lit(v as char)], Templates.Parse(t[4..], 2));
  }

  /** A heading whose title template expands to `c`, `rest` and group 2 turns into `c`, `rest` and the tags. */
  lemma OctalTitleExpand(title: string, c: char, rest: string)
    ensures var ps := [Templates.Lit(c)] + (Templates.Literal(rest) + [Templates.Group(2)]);
            Templates.GroupsBelow(ps, 2) &&
            SubTitleWith("** " + title + " :note:", title, ps) == [c] + rest + " :note:"
  {
    var ps := [Templates.Lit(c)] + (Templates.Literal(rest) + [Templates.Group(2)]);
    assert forall k :: 0 <= k < |ps| && ps[k].Group? ==> k == |ps| - 1;
    var s := "** " + title + " :note:";
    TitleMatchLine(title, " :note:", "");
    assert s == "** " + title + " :note:" + "";
    var e := |title| + 10;
    var g := TitleGroups(s, title, e);
    assert g[2] == " :note:";
    assert ps[1..] == Templates.Literal(rest) + [Templates.Group(2)];
    Templates.ExpandLiteral(rest, [Templates.Group(2)], g);
    assert Templates.Expand([Templates.Group(2)], g) == " :note:" + Templates.Expand([], g);
    assert s[e..] == "";
  }

  /**
   * As written, a suggested title opening with two octal digits, such as
   * "2026 Planning", makes `\1` and those digits an octal escape: the
   * heading `** <title> :note:` becomes one letter ('P' for "20"), then the
   * rest of the title, losing the `** ` and the two digits, where literal
   * substitution keeps the heading.
   */
  lemma TitleTemplateOctal(title: string, a: char, b: char, rest: string)
    requires Templates.IsOctal(a) && Templates.IsOctal(b) && '\\' !in rest
    ensures var s := "** " + title + " :note:";
            var r := SubTitleTemplate(s, title, TitleTemplate([a, b] + rest));
            r == Some([(64 + 8 * (a as int - '0' as int) + (b as int - '0' as int)) as char] + rest + " :note:") &&
            SubTitle(s, title, [a, b] + rest) == "** " + [a, b] + rest + " :note:" &&
            r.value[0] != '*'
  {
    OctalTitleParse(a, b, rest);
    OctalTitleExpand(title, (64 + 8 * (a as int - '0' as int) + (b as int - '0' as int)) as char, rest);
    SubTitleLine(title, [a, b] + rest);
  }

  /** A lone heading line gets the suggested title in place of the old one. */
  lemma SubTitleLine(title: string, suggested: string)
    ensures SubTitle("** " + title + " :note:", title, suggested) == "** " + suggested + " :note:"
  {
    var s := "** " + title + " :note:";
    TitleMatchLine(title, " :note:", "");
    assert s == "** " + title + " :note:" + "";
    assert s[3 + |title|..|title| + 10] == " :note:";
    assert s[|title| + 10..] == "";
  }

  /** A heading line `** title` + blanks and `:note:` + more: the title match ends after `:note:`. */
  lemma TitleMatchLine(title: string, tags: string, more: string)
    requires tags == " :note:"
    ensures TitleMatch("** " + title + tags + more, title) == Some(|title| + 10)
  {
    var s := "** " + title + tags + more;
    var h := "** " + title;
    assert s[..|h|] == h;
    assert s[|h|] == ' ' && s[|h| + 1] == ':';
    assert s[|h| + 1..][..6] == ":note:";
    SkipSpaceTo(s, |h|, |h| + 1);
  }

  /**
   * The largest `p` in `[lo, hi]` from which `.+?(?=\n)` can match: a
   * character other than a line break with a line break somewhere after
   * it; the match then ends at that line break.
   */
  function SlugValueEnd(s: string, lo: nat, hi: nat): (r: Option<nat>)
    requires lo <= hi <= |s|
    ensures r.Some? ==> lo < r.value < |s|
    decreases hi - lo
  {
    if hi < |s| && s[hi] != '\n' && Until(s, hi, '\n') < |s| then Some(Until(s, hi, '\n'))
    else if hi == lo then None
    else SlugValueEnd(s, lo, hi - 1)
  }

  /** The end of `:SLUG:\s*.+?(?=\n)` matched at the start of `s`: greedy blanks, backtracking into them. */
  function SlugMatch(s: string): (r: Option<nat>)
    ensures r.Some? ==> 6 < r.value <= |s|
  {
    if StartsWith(s, ":SLUG:") then SlugValueEnd(s, 6, SkipSpace(s, 6)) else None
  }

  /** `re.sub(r':SLUG:\s*.+?(?=\n)', f':SLUG: {slug}', s)`. */
  function SubSlug(s: string, slug: string): string
    decreases |s|
  {
    if |s| == 0 then ""
    else match SlugMatch(s)
      case Some(e) => ":SLUG: " + slug + SubSlug(s[e..], slug)
      case None => [s[0]] + SubSlug(s[1..], slug)
  }

  /** The last line break in `s[lo..hi]`. */
  function LastBreak(s: string, lo: nat, hi: nat): (r: Option<nat>)
    requires lo <= hi <= |s|
    ensures r.Some? ==> lo <= r.value < hi && s[r.value] == '\n'
    decreases hi - lo
  {
    if hi == lo then None
    else if s[hi - 1] == '\n' then Some(hi - 1)
    else LastBreak(s, lo, hi - 1)
  }

  /** The end of `(:END:\s*\n)` matched at the start of `s`: after the last line break of the blanks. */
  function EndMatch(s: string): (r: Option<nat>)
    ensures r.Some? ==> 5 < r.value <= |s|
  {
    if StartsWith(s, ":END:") then
      match LastBreak(s, 5, SkipSpace(s, 5))
      case None => None
      case Some(b) => Some(b + 1)
    else None
  }

  /** `re.sub(r'(:END:\s*\n)', insert + r'\1', s)`: `insert` goes before every drawer end. */
  function SubEnd(s: string, insert: string): string
    decreases |s|
  {
    if |s| == 0 then ""
    else match EndMatch(s)
      case Some(e) => insert + s[..e] + SubEnd(s[e..], insert)
      case None => [s[0]] + SubEnd(s[1..], insert)
  }

  /** Some drawer end `:END:` followed by blanks holding a line break. */
  predicate HasDrawerEnd(s: string)
  {
    exists k :: 0 <= k < |s| && EndMatch(s[k..]).Some?
  }

  lemma {:induction false} SubEndWithoutDrawer(s: string, insert: string)
    requires !HasDrawerEnd(s)
    ensures SubEnd(s, insert) == s
    decreases |s|
  {
    if |s| > 0 {
      assert s[0..] == s;
      assert !HasDrawerEnd(s[1..]) by {
        forall k | 0 <= k < |s[1..]|
          ensures EndMatch(s[1..][k..]).None?
        {
          assert s[1..][k..] == s[k + 1..];
        }
      }
      SubEndWithoutDrawer(s[1..], insert);
    }
  }

  lemma ContainsAfterPrefix(p: string, t: string, x: string)
    requires Contains(t, x)
    ensures Contains(p + t, x)
  {
    var k :| 0 <= k <= |t| - |x| && OccursAt(t, x, k);
    assert (p + t)[|p| + k..|p| + k + |x|] == t[k..k + |x|];
    assert OccursAt(p + t, x, |p| + k);
  }

  lemma ContainsTransitive(a: string, b: string, c: string)
    requires Contains(a, b) && Contains(b, c)
    ensures Contains(a, c)
  {
    var i :| 0 <= i <= |a| - |b| && OccursAt(a, b, i);
    var j :| 0 <= j <= |b| - |c| && OccursAt(b, c, j);
    forall k | 0 <= k < |c|
      ensures a[i + j + k] == c[k]
    {
      assert a[i..i + |b|][j + k] == b[j + k];
      assert b[j..j + |c|][k] == c[k];
    }
    assert OccursAt(a, c, i + j);
  }

  lemma {:induction false} SubEndInserts(s: string, insert: string)
    requires HasDrawerEnd(s)
    ensures Contains(SubEnd(s, insert), insert)
    decreases |s|
  {
    match EndMatch(s)
    case Some(e) =>
      assert OccursAt(SubEnd(s, insert), insert, 0);
    case None =>
      var k :| 0 <= k < |s| && EndMatch(s[k..]).Some?;
      assert k != 0;
      assert s[1..][k - 1..] == s[k..];
      SubEndInserts(s[1..], insert);
      ContainsAfterPrefix([s[0]], SubEnd(s[1..], insert), insert);
  }

  /** The property line `:NAME: value` and its marker `:NAME:`. */
  function PropertyLine(name: string, value: string): string { ":" + name + ": " + value + "\n" }

  function Marker(name: string): string { ":" + name + ":" }

  /** Adding a property: only with a value, only when the note lacks it, before every drawer end. */
  function AddProperty(content: string, name: string, value: string): string
  {
    if value == "" || Contains(content, Marker(name)) then content
    else SubEnd(content, PropertyLine(name, value))
  }

  /**
   * Adding a property a second time changes nothing: either the first
   * addition planted the marker, or the note has no drawer end to insert
   * before and stays as it was.
   */
  lemma AddPropertyIdempotent(content: string, name: string, value: string)
    ensures AddProperty(AddProperty(content, name, value), name, value) == AddProperty(content, name, value)
  {
    if value != "" && !Contains(content, Marker(name)) {
      var line := PropertyLine(name, value);
      if HasDrawerEnd(content) {
        SubEndInserts(content, line);
        assert OccursAt(line, Marker(name), 0);
        ContainsTransitive(SubEnd(content, line), line, Marker(name));
      } else {
        SubEndWithoutDrawer(content, line);
      }
    }
  }

  /** A missing property is present after adding it, as long as the note has a drawer end. */
  lemma AddPropertyPresent(content: string, name: string, value: string)
    requires value != "" && HasDrawerEnd(content)
    ensures Contains(AddProperty(content, name, value), Marker(name))
  {
    if !Contains(content, Marker(name)) {
      var line := PropertyLine(name, value);
      SubEndInserts(content, line);
      assert OccursAt(line, Marker(name), 0);
      ContainsTransitive(SubEnd(content, line), line, Marker(name));
    }
  }

  /** `re.sub(r'(:END:\s*\n)', template, s)` for a parsed template; group 1 is the whole match. */
  function SubEndWith(s: string, ps: seq<Templates.Piece>): string
    requires Templates.GroupsBelow(ps, 1)
    decreases |s|
  {
    if |s| == 0 then ""
    else match EndMatch(s)
      case Some(e) => Templates.Expand(ps, [s[..e], s[..e]]) + SubEndWith(s[e..], ps)
      case None => [s[0]] + SubEndWith(s[1..], ps)
  }

  /** The same with the template as text: None where Python raises `re.error` on it. */
  function SubEndTemplate(s: string, template: string): (r: Option<string>)
    ensures r.None? <==> Templates.Parse(template, 1).None?
  {
    match Templates.Parse(template, 1)
    case None => None
    case Some(ps) => Some(SubEndWith(s, ps))
  }

  /** The template the original adds a property with: the property line, then `\1`. */
  function PropertyTemplate(name: string, value: string): string { PropertyLine(name, value) + "\\1" }

  /** Literal text followed by group 1 is `SubEnd`'s insertion in front of every drawer end. */
  lemma {:induction false} SubEndWithInsert(s: string, insert: string)
    ensures Templates.GroupsBelow(Templates.Literal(insert) + [Templates.Group(1)], 1)
    ensures SubEndWith(s, Templates.Literal(insert) + [Templates.Group(1)]) == SubEnd(s, insert)
    decreases |s|
  {
    var one := [Templates.Group(1)];
    Templates.ExpandLiteral(insert, [], [s, s]);
    assert Templates.Literal(insert) + [] == Templates.Literal(insert);
    if |s| > 0 {
      match EndMatch(s)
      case Some(e) =>
        Templates.ExpandLiteral(insert, one, [s[..e], s[..e]]);
        assert one[1..] == [];
        assert Templates.Expand(one, [s[..e], s[..e]]) == s[..e] + Templates.Expand([], [s[..e], s[..e]]);
        SubEndWithInsert(s[e..], insert);
      case None =>
        SubEndWithInsert(s[1..], insert);
    }
  }

  /** The property template as written inserts the line as it stands when neither name nor value holds a backslash. */
  lemma PropertyTemplateAgrees(s: string, name: string, value: string)
    requires '\\' !in name && '\\' !in value
    ensures SubEndTemplate(s, PropertyTemplate(name, value)) == Some(SubEnd(s, PropertyLine(name, value)))
  {
    var line := PropertyLine(name, value);
    assert '\\' !in line by {
      assert line == ":" + name + ": " + value + "\n";
      forall k | 0 <= k < |line| ensures line[k] != '\\' {
        if k > 0 && k <= |name| { assert line[k] == name[k - 1]; }
        if |name| + 3 <= k < |name| + 3 + |value| { assert line[k] == value[k - |name| - 3]; }
      }
    }
    Templates.PlainThenGroupOne(line, 1);
    SubEndWithInsert(s, line);
  }

  /** As written, a value holding a backslash before an ASCII letter with no escape meaning makes Python raise, whatever the note says. */
  lemma PropertyTemplateRaises(s: string, name: string, pre: string, c: char, post: string)
    requires '\\' !in name && '\\' !in pre && Templates.IsAsciiLetter(c) && c != 'g' && c !in Templates.Escapes
    ensures SubEndTemplate(s, PropertyTemplate(name, pre + ['\\', c] + post)).None?
  {
    var head := ":" + name + ": " + pre;
    var rest := ['\\', c] + post + "\n" + "\\1";
    assert PropertyTemplate(name, pre + ['\\', c] + post) == head + rest;
    assert '\\' !in head by {
      forall k | 0 <= k < |head| ensures head[k] != '\\' {
        if k > 0 && k <= |name| { assert head[k] == name[k - 1]; }
        if |name| + 3 <= k { assert head[k] == pre[k - |name| - 3]; }
      }
    }
    Templates.ParsePlain(head, rest, 1);
    assert rest[0] == '\\' && rest[1] == c && |rest| > 1 && !IsDigit(c);
    assert Templates.Parse(rest, 1).None?;
  }

  /** With its backslashes doubled, any property line followed by `\1` is inserted literally, as `SubEnd` has it. */
  lemma EscapedPropertyTemplateInserts(s: string, name: string, value: string)
    ensures SubEndTemplate(s, Templates.EscapeBackslashes(PropertyLine(name, value)) + "\\1") ==
            Some(SubEnd(s, PropertyLine(name, value)))
  {
    var line := PropertyLine(name, value);
    Templates.ParseEscaped(line, "\\1", 1);
    Templates.GroupThenRest('1', [], 1);
    assert ['\\', '1'] + [] == "\\1";
    assert Templates.Parse([], 1) == Some([]);
    assert [Templates.Group(1)] + [] == [Templates.Group(1)];
    SubEndWithInsert(s, line);
  }

  /** The slug template as written, `:SLUG: ` and the slug, is its own text when the slug holds no backslash. */
  lemma SlugTemplateAgrees(slug: string)
    requires '\\' !in slug
    ensures Templates.Parse(":SLUG: " + slug, 0) == Some(Templates.Literal(":SLUG: " + slug))
  {
    assert '\\' !in ":SLUG: " + slug by {
      forall k | 0 <= k < |":SLUG: " + slug| ensures (":SLUG: " + slug)[k] != '\\' {
        if k >= 7 { assert (":SLUG: " + slug)[k] == slug[k - 7]; }
      }
    }
    Templates.PlainTemplate(":SLUG: " + slug, 0);
  }

  /** A match of `\d{4}-\d{2}-\d{2} (\w{3})` at position `k`. */
  predicate DayMatchAt(s: string, k: nat)
  {
    DateAt(s, k) && k + 10 < |s| && s[k + 10] == ' ' && WordAt(s, k + 11)
  }

  /** Where `re.search` finds the dated weekday: the first match at `i` or later. */
  function DayMatchFrom(s: string, i: nat): (k: Option<nat>)
    requires i <= |s|
    ensures k.None? ==> forall j :: i <= j < |s| ==> !DayMatchAt(s, j)
    ensures k.Some? ==> i <= k.value < |s| && DayMatchAt(s, k.value) &&
                        forall j :: i <= j < k.value ==> !DayMatchAt(s, j)
    decreases |s| - i
  {
    if i == |s| then None
    else if DayMatchAt(s, i) then Some(i)
    else DayMatchFrom(s, i + 1)
  }

  /** `re.search(r'\d{4}-\d{2}-\d{2} (\w{3})', s).group(1)`: the weekday of the first dated match, None without one. */
  function DayAbbrev(s: string): (r: Option<string>)
    ensures r.None? <==> forall j :: 0 <= j < |s| ==> !DayMatchAt(s, j)
    ensures r.Some? ==> exists k :: 0 <= k < |s| && DayMatchAt(s, k) && r.value == s[k + 11..k + 14] &&
                                   forall j :: 0 <= j < k ==> !DayMatchAt(s, j)
  {
    match DayMatchFrom(s, 0)
    case None => None
    case Some(k) => Some(s[k + 11..k + 14])
  }

  /** A note timestamp `[date day ...]` gives its own weekday back. */
  lemma DayAbbrevOfStamp(date: string, day: string, rest: string)
    requires IsDate(date) && |day| == 3 && WordAt(day, 0)
    ensures DayAbbrev("[" + date + " " + day + rest) == Some(day)
  {
    var s := "[" + date + " " + day + rest;
    assert !DayMatchAt(s, 0);
    assert s[1..11] == date && s[11] == ' ' && s[12..15] == day;
    assert DayMatchAt(s, 1);
    assert DayMatchFrom(s, 1) == Some(1);
  }

  /** The slug the reply asks for: the note's own when the key is missing, none for JSON null. */
  function NewSlug(notes: Notes, m: MatchResult): Option<string>
  {
    match m.suggestedSlug
    case Unset => notes.slug
    case Null => None
    case Suggested(x) => Some(x)
  }

  /** Whether `calendar_entries[entry_num - 1]` raises: a non-zero number off Python's index range. */
  predicate EntryIndexFails(m: MatchResult, entries: seq<Entry>)
  {
    m.entryNumber.Some? && m.entryNumber.value != 0 &&
    !(-|entries| <= m.entryNumber.value - 1 < |entries|)
  }

  predicate TitleStep(notes: Notes, m: MatchResult) { m.suggestedTitle != "" && Some(m.suggestedTitle) != notes.title }

  predicate SlugStep(notes: Notes, m: MatchResult)
  {
    var s := NewSlug(notes, m);
    s.Some? && s.value != "" && s != notes.slug
  }

  /** The timestamp the note should carry: its date and weekday with the calendar start time. */
  function NewTimestamp(notes: Notes, m: MatchResult): Option<string>
  {
    if m.calendarTime != "" && notes.date.Some? && notes.date.value != "" &&
       notes.timestamp.Some? && notes.timestamp.value != "" then
      match DayAbbrev(notes.timestamp.value)
      case None => None
      case Some(day) => Some("[" + notes.date.value + " " + day + " " + Split(m.calendarTime, '-')[0] + "]")
    else None
  }

  /** A rewrite in progress: the text so far and the changes recorded so far. */
  datatype Draft = Draft(content: string, changes: seq<Change>)

  function Record(d: Draft, changed: bool, content: string, c: Change): (r: Draft)
    ensures changed ==> r.changes == d.changes + [c]
    ensures !changed ==> r == d
  {
    if changed then Draft(content, d.changes + [c]) else d
  }

  /** The rewrite steps in the original's order: title, slug, three properties, timestamp. */
  function Rewrite(notes: Notes, m: MatchResult): (d: Draft)
    requires !(TitleStep(notes, m) && notes.title.None?)
  {
    var d0 := Draft(notes.content, []);
    var d1 := Record(d0, TitleStep(notes, m),
                     if TitleStep(notes, m) then SubTitle(d0.content, notes.title.value, m.suggestedTitle) else "",
                     TitleChanged);
    var d2 := Record(d1, SlugStep(notes, m),
                     if SlugStep(notes, m) then SubSlug(d1.content, NewSlug(notes, m).value) else "",
                     SlugChanged);
    var d3 := Record(d2, m.calendarTitle != "" && !Contains(d2.content, Marker("CALENDAR_MATCH")),
                     AddProperty(d2.content, "CALENDAR_MATCH", m.calendarTitle), AddedCalendarMatch);
    var d4 := Record(d3, m.calendarTime != "" && !Contains(d3.content, Marker("CALENDAR_TIME")),
                     AddProperty(d3.content, "CALENDAR_TIME", m.calendarTime), AddedCalendarTime);
    var d5 := Record(d4, m.meetingLink != "" && !Contains(d4.content, Marker("MEETING_LINK")),
                     AddProperty(d4.content, "MEETING_LINK", m.meetingLink), AddedMeetingLink);
    var ts := NewTimestamp(notes, m);
    Record(d5, ts.Some? && notes.timestamp.value != ts.value,
           if ts.Some? && notes.timestamp.value != ts.value then ReplaceAll(d5.content, notes.timestamp.value, ts.value) else "",
           TimestampChanged)
  }

  /**
   * `apply_enrichment`. An unmatched reply changes nothing. Otherwise the
   * steps of `Rewrite` run; the file is written only when something changed
   * and this is not a dry run, and the slug pair is returned only when
   * something changed and the new slug differs from the note's.
   */
  function ApplyEnrichment(notes: Notes, m: MatchResult, entries: seq<Entry>, dryRun: bool): (r: Enrichment)
    ensures !m.matched <==> r.Unmatched?
    ensures r.Raised? <==> m.matched && (EntryIndexFails(m, entries) || (TitleStep(notes, m) && notes.title.None?))
  {
    if !m.matched then Unmatched
    else if EntryIndexFails(m, entries) then Raised
    else if TitleStep(notes, m) && notes.title.None? then Raised
    else
      var d := Rewrite(notes, m);
      if |d.changes| == 0 then Enriched(d.content, [], None, None)
      else
        Enriched(d.content, d.changes,
                 if dryRun then None else Some(d.content),
                 if NewSlug(notes, m) != notes.slug then Some(Rename(notes.slug, NewSlug(notes, m))) else None)
  }

  /** The rewrite changes the text only by recorded changes. */
  lemma RewriteUnchangedWithoutChanges(notes: Notes, m: MatchResult)
    requires !(TitleStep(notes, m) && notes.title.None?)
    ensures |Rewrite(notes, m).changes| == 0 ==> Rewrite(notes, m).content == notes.content
  {
  }

  /**
   * The slug pair comes back exactly when something changed and the new
   * slug differs from the old one, a JSON null counting as different; a
   * dry run writes nothing, and a real run writes exactly the rewritten text
   * when something changed.
   */
  lemma ApplyEnrichmentOutcome(notes: Notes, m: MatchResult, entries: seq<Entry>, dryRun: bool)
    requires ApplyEnrichment(notes, m, entries, dryRun).Enriched?
    ensures var r := ApplyEnrichment(notes, m, entries, dryRun);
            (r.renamed.Some? <==> |r.changes| > 0 && NewSlug(notes, m) != notes.slug) &&
            (r.renamed.Some? ==> r.renamed.value == Rename(notes.slug, NewSlug(notes, m))) &&
            (dryRun ==> r.written.None?) &&
            (!dryRun ==> (r.written.Some? <==> |r.changes| > 0)) &&
            (r.written.Some? ==> r.written.value == r.content) &&
            (|r.changes| == 0 ==> r.content == notes.content)
  {
    RewriteUnchangedWithoutChanges(notes, m);
  }
}
