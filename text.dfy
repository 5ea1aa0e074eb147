/**
 * The handful of Python `str` operations that the modelled code relies on:
 * `strip`/`lstrip`/`rstrip`, ASCII `lower`, `startswith`, `find`, `in`,
 * `split`/`join` on one separator character, `replace`, decimal rendering
 * of counters and the UTF-8 length used for payload size limits.
 */
module Text {
  import opened Wrappers

  /** The characters Python's `str.isspace` (and the regex class `\s`) accepts. */
  const Whitespace: set<char> := {
    '\t', '\n', '\U{0B}', '\U{0C}', '\r', '\U{1C}', '\U{1D}', '\U{1E}', '\U{1F}', ' ',
    '\U{85}', '\U{A0}', '\U{1680}', '\U{2000}', '\U{2001}', '\U{2002}', '\U{2003}',
    '\U{2004}', '\U{2005}', '\U{2006}', '\U{2007}', '\U{2008}', '\U{2009}', '\U{200A}',
    '\U{2028}', '\U{2029}', '\U{202F}', '\U{205F}', '\U{3000}'
  }

  predicate IsSpace(c: char) { c in Whitespace }

  predicate AllIn(s: string, cs: set<char>)
  {
    forall i :: 0 <= i < |s| ==> s[i] in cs
  }

  /** `s.lstrip(chars)`: drops the longest prefix made of `cs`. */
  function TrimLeft(s: string, cs: set<char>): (r: string)
    ensures |r| <= |s| && r == s[|s| - |r|..]
    ensures AllIn(s[..|s| - |r|], cs)
    ensures |r| > 0 ==> r[0] !in cs
    decreases |s|
  {
    if |s| > 0 && s[0] in cs then
      var r := TrimLeft(s[1..], cs);
      AllInCons(s, |s| - |r|, cs);
      r
    else s
  }

  lemma AllInCons(s: string, k: nat, cs: set<char>)
    requires 0 < k <= |s| && s[0] in cs && AllIn(s[1..][..k - 1], cs)
    ensures AllIn(s[..k], cs)
  {
    forall i | 0 <= i < k ensures s[i] in cs {
      if i > 0 { assert s[i] == s[1..][..k - 1][i - 1]; }
    }
  }

  /** `s.rstrip(chars)`: drops the longest suffix made of `cs`. */
  function TrimRight(s: string, cs: set<char>): (r: string)
    ensures |r| <= |s| && r == s[..|r|]
    ensures AllIn(s[|r|..], cs)
    ensures |r| > 0 ==> r[|r| - 1] !in cs
    decreases |s|
  {
    if |s| > 0 && s[|s| - 1] in cs then
      var r := TrimRight(s[..|s| - 1], cs);
      assert s[..|s| - 1][|r|..] == s[|r|..|s| - 1];
      r
    else s
  }

  /** How many characters `TrimLeft` removes. */
  function LeadingCount(s: string, cs: set<char>): (n: nat)
    ensures n <= |s|
  {
    |s| - |TrimLeft(s, cs)|
  }

  /**
   * `s.strip(chars)`: drops characters of `cs` from the front, then from
   * the back. `TrimShape` says what the result is.
   */
  function Trim(s: string, cs: set<char>): (r: string)
    ensures |r| <= |s|
    decreases |s|
  {
    if |s| > 0 && s[0] in cs then Trim(s[1..], cs)
    else if |s| > 0 && s[|s| - 1] in cs then Trim(s[..|s| - 1], cs)
    else s
  }

  /** `r` is the piece of `s` after its first `k` characters, with only characters of `cs` around it and at neither edge. */
  predicate TrimmedAs(s: string, cs: set<char>, r: string, k: nat)
  {
    k + |r| <= |s| && r == s[k..k + |r|] && AllIn(s[..k], cs) && AllIn(s[k + |r|..], cs) &&
    (|r| > 0 ==> r[0] !in cs && r[|r| - 1] !in cs)
  }

  /** The trim is the piece of `s` after its leading run, with only characters of `cs` around it and at neither edge. */
  lemma {:induction false} TrimShape(s: string, cs: set<char>)
    ensures TrimmedAs(s, cs, Trim(s, cs), LeadingCount(s, cs))
    decreases |s|
  {
    if |s| > 0 && s[0] in cs {
      TrimShape(s[1..], cs);
      assert LeadingCount(s, cs) == LeadingCount(s[1..], cs) + 1;
      TrimmedFront(s, cs, Trim(s, cs), LeadingCount(s[1..], cs));
    } else if |s| > 0 && s[|s| - 1] in cs {
      var t := s[..|s| - 1];
      TrimShape(t, cs);
      assert LeadingCount(s, cs) == 0;
      assert t[0] == s[0];
      assert LeadingCount(t, cs) == 0;
      TrimmedBack(s, cs, Trim(s, cs));
    } else {
      assert s[..0] == [] && s[|s|..] == [];
    }
  }

  lemma TrimmedFront(s: string, cs: set<char>, r: string, k: nat)
    requires |s| > 0 && s[0] in cs && TrimmedAs(s[1..], cs, r, k)
    ensures TrimmedAs(s, cs, r, k + 1)
  {
    assert s[1..][k..k + |r|] == s[k + 1..k + 1 + |r|];
    assert s[1..][k + |r|..] == s[k + 1 + |r|..];
    AllInCons(s, k + 1, cs);
  }

  lemma TrimmedBack(s: string, cs: set<char>, r: string)
    requires |s| > 0 && s[|s| - 1] in cs && TrimmedAs(s[..|s| - 1], cs, r, 0)
    ensures TrimmedAs(s, cs, r, 0)
  {
    assert s[..|s| - 1][..|r|] == s[..|r|];
    AllInSnoc(s, |r|, cs);
  }

  lemma AllInSnoc(s: string, k: nat, cs: set<char>)
    requires k < |s| && s[|s| - 1] in cs && AllIn(s[..|s| - 1][k..], cs)
    ensures AllIn(s[k..], cs)
  {
    forall i | 0 <= i < |s| - k ensures s[k..][i] in cs {
      if i < |s| - 1 - k { assert s[k..][i] == s[..|s| - 1][k..][i]; }
    }
  }

  function Strip(s: string): string { Trim(s, Whitespace) }

  /** A string that neither starts nor ends with a character of `cs` is its own trim. */
  lemma TrimNoEdges(s: string, cs: set<char>)
    requires |s| > 0 && s[0] !in cs && s[|s| - 1] !in cs
    ensures Trim(s, cs) == s
  {
  }

  function LStrip(s: string): string { TrimLeft(s, Whitespace) }

  /** True when `s` is empty or all whitespace, i.e. `not s.strip()` in Python. */
  predicate IsBlank(s: string) { AllIn(s, Whitespace) }

  lemma {:induction false} TrimLeftEmptyIff(s: string, cs: set<char>)
    ensures TrimLeft(s, cs) == [] <==> AllIn(s, cs)
    decreases |s|
  {
    if |s| > 0 && s[0] in cs {
      TrimLeftEmptyIff(s[1..], cs);
      if AllIn(s[1..], cs) {
        AllInCons(s, |s|, cs);
      }
    }
  }

  lemma StripEmptyIff(s: string)
    ensures Strip(s) == [] <==> IsBlank(s)
  {
    TrimShape(s, Whitespace);
    var k := LeadingCount(s, Whitespace);
    if Strip(s) == [] {
      assert s == s[..k] + s[k..];
    }
  }

  /** Trimming twice changes nothing. */
  lemma TrimIdempotent(s: string, cs: set<char>)
    ensures Trim(Trim(s, cs), cs) == Trim(s, cs)
  {
    TrimShape(s, cs);
  }

  function LowerChar(c: char): (d: char)
  {
    if 'A' <= c <= 'Z' then (c as int + 32) as char else c
  }

  /** `s.lower()` for ASCII letters; other characters are unchanged. */
  function Lower(s: string): (r: string)
    ensures |r| == |s|
    ensures forall i :: 0 <= i < |s| ==> r[i] == LowerChar(s[i])
  {
    seq(|s|, i requires 0 <= i < |s| => LowerChar(s[i]))
  }

  predicate StartsWith(s: string, p: string)
  {
    |p| <= |s| && s[..|p|] == p
  }

  /**
   * `s[a:b]` with Python's clamping: an end past the string stops at its
   * end, and a start past the end gives the empty string.
   */
  function Slice(s: string, a: nat, b: nat): (r: string)
    ensures a <= b <= |s| ==> r == s[a..b]
    ensures |r| <= |s| && (a <= b ==> |r| <= b - a) && (b <= a ==> r == "")
  {
    var hi := if b <= |s| then b else |s|;
    var lo := if a <= hi then a else hi;
    s[lo..hi]
  }

  predicate EndsWith(s: string, p: string)
  {
    |p| <= |s| && s[|s| - |p|..] == p
  }

  predicate OccursAt(s: string, sub: string, k: int)
  {
    0 <= k && k + |sub| <= |s| && s[k..k + |sub|] == sub
  }

  /** `sub in s`. */
  predicate Contains(s: string, sub: string)
  {
    exists k :: 0 <= k <= |s| - |sub| && OccursAt(s, sub, k)
  }

  /** `s.find(sub, start)`, returning None for Python's -1: the lowest occurrence at or after `start`. */
  function FindFrom(s: string, sub: string, start: nat): (r: Option<nat>)
    ensures r.Some? ==> start <= r.value && OccursAt(s, sub, r.value)
    ensures r.Some? ==> forall k :: start <= k < r.value ==> !OccursAt(s, sub, k)
    ensures r.None? ==> forall k :: start <= k ==> !OccursAt(s, sub, k)
    decreases |s| - start
  {
    if start + |sub| > |s| then None
    else if s[start..start + |sub|] == sub then Some(start)
    else FindFrom(s, sub, start + 1)
  }

  function Find(s: string, sub: string): (r: Option<nat>)
    ensures r.Some? ==> OccursAt(s, sub, r.value)
    ensures r.Some? ==> forall k :: 0 <= k < r.value ==> !OccursAt(s, sub, k)
    ensures r.None? <==> !Contains(s, sub)
  {
    FindFrom(s, sub, 0)
  }

  /** Position of the first `c` in `s`. */
  function IndexOf(s: string, c: char): (r: Option<nat>)
    ensures r.Some? ==> r.value < |s| && s[r.value] == c && c !in s[..r.value]
    ensures r.None? ==> c !in s
    decreases |s|
  {
    if |s| == 0 then None
    else if s[0] == c then Some(0)
    else
      match IndexOf(s[1..], c)
      case None => None
      case Some(k) =>
        assert s[..k + 1] == [s[0]] + s[1..][..k];
        Some(k + 1)
  }

  /** The position of the last `c` in `s`. */
  function LastIndexOf(s: string, c: char): (r: Option<nat>)
    ensures r.Some? ==> r.value < |s| && s[r.value] == c && c !in s[r.value + 1..]
    ensures r.None? ==> c !in s
  {
    if |s| == 0 then None
    else if s[|s| - 1] == c then Some(|s| - 1)
    else
      var r := LastIndexOf(s[..|s| - 1], c);
      assert r.Some? ==> s[r.value + 1..] == s[..|s| - 1][r.value + 1..] + [s[|s| - 1]];
      assert r.None? ==> s == s[..|s| - 1] + [s[|s| - 1]];
      r
  }

  /** The last `c` of `s + [c] + t`, when `t` holds none, is the one between them. */
  lemma {:induction false} LastIndexOfBefore(s: string, c: char, t: string)
    requires c !in t
    ensures LastIndexOf(s + [c] + t, c) == Some(|s|)
  {
    if |t| > 0 {
      var u := s + [c] + t;
      assert u[..|u| - 1] == s + [c] + t[..|t| - 1];
      assert u[|u| - 1] == t[|t| - 1];
      LastIndexOfBefore(s, c, t[..|t| - 1]);
    }
  }

  /** `s.split(sep)` for a one-character separator: never empty, pieces free of `sep`. */
  function Split(s: string, sep: char): (parts: seq<string>)
    ensures |parts| >= 1
    ensures forall i :: 0 <= i < |parts| ==> sep !in parts[i]
    decreases |s|
  {
    match IndexOf(s, sep)
    case None => [s]
    case Some(k) => [s[..k]] + Split(s[k + 1..], sep)
  }

  /** `sep.join(parts)`. */
  function Join(parts: seq<string>, sep: char): (s: string)
    decreases |parts|
  {
    if |parts| == 0 then ""
    else if |parts| == 1 then parts[0]
    else parts[0] + [sep] + Join(parts[1..], sep)
  }

  /** A join starts with its first part. */
  lemma JoinStartsWithFirst(parts: seq<string>, sep: char)
    requires |parts| > 0
    ensures StartsWith(Join(parts, sep), parts[0])
  {
    if |parts| > 1 {
      assert Join(parts, sep)[..|parts[0]|] == parts[0];
    }
  }

  /** `sep.join(parts)` for a separator string such as `", "`. */
  function JoinWith(parts: seq<string>, sep: string): (s: string)
    decreases |parts|
  {
    if |parts| == 0 then ""
    else if |parts| == 1 then parts[0]
    else parts[0] + sep + JoinWith(parts[1..], sep)
  }

  /** The end of the whitespace run starting at `i`. */
  function SkipSpace(s: string, i: nat): (j: nat)
    requires i <= |s|
    ensures i <= j <= |s| && AllIn(s[i..j], Whitespace)
    ensures j < |s| ==> s[j] !in Whitespace
    decreases |s| - i
  {
    if i == |s| || s[i] !in Whitespace then i
    else
      var j := SkipSpace(s, i + 1);
      assert s[i..j] == [s[i]] + s[i + 1..j];
      j
  }

  /** The blanks from `i` stop at or before any character that is not blank. */
  lemma {:induction false} SkipSpaceBefore(s: string, i: nat, k: nat)
    requires i <= k < |s| && s[k] !in Whitespace
    ensures SkipSpace(s, i) <= k
    decreases k - i
  {
    if i < k && s[i] in Whitespace {
      SkipSpaceBefore(s, i + 1, k);
    }
  }

  /** A whitespace run from `i` that stops at `j` makes `j` the end found by `SkipSpace`. */
  lemma {:induction false} SkipSpaceTo(s: string, i: nat, j: nat)
    requires i <= j <= |s| && AllIn(s[i..j], Whitespace)
    requires j < |s| ==> s[j] !in Whitespace
    ensures SkipSpace(s, i) == j
    decreases j - i
  {
    if i < j {
      assert s[i] == s[i..j][0];
      assert s[i + 1..j] == s[i..j][1..];
      SkipSpaceTo(s, i + 1, j);
    }
  }

  /** The position of the first `c` at or after `i`, or the end of `s`. */
  function Until(s: string, i: nat, c: char): (j: nat)
    requires i <= |s|
    ensures i <= j <= |s| && c !in s[i..j]
    ensures j < |s| ==> s[j] == c
    decreases |s| - i
  {
    if i == |s| || s[i] == c then i
    else
      var j := Until(s, i + 1, c);
      assert s[i..j] == [s[i]] + s[i + 1..j];
      j
  }
  /** A `c` at `j` with none between `i` and `j` is the one `Until` finds. */
  lemma {:induction false} UntilAt(s: string, i: nat, j: nat, c: char)
    requires i <= j < |s| && c !in s[i..j] && s[j] == c
    ensures Until(s, i, c) == j
    decreases j - i
  {
    if i < j {
      assert s[i] == s[i..j][0];
      assert s[i + 1..j] == s[i..j][1..];
      UntilAt(s, i + 1, j, c);
    }
  }


  /** The regex class `\w` restricted to ASCII: letters, digits and underscore. */
  predicate IsWordChar(c: char)
  {
    'a' <= c <= 'z' || 'A' <= c <= 'Z' || IsDigit(c) || c == '_'
  }

  lemma WordCharNotSpace(c: char)
    requires IsWordChar(c)
    ensures c !in Whitespace
  {
  }

  lemma {:induction false} JoinSplit(s: string, sep: char)
    ensures Join(Split(s, sep), sep) == s
    decreases |s|
  {
    match IndexOf(s, sep)
    case None =>
    case Some(k) =>
      var rest := Split(s[k + 1..], sep);
      var parts := [s[..k]] + rest;
      assert Split(s, sep) == parts;
      assert |parts| > 1 && parts[0] == s[..k] && parts[1..] == rest;
      assert Join(parts, sep) == s[..k] + [sep] + Join(rest, sep);
      assert Join(rest, sep) == s[k + 1..] by {
        JoinSplit(s[k + 1..], sep);
      }
      assert s == s[..k] + [sep] + s[k + 1..];
  }

  lemma Regroup(a: string, b: string, c: string, d: string)
    ensures a + b + c + d == a + (b + c + d)
  {
  }

  /** A string is its four slices at `a`, `b` and `c` put back together. */
  lemma FourSlices(s: string, a: nat, b: nat, c: nat)
    requires a <= b <= c <= |s|
    ensures s == s[..a] + s[a..b] + s[b..c] + s[c..]
  {
    assert s[..b] == s[..a] + s[a..b];
    assert s[..c] == s[..b] + s[b..c];
    assert s == s[..c] + s[c..];
  }

  lemma {:induction false} SplitJoin(parts: seq<string>, sep: char)
    requires |parts| >= 1
    requires forall i :: 0 <= i < |parts| ==> sep !in parts[i]
    ensures Split(Join(parts, sep), sep) == parts
    decreases |parts|
  {
    if |parts| > 1 {
      var tail := Join(parts[1..], sep);
      var s := parts[0] + [sep] + tail;
      assert s[|parts[0]|] == sep;
      assert sep !in s[..|parts[0]|] by { assert s[..|parts[0]|] == parts[0]; }
      assert IndexOf(s, sep) == Some(|parts[0]|);
      assert s[|parts[0]| + 1..] == tail;
      SplitJoin(parts[1..], sep);
      assert s[..|parts[0]|] == parts[0];
      assert parts == [parts[0]] + parts[1..];
    }
  }

  /** `s.replace(pat, rep)`: non-overlapping occurrences, scanned left to right. */
  function ReplaceAll(s: string, pat: string, rep: string): (r: string)
    requires |pat| > 0
    decreases |s|
  {
    if |s| == 0 then ""
    else if StartsWith(s, pat) then rep + ReplaceAll(s[|pat|..], pat, rep)
    else [s[0]] + ReplaceAll(s[1..], pat, rep)
  }

  lemma {:induction false} ReplaceAllAbsent(s: string, pat: string, rep: string)
    requires |pat| > 0
    requires !Contains(s, pat)
    ensures ReplaceAll(s, pat, rep) == s
    decreases |s|
  {
    if |s| > 0 {
      assert StartsWith(s, pat) == OccursAt(s, pat, 0);
      forall k | 0 <= k <= |s| - 1 - |pat|
        ensures !OccursAt(s[1..], pat, k)
      {
        assert s[1..][k..k + |pat|] == s[k + 1..k + 1 + |pat|];
        assert OccursAt(s[1..], pat, k) == OccursAt(s, pat, k + 1);
      }
      ReplaceAllAbsent(s[1..], pat, rep);
    }
  }

  function DigitChar(d: nat): (c: char)
    requires d < 10
  {
    ['0', '1', '2', '3', '4', '5', '6', '7', '8', '9'][d]
  }

  predicate IsDigit(c: char) { '0' <= c <= '9' }

  predicate AllDigits(s: string) { forall i :: 0 <= i < |s| ==> IsDigit(s[i]) }

  /** `str(n)` for a non-negative integer. */
  function DecimalString(n: nat): (s: string)
    ensures |s| >= 1 && AllDigits(s)
    decreases n
  {
    if n < 10 then [DigitChar(n)] else DecimalString(n / 10) + [DigitChar(n % 10)]
  }

  /** `int(s)` for a string of ASCII digits. */
  function DecimalValue(s: string): (n: nat)
    requires AllDigits(s)
    decreases |s|
  {
    if |s| == 0 then 0
    else DecimalValue(s[..|s| - 1]) * 10 + (s[|s| - 1] as int - '0' as int)
  }

  /** Reading back a rendered counter gives the counter. */
  lemma {:induction false} DecimalRoundTrip(n: nat)
    ensures DecimalValue(DecimalString(n)) == n
    decreases n
  {
    if n >= 10 {
      var s := DecimalString(n);
      assert s[..|s| - 1] == DecimalString(n / 10);
      DecimalRoundTrip(n / 10);
    }
  }

  lemma DecimalInjective(a: nat, b: nat)
    requires DecimalString(a) == DecimalString(b)
    ensures a == b
  {
    DecimalRoundTrip(a);
    DecimalRoundTrip(b);
  }

  /** Bytes that `ch` takes in UTF-8. */
  function Utf8Width(ch: char): (w: nat)
    ensures 1 <= w <= 4
  {
    if ch as int < 0x80 then 1
    else if ch as int < 0x800 then 2
    else if ch as int < 0x10000 then 3
    else 4
  }

  /** `len(s.encode('utf-8'))`. */
  function Utf8Length(s: string): (n: nat)
    ensures |s| <= n <= 4 * |s|
    decreases |s|
  {
    if |s| == 0 then 0 else Utf8Width(s[0]) + Utf8Length(s[1..])
  }
}
