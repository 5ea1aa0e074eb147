/**
 * Replacement templates of Python's `re.sub`: the text given as the
 * replacement is itself parsed, so that `\1`, `\g<1>`, octal escapes and
 * the usual character escapes are interpreted and unknown letter escapes
 * raise `re.error`. The calendar rewrite builds such templates around text
 * chosen by the language model.
 */
module Templates {
  import opened Wrappers
  import opened Text

  /** One piece of a parsed template: a literal character or a group reference. */
  datatype Piece = Lit(c: char) | Group(index: nat)

  predicate IsOctal(c: char) { '0' <= c <= '7' }

  predicate IsAsciiLetter(c: char) { 'a' <= c <= 'z' || 'A' <= c <= 'Z' }

  /** The end of the run of ASCII digits from `i`. */
  function DigitRun(t: string, i: nat): (j: nat)
    requires i <= |t|
    ensures i <= j <= |t| && AllDigits(t[i..j])
    decreases |t| - i
  {
    if i == |t| || !IsDigit(t[i]) then i
    else
      var j := DigitRun(t, i + 1);
      assert t[i..j] == [t[i]] + t[i + 1..j];
      j
  }

  /** The value of a decimal digit character. */
  function DigitValue(c: char): int { c as int - '0' as int }

  /** The character escapes a template knows besides the backslash: `\a \b \f \n \r \t \v \\`. */
  const Escapes: map<char, char> :=
    map['a' := '\U{7}', 'b' := '\U{8}', 'f' := '\U{C}', 'n' := '\n', 'r' := '\r', 't' := '\t',
        'v' := '\U{B}', '\\' := '\\']

  /** Pieces in front of a parse that may have failed. */
  function Prepend(ps: seq<Piece>, r: Option<seq<Piece>>): (q: Option<seq<Piece>>)
    ensures q.Some? <==> r.Some?
    ensures q.Some? ==> q.value == ps + r.value
  {
    match r
    case None => None
    case Some(rest) => Some(ps + rest)
  }

  /** A reference to group `index`, which fails when the pattern has fewer groups. */
  function GroupThen(index: nat, groups: nat, r: Option<seq<Piece>>): Option<seq<Piece>>
  {
    if index <= groups then Prepend([Group(index)], r) else None
  }

  predicate GroupsBelow(ps: seq<Piece>, groups: int)
  {
    forall k :: 0 <= k < |ps| && ps[k].Group? ==> ps[k].index <= groups
  }

  /**
   * `parse_template(t, pattern)` for a pattern with `groups` groups and no
   * named groups: None where Python raises. After a backslash,
   * `g<digits>` names a group; `0` starts an octal escape of at most three
   * digits; another digit names a group by one or two digits, unless it
   * and the next two are octal digits, which form an octal escape of at
   * most 0o377; a known escape gives its character; any other ASCII letter,
   * or a backslash at the end, raises; anything else is kept with its
   * backslash.
   */
  function Parse(t: string, groups: nat): (r: Option<seq<Piece>>)
    ensures r.Some? ==> GroupsBelow(r.value, groups)
    decreases |t|
  {
    if |t| == 0 then Some([])
    else if t[0] != '\\' then Prepend([Lit(t[0])], Parse(t[1..], groups))
    else if |t| == 1 then None
    else
      var c := t[1];
      if c == 'g' then
        if |t| > 2 && t[2] == '<' then
          var e := DigitRun(t, 3);
          if 3 < e < |t| && t[e] == '>' then GroupThen(DecimalValue(t[3..e]), groups, Parse(t[e + 1..], groups))
          else None
        else None
      else if c == '0' then
        if |t| > 3 && IsOctal(t[2]) && IsOctal(t[3]) then
          Prepend([Lit((DigitValue(t[2]) * 8 + DigitValue(t[3])) as char)], Parse(t[4..], groups))
        else if |t| > 2 && IsOctal(t[2]) then Prepend([Lit(DigitValue(t[2]) as char)], Parse(t[3..], groups))
        else Prepend([Lit(0 as char)], Parse(t[2..], groups))
      else if IsDigit(c) then
        if |t| > 2 && IsDigit(t[2]) then
          if IsOctal(c) && IsOctal(t[2]) && |t| > 3 && IsOctal(t[3]) then
            var v := DigitValue(c) * 64 + DigitValue(t[2]) * 8 + DigitValue(t[3]);
            if v > 255 then None else Prepend([Lit(v as char)], Parse(t[4..], groups))
          else GroupThen(DecimalValue(t[1..3]), groups, Parse(t[3..], groups))
        else GroupThen(DecimalValue(t[1..2]), groups, Parse(t[2..], groups))
      else if c in Escapes then Prepend([Lit(Escapes[c])], Parse(t[2..], groups))
      else if IsAsciiLetter(c) then None
      else Prepend([Lit('\\'), Lit(c)], Parse(t[2..], groups))
  }

  /** What a match turns into: literals as they are, group references by the matched groups. */
  function Expand(ps: seq<Piece>, g: seq<string>): string
    requires GroupsBelow(ps, |g| - 1)
    decreases |ps|
  {
    if |ps| == 0 then ""
    else (match ps[0] case Lit(c) => [c] case Group(i) => g[i]) + Expand(ps[1..], g)
  }

  /** The pieces that stand for `s` literally. */
  function Literal(s: string): (ps: seq<Piece>)
    ensures |ps| == |s| && forall k :: 0 <= k < |s| ==> ps[k] == Lit(s[k])
  {
    seq(|s|, k requires 0 <= k < |s| => Lit(s[k]))
  }

  /** Literal pieces expand to their text, whatever the groups. */
  lemma {:induction false} ExpandLiteral(s: string, rest: seq<Piece>, g: seq<string>)
    requires GroupsBelow(rest, |g| - 1)
    ensures GroupsBelow(Literal(s) + rest, |g| - 1)
    ensures Expand(Literal(s) + rest, g) == s + Expand(rest, g)
    decreases |s|
  {
    var ps := Literal(s) + rest;
    forall k | 0 <= k < |ps| && ps[k].Group? ensures ps[k].index <= |g| - 1 {
      assert k >= |s| && ps[k] == rest[k - |s|];
    }
    if |s| > 0 {
      assert ps[1..] == Literal(s[1..]) + rest;
      assert ps[0] == Lit(s[0]);
      ExpandLiteral(s[1..], rest, g);
      assert s == [s[0]] + s[1..];
    } else {
      assert ps == rest;
    }
  }

  /** Text without a backslash parses as itself. */
  lemma {:induction false} ParsePlain(s: string, tail: string, groups: nat)
    requires '\\' !in s
    ensures Parse(s + tail, groups) == Prepend(Literal(s), Parse(tail, groups))
    decreases |s|
  {
    if |s| == 0 {
      assert s + tail == tail;
      assert Literal(s) == [];
      if Parse(tail, groups).Some? {
        assert Literal(s) + Parse(tail, groups).value == Parse(tail, groups).value;
      }
    } else {
      assert (s + tail)[1..] == s[1..] + tail;
      assert (s + tail)[0] == s[0] != '\\';
      assert '\\' !in s[1..];
      ParsePlain(s[1..], tail, groups);
      assert Literal(s) == [Lit(s[0])] + Literal(s[1..]);
      if Parse(tail, groups).Some? {
        var v := Parse(tail, groups).value;
        assert [Lit(s[0])] + (Literal(s[1..]) + v) == Literal(s) + v;
      }
    }
  }

  /** `s.replace('\\', '\\\\')`: every backslash doubled. */
  function EscapeBackslashes(s: string): (r: string)
    ensures |r| >= |s|
    decreases |s|
  {
    if |s| == 0 then ""
    else (if s[0] == '\\' then "\\\\" else [s[0]]) + EscapeBackslashes(s[1..])
  }

  /** A character other than the backslash stands for itself. */
  lemma ParseLiteralChar(c: char, u: string, groups: nat)
    requires c != '\\'
    ensures Parse([c] + u, groups) == Prepend([Lit(c)], Parse(u, groups))
  {
    var t := [c] + u;
    assert t[0] == c && t[1..] == u;
  }

  /** A doubled backslash stands for one backslash. */
  lemma ParseDoubledBackslash(u: string, groups: nat)
    ensures Parse("\\\\" + u, groups) == Prepend([Lit('\\')], Parse(u, groups))
  {
    var t := "\\\\" + u;
    assert t[0] == '\\' && t[1] == '\\' && t[2..] == u;
    assert Escapes['\\'] == '\\';
  }

  lemma PrependTwice(a: seq<Piece>, b: seq<Piece>, r: Option<seq<Piece>>)
    ensures Prepend(a, Prepend(b, r)) == Prepend(a + b, r)
  {
    if r.Some? {
      assert a + (b + r.value) == (a + b) + r.value;
    }
  }

  /** Text with its backslashes doubled parses as the text itself, whatever it holds. */
  lemma {:induction false} ParseEscaped(s: string, tail: string, groups: nat)
    ensures Parse(EscapeBackslashes(s) + tail, groups) == Prepend(Literal(s), Parse(tail, groups))
    decreases |s|
  {
    if |s| == 0 {
      assert EscapeBackslashes(s) + tail == tail;
      assert Literal(s) == [];
      if Parse(tail, groups).Some? {
        assert Literal(s) + Parse(tail, groups).value == Parse(tail, groups).value;
      }
    } else {
      var u := EscapeBackslashes(s[1..]) + tail;
      ParseEscaped(s[1..], tail, groups);
      if s[0] == '\\' {
        assert EscapeBackslashes(s) + tail == "\\\\" + u;
        ParseDoubledBackslash(u, groups);
      } else {
        assert EscapeBackslashes(s) + tail == [s[0]] + u;
        ParseLiteralChar(s[0], u, groups);
      }
      PrependTwice([Lit(s[0])], Literal(s[1..]), Parse(tail, groups));
      assert [Lit(s[0])] + Literal(s[1..]) == Literal(s);
    }
  }

  /** A one-digit group reference not followed by a digit. */
  lemma GroupThenRest(d: char, rest: string, groups: nat)
    requires '1' <= d <= '9' && d as int - '0' as int <= groups && (rest == [] || !IsDigit(rest[0]))
    ensures Parse(['\\', d] + rest, groups) == Prepend([Group(d as int - '0' as int)], Parse(rest, groups))
  {
    var t := ['\\', d] + rest;
    assert t[1..2] == [d] && [d][..0] == [];
    assert DecimalValue([d]) == d as int - '0' as int;
    assert t[2..] == rest;
    assert t[0] == '\\' && t[1] == d && (|t| > 2 ==> t[2] == rest[0]);
    assert Parse(t, groups) == GroupThen(d as int - '0' as int, groups, Parse(rest, groups));
  }

  /** A group reference `\g<d>`, whatever follows it. */
  lemma NamedGroupThenRest(d: char, rest: string, groups: nat)
    requires '0' <= d <= '9' && d as int - '0' as int <= groups
    ensures Parse(['\\', 'g', '<', d, '>'] + rest, groups) == Prepend([Group(d as int - '0' as int)], Parse(rest, groups))
  {
    var t := ['\\', 'g', '<', d, '>'] + rest;
    assert t[4] == '>';
    assert DigitRun(t, 4) == 4;
    assert DigitRun(t, 3) == 4;
    assert t[3..4] == [d] && [d][..0] == [];
    assert DecimalValue([d]) == d as int - '0' as int;
    assert t[5..] == rest;
    assert t[0] == '\\' && t[1] == 'g' && t[2] == '<';
    assert Parse(t, groups) == GroupThen(d as int - '0' as int, groups, Parse(rest, groups));
  }

  /** A template without a backslash, followed by `\1`, inserts its text and then group 1. */
  lemma PlainThenGroupOne(text: string, groups: nat)
    requires '\\' !in text && groups >= 1
    ensures Parse(text + "\\1", groups) == Some(Literal(text) + [Group(1)])
  {
    ParsePlain(text, "\\1", groups);
    GroupThenRest('1', [], groups);
    assert ['\\', '1'] + [] == "\\1";
    assert Parse([], groups) == Some([]);
    assert [Group(1)] + [] == [Group(1)];
  }

  /** A template without a backslash is its own text. */
  lemma PlainTemplate(text: string, groups: nat)
    requires '\\' !in text
    ensures Parse(text, groups) == Some(Literal(text))
  {
    ParsePlain(text, "", groups);
    assert text + "" == text;
    assert Literal(text) + [] == Literal(text);
  }

  /** `\1` + text + `\2` reads as the two groups around the text when the text has no backslash and does not open with a digit. */
  lemma GroupsAroundPlain(text: string)
    requires '\\' !in text && (text == "" || !IsDigit(text[0]))
    ensures Parse("\\1" + text + "\\2", 2) == Some([Group(1)] + Literal(text) + [Group(2)])
  {
    var close := ['\\', '2'];
    var rest := text + close;
    assert Parse(rest, 2) == Some(Literal(text) + [Group(2)]) by {
      GroupAlone('2', 2);
      ParsePlain(text, close, 2);
    }
    assert Parse(['\\', '1'] + rest, 2) == Some([Group(1)] + (Literal(text) + [Group(2)])) by {
      assert rest[0] == if text == "" then '\\' else text[0];
      GroupThenRest('1', rest, 2);
    }
    assert [Group(1)] + (Literal(text) + [Group(2)]) == [Group(1)] + Literal(text) + [Group(2)];
    assert "\\1" + text + "\\2" == ['\\', '1'] + rest;
  }

  /** The template `\d` alone. */
  lemma GroupAlone(d: char, groups: nat)
    requires '1' <= d <= '9' && d as int - '0' as int <= groups
    ensures Parse(['\\', d], groups) == Some([Group(d as int - '0' as int)])
  {
    GroupThenRest(d, [], groups);
    assert ['\\', d] + [] == ['\\', d];
    assert Parse([], groups) == Some([]);
    assert [Group(d as int - '0' as int)] + [] == [Group(d as int - '0' as int)];
  }

  /** The template `\g<d>` alone. */
  lemma NamedGroupAlone(d: char, groups: nat)
    requires '0' <= d <= '9' && d as int - '0' as int <= groups
    ensures Parse(['\\', 'g', '<', d, '>'], groups) == Some([Group(d as int - '0' as int)])
  {
    NamedGroupThenRest(d, [], groups);
    assert ['\\', 'g', '<', d, '>'] + [] == ['\\', 'g', '<', d, '>'];
    assert Parse([], groups) == Some([]);
    assert [Group(d as int - '0' as int)] + [] == [Group(d as int - '0' as int)];
  }

  /** `\g<1>` + text with doubled backslashes + `\g<2>` reads as the two groups around the text, whatever it holds. */
  lemma NamedGroupsAroundEscaped(text: string)
    ensures Parse("\\g<1>" + EscapeBackslashes(text) + "\\g<2>", 2) == Some([Group(1)] + Literal(text) + [Group(2)])
  {
    var open := ['\\', 'g', '<', '1', '>'];
    var close := ['\\', 'g', '<', '2', '>'];
    var e := EscapeBackslashes(text);
    var rest := e + close;
    ParseEscaped(text, close, 2);
    NamedGroupAlone('2', 2);
    assert Parse(rest, 2) == Some(Literal(text) + [Group(2)]);
    NamedGroupThenRest('1', rest, 2);
    assert Parse(open + rest, 2) == Some([Group(1)] + (Literal(text) + [Group(2)]));
    assert [Group(1)] + (Literal(text) + [Group(2)]) == [Group(1)] + Literal(text) + [Group(2)];
    assert "\\g<1>" + e + "\\g<2>" == open + rest;
  }
}
