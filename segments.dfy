/**
 * Cutting a transcript body at split positions: output paths, the sorted
 * bounds, the non-blank segments between them, and the times interpolated
 * for each segment.
 */
module Segmenting {
  import opened Wrappers
  import opened Text

  /* ---------------------------------------------------------------- */
  /* Paths                                                            */
  /* ---------------------------------------------------------------- */

  /** What `os.path.join(dir, name)` puts in front of a relative `name`. */
  function JoinPrefix(dir: string): string
  {
    if dir == "" then "" else if EndsWith(dir, "/") then dir else dir + "/"
  }

  function PathJoin(dir: string, name: string): (path: string)
    ensures EndsWith(path, name)
  {
    var p := JoinPrefix(dir) + name;
    assert p[|p| - |name|..] == name;
    p
  }

  /** Two names joined to one directory give the same path only if they are the same name. */
  lemma PathJoinInjective(dir: string, a: string, b: string)
    requires PathJoin(dir, a) == PathJoin(dir, b)
    ensures a == b
  {
    var p := JoinPrefix(dir);
    assert a == (p + a)[|p|..];
    assert b == (p + b)[|p|..];
  }

  /**
   * `os.path.dirname`: the path up to its last `/`, with the trailing
   * slashes of that head dropped unless it is made of slashes only.
   */
  function DirName(path: string): (d: string)
    ensures |d| <= |path| && d == path[..|d|]
    ensures '/' !in path ==> d == ""
    ensures d != "" && d[|d| - 1] == '/' ==> AllIn(d, {'/'})
  {
    match LastIndexOf(path, '/')
    case None => ""
    case Some(i) =>
      var head := path[..i + 1];
      if AllIn(head, {'/'}) then head else TrimRight(head, {'/'})
  }

  /** The last `c` of `s` is at `k` when `s[k]` is `c` and none follows it. */
  lemma LastIndexOfAt(s: string, c: char, k: nat)
    requires k < |s| && s[k] == c && c !in s[k + 1..]
    ensures LastIndexOf(s, c) == Some(k)
  {
    assert s[k..][0] == c;
    var r := LastIndexOf(s, c);
    assert c in s by { assert s[k] == c; }
  }

  /** A directory as `DirName` gives it back, joined to a plain name, is that name's directory again. */
  lemma DirNameOfJoin(dir: string, name: string)
    requires '/' !in name
    requires dir != "" && dir[|dir| - 1] == '/' ==> AllIn(dir, {'/'})
    ensures DirName(PathJoin(dir, name)) == dir
  {
    var p := PathJoin(dir, name);
    if dir == "" {
      assert p == name;
    } else if dir[|dir| - 1] == '/' {
      assert p == dir + name;
      assert p[|dir|..] == name;
      LastIndexOfAt(p, '/', |dir| - 1);
      assert p[..|dir|] == dir;
    } else {
      assert p == dir + "/" + name;
      assert p[|dir| + 1..] == name;
      LastIndexOfAt(p, '/', |dir|);
      var head := p[..|dir| + 1];
      assert head == dir + "/";
      assert !AllIn(head, {'/'}) by { assert head[|dir| - 1] == dir[|dir| - 1]; }
      var r := TrimRight(head, {'/'});
      assert |r| == |dir|;
    }
  }

  /** A plain name joined to the directory of `path` stays in that directory. */
  lemma RenameStaysInDir(path: string, name: string)
    requires '/' !in name
    ensures DirName(PathJoin(DirName(path), name)) == DirName(path)
  {
    DirNameOfJoin(DirName(path), name);
  }

  /** `x + DecimalString(i) + y` determines `i`. */
  lemma NumberedInjective(x: string, i: nat, j: nat, y: string)
    requires x + DecimalString(i) + y == x + DecimalString(j) + y
    ensures i == j
  {
    var s := x + DecimalString(i) + y;
    assert |DecimalString(i)| == |DecimalString(j)|;
    assert DecimalString(i) == s[|x|..|x| + |DecimalString(i)|];
    assert DecimalString(j) == (x + DecimalString(j) + y)[|x|..|x| + |DecimalString(j)|];
    DecimalInjective(i, j);
  }

  /** The same for a numbered name joined to a directory. */
  /** The path of a name with the decimal number `i` between `x` and `y`. */
  function NumberedPath(dir: string, x: string, i: nat, y: string): string
  {
    PathJoin(dir, x + DecimalString(i) + y)
  }

  lemma NumberedPathInjective(dir: string, x: string, i: nat, j: nat, y: string)
    requires NumberedPath(dir, x, i, y) == NumberedPath(dir, x, j, y)
    ensures i == j
  {
    PathJoinInjective(dir, x + DecimalString(i) + y, x + DecimalString(j) + y);
    NumberedInjective(x, i, j, y);
  }

  /* ---------------------------------------------------------------- */
  /* Sorting split positions                                          */
  /* ---------------------------------------------------------------- */

  predicate Sorted(xs: seq<nat>)
  {
    forall i, j :: 0 <= i < j < |xs| ==> xs[i] <= xs[j]
  }

  /** Putting an element no larger than the head in front keeps a sequence sorted. */
  lemma SortedCons(x: nat, xs: seq<nat>)
    requires Sorted(xs) && (|xs| > 0 ==> x <= xs[0])
    ensures Sorted([x] + xs)
  {
    var r := [x] + xs;
    forall i, j | 0 <= i < j < |r| ensures r[i] <= r[j] {
      if i == 0 {
        assert r[j] == xs[j - 1] >= xs[0];
      } else {
        assert r[i] == xs[i - 1] && r[j] == xs[j - 1];
      }
    }
  }

  /** Insertion into a sorted sequence: sorted again, with one more copy of `x`. */
  function Insert(x: nat, xs: seq<nat>): (r: seq<nat>)
    requires Sorted(xs)
    ensures |r| == |xs| + 1 && (r[0] == x || (|xs| > 0 && r[0] == xs[0]))
    ensures Sorted(r)
    decreases |xs|
  {
    if |xs| == 0 then [x]
    else if x <= xs[0] then
      SortedCons(x, xs);
      [x] + xs
    else
      var rest := Insert(x, xs[1..]);
      assert |xs| > 1 ==> xs[0] <= xs[1];
      SortedCons(xs[0], rest);
      [xs[0]] + rest
  }

  lemma {:induction false} InsertCounts(x: nat, xs: seq<nat>)
    requires Sorted(xs)
    ensures multiset(Insert(x, xs)) == multiset(xs) + multiset{x}
    decreases |xs|
  {
    if |xs| > 0 && x > xs[0] {
      InsertCounts(x, xs[1..]);
      assert xs == [xs[0]] + xs[1..];
    }
  }

  /** `sorted(split_positions)`: an ordered permutation. */
  function SortPositions(xs: seq<nat>): (r: seq<nat>)
    ensures |r| == |xs| && Sorted(r) && multiset(r) == multiset(xs)
    decreases |xs|
  {
    if |xs| == 0 then []
    else
      var init := xs[..|xs| - 1];
      assert xs == init + [xs[|xs| - 1]];
      InsertCounts(xs[|xs| - 1], SortPositions(init));
      Insert(xs[|xs| - 1], SortPositions(init))
  }

  /** `[0] + sorted(positions) + [len(body)]`. */
  function Bounds(positions: seq<nat>, length: nat): (b: seq<nat>)
    ensures |b| == |positions| + 2 && b[0] == 0 && b[|b| - 1] == length
    ensures var inner := b[1..|b| - 1]; Sorted(inner) && multiset(inner) == multiset(positions)
    ensures (forall i :: 0 <= i < |positions| ==> positions[i] <= length) ==> GoodBounds(b, length)
  {
    var sorted := SortPositions(positions);
    var b := [0] + sorted + [length];
    assert b[1..|b| - 1] == sorted;
    assert (forall i :: 0 <= i < |positions| ==> positions[i] <= length) ==> GoodBounds(b, length) by {
      if forall i :: 0 <= i < |positions| ==> positions[i] <= length {
        BoundsWithin(positions, sorted, length);
        SortedCons(0, sorted + [length]);
        assert b == [0] + (sorted + [length]);
      }
    }
    b
  }

  /** A sorted rearrangement of positions within the body, followed by the body length, is sorted. */
  lemma BoundsWithin(positions: seq<nat>, sorted: seq<nat>, length: nat)
    requires forall i :: 0 <= i < |positions| ==> positions[i] <= length
    requires Sorted(sorted) && multiset(sorted) == multiset(positions)
    ensures Sorted(sorted + [length])
    ensures forall i :: 0 <= i < |sorted| ==> sorted[i] <= length
  {
    forall i | 0 <= i < |sorted| ensures sorted[i] <= length {
      assert sorted[i] in multiset(positions);
    }
    var s := sorted + [length];
    forall i, j | 0 <= i < j < |s| ensures s[i] <= s[j] {
      if j == |sorted| {
        assert s[i] == sorted[i];
      } else {
        assert s[i] == sorted[i] && s[j] == sorted[j];
      }
    }
  }

  /* ---------------------------------------------------------------- */
  /* Segments                                                         */
  /* ---------------------------------------------------------------- */

  /** A kept segment: its index among the gaps and its bounds in the body. */
  datatype Part = Part(index: nat, lo: nat, hi: nat)

  /** At least two bounds, in order, all within the body: what `Bounds` makes of positions within the body. */
  predicate GoodBounds(b: seq<nat>, length: nat)
  {
    |b| >= 2 && Sorted(b) && forall i :: 0 <= i < |b| ==> b[i] <= length
  }

  /** The text a part holds: its slice of the body, stripped. */
  function PartText(body: string, p: Part): string
  {
    Strip(Slice(body, p.lo, p.hi))
  }

  /** The segment between bounds `i` and `i + 1`, unless its slice is blank. */
  function Segment(body: string, b: seq<nat>, i: nat): (r: seq<Part>)
    requires i + 1 < |b|
    ensures |r| <= 1
    ensures |r| == 1 ==> r[0] == Part(i, b[i], b[i + 1])
  {
    if IsBlank(Slice(body, b[i], b[i + 1])) then [] else [Part(i, b[i], b[i + 1])]
  }

  /** The part of gap `i`, when there is one, is a segment of the first `i + 1` gaps. */
  lemma SegmentKept(body: string, b: seq<nat>, i: nat)
    requires i + 1 < |b| && |Segment(body, b, i)| == 1
    ensures SegmentOf(body, b, i + 1, Segment(body, b, i)[0])
  {
  }

  /**
   * The kept segments among the first `n` gaps, in order: the indices
   * strictly increase, so a blank segment leaves a gap in the numbering.
   */
  function Segments(body: string, b: seq<nat>, n: nat): (r: seq<Part>)
    requires n < |b|
    ensures forall k :: 0 <= k < |r| ==> r[k].index < n
    decreases n
  {
    if n == 0 then [] else Segments(body, b, n - 1) + Segment(body, b, n - 1)
  }

  /** Part indices that strictly increase along the sequence. */
  predicate Increasing(parts: seq<Part>)
  {
    forall k, l :: 0 <= k < l < |parts| ==> parts[k].index < parts[l].index
  }

  /** The indices of the kept parts strictly increase. */
  lemma {:induction false} SegmentsIncreasing(body: string, b: seq<nat>, n: nat)
    requires n < |b|
    ensures Increasing(Segments(body, b, n))
    decreases n
  {
    if n > 0 {
      var prev := Segments(body, b, n - 1);
      var r := Segments(body, b, n);
      SegmentsIncreasing(body, b, n - 1);
      forall k, l | 0 <= k < l < |r|
        ensures r[k].index < r[l].index
      {
        SegmentsAt(body, b, n, k);
        SegmentsAt(body, b, n, l);
      }
    }
  }

  /** One more gap adds a part unless its stripped slice is empty. */
  lemma SegmentsStep(body: string, b: seq<nat>, i: nat)
    requires i + 1 < |b|
    ensures var p := Part(i, b[i], b[i + 1]);
            Segments(body, b, i + 1) == Segments(body, b, i) + (if PartText(body, p) == "" then [] else [p])
  {
    StripEmptyIff(Slice(body, b[i], b[i + 1]));
  }

  /** `p` is one of the first `n` gaps, and its slice is not blank. */
  predicate SegmentOf(body: string, b: seq<nat>, n: nat, p: Part)
  {
    p.index < n && p.index + 1 < |b| && p.lo == b[p.index] && p.hi == b[p.index + 1] &&
    !IsBlank(Slice(body, p.lo, p.hi))
  }

  /** A kept part never holds empty text. */
  lemma PartTextNotEmpty(body: string, b: seq<nat>, n: nat, p: Part)
    requires SegmentOf(body, b, n, p)
    ensures PartText(body, p) != ""
  {
    StripEmptyIff(Slice(body, p.lo, p.hi));
  }

  /** Each kept part is the non-blank slice of its own gap. */
  lemma {:induction false} SegmentsAreSlices(body: string, b: seq<nat>, n: nat, k: nat)
    requires n < |b| && k < |Segments(body, b, n)|
    ensures SegmentOf(body, b, n, Segments(body, b, n)[k])
    decreases n
  {
    if k < |Segments(body, b, n - 1)| {
      SegmentsAreSlices(body, b, n - 1, k);
    }
    SegmentsSliceStep(body, b, n, k);
  }

  /** If the earlier parts are segments, part `k` among the first `n` gaps is one too. */
  lemma SegmentsSliceStep(body: string, b: seq<nat>, n: nat, k: nat)
    requires 0 < n < |b| && k < |Segments(body, b, n)|
    requires var prev := Segments(body, b, n - 1);
             k < |prev| ==> SegmentOf(body, b, n - 1, prev[k])
    ensures SegmentOf(body, b, n, Segments(body, b, n)[k])
  {
    var prev := Segments(body, b, n - 1);
    var last := Segment(body, b, n - 1);
    assert |Segments(body, b, n)| == |prev| + |last| &&
           Segments(body, b, n)[k] == if k < |prev| then prev[k] else last[0] by {
      SegmentsAt(body, b, n, k);
    }
    if k < |prev| {
      SegmentOfWider(body, b, n - 1, prev[k]);
    } else {
      SegmentKept(body, b, n - 1);
    }
  }

  /** Part `k` among the first `n` gaps is an earlier part or the part of gap `n - 1`. */
  lemma SegmentsAt(body: string, b: seq<nat>, n: nat, k: nat)
    requires 0 < n < |b| && k < |Segments(body, b, n)|
    ensures var prev := Segments(body, b, n - 1);
            |Segments(body, b, n)| == |prev| + |Segment(body, b, n - 1)| &&
            Segments(body, b, n)[k] == if k < |prev| then prev[k] else Segment(body, b, n - 1)[0]
  {
    var prev := Segments(body, b, n - 1);
    var last := Segment(body, b, n - 1);
    assert Segments(body, b, n) == prev + last;
  }

  lemma SegmentOfWider(body: string, b: seq<nat>, n: nat, p: Part)
    requires SegmentOf(body, b, n, p)
    ensures SegmentOf(body, b, n + 1, p)
  {
  }

  /** Every gap whose slice is not blank gives a part: only blank segments are dropped. */
  lemma {:induction false} SegmentsKeepNonBlank(body: string, b: seq<nat>, n: nat, i: nat)
    requires i < n < |b|
    requires !IsBlank(Slice(body, b[i], b[i + 1]))
    ensures HasPart(Segments(body, b, n), i)
    decreases n
  {
    var prev := Segments(body, b, n - 1);
    var last := Segment(body, b, n - 1);
    var r := Segments(body, b, n);
    assert r == prev + last;
    if i < n - 1 {
      SegmentsKeepNonBlank(body, b, n - 1, i);
      HasPartExtended(prev, last, i);
    } else {
      HasPartAppended(prev, last, i);
    }
  }

  /** Within good bounds the parts follow one another through the body without overlapping. */
  lemma PartsOrdered(body: string, b: seq<nat>, n: nat, k: nat, l: nat)
    requires GoodBounds(b, |body|) && n < |b| && k < l < |Segments(body, b, n)|
    ensures |body| > 0
    ensures var parts := Segments(body, b, n);
            parts[k].lo <= parts[k].hi <= parts[l].lo <= parts[l].hi <= |body|
  {
    var parts := Segments(body, b, n);
    SegmentsIncreasing(body, b, n);
    SegmentsAreSlices(body, b, n, k);
    SegmentsAreSlices(body, b, n, l);
    SlicesOrdered(body, b, n, parts[k], parts[l]);
  }

  /** Two gaps in index order lie in the same order in the body. */
  lemma SlicesOrdered(body: string, b: seq<nat>, n: nat, p: Part, q: Part)
    requires GoodBounds(b, |body|) && SegmentOf(body, b, n, p) && SegmentOf(body, b, n, q)
    requires p.index < q.index
    ensures |body| > 0
    ensures p.lo <= p.hi <= q.lo <= q.hi <= |body|
  {
    assert b[p.index] <= b[p.index + 1];
    assert p.index + 1 == q.index || b[p.index + 1] <= b[q.index];
    assert b[q.index] <= b[q.index + 1] <= |body|;
  }

  lemma HasPartExtended(parts: seq<Part>, more: seq<Part>, i: nat)
    requires HasPart(parts, i)
    ensures HasPart(parts + more, i)
  {
    var k :| 0 <= k < |parts| && parts[k].index == i;
    assert (parts + more)[k] == parts[k];
  }

  lemma HasPartAppended(parts: seq<Part>, more: seq<Part>, i: nat)
    requires |more| == 1 && more[0].index == i
    ensures HasPart(parts + more, i)
  {
    assert (parts + more)[|parts|] == more[0];
  }

  /** Some part comes from gap `i`. */
  predicate HasPart(parts: seq<Part>, i: nat)
  {
    exists k :: 0 <= k < |parts| && parts[k].index == i
  }

  /** `f"{stem}-part{i+1}{ext}"` in the inbox directory. */
  function PartPath(dir: string, stem: string, ext: string, p: Part): string
  {
    NumberedPath(dir, stem + "-part", p.index + 1, ext)
  }

  lemma PartPathInjective(dir: string, stem: string, ext: string, p: Part, q: Part)
    requires PartPath(dir, stem, ext, p) == PartPath(dir, stem, ext, q)
    ensures p.index == q.index
  {
    var x, i, j := stem + "-part", p.index + 1, q.index + 1;
    assert NumberedPath(dir, x, i, ext) == NumberedPath(dir, x, j, ext);
    NumberedPathInjective(dir, x, i, j, ext);
  }

  /** The start of the recording shifted by the fraction `p / length` of its duration, in whole seconds. */
  function Interpolate(start: int, total: int, p: nat, length: nat): int
    requires length > 0
  {
    start + (total * p) / length
  }

  lemma MulStep(d: int, x: int, y: int)
    requires d > 0 && x < y
    ensures d * x + d <= d * y
  {
    var k := y - x;
    assert d * y == d * x + d * k;
    assert d * k == d + d * (k - 1);
    assert d * (k - 1) >= 0;
  }

  lemma DivMonotone(a: int, b: int, d: int)
    requires a <= b && d > 0
    ensures a / d <= b / d
  {
    var q1, q2 := a / d, b / d;
    assert a == d * q1 + a % d && 0 <= a % d < d;
    assert b == d * q2 + b % d && 0 <= b % d < d;
    if q1 > q2 {
      MulStep(d, q2, q1);
      assert false;
    }
  }

  lemma MulMonotone(t: nat, p: nat, q: nat)
    requires p <= q
    ensures t * p <= t * q
  {
    assert t * q == t * p + t * (q - p);
  }

  /** Interpolated times never decrease along the body and stay within the recording. */
  lemma InterpolateWithin(start: int, total: nat, p: nat, q: nat, length: nat)
    requires length > 0 && p <= q <= length
    ensures start <= Interpolate(start, total, p, length) <= Interpolate(start, total, q, length) <= start + total
  {
    MulMonotone(total, p, q);
    MulMonotone(total, q, length);
    DivMonotone(0, total * p, length);
    DivMonotone(total * p, total * q, length);
    DivMonotone(total * q, total * length, length);
    assert (total * length) / length == total by {
      var t := total * length;
      assert t == length * total + 0;
    }
  }

}
