/** Inclusive line ranges: merging, coverage, and the bytes a set of windows costs. */
module LineRanges {
  import opened Octets

  datatype Range = Range(lo: int, hi: int)

  predicate Within(r: Range, line: int) {
    r.lo <= line <= r.hi
  }

  ghost predicate Covers(ranges: seq<Range>, line: int) {
    exists i :: 0 <= i < |ranges| && Within(ranges[i], line)
  }

  /** Between two pieces lies at least one line that neither touches. */
  ghost predicate Separated(ranges: seq<Range>) {
    forall i, j :: 0 <= i < j < |ranges| ==> ranges[i].hi + 1 < ranges[j].lo
  }

  ghost predicate NonEmpty(ranges: seq<Range>) {
    forall i :: 0 <= i < |ranges| ==> ranges[i].lo <= ranges[i].hi
  }

  // ---------------------------------------------------------------- sorting pairs

  /** Tuple order. */
  predicate AtMost(a: Range, b: Range) {
    a.lo < b.lo || (a.lo == b.lo && a.hi <= b.hi)
  }

  ghost predicate Ordered(s: seq<Range>) {
    forall i, j :: 0 <= i < j < |s| ==> AtMost(s[i], s[j])
  }

  function Insert(r: Range, s: seq<Range>): (t: seq<Range>)
    ensures multiset(t) == multiset{r} + multiset(s)
  {
    if s == [] then [r]
    else if AtMost(r, s[0]) then [r] + s
    else
      assert s == [s[0]] + s[1..];
      [s[0]] + Insert(r, s[1..])
  }

  lemma {:induction false} InsertOrders(r: Range, s: seq<Range>)
    requires Ordered(s)
    ensures Ordered(Insert(r, s))
  {
    if s != [] && !AtMost(r, s[0]) {
      var t := Insert(r, s[1..]);
      InsertOrders(r, s[1..]);
      forall i | 0 <= i < |t| ensures AtMost(s[0], t[i]) {
        assert t[i] in multiset(t);
        assert t[i] == r || t[i] in s[1..];
      }
    }
  }

  /** The ranges in tuple order, as the built-in sort leaves them. */
  function Sort(s: seq<Range>): (t: seq<Range>)
    ensures Ordered(t) && multiset(t) == multiset(s)
  {
    if s == [] then [] else
      assert s == [s[0]] + s[1..];
      InsertOrders(s[0], Sort(s[1..]));
      Insert(s[0], Sort(s[1..]))
  }

  lemma SameLines(s: seq<Range>, t: seq<Range>, line: int)
    requires multiset(s) == multiset(t) && Covers(s, line)
    ensures Covers(t, line)
  {
    var i :| 0 <= i < |s| && Within(s[i], line);
    assert s[i] in multiset(t);
    var j :| 0 <= j < |t| && t[j] == s[i];
  }

  // ---------------------------------------------------------------- merging

  /** One more range, in order, joined to the last piece when they overlap or touch. */
  function Extend(merged: seq<Range>, r: Range): seq<Range> {
    var n := |merged|;
    if n > 0 && r.lo <= merged[n - 1].hi + 1
    then merged[n - 1 := merged[n - 1].(hi := if r.hi > merged[n - 1].hi then r.hi else merged[n - 1].hi)]
    else merged + [r]
  }

  function MergeOrdered(s: seq<Range>): seq<Range> {
    if s == [] then [] else Extend(MergeOrdered(s[..|s| - 1]), s[|s| - 1])
  }

  function Merge(ranges: seq<Range>): seq<Range> {
    MergeOrdered(Sort(ranges))
  }

  /** Merging, by extending the last piece in place. */
  method MergeRanges(ranges: seq<Range>) returns (merged: seq<Range>)
    ensures merged == Merge(ranges)
  {
    hide Sort;
    var ordered := Sort(ranges);
    merged := [];
    for i := 0 to |ordered|
      invariant merged == MergeOrdered(ordered[..i])
    {
      assert ordered[..i + 1][..i] == ordered[..i];
      var r := ordered[i];
      if |merged| > 0 && r.lo <= merged[|merged| - 1].hi + 1 {
        var last := merged[|merged| - 1];
        merged := merged[|merged| - 1 := last.(hi := if r.hi > last.hi then r.hi else last.hi)];
      } else {
        merged := merged + [r];
      }
    }
    assert ordered[..|ordered|] == ordered;
  }

  /** What the merged pieces of an ordered list keep: separation, and starts no later than the last range's. */
  ghost predicate Merging(merged: seq<Range>, s: seq<Range>) {
    && Separated(merged)
    && (forall i :: 0 <= i < |merged| ==> s != [] && merged[i].lo <= s[|s| - 1].lo)
    && (forall line :: Covers(merged, line) <==> Covers(s, line))
    && (NonEmpty(s) ==> NonEmpty(merged))
  }

  lemma {:induction false} MergeOrderedKeeps(s: seq<Range>)
    requires Ordered(s)
    ensures Merging(MergeOrdered(s), s)
  {
    if s != [] {
      var front, r := s[..|s| - 1], s[|s| - 1];
      MergeOrderedKeeps(front);
      ExtendSeparates(MergeOrdered(front), front, r);
      forall line ensures Covers(Extend(MergeOrdered(front), r), line) <==> Covers(s, line) {
        ExtendCovers(MergeOrdered(front), r, line);
        CoversSnoc(front, r, line);
      }
      assert s == front + [r];
    }
  }

  lemma CoversSnoc(s: seq<Range>, r: Range, line: int)
    ensures Covers(s + [r], line) <==> Covers(s, line) || Within(r, line)
  {
    if Covers(s, line) {
      var i :| 0 <= i < |s| && Within(s[i], line);
      assert Within((s + [r])[i], line);
    }
    assert (s + [r])[|s|] == r;
  }

  lemma ExtendSeparates(merged: seq<Range>, s: seq<Range>, r: Range)
    requires Merging(merged, s) && Ordered(s + [r])
    ensures Separated(Extend(merged, r)) && (NonEmpty(s + [r]) ==> NonEmpty(Extend(merged, r)))
    ensures forall i :: 0 <= i < |Extend(merged, r)| ==> Extend(merged, r)[i].lo <= r.lo
  {
    assert forall i :: 0 <= i < |s| ==> (s + [r])[i] == s[i];
    assert (s + [r])[|s|] == r;
    assert s != [] ==> AtMost((s + [r])[|s| - 1], (s + [r])[|s|]);
  }

  lemma ExtendCovers(merged: seq<Range>, r: Range, line: int)
    requires forall i :: 0 <= i < |merged| ==> merged[i].lo <= r.lo
    ensures Covers(Extend(merged, r), line) <==> Covers(merged, line) || Within(r, line)
  {
    var n := |merged|;
    if n > 0 && r.lo <= merged[n - 1].hi + 1 {
      var e := Extend(merged, r);
      assert Within(e[n - 1], line) <==> Within(merged[n - 1], line) || Within(r, line);
      forall i | 0 <= i < n - 1 ensures e[i] == merged[i] {}
      if Covers(merged, line) {
        var i :| 0 <= i < n && Within(merged[i], line);
        assert Within(e[i], line);
      }
    } else {
      CoversSnoc(merged, r, line);
    }
  }

  /** Merging covers exactly the lines of its input, in pieces separated by uncovered lines. */
  lemma MergeKeepsLines(ranges: seq<Range>)
    ensures Separated(Merge(ranges))
    ensures forall line :: Covers(Merge(ranges), line) <==> Covers(ranges, line)
    ensures NonEmpty(ranges) ==> NonEmpty(Merge(ranges))
  {
    var s := Sort(ranges);
    MergeOrderedKeeps(s);
    forall line ensures Covers(Merge(ranges), line) <==> Covers(ranges, line) {
      if Covers(ranges, line) {
        SameLines(ranges, s, line);
      }
      if Covers(s, line) {
        SameLines(s, ranges, line);
      }
    }
    if NonEmpty(ranges) {
      forall i | 0 <= i < |s| ensures s[i].lo <= s[i].hi {
        assert s[i] in multiset(ranges);
      }
    }
  }

  /** Separated non-empty pieces are determined by the lines they cover, so merging depends on nothing else. */
  lemma {:induction false} PiecesUnique(a: seq<Range>, b: seq<Range>)
    requires Separated(a) && Separated(b) && NonEmpty(a) && NonEmpty(b)
    requires forall line :: Covers(a, line) <==> Covers(b, line)
    ensures a == b
  {
    assert b != [] ==> Within(b[0], b[0].lo) && Covers(b, b[0].lo);
    if a != [] {
      assert Within(a[0], a[0].lo);
      assert Covers(b, a[0].lo);
      FirstPiece(a, b);
      FirstPiece(b, a);
      forall line ensures Covers(a[1..], line) <==> Covers(b[1..], line) {
        RestCovers(a, line);
        RestCovers(b, line);
      }
      PiecesUnique(a[1..], b[1..]);
    }
  }

  lemma FirstPiece(a: seq<Range>, b: seq<Range>)
    requires a != [] && b != [] && Separated(a) && Separated(b) && NonEmpty(a) && NonEmpty(b)
    requires forall line :: Covers(a, line) <==> Covers(b, line)
    ensures a[0].lo <= b[0].lo && (a[0].lo == b[0].lo ==> a[0].hi <= b[0].hi)
  {
    assert Within(b[0], b[0].lo);
    assert Covers(a, b[0].lo);
    GapFollows(b);
    var next := b[0].hi + 1;
    assert !Covers(a, next);
    assert !Within(a[0], next);
  }

  lemma GapFollows(b: seq<Range>)
    requires b != [] && Separated(b)
    ensures !Covers(b, b[0].hi + 1)
  {
  }

  lemma RestCovers(a: seq<Range>, line: int)
    requires a != [] && Separated(a) && NonEmpty(a)
    ensures Covers(a[1..], line) <==> Covers(a, line) && line > a[0].hi
  {
    if Covers(a[1..], line) {
      var i :| 0 <= i < |a| - 1 && Within(a[1..][i], line);
      assert Within(a[i + 1], line);
    }
    if Covers(a, line) && line > a[0].hi {
      var i :| 0 <= i < |a| && Within(a[i], line);
      assert Within(a[1..][i - 1], line);
    }
  }

  /** The order and the repetition of ranges never matter, only the lines. */
  lemma MergeCanonical(a: seq<Range>, b: seq<Range>)
    requires NonEmpty(a) && NonEmpty(b) && forall line :: Covers(a, line) <==> Covers(b, line)
    ensures Merge(a) == Merge(b)
  {
    MergeKeepsLines(a);
    MergeKeepsLines(b);
    PiecesUnique(Merge(a), Merge(b));
  }

  // ---------------------------------------------------------------- coverage of a span

  predicate SpanFullyCovered(start: int, end: int, merged: seq<Range>) {
    exists i :: 0 <= i < |merged| && merged[i].lo <= start && end <= merged[i].hi
  }

  /** One piece contains a span exactly when every line of the span is covered. */
  lemma SpanCoveredLineByLine(start: int, end: int, merged: seq<Range>)
    requires start <= end && Separated(merged)
    ensures SpanFullyCovered(start, end, merged) <==> forall line :: start <= line <= end ==> Covers(merged, line)
  {
    if SpanFullyCovered(start, end, merged) {
      var i :| 0 <= i < |merged| && merged[i].lo <= start && end <= merged[i].hi;
      forall line | start <= line <= end ensures Covers(merged, line) {
        assert Within(merged[i], line);
      }
    }
    if forall line :: start <= line <= end ==> Covers(merged, line) {
      assert Covers(merged, start);
      var i :| 0 <= i < |merged| && Within(merged[i], start);
      if merged[i].hi < end {
        assert Covers(merged, merged[i].hi + 1);
      }
    }
  }

  lemma ExtendReaches(merged: seq<Range>, r: Range, start: int, end: int)
    requires end < start && forall i :: 0 <= i < |merged| ==> merged[i].lo <= r.lo
    ensures SpanFullyCovered(start, end, Extend(merged, r)) <==> SpanFullyCovered(start, end, merged) || (r.lo <= start && end <= r.hi)
  {
    var e, n := Extend(merged, r), |merged|;
    if n > 0 && r.lo <= merged[n - 1].hi + 1 {
      assert forall i :: 0 <= i < n - 1 ==> e[i] == merged[i];
      assert e[n - 1].lo == merged[n - 1].lo && e[n - 1].hi >= merged[n - 1].hi && e[n - 1].hi >= r.hi;
    } else {
      SpanSnoc(merged, r, start, end);
    }
  }

  lemma SpanSnoc(s: seq<Range>, r: Range, start: int, end: int)
    ensures SpanFullyCovered(start, end, s + [r]) <==> SpanFullyCovered(start, end, s) || (r.lo <= start && end <= r.hi)
  {
    var t := s + [r];
    assert t[|s|] == r && forall i :: 0 <= i < |s| ==> t[i] == s[i];
  }

  lemma {:induction false} MergeReaches(s: seq<Range>, start: int, end: int)
    requires Ordered(s) && end < start
    ensures SpanFullyCovered(start, end, MergeOrdered(s)) <==> SpanFullyCovered(start, end, s)
  {
    if s != [] {
      var front, r := s[..|s| - 1], s[|s| - 1];
      assert s == front + [r];
      MergeReaches(front, start, end);
      MergeOrderedKeeps(front);
      assert front != [] ==> AtMost(s[|front| - 1], s[|front|]);
      ExtendReaches(MergeOrdered(front), r, start, end);
      SpanSnoc(front, r, start, end);
    }
  }

  /** A span with lines is covered when each of them is; a span without lines when a single range reaches from its start to its end. */
  lemma SpanCoveredExactly(start: int, end: int, ranges: seq<Range>)
    ensures SpanFullyCovered(start, end, Merge(ranges))
       <==> if start <= end then forall line :: start <= line <= end ==> Covers(ranges, line)
            else SpanFullyCovered(start, end, ranges)
  {
    MergeKeepsLines(ranges);
    if start <= end {
      SpanCoveredLineByLine(start, end, Merge(ranges));
    } else {
      MergeReaches(Sort(ranges), start, end);
      SameRanges(Sort(ranges), ranges, start, end);
    }
  }

  lemma SameRanges(s: seq<Range>, t: seq<Range>, start: int, end: int)
    requires multiset(s) == multiset(t)
    ensures SpanFullyCovered(start, end, s) <==> SpanFullyCovered(start, end, t)
  {
    assert forall r :: r in s <==> r in multiset(s);
    assert forall r :: r in t <==> r in multiset(t);
    if i :| 0 <= i < |s| && s[i].lo <= start && end <= s[i].hi {
      assert s[i] in t;
    }
    if i :| 0 <= i < |t| && t[i].lo <= start && end <= t[i].hi {
      assert t[i] in s;
    }
  }

  /** Coverage departs from its line-by-line reading exactly for spans without lines that no range reaches across. */
  lemma EmptySpansDepart(start: int, end: int, ranges: seq<Range>)
    ensures (SpanFullyCovered(start, end, Merge(ranges)) <==> forall line :: start <= line <= end ==> Covers(ranges, line))
       <==> start <= end || SpanFullyCovered(start, end, ranges)
  {
    SpanCoveredExactly(start, end, ranges);
  }

  // ---------------------------------------------------------------- bytes read

  /** The lines of a file, each with its ending. */
  type Lines = seq<Bytes>

  /** The bytes of lines start to end, counted from 1 and clamped to the file. */
  function ReadLineWindow(lines: Lines, start: int, end: int): Bytes {
    var lo := if start > 1 then start else 1;
    var hi := if end < |lines| then end else |lines|;
    if lo > hi then [] else Joined(lines[lo - 1..hi])
  }

  /** The bytes of the covered lines among the first n, each line counted once. */
  ghost function CoveredBytes(lines: Lines, ranges: seq<Range>, n: nat): nat
    requires n <= |lines|
  {
    if n == 0 then 0 else CoveredBytes(lines, ranges, n - 1) + if Covers(ranges, n) then |lines[n - 1]| else 0
  }

  function WindowBytes(lines: Lines, merged: seq<Range>): nat {
    if merged == [] then 0
    else
      var r := merged[|merged| - 1];
      WindowBytes(lines, merged[..|merged| - 1]) + |ReadLineWindow(lines, r.lo, r.hi)|
  }

  lemma CoversOne(r: Range, line: int)
    ensures Covers([r], line) <==> Within(r, line)
  {
    assert [r][0] == r;
  }

  lemma {:induction false} CoveredBytesAdd(lines: Lines, front: seq<Range>, r: Range, n: nat)
    requires n <= |lines| && forall i :: 0 <= i < |front| ==> front[i].hi < r.lo
    ensures CoveredBytes(lines, front + [r], n) == CoveredBytes(lines, front, n) + CoveredBytes(lines, [r], n)
  {
    if n > 0 {
      CoveredBytesAdd(lines, front, r, n - 1);
      CoversSnoc(front, r, n);
      CoversOne(r, n);
    }
  }

  lemma {:induction false} WindowIsCovered(lines: Lines, r: Range, n: nat)
    requires n <= |lines|
    ensures var lo, hi := if r.lo > 1 then r.lo else 1, if r.hi < n then r.hi else n;
            CoveredBytes(lines, [r], n) == if lo > hi then 0 else |Joined(lines[lo - 1..hi])|
  {
    if n > 0 {
      WindowIsCovered(lines, r, n - 1);
      CoversOne(r, n);
      var lo := if r.lo > 1 then r.lo else 1;
      if lo <= n <= r.hi {
        assert lines[lo - 1..n][..n - lo] == lines[lo - 1..n - 1];
      }
    }
  }

  /** Reading the pieces costs each covered line once, however many ranges touched it. */
  lemma {:induction false} WindowsReadOnce(lines: Lines, merged: seq<Range>)
    requires Separated(merged)
    ensures WindowBytes(lines, merged) == CoveredBytes(lines, merged, |lines|)
  {
    if merged == [] {
      NothingCovered(lines, |lines|);
    } else {
      var front, r := merged[..|merged| - 1], merged[|merged| - 1];
      WindowsReadOnce(lines, front);
      CoveredBytesAdd(lines, front, r, |lines|);
      WindowIsCovered(lines, r, |lines|);
      assert merged == front + [r];
    }
  }

  lemma {:induction false} NothingCovered(lines: Lines, n: nat)
    requires n <= |lines|
    ensures CoveredBytes(lines, [], n) == 0
  {
    if n > 0 {
      NothingCovered(lines, n - 1);
    }
  }

  lemma {:induction false} CoveredBytesGrow(lines: Lines, a: seq<Range>, b: seq<Range>, n: nat)
    requires n <= |lines| && forall line :: Covers(a, line) ==> Covers(b, line)
    ensures CoveredBytes(lines, a, n) <= CoveredBytes(lines, b, n) <= |Joined(lines[..n])|
  {
    if n > 0 {
      CoveredBytesGrow(lines, a, b, n - 1);
      assert lines[..n][..n - 1] == lines[..n - 1];
    }
  }
}
