/** The artifact-guided arm of the benchmark: windows around pointers, what they cover and what they cost. */
module EvalArms {
  import opened LineRanges
  import opened Lexical
  import Octets
  import opened Text

  datatype Pointer = Pointer(file: string, line: int)

  datatype Span = Span(path: string, start: int, end: int)

  /** One artifact kind found on disk: its size and the pointers its entries match. */
  datatype Artifact = Artifact(size: nat, matches: seq<Pointer>)

  datatype Answer = Answer(covered: bool, artifactBytes: nat, spanBytes: nat)

  /** The files of the repository that can be read, as lines. */
  type Tree = map<string, Lines>

  // ---------------------------------------------------------------- windows

  function Window(line: int, window: nat): Range {
    Range(if line - window > 1 then line - window else 1, line + window)
  }

  /** The windows around the pointers into one file, in pointer order. */
  function Windows(pointers: seq<Pointer>, file: string, window: nat): seq<Range> {
    if pointers == [] then []
    else
      var last := pointers[|pointers| - 1];
      Windows(pointers[..|pointers| - 1], file, window) + if last.file == file then [Window(last.line, window)] else []
  }

  function Files(pointers: seq<Pointer>): set<string> {
    set p | p in pointers :: p.file
  }

  method GroupByFile(pointers: seq<Pointer>, window: nat) returns (byFile: map<string, seq<Range>>)
    ensures byFile.Keys == Files(pointers)
    ensures forall file :: file in byFile ==> byFile[file] == Windows(pointers, file, window)
  {
    hide Window, Windows, Files;
    NoPointers(window);
    byFile := map[];
    for i := 0 to |pointers|
      invariant byFile.Keys == Files(pointers[..i])
      invariant forall file :: Windows(pointers[..i], file, window) == if file in byFile then byFile[file] else []
    {
      NextPointer(pointers, i, window);
      var p := pointers[i];
      byFile := byFile[p.file := (if p.file in byFile then byFile[p.file] else []) + [Window(p.line, window)]];
    }
    assert pointers[..|pointers|] == pointers;
  }

  lemma NoPointers(window: nat)
    ensures Files([]) == {} && forall file :: Windows([], file, window) == []
  {
  }

  lemma NextPointer(pointers: seq<Pointer>, i: nat, window: nat)
    requires i < |pointers|
    ensures Files(pointers[..i + 1]) == Files(pointers[..i]) + {pointers[i].file}
    ensures forall file :: Windows(pointers[..i + 1], file, window)
                        == Windows(pointers[..i], file, window) + if pointers[i].file == file then [Window(pointers[i].line, window)] else []
  {
    assert pointers[..i + 1][..i] == pointers[..i];
    assert pointers[..i + 1] == pointers[..i] + [pointers[i]];
  }

  // ---------------------------------------------------------------- what the arm answers

  /** Every golden span lies in one merged window of its file. */
  predicate SpansCovered(pointers: seq<Pointer>, spans: seq<Span>, window: nat) {
    forall i :: 0 <= i < |spans| ==>
      && spans[i].path in Files(pointers)
      && SpanFullyCovered(spans[i].start, spans[i].end, Merge(Windows(pointers, spans[i].path, window)))
  }

  /** The bytes read from some files: their merged windows, nothing for a file that is gone. */
  function ReadBytes(files: seq<string>, pointers: seq<Pointer>, tree: Tree, window: nat): nat {
    if files == [] then 0
    else
      var file := files[|files| - 1];
      ReadBytes(files[..|files| - 1], pointers, tree, window) + FileBytes(tree, file, Merge(Windows(pointers, file, window)))
  }

  function FileBytes(tree: Tree, file: string, merged: seq<Range>): nat {
    if file in tree then WindowBytes(tree[file], merged) else 0
  }

  method CountFileBytes(tree: Tree, file: string, merged: seq<Range>) returns (bytes: nat)
    ensures bytes == FileBytes(tree, file, merged)
  {
    if file !in tree {
      return 0;
    }
    var lines := tree[file];
    bytes := 0;
    for i := 0 to |merged|
      invariant bytes == WindowBytes(lines, merged[..i])
    {
      assert merged[..i + 1][..i] == merged[..i];
      bytes := bytes + |ReadLineWindow(lines, merged[i].lo, merged[i].hi)|;
    }
    assert merged[..|merged|] == merged;
  }

  /** Kinds are tried in order; the first with a match stops the search. Missing kinds cost nothing. */
  method Search(kinds: seq<Option<Artifact>>) returns (artifactBytes: nat, pointers: seq<Pointer>)
    ensures artifactBytes == SearchBytes(kinds) && pointers == FirstMatches(kinds)
  {
    artifactBytes, pointers := 0, [];
    for i := 0 to |kinds|
      invariant artifactBytes + SearchBytes(kinds[i..]) == SearchBytes(kinds)
      invariant pointers == [] && FirstMatches(kinds[i..]) == FirstMatches(kinds)
    {
      if kinds[i].Some? {
        artifactBytes := artifactBytes + kinds[i].value.size;
        if kinds[i].value.matches != [] {
          return artifactBytes, kinds[i].value.matches;
        }
      }
    }
  }

  function FirstMatches(kinds: seq<Option<Artifact>>): seq<Pointer> {
    if kinds == [] then []
    else if kinds[0].Some? && kinds[0].value.matches != [] then kinds[0].value.matches
    else FirstMatches(kinds[1..])
  }

  function SearchBytes(kinds: seq<Option<Artifact>>): nat {
    if kinds == [] then 0
    else if kinds[0].None? then SearchBytes(kinds[1..])
    else kinds[0].value.size + if kinds[0].value.matches != [] then 0 else SearchBytes(kinds[1..])
  }

  /** The sizes of the artifacts that are there. */
  function Sizes(kinds: seq<Option<Artifact>>): nat {
    if kinds == [] then 0
    else Sizes(kinds[..|kinds| - 1]) + if kinds[|kinds| - 1].Some? then kinds[|kinds| - 1].value.size else 0
  }

  predicate Matches(kind: Option<Artifact>) {
    kind.Some? && kind.value.matches != []
  }

  lemma {:induction false} SizesFirst(kinds: seq<Option<Artifact>>)
    requires kinds != []
    ensures Sizes(kinds) == (if kinds[0].Some? then kinds[0].value.size else 0) + Sizes(kinds[1..])
  {
    if |kinds| > 1 {
      SizesFirst(kinds[..|kinds| - 1]);
      assert kinds[..|kinds| - 1][1..] == kinds[1..][..|kinds| - 2];
    }
  }

  /** The search stops at the first kind that matches, takes its matches, and pays for the artifacts up to it; if none matches, for all. */
  lemma {:induction false} SearchSays(kinds: seq<Option<Artifact>>) returns (k: nat)
    ensures k <= |kinds| && forall i :: 0 <= i < k ==> !Matches(kinds[i])
    ensures k < |kinds| ==> Matches(kinds[k]) && FirstMatches(kinds) == kinds[k].value.matches && SearchBytes(kinds) == Sizes(kinds[..k + 1])
    ensures k == |kinds| ==> FirstMatches(kinds) == [] && SearchBytes(kinds) == Sizes(kinds)
  {
    if kinds == [] {
      k := 0;
    } else if Matches(kinds[0]) {
      k := 0;
      assert kinds[..1] == [kinds[0]] && [kinds[0]][..0] == [];
    } else {
      k := SearchSays(kinds[1..]);
      SizesFirst(kinds);
      if k < |kinds| - 1 {
        SizesFirst(kinds[..k + 2]);
        assert kinds[..k + 2][1..] == kinds[1..][..k + 1];
      }
      k := k + 1;
    }
  }

  /** Merges each file's windows and reads exactly those lines of it. */
  method ReadFiles(files: seq<string>, pointers: seq<Pointer>, byFile: map<string, seq<Range>>, tree: Tree, window: nat)
    returns (windows: map<string, seq<Range>>, spanBytes: nat)
    requires forall k :: 0 <= k < |files| ==> files[k] in byFile && byFile[files[k]] == Windows(pointers, files[k], window)
    ensures forall k :: 0 <= k < |files| ==> files[k] in windows
    ensures forall file :: file in windows ==> file in files && windows[file] == Merge(Windows(pointers, file, window))
    ensures spanBytes == ReadBytes(files, pointers, tree, window)
  {
    hide Windows, Merge, FileBytes;
    spanBytes, windows := 0, map[];
    for i := 0 to |files|
      invariant spanBytes == ReadBytes(files[..i], pointers, tree, window)
      invariant forall k :: 0 <= k < i ==> files[k] in windows
      invariant forall file :: file in windows ==> file in files && windows[file] == Merge(Windows(pointers, file, window))
    {
      assert files[..i + 1][..i] == files[..i];
      var merged := MergeRanges(byFile[files[i]]);
      windows := windows[files[i] := merged];
      var fileBytes := CountFileBytes(tree, files[i], merged);
      spanBytes := spanBytes + fileBytes;
    }
    assert files[..|files|] == files;
  }

  method ArmAAnswer(kinds: seq<Option<Artifact>>, spans: seq<Span>, tree: Tree, window: nat) returns (r: Answer)
    ensures var pointers := FirstMatches(kinds);
            r == if pointers == [] then Answer(false, SearchBytes(kinds), 0)
                 else Answer(SpansCovered(pointers, spans, window), SearchBytes(kinds),
                             ReadBytes(Ascend(Files(pointers)), pointers, tree, window))
  {
    hide Windows, Merge, Ascend, ReadBytes, SearchBytes, FirstMatches;
    var artifactBytes, pointers := Search(kinds);
    if pointers == [] {
      return Answer(false, artifactBytes, 0);
    }
    var byFile := GroupByFile(pointers, window);
    var files := Ascend(byFile.Keys);
    assert forall k :: 0 <= k < |files| ==> files[k] in files;
    var windows, spanBytes := ReadFiles(files, pointers, byFile, tree, window);
    assert windows.Keys == byFile.Keys;
    var covered := forall i :: 0 <= i < |spans| ==>
                     spans[i].path in windows && SpanFullyCovered(spans[i].start, spans[i].end, windows[spans[i].path]);
    r := Answer(covered, artifactBytes, spanBytes);
  }

  // ---------------------------------------------------------------- what it means

  /** A line of a file is near a pointer when it lies within the window around it. */
  ghost predicate Near(pointers: seq<Pointer>, file: string, line: int, window: nat) {
    exists k :: 0 <= k < |pointers| && pointers[k].file == file && Within(Window(pointers[k].line, window), line)
  }

  lemma {:induction false} WindowsCoverNear(pointers: seq<Pointer>, file: string, line: int, window: nat)
    ensures Covers(Windows(pointers, file, window), line) <==> Near(pointers, file, line, window)
  {
    if pointers != [] {
      var front, last := pointers[..|pointers| - 1], pointers[|pointers| - 1];
      WindowsCoverNear(front, file, line, window);
      if last.file == file {
        CoversSnoc(Windows(front, file, window), Window(last.line, window), line);
      } else {
        assert Windows(pointers, file, window) == Windows(front, file, window);
      }
      assert Near(front, file, line, window) ==> Near(pointers, file, line, window) by {
        if Near(front, file, line, window) {
          var k :| 0 <= k < |front| && front[k].file == file && Within(Window(front[k].line, window), line);
          assert pointers[k] == front[k];
        }
      }
      if Near(pointers, file, line, window) {
        var k :| 0 <= k < |pointers| && pointers[k].file == file && Within(Window(pointers[k].line, window), line);
        assert k < |front| ==> front[k] == pointers[k];
      }
    }
  }

  ghost predicate SpanNear(pointers: seq<Pointer>, span: Span, window: nat) {
    forall line :: span.start <= line <= span.end ==> Near(pointers, span.path, line, window)
  }

  lemma OneSpan(pointers: seq<Pointer>, span: Span, window: nat)
    requires span.start <= span.end
    ensures SpanNear(pointers, span, window)
       <==> span.path in Files(pointers)
            && SpanFullyCovered(span.start, span.end, Merge(Windows(pointers, span.path, window)))
  {
    var ranges := Windows(pointers, span.path, window);
    MergeKeepsLines(ranges);
    SpanCoveredLineByLine(span.start, span.end, Merge(ranges));
    forall line ensures Covers(Merge(ranges), line) <==> Near(pointers, span.path, line, window) {
      WindowsCoverNear(pointers, span.path, line, window);
    }
    if SpanNear(pointers, span, window) {
      assert Near(pointers, span.path, span.start, window);
      var k :| 0 <= k < |pointers| && pointers[k].file == span.path;
      assert pointers[k] in pointers;
    }
  }

  lemma NearWidens(pointers: seq<Pointer>, file: string, line: int, narrow: nat, wide: nat)
    requires narrow <= wide && Near(pointers, file, line, narrow)
    ensures Near(pointers, file, line, wide)
  {
    var k :| 0 <= k < |pointers| && pointers[k].file == file && Within(Window(pointers[k].line, narrow), line);
    assert Within(Window(pointers[k].line, wide), line);
  }

  /** A pointer's window reaches from the start of a span to its end. */
  ghost predicate Reached(pointers: seq<Pointer>, span: Span, window: nat) {
    exists k :: 0 <= k < |pointers| && pointers[k].file == span.path && Reaches(Window(pointers[k].line, window), span)
  }

  predicate Reaches(r: Range, span: Span) {
    r.lo <= span.start && span.end <= r.hi
  }

  lemma {:induction false} WindowsReach(pointers: seq<Pointer>, span: Span, window: nat)
    ensures SpanFullyCovered(span.start, span.end, Windows(pointers, span.path, window)) <==> Reached(pointers, span, window)
  {
    if pointers != [] {
      var front, last := pointers[..|pointers| - 1], pointers[|pointers| - 1];
      WindowsReach(front, span, window);
      ReachedSnoc(front, last, span, window);
      assert pointers == front + [last];
      if last.file == span.path {
        SpanSnoc(Windows(front, span.path, window), Window(last.line, window), span.start, span.end);
      } else {
        assert Windows(pointers, span.path, window) == Windows(front, span.path, window);
      }
    }
  }

  lemma ReachedSnoc(front: seq<Pointer>, last: Pointer, span: Span, window: nat)
    ensures Reached(front + [last], span, window)
       <==> Reached(front, span, window) || (last.file == span.path && Reaches(Window(last.line, window), span))
  {
    var pointers := front + [last];
    assert pointers[|front|] == last && forall k :: 0 <= k < |front| ==> pointers[k] == front[k];
    hide Window, Reaches;
  }

  /** When one span is covered: every line of it is near a pointer, or, if it has none, one window reaches across it. */
  ghost predicate SpanMet(pointers: seq<Pointer>, span: Span, window: nat) {
    if span.start <= span.end then SpanNear(pointers, span, window) else Reached(pointers, span, window)
  }

  lemma OneSpanExactly(pointers: seq<Pointer>, span: Span, window: nat)
    ensures SpanMet(pointers, span, window)
       <==> span.path in Files(pointers)
            && SpanFullyCovered(span.start, span.end, Merge(Windows(pointers, span.path, window)))
  {
    if span.start <= span.end {
      OneSpan(pointers, span, window);
    } else {
      SpanCoveredExactly(span.start, span.end, Windows(pointers, span.path, window));
      WindowsReach(pointers, span, window);
      if Reached(pointers, span, window) {
        var k :| 0 <= k < |pointers| && pointers[k].file == span.path && Reaches(Window(pointers[k].line, window), span);
        assert pointers[k] in pointers;
      }
    }
  }

  lemma MetWidens(pointers: seq<Pointer>, span: Span, narrow: nat, wide: nat)
    requires narrow <= wide && SpanMet(pointers, span, narrow)
    ensures SpanMet(pointers, span, wide)
  {
    if span.start <= span.end {
      forall line | span.start <= line <= span.end ensures Near(pointers, span.path, line, wide) {
        NearWidens(pointers, span.path, line, narrow, wide);
      }
    } else {
      var k :| 0 <= k < |pointers| && pointers[k].file == span.path && Reaches(Window(pointers[k].line, narrow), span);
      assert Reaches(Window(pointers[k].line, wide), span);
    }
  }

  /** A question is covered exactly when each golden span is met by the windows around the pointers into its file. */
  lemma CoveredMeansNear(pointers: seq<Pointer>, spans: seq<Span>, window: nat)
    ensures SpansCovered(pointers, spans, window) <==> forall i :: 0 <= i < |spans| ==> SpanMet(pointers, spans[i], window)
  {
    hide Merge, Windows, SpanMet, SpanFullyCovered, Files;
    forall i | 0 <= i < |spans|
      ensures SpanMet(pointers, spans[i], window)
         <==> spans[i].path in Files(pointers)
              && SpanFullyCovered(spans[i].start, spans[i].end, Merge(Windows(pointers, spans[i].path, window)))
    {
      OneSpanExactly(pointers, spans[i], window);
    }
  }

  /** A line is near when it is a line at all and lies within the window of a pointer into the file. */
  lemma NearIsDistance(pointers: seq<Pointer>, file: string, line: int, window: nat)
    ensures Near(pointers, file, line, window)
       <==> line >= 1 && exists k :: 0 <= k < |pointers| && pointers[k].file == file && pointers[k].line - window <= line <= pointers[k].line + window
  {
    if k :| 0 <= k < |pointers| && pointers[k].file == file && pointers[k].line - window <= line <= pointers[k].line + window {
      assert line >= 1 ==> Within(Window(pointers[k].line, window), line);
    }
  }

  /** A window reaches across a span when the span starts at a line, no earlier than the window, and ends no later. */
  lemma ReachedIsDistance(pointers: seq<Pointer>, span: Span, window: nat)
    ensures Reached(pointers, span, window)
       <==> span.start >= 1 && exists k :: 0 <= k < |pointers| && pointers[k].file == span.path
                                           && pointers[k].line - window <= span.start && span.end <= pointers[k].line + window
  {
    if k :| 0 <= k < |pointers| && pointers[k].file == span.path
            && pointers[k].line - window <= span.start && span.end <= pointers[k].line + window {
      assert span.start >= 1 ==> Reaches(Window(pointers[k].line, window), span);
    }
  }

  /** A wider window can only gain coverage, whatever the spans. */
  lemma WideningNeverLoses(pointers: seq<Pointer>, spans: seq<Span>, narrow: nat, wide: nat)
    requires narrow <= wide && SpansCovered(pointers, spans, narrow)
    ensures SpansCovered(pointers, spans, wide)
  {
    CoveredMeansNear(pointers, spans, narrow);
    CoveredMeansNear(pointers, spans, wide);
    hide SpansCovered, SpanMet;
    forall i | 0 <= i < |spans| ensures SpanMet(pointers, spans[i], wide) {
      MetWidens(pointers, spans[i], narrow, wide);
    }
  }

  /** The bytes of the lines near pointers, over some files, each line once. */
  ghost function NearBytes(files: seq<string>, pointers: seq<Pointer>, tree: Tree, window: nat): nat {
    if files == [] then 0
    else
      var file := files[|files| - 1];
      NearBytes(files[..|files| - 1], pointers, tree, window)
      + if file in tree then CoveredBytes(tree[file], Windows(pointers, file, window), |tree[file]|) else 0
  }

  /** No line's bytes are counted twice: what the windows cost is the size of the lines near pointers. */
  lemma {:induction false} BytesCountedOnce(files: seq<string>, pointers: seq<Pointer>, tree: Tree, window: nat)
    ensures ReadBytes(files, pointers, tree, window) == NearBytes(files, pointers, tree, window)
  {
    if files != [] {
      var file := files[|files| - 1];
      BytesCountedOnce(files[..|files| - 1], pointers, tree, window);
      if file in tree {
        var ranges := Windows(pointers, file, window);
        MergeKeepsLines(ranges);
        WindowsReadOnce(tree[file], Merge(ranges));
        CoveredBytesGrow(tree[file], ranges, Merge(ranges), |tree[file]|);
        CoveredBytesGrow(tree[file], Merge(ranges), ranges, |tree[file]|);
      }
    }
  }

  /** A wider window costs at least as much, and never more than the files themselves. */
  lemma {:induction false} WideningCosts(files: seq<string>, pointers: seq<Pointer>, tree: Tree, narrow: nat, wide: nat)
    requires narrow <= wide
    ensures ReadBytes(files, pointers, tree, narrow) <= ReadBytes(files, pointers, tree, wide) <= WholeBytes(files, tree)
  {
    BytesCountedOnce(files, pointers, tree, narrow);
    BytesCountedOnce(files, pointers, tree, wide);
    NearBytesGrow(files, pointers, tree, narrow, wide);
  }

  ghost function WholeBytes(files: seq<string>, tree: Tree): nat {
    if files == [] then 0
    else
      var file := files[|files| - 1];
      WholeBytes(files[..|files| - 1], tree) + if file in tree then |Octets.Joined(tree[file])| else 0
  }

  lemma {:induction false} NearBytesGrow(files: seq<string>, pointers: seq<Pointer>, tree: Tree, narrow: nat, wide: nat)
    requires narrow <= wide
    ensures NearBytes(files, pointers, tree, narrow) <= NearBytes(files, pointers, tree, wide) <= WholeBytes(files, tree)
  {
    if files != [] {
      var file := files[|files| - 1];
      NearBytesGrow(files[..|files| - 1], pointers, tree, narrow, wide);
      if file in tree {
        var a, b := Windows(pointers, file, narrow), Windows(pointers, file, wide);
        forall line | Covers(a, line) ensures Covers(b, line) {
          WindowsCoverNear(pointers, file, line, narrow);
          NearWidens(pointers, file, line, narrow, wide);
          WindowsCoverNear(pointers, file, line, wide);
        }
        CoveredBytesGrow(tree[file], a, b, |tree[file]|);
        assert tree[file][..|tree[file]|] == tree[file];
      }
    }
  }
}
