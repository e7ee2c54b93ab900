/** Rewriting stale digests in a record's text, around spans that must not change. */
module DeclaredPins {
  import opened JsonScan
  import opened JsonTree
  import opened Octets

  /** A half-open range of bytes. */
  datatype Span = Span(start: nat, end: nat)

  predicate Inside(s: Span, i: int) {
    s.start <= i < s.end
  }

  // ---------------------------------------------------------------- finding text

  predicate Occurs(text: Bytes, i: nat, pattern: Bytes) {
    i + |pattern| <= |text| && text[i..i + |pattern|] == pattern
  }

  /** The first place at or after a position where a pattern occurs. */
  function Find(text: Bytes, pattern: Bytes, from: nat): (r: nat)
    requires from <= |text|
    ensures from <= r <= |text|
    ensures r < |text| ==> Occurs(text, r, pattern)
    ensures forall i :: from <= i < r ==> !Occurs(text, i, pattern)
    decreases |text| - from
  {
    if from == |text| || Occurs(text, from, pattern) then from else Find(text, pattern, from + 1)
  }

  /** The places where a pattern occurs, leftmost first, none overlapping the one before. */
  function Matches(text: Bytes, pattern: Bytes, from: nat): (m: seq<nat>)
    requires from <= |text| && pattern != []
    ensures forall k :: 0 <= k < |m| ==> from <= m[k] && Occurs(text, m[k], pattern)
    ensures forall j, k :: 0 <= j < k < |m| ==> m[j] + |pattern| <= m[k]
    decreases |text| - from
  {
    var i := Find(text, pattern, from);
    if i == |text| then [] else [i] + Matches(text, pattern, i + |pattern|)
  }

  // ---------------------------------------------------------------- replacing outside spans

  predicate Protected(protected: seq<Span>, i: nat) {
    exists k :: 0 <= k < |protected| && Inside(protected[k], i)
  }

  /** Matches of a size from a position on, within a length, none overlapping the one before. */
  predicate Apart(matches: seq<nat>, size: nat, last: nat, length: nat) {
    && (forall k :: 0 <= k < |matches| ==> last <= matches[k] && matches[k] + size <= length)
    && (forall j, k :: 0 <= j < k < |matches| ==> matches[j] + size <= matches[k])
  }

  /** The text from a position on, with the matches replaced unless they start inside a protected span. */
  function Rewrite(text: Bytes, matches: seq<nat>, size: nat, new_: Bytes, protected: seq<Span>, last: nat): Bytes
    requires last <= |text| && Apart(matches, size, last, |text|)
  {
    if matches == [] then text[last..]
    else if Protected(protected, matches[0]) then Rewrite(text, matches[1..], size, new_, protected, last)
    else text[last..matches[0]] + new_ + Rewrite(text, matches[1..], size, new_, protected, matches[0] + size)
  }

  lemma MatchesApart(text: Bytes, pattern: Bytes)
    requires pattern != []
    ensures Apart(Matches(text, pattern, 0), |pattern|, 0, |text|)
  {
    var m := Matches(text, pattern, 0);
    forall k | 0 <= k < |m| ensures m[k] + |pattern| <= |text| {
      assert Occurs(text, m[k], pattern);
    }
  }

  function ReplacedOutside(text: Bytes, old_: Bytes, new_: Bytes, protected: seq<Span>): Bytes
    requires old_ != []
  {
    MatchesApart(text, old_);
    Rewrite(text, Matches(text, old_, 0), |old_|, new_, protected, 0)
  }

  /** Replacement by appending to a buffer. */
  method ReplaceOutside(text: Bytes, old_: Bytes, new_: Bytes, protected: seq<Span>) returns (out: Bytes)
    requires old_ != []
    ensures out == ReplacedOutside(text, old_, new_, protected)
  {
    hide Matches, Protected, Rewrite, Apart;
    MatchesApart(text, old_);
    var matches := Matches(text, old_, 0);
    ghost var whole := ReplacedOutside(text, old_, new_, protected);
    assert matches[0..] == matches;
    out := [];
    var last: nat := 0;
    for k := 0 to |matches|
      invariant last <= |text| && Apart(matches[k..], |old_|, last, |text|)
      invariant out + Rewrite(text, matches[k..], |old_|, new_, protected, last) == whole
    {
      ApartRest(matches[k..], |old_|, last, |text|);
      var i := matches[k];
      assert matches[k..][0] == i && matches[k..][1..] == matches[k + 1..];
      RewriteFirst(text, matches[k..], |old_|, new_, protected, last);
      if Protected(protected, i) {
        continue;
      }
      ghost var rest := Rewrite(text, matches[k + 1..], |old_|, new_, protected, i + |old_|);
      assert out + (text[last..i] + new_ + rest) == out + text[last..i] + new_ + rest;
      out := out + text[last..i];
      out := out + new_;
      last := i + |old_|;
    }
    assert matches[|matches|..] == [];
    RewriteNone(text, |old_|, new_, protected, last);
    out := out + text[last..];
  }

  lemma RewriteNone(text: Bytes, size: nat, new_: Bytes, protected: seq<Span>, last: nat)
    requires last <= |text|
    ensures Apart([], size, last, |text|) && Rewrite(text, [], size, new_, protected, last) == text[last..]
  {
  }

  lemma ApartRest(matches: seq<nat>, size: nat, last: nat, length: nat)
    requires matches != [] && Apart(matches, size, last, length)
    ensures Apart(matches[1..], size, last, length) && Apart(matches[1..], size, matches[0] + size, length)
    ensures last <= matches[0] && matches[0] + size <= length
  {
    assert forall k :: 0 <= k < |matches| - 1 ==> matches[1..][k] == matches[k + 1];
  }

  // ---------------------------------------------------------------- what a replacement keeps

  lemma {:induction false} RewriteLength(text: Bytes, matches: seq<nat>, size: nat, new_: Bytes, protected: seq<Span>, last: nat)
    requires last <= |text| && Apart(matches, size, last, |text|) && |new_| == size
    ensures |Rewrite(text, matches, size, new_, protected, last)| == |text| - last
    decreases |matches|
  {
    if matches != [] {
      ApartRest(matches, size, last, |text|);
      RewriteLength(text, matches[1..], size, new_, protected, if Protected(protected, matches[0]) then last else matches[0] + size);
    }
  }

  /** A replaced match covers this byte. */
  ghost predicate Replaced(matches: seq<nat>, size: nat, protected: seq<Span>, i: int) {
    exists k :: 0 <= k < |matches| && !Protected(protected, matches[k]) && matches[k] <= i < matches[k] + size
  }

  lemma RestReplaced(matches: seq<nat>, size: nat, protected: seq<Span>, i: int)
    requires matches != []
    ensures Replaced(matches[1..], size, protected, i) ==> Replaced(matches, size, protected, i)
    ensures !Protected(protected, matches[0]) && matches[0] <= i < matches[0] + size ==> Replaced(matches, size, protected, i)
  {
    if Replaced(matches[1..], size, protected, i) {
      var k :| 0 <= k < |matches| - 1 && !Protected(protected, matches[1..][k]) && matches[1..][k] <= i < matches[1..][k] + size;
      assert matches[k + 1] == matches[1..][k];
    }
  }

  /** With equal lengths, a byte outside every replaced match keeps its offset and its value. */
  lemma {:induction false} RewriteKeeps(text: Bytes, matches: seq<nat>, size: nat, new_: Bytes, protected: seq<Span>, last: nat, i: nat)
    requires last <= i < |text| && Apart(matches, size, last, |text|) && |new_| == size
    requires !Replaced(matches, size, protected, i)
    ensures |Rewrite(text, matches, size, new_, protected, last)| == |text| - last
    ensures Rewrite(text, matches, size, new_, protected, last)[i - last] == text[i]
    decreases |matches|
  {
    RewriteLength(text, matches, size, new_, protected, last);
    if matches != [] {
      ApartRest(matches, size, last, |text|);
      RestReplaced(matches, size, protected, i);
      if Protected(protected, matches[0]) {
        RewriteKeeps(text, matches[1..], size, new_, protected, last, i);
      } else if matches[0] <= i {
        RewriteKeeps(text, matches[1..], size, new_, protected, matches[0] + size, i);
      }
    }
  }

  /** A match outside the protected spans is replaced where it stood. */
  lemma {:induction false} RewriteReplaces(text: Bytes, matches: seq<nat>, size: nat, new_: Bytes, protected: seq<Span>, last: nat, k: nat)
    requires last <= |text| && Apart(matches, size, last, |text|) && |new_| == size
    requires k < |matches| && !Protected(protected, matches[k])
    ensures last <= matches[k] && |Rewrite(text, matches, size, new_, protected, last)| == |text| - last
    ensures Occurs(Rewrite(text, matches, size, new_, protected, last), matches[k] - last, new_)
    decreases |matches|
  {
    hide *;
    RewriteLength(text, matches, size, new_, protected, last);
    ApartRest(matches, size, last, |text|);
    RewriteFirst(text, matches, size, new_, protected, last);
    var first := matches[0];
    if Protected(protected, first) {
      assert matches[1..][k - 1] == matches[k];
      RewriteReplaces(text, matches[1..], size, new_, protected, last, k - 1);
    } else {
      var rest := Rewrite(text, matches[1..], size, new_, protected, first + size);
      if k == 0 {
        OccursBetween(text[last..first], new_, rest);
      } else {
        assert matches[1..][k - 1] == matches[k];
        RewriteReplaces(text, matches[1..], size, new_, protected, first + size, k - 1);
        OccursAfter(text[last..first] + new_, rest, matches[k] - first - size, new_);
      }
    }
  }

  lemma RewriteFirst(text: Bytes, matches: seq<nat>, size: nat, new_: Bytes, protected: seq<Span>, last: nat)
    requires last <= |text| && matches != [] && Apart(matches, size, last, |text|)
    requires last <= matches[0] <= |text| - size
    requires Apart(matches[1..], size, last, |text|) && Apart(matches[1..], size, matches[0] + size, |text|)
    ensures Rewrite(text, matches, size, new_, protected, last)
         == if Protected(protected, matches[0]) then Rewrite(text, matches[1..], size, new_, protected, last)
            else text[last..matches[0]] + new_ + Rewrite(text, matches[1..], size, new_, protected, matches[0] + size)
  {
  }

  lemma OccursBetween(front: Bytes, pattern: Bytes, rest: Bytes)
    ensures Occurs(front + pattern + rest, |front|, pattern)
  {
    assert (front + pattern + rest)[|front|..|front| + |pattern|] == pattern;
  }

  lemma OccursAfter(front: Bytes, rest: Bytes, i: nat, pattern: Bytes)
    requires Occurs(rest, i, pattern)
    ensures Occurs(front + rest, |front| + i, pattern)
  {
    assert (front + rest)[|front| + i..|front| + i + |pattern|] == rest[i..i + |pattern|];
  }

  // ---------------------------------------------------------------- protected spans survive

  predicate IsHex(b: byte) {
    48 <= b <= 57 || 97 <= b <= 102
  }

  /** What a digest looks like in a record. */
  predicate IsSha256(s: Bytes) {
    |s| == 64 && forall i :: 0 <= i < |s| ==> IsHex(s[i])
  }

  /** Spans within the text, each opening with a brace. */
  ghost predicate Braced(text: Bytes, spans: seq<Span>) {
    forall k :: 0 <= k < |spans| ==> spans[k].start < spans[k].end <= |text| && text[spans[k].start] == OPEN_BRACE
  }

  /** No digest can reach from outside a protected span into it: it would have to contain the span's opening brace. */
  lemma StartsInside(text: Bytes, digest: Bytes, span: Span, m: nat, i: nat)
    requires IsSha256(digest) && Occurs(text, m, digest) && m <= i < m + |digest|
    requires Inside(span, i) && text[span.start] == OPEN_BRACE
    ensures Inside(span, m)
  {
    assert forall j :: m <= j < m + |digest| ==> text[j] == text[m..m + |digest|][j - m];
    assert forall j :: m <= j < m + |digest| ==> IsHex(text[j]);
    assert !IsHex(OPEN_BRACE);
  }

  lemma NoneReplacedInside(text: Bytes, old_: Bytes, spans: seq<Span>, k: nat, i: nat)
    requires IsSha256(old_) && Braced(text, spans) && k < |spans| && Inside(spans[k], i)
    ensures !Replaced(Matches(text, old_, 0), |old_|, spans, i)
  {
    var matches := Matches(text, old_, 0);
    forall j | 0 <= j < |matches| && matches[j] <= i < matches[j] + |old_|
      ensures Protected(spans, matches[j])
    {
      assert Occurs(text, matches[j], old_);
      StartsInside(text, old_, spans[k], matches[j], i);
    }
    hide Matches, Protected, IsSha256;
  }

  lemma SpanSurvives(text: Bytes, old_: Bytes, new_: Bytes, spans: seq<Span>, k: nat)
    requires IsSha256(old_) && IsSha256(new_) && Braced(text, spans) && k < |spans|
    ensures var out := ReplacedOutside(text, old_, new_, spans);
            |out| == |text| && out[spans[k].start..spans[k].end] == text[spans[k].start..spans[k].end]
  {
    MatchesApart(text, old_);
    RewriteLength(text, Matches(text, old_, 0), |old_|, new_, spans, 0);
    var out := ReplacedOutside(text, old_, new_, spans);
    forall i | spans[k].start <= i < spans[k].end ensures out[i] == text[i] {
      NoneReplacedInside(text, old_, spans, k, i);
      RewriteKeeps(text, Matches(text, old_, 0), |old_|, new_, spans, 0, i);
    }
  }

  datatype Replacement = Replacement(declared: Bytes, actual: Bytes)

  ghost predicate Digests(replacements: seq<Replacement>) {
    forall k :: 0 <= k < |replacements| ==> IsSha256(replacements[k].declared) && IsSha256(replacements[k].actual)
  }

  /** All replacements of a record, one after another over the changing text, around spans fixed at the start. */
  function RewriteAll(text: Bytes, replacements: seq<Replacement>, spans: seq<Span>): Bytes
    requires Digests(replacements)
    decreases |replacements|
  {
    if replacements == [] then text
    else
      assert IsSha256(replacements[0].declared);
      RewriteAll(ReplacedOutside(text, replacements[0].declared, replacements[0].actual, spans), replacements[1..], spans)
  }

  /** Through the whole sequence the text keeps its length and every protected span its bytes at its offsets. */
  lemma {:induction false} SpansSurvive(text: Bytes, replacements: seq<Replacement>, spans: seq<Span>, k: nat)
    requires Digests(replacements) && Braced(text, spans) && k < |spans|
    ensures var out := RewriteAll(text, replacements, spans);
            |out| == |text| && out[spans[k].start..spans[k].end] == text[spans[k].start..spans[k].end]
    decreases |replacements|
  {
    if replacements != [] {
      var r := replacements[0];
      assert IsSha256(r.declared) && IsSha256(r.actual);
      var next := ReplacedOutside(text, r.declared, r.actual, spans);
      SpanSurvives(text, r.declared, r.actual, spans, k);
      forall j | 0 <= j < |spans| ensures spans[j].start < spans[j].end <= |next| && next[spans[j].start] == OPEN_BRACE {
        SpanSurvives(text, r.declared, r.actual, spans, j);
        assert next[spans[j].start..spans[j].end][0] == text[spans[j].start..spans[j].end][0];
      }
      SpansSurvive(next, replacements[1..], spans, k);
    }
  }

  // ---------------------------------------------------------------- what becomes of a digest in the text

  /** A digest standing by itself, as between quotes or colons, outside the protected spans. */
  ghost predicate Token(text: Bytes, m: nat, digest: Bytes, spans: seq<Span>) {
    && IsSha256(digest) && Occurs(text, m, digest) && !Protected(spans, m)
    && (m > 0 ==> !IsHex(text[m - 1])) && (m + |digest| < |text| ==> !IsHex(text[m + |digest|]))
  }

  lemma OccursHex(text: Bytes, digest: Bytes, m: nat)
    requires IsSha256(digest) && Occurs(text, m, digest)
    ensures forall i :: m <= i < m + |digest| ==> IsHex(text[i])
  {
    assert forall i :: m <= i < m + |digest| ==> text[i] == text[m..m + |digest|][i - m];
  }

  /** A digest that occurs anywhere else does not overlap one that stands by itself. */
  lemma TokenAlone(text: Bytes, m: nat, digest: Bytes, spans: seq<Span>, other: Bytes, i: nat)
    requires Token(text, m, digest, spans) && IsSha256(other) && Occurs(text, i, other)
    ensures i < m + |digest| && m < i + |other| ==> i == m && other == digest
  {
    OccursHex(text, other, i);
  }

  lemma {:induction false} MatchFound(text: Bytes, pattern: Bytes, from: nat, m: nat)
    requires from <= m && pattern != [] && Occurs(text, m, pattern)
    requires forall i :: from <= i < m && Occurs(text, i, pattern) ==> i + |pattern| <= m
    ensures m in Matches(text, pattern, from)
    decreases |text| - from
  {
    var i := Find(text, pattern, from);
    if i < m {
      MatchFound(text, pattern, i + |pattern|, m);
    }
  }

  lemma ByteKept(text: Bytes, old_: Bytes, new_: Bytes, spans: seq<Span>, i: nat)
    requires IsSha256(old_) && IsSha256(new_) && i < |text|
    requires forall k :: 0 <= k && Occurs(text, k, old_) && k <= i < k + |old_| ==> Protected(spans, k)
    ensures var out := ReplacedOutside(text, old_, new_, spans); |out| == |text| && out[i] == text[i]
  {
    MatchesApart(text, old_);
    var matches := Matches(text, old_, 0);
    forall k | 0 <= k < |matches| && matches[k] <= i < matches[k] + |old_| ensures Protected(spans, matches[k]) {
      assert Occurs(text, matches[k], old_);
    }
    hide Matches, Rewrite, Protected, Occurs, IsSha256;
    RewriteKeeps(text, matches, |old_|, new_, spans, 0, i);
  }

  /** Bytes that are no digits of a digest are never touched. */
  lemma NonHexKept(text: Bytes, old_: Bytes, new_: Bytes, spans: seq<Span>, i: nat)
    requires IsSha256(old_) && IsSha256(new_) && i < |text| && !IsHex(text[i])
    ensures var out := ReplacedOutside(text, old_, new_, spans); |out| == |text| && out[i] == text[i]
  {
    forall k | 0 <= k && Occurs(text, k, old_) ensures !(k <= i < k + |old_|) {
      OccursHex(text, old_, k);
    }
    hide IsSha256, IsHex, Occurs, Protected;
    ByteKept(text, old_, new_, spans, i);
  }

  /** Digests that no unprotected occurrence of the old digest overlaps stay. */
  lemma OccurrenceKept(text: Bytes, m: nat, digest: Bytes, old_: Bytes, new_: Bytes, spans: seq<Span>)
    requires IsSha256(old_) && IsSha256(new_) && Occurs(text, m, digest)
    requires forall i :: 0 <= i && Occurs(text, i, old_) && i < m + |digest| && m < i + |old_| ==> Protected(spans, i)
    ensures |ReplacedOutside(text, old_, new_, spans)| == |text| && Occurs(ReplacedOutside(text, old_, new_, spans), m, digest)
  {
    LengthKept(text, old_, new_, spans);
    hide Protected, IsSha256, ReplacedOutside;
    var out := ReplacedOutside(text, old_, new_, spans);
    forall i | m <= i < m + |digest| ensures out[i] == text[i] {
      ByteKept(text, old_, new_, spans, i);
    }
    assert out[m..m + |digest|] == text[m..m + |digest|];
  }

  lemma LengthKept(text: Bytes, old_: Bytes, new_: Bytes, spans: seq<Span>)
    requires IsSha256(old_) && IsSha256(new_)
    ensures |ReplacedOutside(text, old_, new_, spans)| == |text|
  {
    MatchesApart(text, old_);
    RewriteLength(text, Matches(text, old_, 0), |old_|, new_, spans, 0);
  }

  lemma TokenReplaced(text: Bytes, m: nat, old_: Bytes, new_: Bytes, spans: seq<Span>)
    requires Token(text, m, old_, spans) && IsSha256(new_)
    ensures Occurs(ReplacedOutside(text, old_, new_, spans), m, new_)
  {
    MatchesApart(text, old_);
    forall i | 0 <= i < m && Occurs(text, i, old_) ensures i + |old_| <= m {
      TokenAlone(text, m, old_, spans, old_, i);
    }
    MatchFound(text, old_, 0, m);
    var k :| 0 <= k < |Matches(text, old_, 0)| && Matches(text, old_, 0)[k] == m;
    RewriteReplaces(text, Matches(text, old_, 0), |old_|, new_, spans, 0, k);
  }

  /** One replacement turns a digest standing by itself into the new one if it is the old one, and leaves it otherwise. */
  lemma TokenStep(text: Bytes, m: nat, digest: Bytes, r: Replacement, spans: seq<Span>)
    requires Token(text, m, digest, spans) && IsSha256(r.declared) && IsSha256(r.actual)
    ensures Token(ReplacedOutside(text, r.declared, r.actual, spans), m, if r.declared == digest then r.actual else digest, spans)
  {
    var out := ReplacedOutside(text, r.declared, r.actual, spans);
    LengthKept(text, r.declared, r.actual, spans);
    if m > 0 {
      NonHexKept(text, r.declared, r.actual, spans, m - 1);
    }
    if m + |digest| < |text| {
      NonHexKept(text, r.declared, r.actual, spans, m + |digest|);
    }
    if r.declared == digest {
      TokenReplaced(text, m, digest, r.actual, spans);
    } else {
      forall i | 0 <= i && Occurs(text, i, r.declared)
        ensures i < m + |digest| && m < i + |r.declared| ==> Protected(spans, i)
      {
        TokenAlone(text, m, digest, spans, r.declared, i);
      }
      hide ReplacedOutside, Protected, IsHex;
      OccurrenceKept(text, m, digest, r.declared, r.actual, spans);
    }
  }

  /** What a digest is turned into by a list of replacements, one after another. */
  function Chase(digest: Bytes, replacements: seq<Replacement>): Bytes
    decreases |replacements|
  {
    if replacements == [] then digest
    else Chase(if replacements[0].declared == digest then replacements[0].actual else digest, replacements[1..])
  }

  /** Wherever a digest stands by itself, the resynced text holds what the list of replacements turns it into. */
  lemma {:induction false} TokenChased(text: Bytes, m: nat, digest: Bytes, replacements: seq<Replacement>, spans: seq<Span>)
    requires Digests(replacements) && Token(text, m, digest, spans)
    ensures Token(RewriteAll(text, replacements, spans), m, Chase(digest, replacements), spans)
    decreases |replacements|
  {
    if replacements != [] {
      var r := replacements[0];
      assert IsSha256(r.declared) && IsSha256(r.actual);
      TokenStep(text, m, digest, r, spans);
      hide Token, IsSha256, ReplacedOutside;
      TokenChased(ReplacedOutside(text, r.declared, r.actual, spans), m, if r.declared == digest then r.actual else digest,
                  replacements[1..], spans);
    }
  }

  lemma {:induction false} ChaseStays(digest: Bytes, replacements: seq<Replacement>)
    requires forall k :: 0 <= k < |replacements| ==> replacements[k].declared != digest
    ensures Chase(digest, replacements) == digest
    decreases |replacements|
  {
    if replacements != [] {
      ChaseStays(digest, replacements[1..]);
    }
  }

  lemma {:induction false} ChaseConcat(digest: Bytes, first: seq<Replacement>, rest: seq<Replacement>)
    ensures Chase(digest, first + rest) == Chase(Chase(digest, first), rest)
    decreases |first|
  {
    if first == [] {
      assert first + rest == rest;
    } else {
      assert (first + rest)[1..] == first[1..] + rest;
      ChaseConcat(if first[0].declared == digest then first[0].actual else digest, first[1..], rest);
    }
  }

  lemma ChaseOne(digest: Bytes, r: Replacement)
    ensures Chase(digest, [r]) == if r.declared == digest then r.actual else digest
  {
    assert [r][1..] == [];
  }

  /** The text as it is after the first `j` replacements. */
  function After(text: Bytes, replacements: seq<Replacement>, j: nat, spans: seq<Span>): Bytes
    requires Digests(replacements) && j <= |replacements|
  {
    RewriteAll(text, replacements[..j], spans)
  }

  /** A digest standing by itself survives a list of replacements throughout exactly when none of them declares it. */
  lemma SurvivesExactly(text: Bytes, m: nat, digest: Bytes, replacements: seq<Replacement>, spans: seq<Span>)
    requires Digests(replacements) && Token(text, m, digest, spans)
    requires forall k :: 0 <= k < |replacements| ==> replacements[k].declared != replacements[k].actual
    ensures (forall j :: 0 <= j <= |replacements| ==> Occurs(After(text, replacements, j, spans), m, digest))
       <==> (forall k :: 0 <= k < |replacements| ==> replacements[k].declared != digest)
  {
    if forall k :: 0 <= k < |replacements| ==> replacements[k].declared != digest {
      forall j | 0 <= j <= |replacements| ensures Occurs(After(text, replacements, j, spans), m, digest) {
        TokenChased(text, m, digest, replacements[..j], spans);
        ChaseStays(digest, replacements[..j]);
      }
    } else {
      var k := FirstDeclaring(digest, replacements);
      var r := replacements[k];
      TokenChased(text, m, digest, replacements[..k + 1], spans);
      assert replacements[..k + 1] == replacements[..k] + [r];
      ChaseConcat(digest, replacements[..k], [r]);
      ChaseStays(digest, replacements[..k]);
      ChaseOne(digest, r);
      assert Occurs(After(text, replacements, k + 1, spans), m, r.actual);
      OccursOnce(After(text, replacements, k + 1, spans), m, r.actual, digest);
    }
  }

  lemma OccursOnce(text: Bytes, m: nat, a: Bytes, b: Bytes)
    requires |a| == |b|
    ensures Occurs(text, m, a) && Occurs(text, m, b) ==> a == b
  {
  }

  lemma {:induction false} FirstDeclaring(digest: Bytes, replacements: seq<Replacement>) returns (k: nat)
    requires exists k :: 0 <= k < |replacements| && replacements[k].declared == digest
    ensures k < |replacements| && replacements[k].declared == digest
    ensures forall i :: 0 <= i < k ==> replacements[i].declared != digest
    decreases |replacements|
  {
    if replacements[0].declared == digest {
      k := 0;
    } else {
      var w :| 0 <= w < |replacements| && replacements[w].declared == digest;
      assert replacements[1..][w - 1].declared == digest;
      k := FirstDeclaring(digest, replacements[1..]);
      k := k + 1;
    }
  }

  /**
   * Where a stale digest stands by itself, the resynced text holds the file's digest exactly when the later replacements
   * lead it back to itself. They do so at once when none of them declares it.
   */
  lemma RefreshedExactly(text: Bytes, m: nat, replacements: seq<Replacement>, k: nat, spans: seq<Span>)
    requires Digests(replacements) && k < |replacements| && Token(text, m, replacements[k].declared, spans)
    requires forall i, j :: 0 <= i < j < |replacements| ==> replacements[i].declared != replacements[j].declared
    ensures var actual, later := replacements[k].actual, replacements[k + 1..];
            && (Occurs(RewriteAll(text, replacements, spans), m, actual) <==> Chase(actual, later) == actual)
            && ((forall j :: 0 <= j < |later| ==> later[j].declared != actual) ==> Chase(actual, later) == actual)
  {
    var r, later := replacements[k], replacements[k + 1..];
    TokenChased(text, m, r.declared, replacements, spans);
    assert replacements == replacements[..k] + ([r] + later);
    ChaseConcat(r.declared, replacements[..k], [r] + later);
    ChaseStays(r.declared, replacements[..k]);
    ChaseConcat(r.declared, [r], later);
    ChaseOne(r.declared, r);
    assert IsSha256(r.actual);
    OccursOnce(RewriteAll(text, replacements, spans), m, r.actual, Chase(r.declared, replacements));
    if forall j :: 0 <= j < |later| ==> later[j].declared != r.actual {
      ChaseStays(r.actual, later);
    }
  }

  /** At no step of the sequence does an unprotected occurrence of the digest being replaced overlap the place. */
  ghost predicate NeverOverlapped(text: Bytes, m: nat, size: nat, replacements: seq<Replacement>, spans: seq<Span>)
    requires Digests(replacements)
    decreases |replacements|
  {
    replacements == [] ||
    (assert IsSha256(replacements[0].declared);
     && (forall i :: 0 <= i && Occurs(text, i, replacements[0].declared) && i < m + size && m < i + |replacements[0].declared|
           ==> Protected(spans, i))
     && NeverOverlapped(ReplacedOutside(text, replacements[0].declared, replacements[0].actual, spans), m, size, replacements[1..], spans))
  }

  /** Wherever a digest was written, next to whatever, it stays when no later digest replaced occurs in an overlapping place. */
  lemma {:induction false} WrittenStays(text: Bytes, m: nat, digest: Bytes, replacements: seq<Replacement>, spans: seq<Span>)
    requires Digests(replacements) && Occurs(text, m, digest) && NeverOverlapped(text, m, |digest|, replacements, spans)
    ensures Occurs(RewriteAll(text, replacements, spans), m, digest)
    decreases |replacements|
  {
    if replacements != [] {
      var r := replacements[0];
      assert IsSha256(r.declared) && IsSha256(r.actual);
      OccurrenceKept(text, m, digest, r.declared, r.actual, spans);
      WrittenStays(ReplacedOutside(text, r.declared, r.actual, spans), m, digest, replacements[1..], spans);
    }
  }

  // ---------------------------------------------------------------- finding the spans to protect

  /** Whether a text reads as an integration whose two lists cannot be paired. */
  type Unpaired = Bytes -> bool

  /** The state of the walk over the elements of an array. */
  datatype Walker = Walker(depth: nat, start: nat, inString: bool, escaped: bool)

  function InString(w: Walker, b: byte): Walker {
    if w.escaped then w.(escaped := false)
    else if b == BACKSLASH then w.(escaped := true)
    else if b == QUOTE then w.(inString := false)
    else w
  }

  /** The unpaired elements met from a position on, until the array closes. */
  function Walk(unpaired: Unpaired, text: Bytes, i: nat, w: Walker): seq<Span>
    requires w.start <= i <= |text|
    decreases |text| - i
  {
    if i == |text| then []
    else if w.inString then Walk(unpaired, text, i + 1, InString(w, text[i]))
    else if text[i] == QUOTE then Walk(unpaired, text, i + 1, w.(inString := true))
    else if text[i] == OPEN_BRACE || text[i] == OPEN_BRACKET then
      Walk(unpaired, text, i + 1, w.(depth := w.depth + 1, start := if w.depth == 0 && text[i] == OPEN_BRACE then i else w.start))
    else if text[i] == CLOSE_BRACE || text[i] == CLOSE_BRACKET then
      if w.depth == 0 then []
      else
        (if w.depth == 1 && text[i] == CLOSE_BRACE && unpaired(text[w.start..i + 1]) then [Span(w.start, i + 1)] else [])
        + Walk(unpaired, text, i + 1, w.(depth := w.depth - 1))
    else Walk(unpaired, text, i + 1, w)
  }

  /** The array walked is the first one that opens after the first mention of the key. */
  function UnpairedSpans(unpaired: Unpaired, key: Bytes, text: Bytes): seq<Span> {
    var named := Find(text, key, 0);
    var open := Find(text, [OPEN_BRACKET], named);
    if named == |text| || open == |text| then [] else Walk(unpaired, text, open + 1, Walker(0, 0, false, false))
  }

  method FindUnpairedSpans(unpaired: Unpaired, key: Bytes, text: Bytes) returns (spans: seq<Span>)
    ensures spans == UnpairedSpans(unpaired, key, text)
  {
    var named := Find(text, key, 0);
    if named == |text| {
      return [];
    }
    var open := Find(text, [OPEN_BRACKET], named);
    if open == |text| {
      return [];
    }
    spans := WalkFrom(unpaired, text, open + 1);
  }

  /** The walk as a loop over the bytes. */
  method WalkFrom(unpaired: Unpaired, text: Bytes, from: nat) returns (spans: seq<Span>)
    requires from <= |text|
    ensures spans == Walk(unpaired, text, from, Walker(0, 0, false, false))
  {
    ghost var whole := Walk(unpaired, text, from, Walker(0, 0, false, false));
    spans := [];
    var w := Walker(0, 0, false, false);
    for index := from to |text|
      invariant w.start <= index && spans + Walk(unpaired, text, index, w) == whole
    {
      var b := text[index];
      if w.inString {
        w := InString(w, b);
      } else if b == QUOTE {
        w := w.(inString := true);
      } else if b == OPEN_BRACE || b == OPEN_BRACKET {
        w := w.(depth := w.depth + 1, start := if w.depth == 0 && b == OPEN_BRACE then index else w.start);
      } else if b == CLOSE_BRACE || b == CLOSE_BRACKET {
        if w.depth == 0 {
          return;
        }
        w := w.(depth := w.depth - 1);
        if w.depth == 0 && b == CLOSE_BRACE && unpaired(text[w.start..index + 1]) {
          ghost var rest := Walk(unpaired, text, index + 1, w);
          assert spans + ([Span(w.start, index + 1)] + rest) == (spans + [Span(w.start, index + 1)]) + rest;
          spans := spans + [Span(w.start, index + 1)];
        }
      }
    }
  }

  // ---------------------------------------------------------------- the walk over a well-formed array

  /** The unpaired objects among an array's elements, by where their renderings lie. */
  ghost function ElementSpans(unpaired: Unpaired, items: seq<Item>, at: nat): seq<Span> {
    if items == [] then []
    else
      FirstSpan(unpaired, items[0], at)
      + ElementSpans(unpaired, items[1..], NextElement(items[0], at))
  }

  ghost function FirstSpan(unpaired: Unpaired, item: Item, at: nat): seq<Span> {
    var start := at + |item.before|;
    if item.value.Object? && unpaired(Render(item.value)) then [Span(start, start + |Render(item.value)|)] else []
  }

  /** Walking from i to j changes nothing and finds nothing. */
  ghost predicate Silent(unpaired: Unpaired, text: Bytes, i: nat, j: nat, w: Walker) {
    w.start <= i <= j <= |text| && Walk(unpaired, text, i, w) == Walk(unpaired, text, j, w)
  }

  predicate Plain(b: byte) {
    b != QUOTE && b != OPEN_BRACE && b != OPEN_BRACKET && b != CLOSE_BRACE && b != CLOSE_BRACKET
  }

  lemma {:induction false} WalkPlain(unpaired: Unpaired, text: Bytes, i: nat, s: Bytes, w: Walker)
    requires Holds(text, i, s) && (forall k :: 0 <= k < |s| ==> Plain(s[k])) && !w.inString && w.start <= i
    ensures Silent(unpaired, text, i, i + |s|, w)
    decreases |s|
  {
    if s != [] {
      HoldsHead(text, i, s);
      WalkPlain(unpaired, text, i + 1, s[1..], w);
    }
  }

  lemma {:induction false} WalkStringBody(unpaired: Unpaired, text: Bytes, i: nat, body: Bytes, w: Walker)
    requires Holds(text, i, body + [QUOTE]) && StringBody(body) && w.inString && !w.escaped && w.start <= i
    ensures i + |body| + 1 <= |text|
    ensures Walk(unpaired, text, i, w) == Walk(unpaired, text, i + |body| + 1, w.(inString := false))
    decreases |body|
  {
    HoldsHead(text, i, body + [QUOTE]);
    if body != [] {
      assert (body + [QUOTE])[1..] == body[1..] + [QUOTE];
      if body[0] == BACKSLASH {
        HoldsHead(text, i + 1, body[1..] + [QUOTE]);
        assert (body[1..] + [QUOTE])[1..] == body[2..] + [QUOTE];
        WalkStringBody(unpaired, text, i + 2, body[2..], w);
      } else {
        WalkStringBody(unpaired, text, i + 1, body[1..], w);
      }
    }
  }

  /** Brackets and escaped quotes inside a string are passed over. */
  lemma WalkQuoted(unpaired: Unpaired, text: Bytes, i: nat, body: Bytes, w: Walker)
    requires Holds(text, i, Quoted(body)) && StringBody(body) && !w.inString && !w.escaped && w.start <= i
    ensures Silent(unpaired, text, i, i + |Quoted(body)|, w)
  {
    HoldsHead(text, i, Quoted(body));
    assert Quoted(body)[1..] == body + [QUOTE];
    WalkStringBody(unpaired, text, i + 1, body, w.(inString := true));
  }

  ghost predicate Within(w: Walker, i: nat) {
    w.depth >= 1 && !w.inString && !w.escaped && w.start <= i
  }

  /** Inside an element a whole value is passed over: what it opens it closes. */
  lemma {:induction false} WalkValue(unpaired: Unpaired, text: Bytes, i: nat, n: Node, w: Walker)
    requires Holds(text, i, Render(n)) && WellFormed(n) && Within(w, i)
    ensures Silent(unpaired, text, i, i + |Render(n)|, w)
    decreases n, 0
  {
    match n
    case Scalar(token) => WalkPlain(unpaired, text, i, token, w);
    case Text(body) => WalkQuoted(unpaired, text, i, body, w);
    case List(pad, items) => WalkList(unpaired, text, i, pad, items, w);
    case Object(pad, members) => WalkObject(unpaired, text, i, pad, members, w);
  }

  lemma {:induction false} WalkList(unpaired: Unpaired, text: Bytes, i: nat, pad: Bytes, items: seq<Item>, w: Walker)
    requires Holds(text, i, Render(List(pad, items))) && JsonWs(pad) && WellFormedItems(items) && Within(w, i)
    ensures Silent(unpaired, text, i, i + |Render(List(pad, items))|, w)
    decreases items, 2
  {
    hide *;
    var inner := if items == [] then pad else RenderItems(items);
    ContainerText(pad, items, []);
    WalkInside(text, i, OPEN_BRACKET, inner, CLOSE_BRACKET);
    Deeper(w, i);
    WalkListBody(unpaired, text, i + 1, pad, items, w.(depth := w.depth + 1));
    WalkEnclosed(unpaired, text, i, i + 1 + |inner|, w);
  }

  lemma {:induction false} WalkObject(unpaired: Unpaired, text: Bytes, i: nat, pad: Bytes, members: seq<Member>, w: Walker)
    requires Holds(text, i, Render(Object(pad, members))) && JsonWs(pad) && WellFormedMembers(members) && Within(w, i)
    ensures Silent(unpaired, text, i, i + |Render(Object(pad, members))|, w)
    decreases members, 2
  {
    hide *;
    var inner := if members == [] then pad else RenderMembers(members);
    ContainerText(pad, [], members);
    WalkInside(text, i, OPEN_BRACE, inner, CLOSE_BRACE);
    Deeper(w, i);
    WalkObjectBody(unpaired, text, i + 1, pad, members, w.(depth := w.depth + 1));
    WalkEnclosed(unpaired, text, i, i + 1 + |inner|, w);
  }

  lemma Deeper(w: Walker, i: nat)
    requires Within(w, i)
    ensures Within(w.(depth := w.depth + 1), i + 1)
  {
  }

  /** Inside an element, what lies between an opening and a closing bracket is passed over with them. */
  lemma WalkEnclosed(unpaired: Unpaired, text: Bytes, i: nat, j: nat, w: Walker)
    requires Within(w, i) && Silent(unpaired, text, i + 1, j, w.(depth := w.depth + 1))
    requires At(text, i, OPEN_BRACE) || At(text, i, OPEN_BRACKET)
    requires At(text, j, CLOSE_BRACE) || At(text, j, CLOSE_BRACKET)
    ensures Silent(unpaired, text, i, j + 1, w)
  {
  }

  /** How a container's bytes divide. */
  lemma WalkInside(text: Bytes, i: nat, open: byte, inner: Bytes, close: byte)
    requires Holds(text, i, [open] + inner + [close])
    ensures At(text, i, open) && Holds(text, i + 1, inner) && At(text, i + 1 + |inner|, close)
  {
    HoldsSplit(text, i, [open] + inner, [close]);
    HoldsSplit(text, i, [open], inner);
    HoldsAt(text, i, open);
    HoldsAt(text, i + 1 + |inner|, close);
  }

  lemma {:induction false} WalkListBody(unpaired: Unpaired, text: Bytes, i: nat, pad: Bytes, items: seq<Item>, w: Walker)
    requires Holds(text, i, if items == [] then pad else RenderItems(items)) && JsonWs(pad) && WellFormedItems(items) && Within(w, i)
    ensures Silent(unpaired, text, i, i + |if items == [] then pad else RenderItems(items)|, w)
    decreases items, 1
  {
    if items == [] {
      WalkPlain(unpaired, text, i, pad, w);
    } else {
      WalkItems(unpaired, text, i, items, w);
    }
  }

  lemma {:induction false} WalkObjectBody(unpaired: Unpaired, text: Bytes, i: nat, pad: Bytes, members: seq<Member>, w: Walker)
    requires Holds(text, i, if members == [] then pad else RenderMembers(members))
    requires JsonWs(pad) && WellFormedMembers(members) && Within(w, i)
    ensures Silent(unpaired, text, i, i + |if members == [] then pad else RenderMembers(members)|, w)
    decreases members, 1
  {
    if members == [] {
      WalkPlain(unpaired, text, i, pad, w);
    } else {
      WalkMembers(unpaired, text, i, members, w);
    }
  }

  lemma SilentJoins(unpaired: Unpaired, text: Bytes, i: nat, j: nat, k: nat, w: Walker)
    requires Silent(unpaired, text, i, j, w) && Silent(unpaired, text, j, k, w)
    ensures Silent(unpaired, text, i, k, w)
  {
  }

  /** Whitespace, then a piece passed over, then whitespace and one more byte. */
  lemma WalkPadded(unpaired: Unpaired, text: Bytes, i: nat, before: Bytes, piece: Bytes, after: Bytes, w: Walker)
    requires Holds(text, i, before + piece) && Holds(text, i + |before| + |piece|, after) && JsonWs(before) && JsonWs(after)
    requires !w.inString && w.start <= i
    requires Holds(text, i + |before|, piece) ==> Silent(unpaired, text, i + |before|, i + |before| + |piece|, w)
    ensures Silent(unpaired, text, i, i + |before| + |piece| + |after|, w)
  {
    HoldsSplit(text, i, before, piece);
    WalkPlain(unpaired, text, i, before, w);
    WalkPlain(unpaired, text, i + |before| + |piece|, after, w);
  }

  /** Four stretches passed over in a row. */
  lemma SilentRun(unpaired: Unpaired, text: Bytes, i: nat, j: nat, k: nat, l: nat, m: nat, w: Walker)
    requires Silent(unpaired, text, i, j, w) && Silent(unpaired, text, j, k, w)
    requires Silent(unpaired, text, k, l, w) && Silent(unpaired, text, l, m, w)
    ensures Silent(unpaired, text, i, m, w)
  {
  }

  /** How the bytes of an array's elements divide: the first, and a comma before the rest. */
  lemma ItemsPart(text: Bytes, i: nat, items: seq<Item>)
    requires items != [] && Holds(text, i, RenderItems(items)) && WellFormedItems(items)
    ensures var item, j := items[0], i + |items[0].before|;
            var k := j + |Render(item.value)|;
            var l := k + |item.after|;
            && Holds(text, i, item.before) && Holds(text, j, Render(item.value)) && Holds(text, k, item.after)
            && JsonWs(item.before) && WellFormed(item.value) && JsonWs(item.after) && WellFormedItems(items[1..])
            && (if |items| == 1 then l == i + |RenderItems(items)|
                else Holds(text, l, [COMMA] + RenderItems(items[1..])) && l + 1 + |RenderItems(items[1..])| == i + |RenderItems(items)|)
  {
    hide *;
    ItemsUnfold(items);
    RenderItemsParts(items);
    PartsDivide(text, i, items[0].before, Render(items[0].value), items[0].after,
                if |items| == 1 then [] else [COMMA] + RenderItems(items[1..]));
  }

  lemma ItemsUnfold(items: seq<Item>)
    requires items != [] && WellFormedItems(items)
    ensures JsonWs(items[0].before) && WellFormed(items[0].value) && JsonWs(items[0].after) && WellFormedItems(items[1..])
  {
    hide JsonWs, WellFormed;
  }

  lemma RenderItemsParts(items: seq<Item>)
    requires items != []
    ensures RenderItems(items)
         == items[0].before + Render(items[0].value) + (items[0].after + if |items| == 1 then [] else [COMMA] + RenderItems(items[1..]))
  {
    hide Render;
  }

  lemma PartsDivide(text: Bytes, i: nat, before: Bytes, value: Bytes, after: Bytes, tail: Bytes)
    requires Holds(text, i, before + value + (after + tail))
    ensures Holds(text, i, before) && Holds(text, i + |before|, value) && Holds(text, i + |before| + |value|, after)
    ensures Holds(text, i + |before| + |value| + |after|, tail)
    ensures |before + value + (after + tail)| == |before| + |value| + |after| + |tail|
  {
    hide Holds;
    HoldsSplit(text, i, before + value, after + tail);
    HoldsSplit(text, i, before, value);
    HoldsSplit(text, i + |before + value|, after, tail);
  }

  lemma {:induction false} WalkItems(unpaired: Unpaired, text: Bytes, i: nat, items: seq<Item>, w: Walker)
    requires items != [] && Holds(text, i, RenderItems(items)) && WellFormedItems(items) && Within(w, i)
    ensures Silent(unpaired, text, i, i + |RenderItems(items)|, w)
    decreases items, 0
  {
    hide Walk, Holds, Silent, Render, RenderItems, JsonWs, WellFormed, WellFormedItems;
    ItemsPart(text, i, items);
    var j := i + |items[0].before|;
    var k := j + |Render(items[0].value)|;
    var l := k + |items[0].after|;
    WalkWs(unpaired, text, i, items[0].before, w);
    WalkValue(unpaired, text, j, items[0].value, w);
    WalkWs(unpaired, text, k, items[0].after, w);
    if |items| > 1 {
      WalkComma(unpaired, text, l, RenderItems(items[1..]), w);
      WalkItems(unpaired, text, l + 1, items[1..], w);
      SilentJoins(unpaired, text, l, l + 1, i + |RenderItems(items)|, w);
      SilentRun(unpaired, text, i, j, k, l, i + |RenderItems(items)|, w);
    } else {
      SilentJoins(unpaired, text, i, j, k, w);
      SilentJoins(unpaired, text, i, k, l, w);
    }
  }

  lemma WalkComma(unpaired: Unpaired, text: Bytes, i: nat, rest: Bytes, w: Walker)
    requires Holds(text, i, [COMMA] + rest) && !w.inString && w.start <= i
    ensures Silent(unpaired, text, i, i + 1, w) && Holds(text, i + 1, rest)
  {
    HoldsSplit(text, i, [COMMA], rest);
    WalkPlain(unpaired, text, i, [COMMA], w);
  }

  lemma MembersPart(text: Bytes, i: nat, members: seq<Member>)
    requires members != [] && Holds(text, i, RenderMembers(members)) && WellFormedMembers(members)
    ensures var m, k := members[0], i + |MemberText(members[0])|;
            var l := k + |m.after|;
            && Holds(text, i, MemberText(m)) && Holds(text, k, m.after)
            && WellFormedMember(m) && JsonWs(m.after) && WellFormedMembers(members[1..])
            && (if |members| == 1 then l == i + |RenderMembers(members)|
                else Holds(text, l, [COMMA] + RenderMembers(members[1..])) && l + 1 + |RenderMembers(members[1..])| == i + |RenderMembers(members)|)
  {
    hide *;
    MembersUnfold(members);
    RenderMembersParts(members);
    PartsDivide(text, i, [], MemberText(members[0]), members[0].after, if |members| == 1 then [] else [COMMA] + RenderMembers(members[1..]));
  }

  lemma RenderMembersParts(members: seq<Member>)
    requires members != []
    ensures RenderMembers(members)
         == [] + MemberText(members[0]) + (members[0].after + if |members| == 1 then [] else [COMMA] + RenderMembers(members[1..]))
  {
    hide MemberText;
    assert [] + MemberText(members[0]) == MemberText(members[0]);
  }

  lemma {:induction false} WalkMembers(unpaired: Unpaired, text: Bytes, i: nat, members: seq<Member>, w: Walker)
    requires members != [] && Holds(text, i, RenderMembers(members)) && WellFormedMembers(members) && Within(w, i)
    ensures Silent(unpaired, text, i, i + |RenderMembers(members)|, w)
    decreases members, 0
  {
    hide Walk, Holds, Silent, MemberText, RenderMembers, JsonWs, WellFormedMember, WellFormedMembers;
    MembersPart(text, i, members);
    var k := i + |MemberText(members[0])|;
    var l := k + |members[0].after|;
    WalkMember(unpaired, text, i, members[0], w);
    WalkWs(unpaired, text, k, members[0].after, w);
    if |members| > 1 {
      WalkComma(unpaired, text, l, RenderMembers(members[1..]), w);
      WalkMembers(unpaired, text, l + 1, members[1..], w);
      SilentRun(unpaired, text, i, k, l, l + 1, i + |RenderMembers(members)|, w);
    } else {
      SilentJoins(unpaired, text, i, k, l, w);
    }
  }

  lemma WalkWs(unpaired: Unpaired, text: Bytes, i: nat, s: Bytes, w: Walker)
    requires Holds(text, i, s) && JsonWs(s) && !w.inString && w.start <= i
    ensures Silent(unpaired, text, i, i + |s|, w)
  {
    WalkPlain(unpaired, text, i, s, w);
  }

  lemma {:induction false} WalkMember(unpaired: Unpaired, text: Bytes, i: nat, m: Member, w: Walker)
    requires Holds(text, i, MemberText(m)) && WellFormedMember(m) && Within(w, i)
    ensures Silent(unpaired, text, i, i + |MemberText(m)|, w)
    decreases m.value, 2
  {
    hide Walk, Holds, Silent, Render, JsonWs, Quoted, WellFormed;
    var name, value := Quoted(m.name), Render(m.value);
    HoldsSplit(text, i, m.before + name, m.beforeColon + ([COLON] + (m.afterColon + value)));
    var j := i + |m.before + name|;
    HoldsSplit(text, j, m.beforeColon, [COLON] + (m.afterColon + value));
    HoldsSplit(text, i, m.before, name);
    WalkQuoted(unpaired, text, i + |m.before|, m.name, w);
    WalkPadded(unpaired, text, i, m.before, name, m.beforeColon, w);
    var k := j + |m.beforeColon|;
    WalkColon(unpaired, text, k, m, w);
    SilentJoins(unpaired, text, i, k, i + |MemberText(m)|, w);
  }

  lemma {:induction false} WalkColon(unpaired: Unpaired, text: Bytes, k: nat, m: Member, w: Walker)
    requires Holds(text, k, [COLON] + (m.afterColon + Render(m.value))) && JsonWs(m.afterColon) && WellFormed(m.value) && Within(w, k)
    ensures Silent(unpaired, text, k, k + 1 + |m.afterColon| + |Render(m.value)|, w)
    decreases m.value, 1
  {
    hide *;
    var value := Render(m.value);
    HoldsSplit(text, k, [COLON], m.afterColon + value);
    HoldsSplit(text, k + 1, m.afterColon, value);
    WithinQuiet(w, k);
    WalkOne(unpaired, text, k, COLON, w);
    WalkWs(unpaired, text, k + 1, m.afterColon, w);
    WalkValue(unpaired, text, k + 1 + |m.afterColon|, m.value, w);
    SilentJoins(unpaired, text, k, k + 1, k + 1 + |m.afterColon|, w);
    SilentJoins(unpaired, text, k, k + 1 + |m.afterColon|, k + 1 + |m.afterColon| + |value|, w);
  }

  lemma WalkOne(unpaired: Unpaired, text: Bytes, i: nat, b: byte, w: Walker)
    requires Holds(text, i, [b]) && Plain(b) && !w.inString && w.start <= i
    ensures Silent(unpaired, text, i, i + 1, w)
  {
    WalkPlain(unpaired, text, i, [b], w);
  }

  lemma WithinQuiet(w: Walker, k: nat)
    requires Within(w, k)
    ensures !w.inString && w.start <= k && Plain(COLON) && Plain(COMMA) && forall j :: k <= j ==> Within(w, j)
  {
  }

  ghost predicate Outside(w: Walker, i: nat) {
    w.depth == 0 && !w.inString && !w.escaped && w.start <= i
  }

  /** One element of the array: found when it is an object that reads as unpaired. */
  lemma WalkElement(unpaired: Unpaired, text: Bytes, i: nat, n: Node, w: Walker) returns (next: Walker)
    requires Holds(text, i, Render(n)) && WellFormed(n) && Outside(w, i)
    ensures i + |Render(n)| <= |text| && Outside(next, i + |Render(n)|)
    ensures Walk(unpaired, text, i, w)
         == (if n.Object? && unpaired(Render(n)) then [Span(i, i + |Render(n)|)] else [])
            + Walk(unpaired, text, i + |Render(n)|, next)
  {
    next := w;
    if n.Object? {
      WalkObjectElement(unpaired, text, i, n.pad, n.members, Render(n), w);
      next := Closed(w, i);
    } else if n.List? {
      WalkListElement(unpaired, text, i, n.pad, n.items, w);
    } else {
      hide Holds, Walk;
      WalkLeaf(unpaired, text, i, n, w);
    }
  }

  lemma WalkLeaf(unpaired: Unpaired, text: Bytes, i: nat, n: Node, w: Walker)
    requires Holds(text, i, Render(n)) && WellFormed(n) && Outside(w, i) && (n.Scalar? || n.Text?)
    ensures Silent(unpaired, text, i, i + |Render(n)|, w)
  {
    if n.Scalar? {
      WalkPlain(unpaired, text, i, n.token, w);
    } else {
      WalkQuoted(unpaired, text, i, n.body, w);
    }
  }

  lemma WalkListElement(unpaired: Unpaired, text: Bytes, i: nat, pad: Bytes, items: seq<Item>, w: Walker)
    requires Holds(text, i, Render(List(pad, items))) && JsonWs(pad) && WellFormedItems(items) && Outside(w, i)
    ensures Silent(unpaired, text, i, i + |Render(List(pad, items))|, w)
  {
    hide *;
    var inner := if items == [] then pad else RenderItems(items);
    ContainerText(pad, items, []);
    WalkInside(text, i, OPEN_BRACKET, inner, CLOSE_BRACKET);
    Entered(w, i);
    WalkListBody(unpaired, text, i + 1, pad, items, w.(depth := 1));
    WalkAround(unpaired, text, i, i + 1 + |inner|, w);
  }

  lemma ContainerText(pad: Bytes, items: seq<Item>, members: seq<Member>)
    ensures Render(List(pad, items)) == [OPEN_BRACKET] + (if items == [] then pad else RenderItems(items)) + [CLOSE_BRACKET]
    ensures Render(Object(pad, members)) == [OPEN_BRACE] + (if members == [] then pad else RenderMembers(members)) + [CLOSE_BRACE]
  {
    hide RenderItems, RenderMembers;
  }

  /** The walker inside an object that opens at i, and after it closes. */
  ghost function Opened(w: Walker, i: nat): Walker {
    w.(depth := 1, start := i)
  }

  ghost function Closed(w: Walker, i: nat): Walker {
    w.(start := i)
  }

  lemma Entered(w: Walker, i: nat)
    requires Outside(w, i)
    ensures Within(w.(depth := 1), i + 1) && Within(Opened(w, i), i + 1)
  {
  }

  lemma WalkObjectElement(unpaired: Unpaired, text: Bytes, i: nat, pad: Bytes, members: seq<Member>, value: Bytes, w: Walker)
    requires value == Render(Object(pad, members)) && Holds(text, i, value)
    requires JsonWs(pad) && WellFormedMembers(members) && Outside(w, i)
    ensures i + |value| <= |text| && Closed(w, i).start <= i + |value|
    ensures Walk(unpaired, text, i, w)
         == (if unpaired(value) then [Span(i, i + |value|)] else []) + Walk(unpaired, text, i + |value|, Closed(w, i))
  {
    var inner := if members == [] then pad else RenderMembers(members);
    hide *;
    ContainerText(pad, [], members);
    assert value == [OPEN_BRACE] + inner + [CLOSE_BRACE];
    WalkObjectInside(unpaired, text, i, pad, members, inner, w);
    WalkBraced(unpaired, text, i, value, w);
  }

  lemma WalkObjectInside(unpaired: Unpaired, text: Bytes, i: nat, pad: Bytes, members: seq<Member>, inner: Bytes, w: Walker)
    requires inner == (if members == [] then pad else RenderMembers(members)) && Holds(text, i, [OPEN_BRACE] + inner + [CLOSE_BRACE])
    requires JsonWs(pad) && WellFormedMembers(members) && Outside(w, i)
    ensures Silent(unpaired, text, i + 1, i + 1 + |inner|, Opened(w, i))
    ensures At(text, i, OPEN_BRACE) && At(text, i + 1 + |inner|, CLOSE_BRACE)
  {
    hide *;
    WalkInside(text, i, OPEN_BRACE, inner, CLOSE_BRACE);
    Entered(w, i);
    WalkObjectBody(unpaired, text, i + 1, pad, members, Opened(w, i));
  }

  lemma WalkAround(unpaired: Unpaired, text: Bytes, i: nat, j: nat, w: Walker)
    requires Outside(w, i) && Silent(unpaired, text, i + 1, j, w.(depth := 1))
    requires At(text, i, OPEN_BRACKET) && At(text, j, CLOSE_BRACKET)
    ensures Silent(unpaired, text, i, j + 1, w)
  {
  }

  lemma WalkBraced(unpaired: Unpaired, text: Bytes, i: nat, value: Bytes, w: Walker)
    requires Outside(w, i) && |value| >= 2 && Holds(text, i, value)
    requires Silent(unpaired, text, i + 1, i + |value| - 1, Opened(w, i))
    requires At(text, i, OPEN_BRACE) && At(text, i + |value| - 1, CLOSE_BRACE)
    ensures w.start <= i + |value| <= |text| && Closed(w, i).start <= i + |value|
    ensures Walk(unpaired, text, i, w)
         == (if unpaired(value) then [Span(i, i + |value|)] else []) + Walk(unpaired, text, i + |value|, Closed(w, i))
  {
    assert text[i..i + |value|] == value;
  }

  /** How an element's bytes divide: whitespace, the value, whitespace, then a comma or the end of the array. */
  lemma ElementDivides(text: Bytes, at: nat, items: seq<Item>)
    requires items != [] && Holds(text, at, RenderItems(items) + [CLOSE_BRACKET])
    ensures var i := at + |items[0].before|;
            var j := i + |Render(items[0].value)|;
            var k := j + |items[0].after|;
            && Holds(text, at, items[0].before) && Holds(text, i, Render(items[0].value)) && Holds(text, j, items[0].after)
            && At(text, k, if |items| == 1 then CLOSE_BRACKET else COMMA)
            && (|items| > 1 ==> Holds(text, k + 1, RenderItems(items[1..]) + [CLOSE_BRACKET]))
  {
    hide *;
    RenderItemsStep(items);
    PiecesDivide(text, at, items[0].before, Render(items[0].value), items[0].after, ItemsTail(items));
  }

  lemma PiecesDivide(text: Bytes, at: nat, before: Bytes, value: Bytes, after: Bytes, tail: Bytes)
    requires Holds(text, at, before + value + (after + tail)) && tail != []
    ensures Holds(text, at, before) && Holds(text, at + |before|, value) && Holds(text, at + |before| + |value|, after)
    ensures At(text, at + |before| + |value| + |after|, tail[0])
    ensures Holds(text, at + |before| + |value| + |after| + 1, tail[1..])
  {
    hide Holds;
    PartsDivide(text, at, before, value, after, tail);
    HoldsHead(text, at + |before| + |value| + |after|, tail);
  }

  /** After an element: whitespace, then the end of the array or a comma and more. */
  lemma WalkGap(unpaired: Unpaired, text: Bytes, j: nat, after: Bytes, w: Walker)
    requires Holds(text, j, after) && JsonWs(after) && Outside(w, j)
    ensures At(text, j + |after|, CLOSE_BRACKET) ==> Walk(unpaired, text, j, w) == []
    ensures At(text, j + |after|, COMMA) ==> Walk(unpaired, text, j, w) == Walk(unpaired, text, j + |after| + 1, w)
  {
    WalkWs(unpaired, text, j, after, w);
  }

  /** Where the element after the first begins, past its comma. */
  ghost function NextElement(item: Item, at: nat): nat {
    at + |item.before| + |Render(item.value)| + |item.after| + 1
  }

  lemma WalkFirst(unpaired: Unpaired, text: Bytes, at: nat, items: seq<Item>, w: Walker) returns (next: Walker)
    requires items != [] && Holds(text, at, RenderItems(items) + [CLOSE_BRACKET]) && WellFormedItems(items) && Outside(w, at)
    ensures NextElement(items[0], at) <= |text| && Outside(next, NextElement(items[0], at))
    ensures |items| > 1 ==> Holds(text, NextElement(items[0], at), RenderItems(items[1..]) + [CLOSE_BRACKET])
    ensures Walk(unpaired, text, at, w)
         == FirstSpan(unpaired, items[0], at) + if |items| == 1 then [] else Walk(unpaired, text, NextElement(items[0], at), next)
  {
    hide *;
    var item := items[0];
    var i := at + |item.before|;
    var k := i + |Render(item.value)| + |item.after|;
    FirstUnfolds(unpaired, at, items);
    ElementDivides(text, at, items);
    WalkBefore(unpaired, text, at, item.before, w);
    next := WalkElement(unpaired, text, i, item.value, w);
    WalkGap(unpaired, text, i + |Render(item.value)|, item.after, next);
    OutsideLater(text, next, i + |Render(item.value)|, k);
  }

  lemma FirstUnfolds(unpaired: Unpaired, at: nat, items: seq<Item>)
    requires items != [] && WellFormedItems(items)
    ensures JsonWs(items[0].before) && JsonWs(items[0].after) && WellFormed(items[0].value) && WellFormedItems(items[1..])
    ensures var start := at + |items[0].before|;
            var end := start + |Render(items[0].value)|;
            && NextElement(items[0], at) == end + |items[0].after| + 1
            && FirstSpan(unpaired, items[0], at)
               == if items[0].value.Object? && unpaired(Render(items[0].value)) then [Span(start, end)] else []
  {
    hide Render, WellFormed, JsonWs;
  }

  lemma OutsideLater(text: Bytes, w: Walker, i: nat, k: nat)
    requires Outside(w, i) && i <= k && (At(text, k, COMMA) || At(text, k, CLOSE_BRACKET))
    ensures Outside(w, k + 1) && k + 1 <= |text|
  {
  }

  lemma WalkBefore(unpaired: Unpaired, text: Bytes, i: nat, s: Bytes, w: Walker)
    requires Holds(text, i, s) && JsonWs(s) && Outside(w, i)
    ensures i + |s| <= |text| && Outside(w, i + |s|) && Walk(unpaired, text, i, w) == Walk(unpaired, text, i + |s|, w)
  {
    WalkWs(unpaired, text, i, s, w);
  }

  /** Walking a well-formed array finds exactly its unpaired objects, where they lie. */
  lemma {:induction false} WalkElements(unpaired: Unpaired, text: Bytes, at: nat, items: seq<Item>, w: Walker)
    requires items != [] && Holds(text, at, RenderItems(items) + [CLOSE_BRACKET]) && WellFormedItems(items) && Outside(w, at)
    ensures Walk(unpaired, text, at, w) == ElementSpans(unpaired, items, at)
    decreases items
  {
    hide Walk, Render, WellFormed, RenderItems, Holds, JsonWs, FirstSpan, NextElement;
    var next := WalkFirst(unpaired, text, at, items, w);
    if |items| > 1 {
      WalkElements(unpaired, text, NextElement(items[0], at), items[1..], next);
    } else {
      assert items[1..] == [];
    }
  }

  /** A span from brace to brace whose text reads as unpaired. */
  ghost predicate Unpairing(unpaired: Unpaired, text: Bytes, s: Span) {
    && s.start < s.end <= |text| && text[s.start] == OPEN_BRACE && text[s.end - 1] == CLOSE_BRACE
    && unpaired(text[s.start..s.end])
  }

  /** Spans in order and disjoint, from a position on. */
  ghost predicate InOrder(spans: seq<Span>, at: nat) {
    && (forall k :: 0 <= k < |spans| ==> at <= spans[k].start <= spans[k].end)
    && (forall k, l :: 0 <= k < l < |spans| ==> spans[k].end <= spans[l].start)
  }

  lemma FirstSpanUnpairing(unpaired: Unpaired, text: Bytes, at: nat, item: Item)
    requires Holds(text, at + |item.before|, Render(item.value))
    ensures forall k :: 0 <= k < |FirstSpan(unpaired, item, at)| ==> Unpairing(unpaired, text, FirstSpan(unpaired, item, at)[k])
  {
    if item.value.Object? {
      var i := at + |item.before|;
      var value := Render(item.value);
      assert text[i..i + |value|] == value;
      assert text[i] == value[0] == OPEN_BRACE && text[i + |value| - 1] == value[|value| - 1] == CLOSE_BRACE;
    }
  }

  /** The spans found in a well-formed array are in order, disjoint, and each runs from brace to brace. */
  lemma {:induction false} ElementSpansOrdered(unpaired: Unpaired, text: Bytes, at: nat, items: seq<Item>)
    requires items != [] ==> Holds(text, at, RenderItems(items) + [CLOSE_BRACKET])
    ensures InOrder(ElementSpans(unpaired, items, at), at)
    ensures forall k :: 0 <= k < |ElementSpans(unpaired, items, at)| ==> Unpairing(unpaired, text, ElementSpans(unpaired, items, at)[k])
    decreases items
  {
    if items != [] {
      hide *;
      ElementDivides(text, at, items);
      FirstSpanUnpairing(unpaired, text, at, items[0]);
      FirstSpanOrdered(unpaired, items[0], at);
      ElementSpansUnfold(unpaired, items, at);
      DividedNext(text, at, items);
      var first, next := FirstSpan(unpaired, items[0], at), NextElement(items[0], at);
      ElementSpansOrdered(unpaired, text, next, items[1..]);
      InOrderJoins(first, at, ElementSpans(unpaired, items[1..], next), next);
    }
  }

  lemma FirstSpanOrdered(unpaired: Unpaired, item: Item, at: nat)
    ensures InOrder(FirstSpan(unpaired, item, at), at) && at <= NextElement(item, at)
    ensures forall k :: 0 <= k < |FirstSpan(unpaired, item, at)| ==> FirstSpan(unpaired, item, at)[k].end <= NextElement(item, at)
  {
    hide Render;
  }

  lemma ElementSpansUnfold(unpaired: Unpaired, items: seq<Item>, at: nat)
    requires items != []
    ensures ElementSpans(unpaired, items, at)
         == FirstSpan(unpaired, items[0], at) + ElementSpans(unpaired, items[1..], NextElement(items[0], at))
  {
  }

  lemma DividedNext(text: Bytes, at: nat, items: seq<Item>)
    requires items != [] && Holds(text, at, RenderItems(items) + [CLOSE_BRACKET])
    ensures |items| > 1 ==> Holds(text, NextElement(items[0], at), RenderItems(items[1..]) + [CLOSE_BRACKET])
  {
    hide *;
    ElementDivides(text, at, items);
    NextPlace(items[0], at);
  }

  lemma NextPlace(item: Item, at: nat)
    ensures NextElement(item, at) == at + |item.before| + |Render(item.value)| + |item.after| + 1
  {
    hide Render;
  }

  lemma InOrderJoins(first: seq<Span>, at: nat, rest: seq<Span>, next: nat)
    requires InOrder(first, at) && InOrder(rest, next) && at <= next
    requires forall k :: 0 <= k < |first| ==> first[k].end <= next
    ensures InOrder(first + rest, at)
  {
  }

  /** What precedes the walked array: the key is mentioned, and the first bracket after it opens the array. */
  ghost predicate ArrayWalked(key: Bytes, text: Bytes, open: nat) {
    var named := Find(text, key, 0);
    named < |text| && open < |text| && Find(text, [OPEN_BRACKET], named) == open
  }

  /**
   * In a registry whose integrations array is well formed, a resync leaves every integration that cannot be paired
   * byte for byte where it was, and the record its length, whatever digests are replaced.
   */
  lemma UnpairedUntouched(unpaired: Unpaired, key: Bytes, text: Bytes, open: nat, pad: Bytes, items: seq<Item>,
                          replacements: seq<Replacement>, k: nat)
    requires ArrayWalked(key, text, open) && Holds(text, open, Render(List(pad, items))) && WellFormed(List(pad, items))
    requires Digests(replacements) && k < |UnpairedSpans(unpaired, key, text)|
    ensures items != [] && UnpairedSpans(unpaired, key, text) == ElementSpans(unpaired, items, open + 1)
    ensures var s := UnpairedSpans(unpaired, key, text)[k];
            var out := RewriteAll(text, replacements, UnpairedSpans(unpaired, key, text));
            && |out| == |text| && Unpairing(unpaired, text, s) && s.start < s.end <= |text|
            && out[s.start..s.end] == text[s.start..s.end]
  {
    hide *;
    RegistryWalked(unpaired, key, text, open, pad, items);
    NoSpans(unpaired, open + 1);
    ElementSpansOrdered(unpaired, text, open + 1, items);
    var spans := UnpairedSpans(unpaired, key, text);
    UnpairingBraced(unpaired, text, spans);
    SpansSurvive(text, replacements, spans, k);
  }

  lemma NoSpans(unpaired: Unpaired, at: nat)
    ensures ElementSpans(unpaired, [], at) == []
  {
  }

  lemma UnpairingBraced(unpaired: Unpaired, text: Bytes, spans: seq<Span>)
    requires forall j :: 0 <= j < |spans| ==> Unpairing(unpaired, text, spans[j])
    ensures Braced(text, spans) && forall j :: 0 <= j < |spans| ==> spans[j].start < spans[j].end <= |text|
  {
  }

  lemma RegistryWalked(unpaired: Unpaired, key: Bytes, text: Bytes, open: nat, pad: Bytes, items: seq<Item>)
    requires ArrayWalked(key, text, open) && Holds(text, open, Render(List(pad, items))) && WellFormed(List(pad, items))
    ensures UnpairedSpans(unpaired, key, text) == ElementSpans(unpaired, items, open + 1)
    ensures items != [] ==> Holds(text, open + 1, RenderItems(items) + [CLOSE_BRACKET])
  {
    var w := Walker(0, 0, false, false);
    var inner := if items == [] then pad else RenderItems(items);
    assert [OPEN_BRACKET] + inner + [CLOSE_BRACKET] == [OPEN_BRACKET] + (inner + [CLOSE_BRACKET]);
    HoldsSplit(text, open, [OPEN_BRACKET], inner + [CLOSE_BRACKET]);
    if items == [] {
      HoldsSplit(text, open + 1, pad, [CLOSE_BRACKET]);
      HoldsAt(text, open + 1 + |pad|, CLOSE_BRACKET);
      WalkGap(unpaired, text, open + 1, pad, w);
    } else {
      WalkElements(unpaired, text, open + 1, items, w);
    }
  }

  /** One record resynced: the spans are found once, then every replacement is made in turn. */
  method ResyncRecord(text: Bytes, replacements: seq<Replacement>, registry: bool, unpaired: Unpaired, key: Bytes) returns (out: Bytes)
    requires Digests(replacements)
    ensures out == RewriteAll(text, replacements, if registry then UnpairedSpans(unpaired, key, text) else [])
  {
    var spans: seq<Span> := [];
    if registry {
      spans := FindUnpairedSpans(unpaired, key, text);
    }
    hide *;
    out := text;
    assert replacements[0..] == replacements;
    for k := 0 to |replacements|
      invariant Digests(replacements[k..]) && RewriteAll(out, replacements[k..], spans) == RewriteAll(text, replacements, spans)
    {
      RewriteAllStep(out, replacements[k..], spans);
      assert replacements[k..][0] == replacements[k] && replacements[k..][1..] == replacements[k + 1..];
      out := ReplaceOutside(out, replacements[k].declared, replacements[k].actual, spans);
    }
    assert replacements[|replacements|..] == [];
    RewriteAllStep(out, [], spans);
  }

  lemma RewriteAllStep(text: Bytes, replacements: seq<Replacement>, spans: seq<Span>)
    requires Digests(replacements)
    ensures replacements == [] ==> RewriteAll(text, replacements, spans) == text
    ensures replacements != [] ==>
              && replacements[0].declared != [] && Digests(replacements[1..])
              && RewriteAll(text, replacements, spans)
                 == RewriteAll(ReplacedOutside(text, replacements[0].declared, replacements[0].actual, spans), replacements[1..], spans)
  {
    assert replacements != [] ==> IsSha256(replacements[0].declared);
  }

  // ---------------------------------------------------------------- which pins are rewritten

  datatype Pin = Pin(record: string, path: string, declared: Bytes)

  datatype PinState = Fresh | Stale(actual: Bytes) | SourceMissing | Ambiguous

  /** The paths for which a record states one digest. */
  function Owners(pins: seq<Pin>, record: string, declared: Bytes): set<string> {
    set p | p in pins && p.record == record && p.declared == declared :: p.path
  }

  /** How a pin compares to the file it names; a digest stated for several paths is ambiguous whatever the files say. */
  function StateOf(pins: seq<Pin>, files: map<string, Bytes>, pin: Pin): PinState {
    if |Owners(pins, pin.record, pin.declared)| > 1 then Ambiguous
    else if pin.path !in files then SourceMissing
    else if files[pin.path] == pin.declared then Fresh
    else Stale(files[pin.path])
  }

  /** A pin is ambiguous exactly when its record states its digest for another path too; otherwise the file named decides. */
  lemma StateExactly(pins: seq<Pin>, files: map<string, Bytes>, pin: Pin)
    requires pin in pins
    ensures var state := StateOf(pins, files, pin);
            var shared := exists other :: other in pins && other.record == pin.record && other.declared == pin.declared && other.path != pin.path;
            && (state == Ambiguous <==> shared)
            && (state == SourceMissing <==> !shared && pin.path !in files)
            && (state == Fresh <==> !shared && pin.path in files && files[pin.path] == pin.declared)
            && (forall actual :: state == Stale(actual) <==> !shared && pin.path in files && files[pin.path] == actual && actual != pin.declared)
  {
    var owners := Owners(pins, pin.record, pin.declared);
    assert pin.path in owners;
    if other :| other in pins && other.record == pin.record && other.declared == pin.declared && other.path != pin.path {
      TwoMembers(owners, pin.path, other.path);
    } else {
      assert owners == {pin.path};
    }
  }

  method Audit(pins: seq<Pin>, files: map<string, Bytes>) returns (states: seq<PinState>)
    ensures |states| == |pins| && forall i :: 0 <= i < |pins| ==> states[i] == StateOf(pins, files, pins[i])
  {
    var owners: map<(string, Bytes), set<string>> := map[];
    for i := 0 to |pins|
      invariant forall r, d :: (if (r, d) in owners then owners[(r, d)] else {}) == Owners(pins[..i], r, d)
    {
      var key := (pins[i].record, pins[i].declared);
      assert pins[..i + 1] == pins[..i] + [pins[i]];
      owners := owners[key := (if key in owners then owners[key] else {}) + {pins[i].path}];
    }
    assert pins[..|pins|] == pins;
    states := [];
    for i := 0 to |pins|
      invariant |states| == i && forall j :: 0 <= j < i ==> states[j] == StateOf(pins, files, pins[j])
    {
      var pin := pins[i];
      assert pin in pins;
      assert pin.path in Owners(pins, pin.record, pin.declared);
      var state := if |owners[(pin.record, pin.declared)]| > 1 then Ambiguous
                   else if pin.path !in files then SourceMissing
                   else if files[pin.path] == pin.declared then Fresh
                   else Stale(files[pin.path]);
      states := states + [state];
    }
  }

  /** Within a record no digest is replaced twice: of distinct pins stating one digest, none is stale unless they are one pin. */
  lemma StaleDigestsDiffer(pins: seq<Pin>, files: map<string, Bytes>, i: nat, j: nat)
    requires i < |pins| && j < |pins| && pins[i] != pins[j] && pins[i].record == pins[j].record
    requires StateOf(pins, files, pins[i]).Stale?
    ensures pins[i].declared != pins[j].declared
  {
    var owners := Owners(pins, pins[i].record, pins[i].declared);
    assert pins[i] in pins && pins[j] in pins;
    assert pins[i].path in owners;
    if pins[i].declared == pins[j].declared {
      TwoMembers(owners, pins[i].path, pins[j].path);
    }
  }

  lemma TwoMembers(s: set<string>, x: string, y: string)
    ensures x in s && y in s && x != y ==> |s| > 1
  {
    if x in s && y in s && x != y {
      assert {x, y} <= s;
      assert |s| == |{x, y}| + |s - {x, y}|;
    }
  }

  // ---------------------------------------------------------------- a record whose resync does not settle

  /** `{"path":"` and the rest up to the digest of a pin whose path is one byte. */
  function PinHead(path: byte): Bytes {
    [123, 34, 112, 97, 116, 104, 34, 58, 34, path, 34, 44, 34, 115, 104, 97, 50, 53, 54, 34, 58, 34]
  }

  function PinNode(path: byte, digest: Bytes): Node {
    Object([], [Unpadded(PATH_KEY, [path]), Unpadded(SHA_KEY, digest)])
  }

  const PATH_KEY: Bytes := [112, 97, 116, 104]
  const SHA_KEY: Bytes := [115, 104, 97, 50, 53, 54]

  /** Two pins in an array, of the files `a` and `b`. */
  function PairRecord(first: Bytes, second: Bytes): Node {
    List([], [Item([], PinNode(97, first), []), Item([], PinNode(98, second), [])])
  }

  function PairText(first: Bytes, second: Bytes): Bytes {
    [OPEN_BRACKET] + PinHead(97) + first + [QUOTE, CLOSE_BRACE, COMMA] + PinHead(98) + second + [QUOTE, CLOSE_BRACE, CLOSE_BRACKET]
  }

  function Unpadded(name: Bytes, body: Bytes): Member {
    Member([], name, [], [], JsonTree.Text(body), [])
  }

  lemma UnpaddedText(name: Bytes, body: Bytes)
    ensures MemberText(Unpadded(name, body)) == [QUOTE] + name + [QUOTE, COLON, QUOTE] + body + [QUOTE]
  {
    assert [] + Quoted(name) == Quoted(name);
    assert Render(JsonTree.Text(body)) == Quoted(body);
  }

  lemma TwoMembersText(a: Member, b: Member)
    requires a.after == [] && b.after == []
    ensures RenderMembers([a, b]) == MemberText(a) + [COMMA] + MemberText(b)
  {
    hide MemberText;
    assert [a, b][1..] == [b];
    assert RenderMembers([b]) == MemberText(b);
  }

  lemma TwoItemsText(a: Node, b: Node)
    ensures RenderItems([Item([], a, []), Item([], b, [])]) == Render(a) + [COMMA] + Render(b)
  {
    hide Render;
    var first, second := Item([], a, []), Item([], b, []);
    assert [first, second][1..] == [second];
    assert RenderItems([second]) == Render(b);
  }

  lemma PinRendered(path: byte, digest: Bytes)
    ensures Render(PinNode(path, digest)) == PinHead(path) + digest + [QUOTE, CLOSE_BRACE]
  {
    hide *;
    UnpaddedText(PATH_KEY, [path]);
    UnpaddedText(SHA_KEY, digest);
    PinMembers(path, digest);
    PinPieces(path, digest);
  }

  lemma PinMembers(path: byte, digest: Bytes)
    ensures Render(PinNode(path, digest))
         == [OPEN_BRACE] + (MemberText(Unpadded(PATH_KEY, [path])) + [COMMA] + MemberText(Unpadded(SHA_KEY, digest))) + [CLOSE_BRACE]
  {
    var first, second := Unpadded(PATH_KEY, [path]), Unpadded(SHA_KEY, digest);
    TwoMembersText(first, second);
    hide MemberText, RenderMembers, Unpadded;
    assert Render(Object([], [first, second])) == [OPEN_BRACE] + RenderMembers([first, second]) + [CLOSE_BRACE];
  }

  lemma PinPieces(path: byte, digest: Bytes)
    ensures [OPEN_BRACE]
            + (([QUOTE] + PATH_KEY + [QUOTE, COLON, QUOTE] + [path] + [QUOTE]) + [COMMA]
               + ([QUOTE] + SHA_KEY + [QUOTE, COLON, QUOTE] + digest + [QUOTE]))
            + [CLOSE_BRACE]
         == PinHead(path) + digest + [QUOTE, CLOSE_BRACE]
  {
  }

  lemma PairRendered(first: Bytes, second: Bytes)
    ensures Render(PairRecord(first, second)) == PairText(first, second)
  {
    PinRendered(97, first);
    PinRendered(98, second);
    PairParts(PinNode(97, first), PinNode(98, second));
    hide *;
    PairPieces(PinHead(97), first, PinHead(98), second);
    PairUnfold(first, second);
  }

  lemma PairUnfold(first: Bytes, second: Bytes)
    ensures PairRecord(first, second) == List([], [Item([], PinNode(97, first), []), Item([], PinNode(98, second), [])])
    ensures PairText(first, second)
         == [OPEN_BRACKET] + PinHead(97) + first + [QUOTE, CLOSE_BRACE, COMMA] + PinHead(98) + second + [QUOTE, CLOSE_BRACE, CLOSE_BRACKET]
  {
    hide PinNode, PinHead;
  }

  lemma PairPieces(a: Bytes, first: Bytes, b: Bytes, second: Bytes)
    ensures [OPEN_BRACKET] + ((a + first + [QUOTE, CLOSE_BRACE]) + [COMMA] + (b + second + [QUOTE, CLOSE_BRACE])) + [CLOSE_BRACKET]
         == [OPEN_BRACKET] + a + first + [QUOTE, CLOSE_BRACE, COMMA] + b + second + [QUOTE, CLOSE_BRACE, CLOSE_BRACKET]
  {
  }

  lemma PairParts(a: Node, b: Node)
    ensures Render(List([], [Item([], a, []), Item([], b, [])])) == [OPEN_BRACKET] + (Render(a) + [COMMA] + Render(b)) + [CLOSE_BRACKET]
  {
    TwoItemsText(a, b);
    var items := [Item([], a, []), Item([], b, [])];
    hide RenderItems;
    assert Render(List([], items)) == [OPEN_BRACKET] + RenderItems(items) + [CLOSE_BRACKET];
  }

  lemma {:induction false} PlainBody(s: Bytes)
    requires forall i :: 0 <= i < |s| ==> s[i] != QUOTE && s[i] != BACKSLASH
    ensures StringBody(s)
  {
    if s != [] {
      PlainBody(s[1..]);
    }
  }

  lemma PairWellFormed(first: Bytes, second: Bytes)
    requires IsSha256(first) && IsSha256(second)
    ensures WellFormed(PairRecord(first, second))
  {
    PlainBody(first);
    PlainBody(second);
    PinWellFormed(97, first);
    PinWellFormed(98, second);
    hide PinNode, WellFormed;
    var a, b := Item([], PinNode(97, first), []), Item([], PinNode(98, second), []);
    assert [a, b][1..] == [b] && [b][1..] == [];
    assert WellFormedItems([b]) && WellFormedItems([a, b]);
  }

  lemma PinWellFormed(path: byte, digest: Bytes)
    requires StringBody(digest) && (path == 97 || path == 98)
    ensures WellFormed(PinNode(path, digest))
  {
    var first, second := Unpadded(PATH_KEY, [path]), Unpadded(SHA_KEY, digest);
    PlainBody([path]);
    PlainBody(PATH_KEY);
    PlainBody(SHA_KEY);
    hide StringBody, IsHex;
    assert WellFormedMember(first) && WellFormedMember(second);
    hide WellFormedMember;
    assert [first, second][1..] == [second] && [second][1..] == [];
    assert WellFormedMembers([second]) && WellFormedMembers([first, second]);
  }

  /** Where the two digests of such a record stand. */
  lemma PairTokens(first: Bytes, second: Bytes)
    requires IsSha256(first) && IsSha256(second)
    ensures Token(PairText(first, second), 23, first, []) && Token(PairText(first, second), 112, second, [])
  {
    var text := PairText(first, second);
    assert text[23..87] == first && text[112..176] == second;
  }

  /**
   * A record whose resync does not settle: `b` declares what `a` has become, so both pins are stale, and the digest written
   * for `a` is rewritten with the one for `b`. The pins are then ambiguous, which no later resync rewrites.
   */
  lemma WrittenDigestRewritten(x: Bytes, y: Bytes, z: Bytes, record: string)
    requires IsSha256(x) && IsSha256(y) && IsSha256(z) && x != y && y != z
    ensures var pins, files := [Pin(record, "a", x), Pin(record, "b", y)], map["a" := y, "b" := z];
            var edits := [Replacement(x, y), Replacement(y, z)];
            var text := Render(PairRecord(x, y));
            && WellFormed(PairRecord(x, y)) && Token(text, 23, x, []) && Token(text, 112, y, [])
            && StateOf(pins, files, pins[0]) == Stale(y) && StateOf(pins, files, pins[1]) == Stale(z)
            && Digests(edits) && Occurs(After(text, edits, 1, []), 23, y)
            && Occurs(RewriteAll(text, edits, []), 23, z) && Occurs(RewriteAll(text, edits, []), 112, z)
            && var rewritten := [Pin(record, "a", z), Pin(record, "b", z)]; StateOf(rewritten, files, rewritten[0]) == Ambiguous
  {
    var edits := [Replacement(x, y), Replacement(y, z)];
    PairWellFormed(x, y);
    PairRendered(x, y);
    PairTokens(x, y);
    PairStale(x, y, z, record);
    var text := PairText(x, y);
    hide PairText, Token, RewriteAll, WellFormed, Render, StateOf;
    PairChased(text, x, y, z);
  }

  lemma PairStale(x: Bytes, y: Bytes, z: Bytes, record: string)
    requires x != y && y != z
    ensures var pins, files := [Pin(record, "a", x), Pin(record, "b", y)], map["a" := y, "b" := z];
            StateOf(pins, files, pins[0]) == Stale(y) && StateOf(pins, files, pins[1]) == Stale(z)
    ensures var rewritten, files := [Pin(record, "a", z), Pin(record, "b", z)], map["a" := y, "b" := z];
            StateOf(rewritten, files, rewritten[0]) == Ambiguous
  {
    assert "a"[0] != "b"[0];
    var pins := [Pin(record, "a", x), Pin(record, "b", y)];
    assert Owners(pins, record, x) == {"a"} && Owners(pins, record, y) == {"b"};
    var rewritten := [Pin(record, "a", z), Pin(record, "b", z)];
    assert rewritten[0] in rewritten && rewritten[1] in rewritten;
    assert Owners(rewritten, record, z) == {"a", "b"};
  }

  lemma PairChased(text: Bytes, x: Bytes, y: Bytes, z: Bytes)
    requires IsSha256(x) && IsSha256(y) && IsSha256(z) && x != y
    requires Token(text, 23, x, []) && Token(text, 112, y, [])
    ensures var edits := [Replacement(x, y), Replacement(y, z)];
            && Digests(edits) && Occurs(After(text, edits, 1, []), 23, y)
            && Occurs(RewriteAll(text, edits, []), 23, z) && Occurs(RewriteAll(text, edits, []), 112, z)
  {
    var r, q := Replacement(x, y), Replacement(y, z);
    var edits := [r, q];
    assert edits[..1] == [r] && edits[1..] == [q] && edits == [r] + [q];
    ChaseOne(x, r);
    ChaseOne(y, r);
    ChaseOne(y, q);
    ChaseConcat(x, [r], [q]);
    ChaseConcat(y, [r], [q]);
    TokenChased(text, 23, x, edits[..1], []);
    TokenChased(text, 23, x, edits, []);
    TokenChased(text, 112, y, edits, []);
  }
}
