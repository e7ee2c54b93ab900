/** Sequences compared as multisets. */
module Bags {
  lemma Removed<X>(s: seq<X>, i: nat)
    requires i < |s|
    ensures multiset(s) == multiset(s[..i] + s[i + 1..]) + multiset{s[i]}
  {
    assert s == s[..i] + [s[i]] + s[i + 1..];
  }

  lemma Cancelled<X>(x: multiset<X>, y: multiset<X>, e: X)
    requires x + multiset{e} == y + multiset{e}
    ensures x == y
  {
    assert x == (x + multiset{e}) - multiset{e};
    assert y == (y + multiset{e}) - multiset{e};
  }

  /** When equal shapes carry equal things, equal bags of shapes carry equal bags of things. */
  lemma {:induction false} Carried<G, F>(ga: seq<G>, fa: seq<F>, gb: seq<G>, fb: seq<F>)
    requires |ga| == |fa| && |gb| == |fb| && multiset(ga) == multiset(gb)
    requires forall i, j :: 0 <= i < |ga| && 0 <= j < |gb| && ga[i] == gb[j] ==> fa[i] == fb[j]
    ensures multiset(fa) == multiset(fb)
    decreases |ga|
  {
    if ga == [] {
      assert |multiset(gb)| == 0;
      assert fa == [] && fb == [];
    } else {
      var n := |ga| - 1;
      assert ga[n] in multiset(gb);
      var j :| 0 <= j < |gb| && gb[j] == ga[n];
      Removed(ga, n);
      Removed(gb, j);
      Removed(fa, n);
      Removed(fb, j);
      Cancelled(multiset(ga[..n] + ga[n + 1..]), multiset(gb[..j] + gb[j + 1..]), ga[n]);
      Carried(ga[..n] + ga[n + 1..], fa[..n] + fa[n + 1..], gb[..j] + gb[j + 1..], fb[..j] + fb[j + 1..]);
    }
  }
}
