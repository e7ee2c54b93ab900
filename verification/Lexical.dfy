/** Strings ordered as Rust orders them, and the iteration order of an ordered set or map of strings. */
module Lexical {

  /** Strict lexicographic order. Comparing code points agrees with comparing UTF-8 bytes. */
  predicate Below(a: string, b: string) {
    b != [] && (a == [] || a[0] < b[0] || (a[0] == b[0] && Below(a[1..], b[1..])))
  }

  lemma {:induction false} BelowIrreflexive(a: string)
    ensures !Below(a, a)
  {
    if a != [] {
      BelowIrreflexive(a[1..]);
    }
  }

  lemma {:induction false} BelowTransitive(a: string, b: string, c: string)
    requires Below(a, b) && Below(b, c)
    ensures Below(a, c)
  {
    if a != [] && a[0] == b[0] && b[0] == c[0] {
      BelowTransitive(a[1..], b[1..], c[1..]);
    }
  }

  lemma {:induction false} BelowTotal(a: string, b: string)
    ensures a == b || Below(a, b) || Below(b, a)
  {
    if a != [] && b != [] && a[0] == b[0] {
      BelowTotal(a[1..], b[1..]);
      assert a == [a[0]] + a[1..] && b == [b[0]] + b[1..];
    }
  }

  lemma BelowAsymmetric(a: string, b: string)
    ensures !(Below(a, b) && Below(b, a))
  {
    BelowIrreflexive(a);
    if Below(a, b) && Below(b, a) {
      BelowTransitive(a, b, a);
    }
  }

  ghost predicate Ascending(s: seq<string>) {
    forall i, j :: 0 <= i < j < |s| ==> Below(s[i], s[j])
  }

  lemma AscendingDistinct(s: seq<string>, i: nat, j: nat)
    requires Ascending(s) && i < j < |s|
    ensures s[i] != s[j]
  {
    BelowIrreflexive(s[i]);
  }

  predicate Least(x: string, s: set<string>) {
    x in s && forall y :: y in s ==> y == x || Below(x, y)
  }

  lemma {:induction false} LeastExists(s: set<string>)
    requires s != {}
    ensures exists x :: Least(x, s)
    decreases |s|
  {
    var y :| y in s;
    if s == {y} {
      assert Least(y, s);
    } else {
      LeastExists(s - {y});
      var x :| Least(x, s - {y});
      BelowTotal(x, y);
      if Below(y, x) {
        forall z | z in s ensures z == y || Below(y, z) {
          if z != y && z != x {
            BelowTransitive(y, x, z);
          }
        }
        assert Least(y, s);
      } else {
        assert Least(x, s);
      }
    }
  }

  lemma LeastUnique(x: string, y: string, s: set<string>)
    requires Least(x, s) && Least(y, s)
    ensures x == y
  {
    if x != y {
      BelowAsymmetric(x, y);
    }
  }

  /** The element an ordered set yields first. */
  function First(s: set<string>): (x: string)
    requires s != {}
    ensures Least(x, s)
  {
    LeastExists(s);
    assert forall x, y | Least(x, s) && Least(y, s) :: x == y by {
      forall x, y | Least(x, s) && Least(y, s) ensures x == y { LeastUnique(x, y, s); }
    }
    var x :| Least(x, s); x
  }

  /** The elements of a set in the order an ordered set or map visits them. */
  function Ascend(s: set<string>): (r: seq<string>)
    ensures Ascending(r)
    ensures forall x :: x in r <==> x in s
    ensures |r| == |s|
    decreases |s|
  {
    if s == {} then []
    else
      var rest := Ascend(s - {First(s)});
      assert forall k :: 0 <= k < |rest| ==> rest[k] in rest;
      [First(s)] + rest
  }

  /** An ascending sequence is determined by its elements. */
  lemma {:induction false} AscendingUnique(a: seq<string>, b: seq<string>)
    requires Ascending(a) && Ascending(b)
    requires forall x :: x in a <==> x in b
    ensures a == b
  {
    assert a != [] ==> a[0] in a;
    assert b != [] ==> b[0] in b;
    if a != [] {
      var i :| 0 <= i < |b| && b[i] == a[0];
      var j :| 0 <= j < |a| && a[j] == b[0];
      assert i > 0 ==> Below(b[0], a[0]);
      assert j > 0 ==> Below(a[0], b[0]);
      BelowAsymmetric(a[0], b[0]);
      assert a[0] == b[0];
      forall x ensures x in a[1..] <==> x in b[1..] {
        if x in a[1..] {
          var k :| 1 <= k < |a| && a[k] == x;
          AscendingDistinct(a, 0, k);
          assert x in b;
        }
        if x in b[1..] {
          var k :| 1 <= k < |b| && b[k] == x;
          AscendingDistinct(b, 0, k);
          assert x in a;
        }
      }
      AscendingUnique(a[1..], b[1..]);
      assert a == [a[0]] + a[1..] && b == [b[0]] + b[1..];
    }
  }
}
