/** Reading a list into a map by key: the first bad element or repeated key is the error. */
module KeyedLists {
  import opened Text

  /** How an element is read: its key first, its value once the key is known to be new. */
  datatype Reader<!T, V, E> = Reader(key: T -> Result<string, E>, value: T -> Result<V, E>, repeated: string -> E)

  function Read<T, V, E>(items: seq<T>, r: Reader<T, V, E>): Result<map<string, V>, E> {
    if items == [] then Ok(map[])
    else
      match Read(items[..|items| - 1], r)
      case Err(e) => Err(e)
      case Ok(m) => ReadNext(m, items[|items| - 1], r)
  }

  function ReadNext<T, V, E>(m: map<string, V>, item: T, r: Reader<T, V, E>): Result<map<string, V>, E> {
    match r.key(item)
    case Err(e) => Err(e)
    case Ok(key) =>
      if key in m then Err(r.repeated(key))
      else match r.value(item) case Err(e) => Err(e) case Ok(value) => Ok(m[key := value])
  }

  /** What an element contributes, when it is well formed. */
  function Contribution<T, V, E>(item: T, r: Reader<T, V, E>): Option<(string, V)> {
    match r.key(item)
    case Err(_) => None
    case Ok(key) => match r.value(item) case Err(_) => None case Ok(value) => Some((key, value))
  }

  function Contributions<T, V, E>(items: seq<T>, r: Reader<T, V, E>): (s: seq<Option<(string, V)>>)
    ensures |s| == |items| && forall i :: 0 <= i < |items| ==> s[i] == Contribution(items[i], r)
  {
    if items == [] then [] else Contributions(items[..|items| - 1], r) + [Contribution(items[|items| - 1], r)]
  }

  /** Every element well formed and no key twice. */
  ghost predicate Proper<V>(s: seq<Option<(string, V)>>) {
    && (forall i :: 0 <= i < |s| ==> s[i].Some?)
    && (forall i, j :: 0 <= i < j < |s| ==> s[i].value.0 != s[j].value.0)
  }

  /** The map holds exactly what the elements contribute. */
  ghost predicate Holds<V>(m: map<string, V>, s: seq<Option<(string, V)>>) {
    && (forall i :: 0 <= i < |s| && s[i].Some? ==> s[i].value.0 in m && m[s[i].value.0] == s[i].value.1)
    && (forall k :: k in m ==> Some((k, m[k])) in s)
  }

  /** A list is read successfully exactly when it is proper, whatever the order, and the map holds exactly its elements. */
  lemma {:induction false} ReadExactly<T, V, E>(items: seq<T>, r: Reader<T, V, E>)
    ensures Read(items, r).Ok? <==> Proper(Contributions(items, r))
    ensures Read(items, r).Ok? ==> Holds(Read(items, r).value, Contributions(items, r))
  {
    if items != [] {
      var front, last := items[..|items| - 1], items[|items| - 1];
      ReadExactly(front, r);
      var s, x := Contributions(front, r), Contribution(last, r);
      assert Contributions(items, r) == s + [x];
      ProperSnoc(s, x);
      if Read(front, r).Ok? {
        HoldsSnoc(Read(front, r).value, s, x);
      }
      hide Proper, Holds;
    }
  }

  lemma ProperSnoc<V>(s: seq<Option<(string, V)>>, x: Option<(string, V)>)
    ensures Proper(s + [x]) <==> Proper(s) && x.Some? && forall i :: 0 <= i < |s| ==> s[i].value.0 != x.value.0
  {
    var t := s + [x];
    assert forall i :: 0 <= i < |s| ==> t[i] == s[i];
    assert t[|s|] == x;
    if Proper(t) {
      assert forall i :: 0 <= i < |s| ==> t[i].value.0 != t[|s|].value.0;
    }
  }

  lemma HoldsSnoc<V>(m: map<string, V>, s: seq<Option<(string, V)>>, x: Option<(string, V)>)
    requires Proper(s) && Holds(m, s)
    ensures x.Some? ==> (x.value.0 in m <==> exists i :: 0 <= i < |s| && s[i].value.0 == x.value.0)
    ensures x.Some? && x.value.0 !in m ==> Holds(m[x.value.0 := x.value.1], s + [x])
  {
    var t := s + [x];
    assert forall i :: 0 <= i < |s| ==> t[i] == s[i];
    assert t[|s|] == x;
    if x.Some? && x.value.0 !in m {
      var n := m[x.value.0 := x.value.1];
      forall k | k in n ensures Some((k, n[k])) in t {
        if k in m {
          assert Some((k, m[k])) in s;
        }
      }
    }
  }

  /** What one element of a list that was read becomes. */
  lemma ReadItem<T, V, E>(items: seq<T>, r: Reader<T, V, E>, i: nat)
    requires Read(items, r).Ok? && i < |items|
    ensures r.key(items[i]).Ok? && r.value(items[i]).Ok?
    ensures var key := r.key(items[i]).value; key in Read(items, r).value && Read(items, r).value[key] == r.value(items[i]).value
  {
    ReadExactly(items, r);
    assert Contributions(items, r)[i].Some?;
  }

  /** Elements of a list that was read have different keys. */
  lemma ReadItemsDiffer<T, V, E>(items: seq<T>, r: Reader<T, V, E>, i: nat, j: nat)
    requires Read(items, r).Ok? && i < j < |items|
    ensures r.key(items[i]) != r.key(items[j])
  {
    ReadExactly(items, r);
    assert Contributions(items, r)[i].Some? && Contributions(items, r)[j].Some?;
  }

  /** The element a key was read from. */
  lemma ReadSource<T, V, E>(items: seq<T>, r: Reader<T, V, E>, key: string) returns (i: nat)
    requires Read(items, r).Ok? && key in Read(items, r).value
    ensures i < |items| && r.key(items[i]) == Ok(key) && r.value(items[i]) == Ok(Read(items, r).value[key])
  {
    ReadExactly(items, r);
    var x := Some((key, Read(items, r).value[key]));
    assert x in Contributions(items, r);
    i :| 0 <= i < |items| && Contributions(items, r)[i] == x;
  }

  /** Reading depends only on the multiset of what the elements contribute. */
  lemma ReadUnordered<T, V, E, U, F>(a: seq<T>, r: Reader<T, V, E>, b: seq<U>, q: Reader<U, V, F>)
    requires multiset(Contributions(a, r)) == multiset(Contributions(b, q))
    ensures Read(a, r).Ok? <==> Read(b, q).Ok?
    ensures Read(a, r).Ok? ==> Read(a, r).value == Read(b, q).value
  {
    ReadExactly(a, r);
    ReadExactly(b, q);
    var s, t := Contributions(a, r), Contributions(b, q);
    hide Contributions;
    if Proper(s) {
      ProperPermuted(s, t);
    }
    if Proper(t) {
      ProperPermuted(t, s);
    }
    if Read(a, r).Ok? {
      HeldPermuted(Read(a, r).value, s, Read(b, q).value, t);
    }
  }

  lemma ProperPermuted<V>(s: seq<Option<(string, V)>>, t: seq<Option<(string, V)>>)
    requires multiset(s) == multiset(t) && Proper(s)
    ensures Proper(t)
  {
    forall i | 0 <= i < |t| ensures t[i].Some? {
      assert t[i] in multiset(s);
    }
    forall i, j | 0 <= i < j < |t| ensures t[i].value.0 != t[j].value.0 {
      assert t[i] in multiset(s) && t[j] in multiset(s);
      TwiceCounts(t, i, j);
      OnceCounts(s, t[i]);
    }
  }

  lemma TwiceCounts<X>(t: seq<X>, i: nat, j: nat)
    requires i < j < |t|
    ensures t[i] == t[j] ==> multiset(t)[t[i]] >= 2
  {
    assert t == t[..j] + [t[j]] + t[j + 1..];
    assert t[i] in t[..j];
  }

  lemma {:induction false} OnceCounts<X>(s: seq<X>, x: X)
    requires forall i, j :: 0 <= i < j < |s| ==> s[i] != s[j]
    ensures multiset(s)[x] <= 1
  {
    if s != [] {
      OnceCounts(s[..|s| - 1], x);
      assert s == s[..|s| - 1] + [s[|s| - 1]];
      assert x in s[..|s| - 1] ==> x != s[|s| - 1];
    }
  }

  lemma HeldPermuted<V>(m: map<string, V>, s: seq<Option<(string, V)>>, n: map<string, V>, t: seq<Option<(string, V)>>)
    requires multiset(s) == multiset(t) && Holds(m, s) && Holds(n, t)
    ensures m == n
  {
    forall k | k in m ensures k in n && n[k] == m[k] {
      assert Some((k, m[k])) in multiset(t);
      var i :| 0 <= i < |t| && t[i] == Some((k, m[k]));
    }
    forall k | k in n ensures k in m {
      assert Some((k, n[k])) in multiset(s);
      var i :| 0 <= i < |s| && s[i] == Some((k, n[k]));
    }
  }

  /** A failed prefix decides the error. */
  lemma {:induction false} ReadStops<T, V, E>(items: seq<T>, r: Reader<T, V, E>, k: nat)
    requires k <= |items| && Read(items[..k], r).Err?
    ensures Read(items, r) == Read(items[..k], r)
    decreases |items|
  {
    if k == |items| {
      assert items[..k] == items;
    } else {
      assert items[..|items| - 1][..k] == items[..k];
      ReadStops(items[..|items| - 1], r, k);
    }
  }

  /** Reading in a loop, filling the map. */
  method ReadAll<T, V, E>(items: seq<T>, r: Reader<T, V, E>) returns (result: Result<map<string, V>, E>)
    ensures result == Read(items, r)
  {
    var m: map<string, V> := map[];
    for i := 0 to |items|
      invariant Read(items[..i], r) == Ok(m)
    {
      assert items[..i + 1][..i] == items[..i];
      result := ReadNext(m, items[i], r);
      if result.Err? {
        ReadStops(items, r, i + 1);
        return;
      }
      m := result.value;
    }
    assert items[..|items|] == items;
    result := Ok(m);
  }
}
