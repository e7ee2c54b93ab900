/** JSON values as the program's parser hands them over, and the lookups its validators use. */
module Json {
  import opened Text

  datatype Json =
    | Null
    | Bool(truth: bool)
    | PosInt(magnitude: u64)
    | NegInt(value: int)
    | Float(number: real)
    | Str(text: string)
    | Arr(items: seq<Json>)
    | Obj(fields: map<string, Json>)

  /** A member of an object; nothing for other values, arrays included. */
  function Get(v: Json, key: string): Option<Json> {
    if v.Obj? && key in v.fields then Some(v.fields[key]) else None
  }

  /** A member of an object, null when there is none. */
  function At(v: Json, key: string): Json {
    if v.Obj? && key in v.fields then v.fields[key] else Null
  }

  function TextOf(v: Json): Option<string> {
    if v.Str? then Some(v.text) else None
  }

  function Then(v: Option<Json>, key: string): Option<Json> {
    if v.Some? then Get(v.value, key) else None
  }

  function ThenText(v: Option<Json>): Option<string> {
    if v.Some? then TextOf(v.value) else None
  }

  predicate NonEmptyText(v: Json) {
    v.Str? && v.text != ""
  }

  /** An object with exactly these members. */
  predicate Exact(v: Json, keys: set<string>) {
    v.Obj? && v.fields.Keys == keys
  }

  // ---------------------------------------------------------------- sets of ids

  datatype SetError = NotArray | InvalidId | DuplicateIds

  function Ids(items: seq<Json>): (r: Result<set<string>, SetError>)
    ensures r.Ok? ==> |r.value| == |items| && forall i :: 0 <= i < |items| ==> NonEmptyText(items[i]) && items[i].text in r.value
  {
    if items == [] then Ok({})
    else
      match Ids(items[..|items| - 1])
      case Err(e) => Err(e)
      case Ok(ids) =>
        var last := items[|items| - 1];
        if !NonEmptyText(last) then Err(InvalidId)
        else if last.text in ids then Err(DuplicateIds)
        else Ok(ids + {last.text})
  }

  /** A set of ids read from an array; duplicates and empty ids are errors. */
  function IdSet(v: Json): Result<set<string>, SetError> {
    if v.Arr? then Ids(v.items) else Err(NotArray)
  }

  method ReadIdSet(v: Json) returns (r: Result<set<string>, SetError>)
    ensures r == IdSet(v)
  {
    if !v.Arr? {
      return Err(NotArray);
    }
    var items := v.items;
    var ids: set<string> := {};
    for i := 0 to |items|
      invariant Ids(items[..i]) == Ok(ids)
    {
      assert items[..i + 1][..i] == items[..i];
      if !NonEmptyText(items[i]) || items[i].text in ids {
        IdsStop(items, i + 1);
        return Err(if NonEmptyText(items[i]) then DuplicateIds else InvalidId);
      }
      ids := ids + {items[i].text};
    }
    assert items[..|items|] == items;
    r := Ok(ids);
  }

  /** The first bad id decides the error. */
  lemma {:induction false} IdsStop(items: seq<Json>, k: nat)
    requires k <= |items| && Ids(items[..k]).Err?
    ensures Ids(items) == Ids(items[..k])
    decreases |items|
  {
    if k == |items| {
      assert items[..k] == items;
    } else {
      assert items[..|items| - 1][..k] == items[..k];
      IdsStop(items[..|items| - 1], k);
    }
  }

  ghost predicate DistinctIds(items: seq<Json>) {
    && (forall i :: 0 <= i < |items| ==> NonEmptyText(items[i]))
    && (forall i, j :: 0 <= i < j < |items| ==> items[i] != items[j])
  }

  ghost function TextsIn(items: seq<Json>): set<string> {
    set v | v in items && v.Str? :: v.text
  }

  lemma TextsSnoc(front: seq<Json>, last: Json)
    ensures TextsIn(front + [last]) == TextsIn(front) + if last.Str? then {last.text} else {}
  {
  }

  lemma DistinctSnoc(front: seq<Json>, last: Json)
    ensures DistinctIds(front + [last]) <==> DistinctIds(front) && NonEmptyText(last) && last.text !in TextsIn(front)
  {
    var items := front + [last];
    assert items[|front|] == last && forall i :: 0 <= i < |front| ==> items[i] == front[i];
    if DistinctIds(items) {
      assert forall i :: 0 <= i < |front| ==> items[i] != items[|front|];
    }
    if DistinctIds(front) && NonEmptyText(last) && last.text !in TextsIn(front) {
      assert forall i :: 0 <= i < |front| ==> front[i] in front && front[i] != last;
    }
  }

  /** An array is read as a set exactly when its ids are non-empty and pairwise distinct, and then loses nothing. */
  lemma {:induction false} IdsExactly(items: seq<Json>)
    ensures Ids(items).Ok? <==> DistinctIds(items)
    ensures Ids(items).Ok? ==> Ids(items).value == TextsIn(items)
  {
    if items != [] {
      var front, last := items[..|items| - 1], items[|items| - 1];
      IdsExactly(front);
      TextsSnoc(front, last);
      DistinctSnoc(front, last);
      hide DistinctIds, TextsIn;
      assert items == front + [last];
    }
  }
}
