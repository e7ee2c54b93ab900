/** JSON texts as trees with their layout, and what the scan decides about every rendering. */
module JsonTree {
  import opened JsonScan
  import opened Octets
  import opened Text

  /** A value with the whitespace it was written with. Strings keep their undecoded bytes between the quotes. */
  datatype Node =
    | Scalar(token: Bytes)
    | Text(body: Bytes)
    | List(pad: Bytes, items: seq<Item>)
    | Object(pad: Bytes, members: seq<Member>)

  datatype Item = Item(before: Bytes, value: Node, after: Bytes)

  datatype Member = Member(before: Bytes, name: Bytes, beforeColon: Bytes, afterColon: Bytes, value: Node, after: Bytes)

  // ---------------------------------------------------------------- rendering

  function Quoted(body: Bytes): Bytes {
    [QUOTE] + body + [QUOTE]
  }

  function Render(n: Node): Bytes
    decreases n, 1
  {
    match n
    case Scalar(token) => token
    case Text(body) => Quoted(body)
    case List(pad, items) => [OPEN_BRACKET] + (if items == [] then pad else RenderItems(items)) + [CLOSE_BRACKET]
    case Object(pad, members) => [OPEN_BRACE] + (if members == [] then pad else RenderMembers(members)) + [CLOSE_BRACE]
  }

  function RenderItems(items: seq<Item>): Bytes
    requires items != []
    decreases items, 0
  {
    items[0].before + Render(items[0].value) + (items[0].after + (if |items| == 1 then [] else [COMMA] + RenderItems(items[1..])))
  }

  function RenderMembers(members: seq<Member>): Bytes
    requires members != []
    decreases members, 0
  {
    MemberText(members[0]) + (members[0].after + (if |members| == 1 then [] else [COMMA] + RenderMembers(members[1..])))
  }

  function MemberText(m: Member): Bytes
    decreases m, 0
  {
    m.before + Quoted(m.name) + (m.beforeColon + ([COLON] + (m.afterColon + Render(m.value))))
  }

  // ---------------------------------------------------------------- well-formed layout

  /** Insignificant whitespace of RFC 8259, section 2. */
  predicate JsonWs(s: Bytes) {
    forall i :: 0 <= i < |s| ==> s[i] == SPACE || s[i] == TAB || s[i] == LINE_FEED || s[i] == CARRIAGE_RETURN
  }

  /** Between the quotes no quote stands unescaped, and every backslash escapes a byte. */
  predicate StringBody(body: Bytes) {
    if body == [] then true
    else if body[0] == BACKSLASH then |body| >= 2 && StringBody(body[2..])
    else body[0] != QUOTE && StringBody(body[1..])
  }

  /** Numbers and the three literal names use none of the excluded bytes. */
  predicate ScalarByte(b: byte) {
    !EndsScalar(b) && !AsciiWhitespace(b) && b != QUOTE && b != OPEN_BRACKET && b != OPEN_BRACE
  }

  predicate ScalarToken(token: Bytes) {
    token != [] && forall i :: 0 <= i < |token| ==> ScalarByte(token[i])
  }

  predicate WellFormed(n: Node)
    decreases n, 1
  {
    match n
    case Scalar(token) => ScalarToken(token)
    case Text(body) => StringBody(body)
    case List(pad, items) => JsonWs(pad) && WellFormedItems(items)
    case Object(pad, members) => JsonWs(pad) && WellFormedMembers(members)
  }

  predicate WellFormedItems(items: seq<Item>)
    decreases items, 0
  {
    items == [] ||
    (JsonWs(items[0].before) && WellFormed(items[0].value) && JsonWs(items[0].after) && WellFormedItems(items[1..]))
  }

  predicate WellFormedMembers(members: seq<Member>)
    decreases members, 0
  {
    members == [] || (WellFormedMember(members[0]) && JsonWs(members[0].after) && WellFormedMembers(members[1..]))
  }

  predicate WellFormedMember(m: Member)
    decreases m, 0
  {
    JsonWs(m.before) && StringBody(m.name) && JsonWs(m.beforeColon) && JsonWs(m.afterColon) && WellFormed(m.value)
  }

  // ---------------------------------------------------------------- what is acceptable

  predicate Fine(decode: Decoder, n: Node, depth: nat)
    decreases n, 1
  {
    && depth <= MAX_JSON_DEPTH
    && match n
       case Scalar(_) => true
       case Text(body) => decode(Quoted(body)).Some?
       case List(_, items) => FineItems(decode, items, depth + 1)
       case Object(_, members) => FineMembers(decode, members, depth + 1, {})
  }

  predicate FineItems(decode: Decoder, items: seq<Item>, depth: nat)
    decreases items, 0
  {
    items == [] || (Fine(decode, items[0].value, depth) && FineItems(decode, items[1..], depth))
  }

  predicate FineMembers(decode: Decoder, members: seq<Member>, depth: nat, keys: set<Name>)
    decreases members, 0
  {
    members == [] ||
    (var name := decode(Quoted(members[0].name));
     && name.Some? && name.value !in keys && Fine(decode, members[0].value, depth)
     && FineMembers(decode, members[1..], depth, keys + {name.value}))
  }

  // ---------------------------------------------------------------- bytes at a position

  ghost predicate Holds(b: Bytes, i: nat, s: Bytes) {
    i + |s| <= |b| && b[i..i + |s|] == s
  }

  lemma HoldsSplit(b: Bytes, i: nat, s: Bytes, t: Bytes)
    requires Holds(b, i, s + t)
    ensures Holds(b, i, s) && Holds(b, i + |s|, t)
  {
    assert b[i..i + |s|] == b[i..i + |s + t|][..|s|] == s;
    assert b[i + |s|..i + |s| + |t|] == b[i..i + |s + t|][|s|..] == t;
  }

  lemma HoldsAt(b: Bytes, i: nat, c: byte)
    requires Holds(b, i, [c])
    ensures At(b, i, c)
  {
    assert b[i..i + 1][0] == c;
  }

  lemma HoldsHead(b: Bytes, i: nat, s: Bytes)
    requires Holds(b, i, s) && s != []
    ensures i < |b| && b[i] == s[0] && Holds(b, i + 1, s[1..])
  {
    assert s == [s[0]] + s[1..];
    HoldsSplit(b, i, [s[0]], s[1..]);
    HoldsAt(b, i, s[0]);
  }

  lemma {:induction false} WsSkips(b: Bytes, i: nat, w: Bytes)
    requires Holds(b, i, w) && JsonWs(w)
    requires i + |w| == |b| || !AsciiWhitespace(b[i + |w|])
    ensures Ws(b, i) == i + |w|
    decreases |w|
  {
    if w != [] {
      HoldsHead(b, i, w);
      WsSkips(b, i + 1, w[1..]);
    }
  }

  lemma {:induction false} WsIdempotent(b: Bytes, i: nat)
    requires i <= |b|
    ensures Ws(b, Ws(b, i)) == Ws(b, i)
    decreases |b| - i
  {
    if i < |b| && AsciiWhitespace(b[i]) {
      WsIdempotent(b, i + 1);
    }
  }

  lemma {:induction false} ScalarSkips(b: Bytes, i: nat, token: Bytes)
    requires Holds(b, i, token) && forall k :: 0 <= k < |token| ==> ScalarByte(token[k])
    requires i + |token| == |b| || EndsScalar(b[i + |token|])
    ensures ScalarEnd(b, i) == i + |token|
    decreases |token|
  {
    if token != [] {
      HoldsHead(b, i, token);
      ScalarSkips(b, i + 1, token[1..]);
    }
  }

  lemma {:induction false} StringSkips(b: Bytes, i: nat, body: Bytes)
    requires Holds(b, i, body + [QUOTE]) && StringBody(body)
    ensures StringEnd(b, i) == Reached(i + |body| + 1)
    decreases |body|
  {
    HoldsHead(b, i, body + [QUOTE]);
    if body != [] {
      assert (body + [QUOTE])[1..] == body[1..] + [QUOTE];
      if body[0] == BACKSLASH {
        HoldsHead(b, i + 1, body[1..] + [QUOTE]);
        assert (body[1..] + [QUOTE])[1..] == body[2..] + [QUOTE];
        StringSkips(b, i + 2, body[2..]);
      } else {
        StringSkips(b, i + 1, body[1..]);
      }
    }
  }

  lemma QuotedScans(decode: Decoder, b: Bytes, i: nat, body: Bytes)
    requires Holds(b, i, Quoted(body)) && StringBody(body)
    ensures ScanString(decode, b, i)
         == match decode(Quoted(body)) case None => Unnamed(StringInvalid) case Some(name) => Named(i + |Quoted(body)|, name)
  {
    assert Quoted(body) == [QUOTE] + (body + [QUOTE]);
    HoldsHead(b, i, Quoted(body));
    assert Quoted(body)[1..] == body + [QUOTE];
    StringSkips(b, i + 1, body);
  }

  /** A rendering starts with a byte that is neither whitespace nor a delimiter. */
  lemma RenderHead(n: Node)
    requires WellFormed(n)
    ensures Render(n) != [] && !AsciiWhitespace(Render(n)[0]) && !EndsScalar(Render(n)[0])
  {
  }

  // ---------------------------------------------------------------- the scan of a rendering

  /** The scan of one value succeeds exactly when the value is acceptable, and ends where its rendering ends. */
  ghost predicate Decides(r: Scanned, fine: bool, end: nat) {
    (r.Reached? <==> fine) && (r.Reached? ==> r.pos == end)
  }

  /** What may follow a value: nothing, whitespace, or a delimiter. */
  ghost predicate Followed(b: Bytes, i: nat) {
    i == |b| || (i < |b| && EndsScalar(b[i]))
  }

  lemma WsBefore(b: Bytes, i: nat, w: Bytes, n: Node)
    requires Holds(b, i, w + Render(n)) && JsonWs(w) && WellFormed(n)
    ensures Ws(b, i) == i + |w| && Holds(b, i + |w|, Render(n)) && i + |w| < |b| && b[i + |w|] == Render(n)[0]
  {
    HoldsSplit(b, i, w, Render(n));
    RenderHead(n);
    HoldsHead(b, i + |w|, Render(n));
    WsSkips(b, i, w);
  }

  /** A well-formed value lies between i and end, after whitespace w. */
  ghost predicate ValueAt(b: Bytes, i: nat, w: Bytes, n: Node, end: nat) {
    Holds(b, i, w + Render(n)) && JsonWs(w) && WellFormed(n) && end == i + |w| + |Render(n)| && Followed(b, end)
  }

  lemma ScalarScans(decode: Decoder, b: Bytes, i: nat, j: nat, token: Bytes, depth: nat)
    requires i <= |b| && Ws(b, i) == j < |b| && ScalarByte(b[j]) && depth <= MAX_JSON_DEPTH
    requires Holds(b, j, token) && ScalarToken(token) && Followed(b, j + |token|)
    ensures ScanValue(decode, b, i, depth) == Reached(j + |token|)
  {
    ScalarSkips(b, j, token);
  }

  lemma TextScans(decode: Decoder, b: Bytes, i: nat, j: nat, body: Bytes, depth: nat)
    requires i <= |b| && Ws(b, i) == j < |b| && b[j] == QUOTE && depth <= MAX_JSON_DEPTH
    requires Holds(b, j, Quoted(body)) && StringBody(body)
    ensures Decides(ScanValue(decode, b, i, depth), decode(Quoted(body)).Some?, j + |Quoted(body)|)
  {
    QuotedScans(decode, b, j, body);
  }

  ghost function ListRest(decode: Decoder, b: Bytes, j: nat, depth: nat): Scanned
    requires j < |b|
  {
    var k := Ws(b, j + 1);
    if At(b, k, CLOSE_BRACKET) then Reached(k + 1) else ScanItems(decode, b, k, depth + 1)
  }

  ghost function ObjectRest(decode: Decoder, b: Bytes, j: nat, depth: nat): Scanned
    requires j < |b|
  {
    var k := Ws(b, j + 1);
    if At(b, k, CLOSE_BRACE) then Reached(k + 1) else ScanMembers(decode, b, k, depth + 1, {})
  }

  lemma {:induction false} ValueScans(decode: Decoder, b: Bytes, i: nat, w: Bytes, n: Node, end: nat, depth: nat)
    requires ValueAt(b, i, w, n, end)
    ensures i <= |b| && Decides(ScanValue(decode, b, i, depth), Fine(decode, n, depth), end)
    decreases n, 2
  {
    hide *;
    if depth > MAX_JSON_DEPTH {
      DeepValueScans(decode, b, i, w, n, end, depth);
    } else if n.Scalar? || n.Text? {
      LeafScans(decode, b, i, w, n, end, depth);
    } else if n.List? {
      ListValueScans(decode, b, i, w, n, end, depth);
    } else {
      ObjectValueScans(decode, b, i, w, n, end, depth);
    }
  }

  lemma DeepValueScans(decode: Decoder, b: Bytes, i: nat, w: Bytes, n: Node, end: nat, depth: nat)
    requires ValueAt(b, i, w, n, end) && depth > MAX_JSON_DEPTH
    ensures i <= |b| && Decides(ScanValue(decode, b, i, depth), Fine(decode, n, depth), end)
  {
    hide JsonWs, Render, WellFormed;
  }

  lemma LeafScans(decode: Decoder, b: Bytes, i: nat, w: Bytes, n: Node, end: nat, depth: nat)
    requires ValueAt(b, i, w, n, end) && depth <= MAX_JSON_DEPTH && (n.Scalar? || n.Text?)
    ensures i <= |b| && Decides(ScanValue(decode, b, i, depth), Fine(decode, n, depth), end)
  {
    WsBefore(b, i, w, n);
    var j := i + |w|;
    if n.Scalar? {
      assert ScalarByte(b[j]);
      hide Holds, JsonWs, Ws, ScanValue;
      ScalarScans(decode, b, i, j, n.token, depth);
    } else {
      hide Holds, JsonWs, Ws, ScanValue;
      TextScans(decode, b, i, j, n.body, depth);
    }
  }

  lemma {:induction false} ListValueScans(decode: Decoder, b: Bytes, i: nat, w: Bytes, n: Node, end: nat, depth: nat)
    requires ValueAt(b, i, w, n, end) && depth <= MAX_JSON_DEPTH && n.List?
    ensures i <= |b| && Decides(ScanValue(decode, b, i, depth), Fine(decode, n, depth), end)
    decreases n, 1
  {
    hide *;
    ListParts(decode, b, i, w, n, end, depth);
    ScanOpens(decode, b, i, i + |w|, depth);
    ListScans(decode, b, i + |w|, n.pad, n.items, depth);
  }

  lemma ListParts(decode: Decoder, b: Bytes, i: nat, w: Bytes, n: Node, end: nat, depth: nat)
    requires ValueAt(b, i, w, n, end) && depth <= MAX_JSON_DEPTH && n.List?
    ensures i <= |b| && Ws(b, i) == i + |w| && At(b, i + |w|, OPEN_BRACKET) && end == i + |w| + |Render(List(n.pad, n.items))|
    ensures Holds(b, i + |w|, Render(List(n.pad, n.items))) && JsonWs(n.pad) && WellFormedItems(n.items)
    ensures Fine(decode, n, depth) == FineItems(decode, n.items, depth + 1)
  {
    WsBefore(b, i, w, n);
    hide JsonWs, Ws, Holds, WellFormedItems, FineItems;
  }

  lemma {:induction false} ObjectValueScans(decode: Decoder, b: Bytes, i: nat, w: Bytes, n: Node, end: nat, depth: nat)
    requires ValueAt(b, i, w, n, end) && depth <= MAX_JSON_DEPTH && n.Object?
    ensures i <= |b| && Decides(ScanValue(decode, b, i, depth), Fine(decode, n, depth), end)
    decreases n, 1
  {
    hide *;
    ObjectParts(decode, b, i, w, n, end, depth);
    ScanOpens(decode, b, i, i + |w|, depth);
    ObjectScans(decode, b, i + |w|, n.pad, n.members, depth);
  }

  lemma ObjectParts(decode: Decoder, b: Bytes, i: nat, w: Bytes, n: Node, end: nat, depth: nat)
    requires ValueAt(b, i, w, n, end) && depth <= MAX_JSON_DEPTH && n.Object?
    ensures i <= |b| && Ws(b, i) == i + |w| && At(b, i + |w|, OPEN_BRACE) && end == i + |w| + |Render(Object(n.pad, n.members))|
    ensures Holds(b, i + |w|, Render(Object(n.pad, n.members))) && JsonWs(n.pad) && WellFormedMembers(n.members)
    ensures Fine(decode, n, depth) == FineMembers(decode, n.members, depth + 1, {})
  {
    WsBefore(b, i, w, n);
    hide JsonWs, Ws, Holds, WellFormedMembers, FineMembers;
  }

  lemma ScanOpens(decode: Decoder, b: Bytes, i: nat, j: nat, depth: nat)
    requires i <= |b| && Ws(b, i) == j && depth <= MAX_JSON_DEPTH
    ensures At(b, j, OPEN_BRACKET) ==> ScanValue(decode, b, i, depth) == ListRest(decode, b, j, depth)
    ensures At(b, j, OPEN_BRACE) ==> ScanValue(decode, b, i, depth) == ObjectRest(decode, b, j, depth)
  {
  }

  lemma EmptyCloses(b: Bytes, i: nat, pad: Bytes, close: byte)
    requires Holds(b, i, pad + [close]) && JsonWs(pad) && !AsciiWhitespace(close)
    ensures Ws(b, i) == i + |pad| && At(b, i + |pad|, close)
  {
    HoldsSplit(b, i, pad, [close]);
    HoldsAt(b, i + |pad|, close);
    WsSkips(b, i, pad);
  }

  /** A container's bytes: an opening bracket, what is inside, and a closing bracket. */
  lemma ContainerDivides(b: Bytes, j: nat, open: byte, inner: Bytes, close: byte)
    requires Holds(b, j, [open] + inner + [close])
    ensures At(b, j, open) && Holds(b, j + 1, inner + [close]) && |[open] + inner + [close]| == |inner| + 2
  {
    assert [open] + inner + [close] == [open] + (inner + [close]);
    HoldsSplit(b, j, [open], inner + [close]);
    HoldsAt(b, j, open);
  }

  lemma EmptyListScans(decode: Decoder, b: Bytes, j: nat, pad: Bytes, depth: nat)
    requires At(b, j, OPEN_BRACKET) && Holds(b, j + 1, pad + [CLOSE_BRACKET]) && JsonWs(pad)
    ensures ListRest(decode, b, j, depth) == Reached(j + |pad| + 2)
  {
    hide Holds, JsonWs, Ws, ScanItems;
    EmptyCloses(b, j + 1, pad, CLOSE_BRACKET);
  }

  lemma {:induction false} FullListScans(decode: Decoder, b: Bytes, j: nat, items: seq<Item>, depth: nat)
    requires items != [] && At(b, j, OPEN_BRACKET) && Holds(b, j + 1, RenderItems(items) + [CLOSE_BRACKET]) && WellFormedItems(items)
    ensures Decides(ListRest(decode, b, j, depth), FineItems(decode, items, depth + 1), j + |RenderItems(items)| + 2)
    decreases items, 1
  {
    hide Holds, Ws, RenderItems, ScanItems, WellFormedItems, FineItems;
    ItemsScan(decode, b, j + 1, items, depth + 1);
    ItemsHead(b, j + 1, items);
    ItemsFromWs(decode, b, j + 1, depth + 1);
  }

  lemma {:induction false} ListScans(decode: Decoder, b: Bytes, j: nat, pad: Bytes, items: seq<Item>, depth: nat)
    requires Holds(b, j, Render(List(pad, items))) && JsonWs(pad) && WellFormedItems(items)
    ensures j < |b| && Decides(ListRest(decode, b, j, depth), FineItems(decode, items, depth + 1), j + |Render(List(pad, items))|)
    decreases items, 2
  {
    hide Holds, JsonWs, Ws, ScanItems, ListRest;
    if items == [] {
      ContainerDivides(b, j, OPEN_BRACKET, pad, CLOSE_BRACKET);
      EmptyListScans(decode, b, j, pad, depth);
    } else {
      ContainerDivides(b, j, OPEN_BRACKET, RenderItems(items), CLOSE_BRACKET);
      FullListScans(decode, b, j, items, depth);
    }
  }

  lemma ItemsFromWs(decode: Decoder, b: Bytes, i: nat, depth: nat)
    requires i <= |b|
    ensures ScanItems(decode, b, Ws(b, i), depth) == ScanItems(decode, b, i, depth)
  {
    WsIdempotent(b, i);
    assert ScanValue(decode, b, Ws(b, i), depth) == ScanValue(decode, b, i, depth);
  }

  /** A piece, optional whitespace, then text that starts with a delimiter. */
  lemma PieceDivides(b: Bytes, i: nat, head: Bytes, after: Bytes, tail: Bytes)
    requires Holds(b, i, head + (after + tail)) && JsonWs(after) && tail != [] && EndsScalar(tail[0]) && !AsciiWhitespace(tail[0])
    ensures Holds(b, i, head) && Followed(b, i + |head|) && Ws(b, i + |head|) == i + |head| + |after|
    ensures At(b, i + |head| + |after|, tail[0]) && Holds(b, i + |head| + |after| + 1, tail[1..])
  {
    HoldsSplit(b, i, head, after + tail);
    GapDivides(b, i + |head|, after, tail);
  }

  lemma GapDivides(b: Bytes, j: nat, after: Bytes, tail: Bytes)
    requires Holds(b, j, after + tail) && JsonWs(after) && tail != [] && EndsScalar(tail[0]) && !AsciiWhitespace(tail[0])
    ensures Followed(b, j) && Ws(b, j) == j + |after| && At(b, j + |after|, tail[0]) && Holds(b, j + |after| + 1, tail[1..])
  {
    HoldsSplit(b, j, after, tail);
    HoldsHead(b, j + |after|, tail);
    WsSkips(b, j, after);
    if after != [] {
      HoldsHead(b, j, after);
    }
  }

  /** How the bytes of a non-empty list of elements divide: an element, then either the end or a comma and the rest. */
  ghost predicate ItemsLayout(b: Bytes, i: nat, items: seq<Item>, j: nat, k: nat)
    requires items != []
  {
    && ValueAt(b, i, items[0].before, items[0].value, j) && Ws(b, j) == k
    && if |items| == 1 then At(b, k, CLOSE_BRACKET) && |RenderItems(items)| == k - i
       else At(b, k, COMMA) && Holds(b, k + 1, RenderItems(items[1..]) + [CLOSE_BRACKET])
            && |RenderItems(items)| == k - i + 1 + |RenderItems(items[1..])|
  }

  function ItemsTail(items: seq<Item>): (tail: Bytes)
    requires items != []
    ensures tail != []
  {
    if |items| == 1 then [CLOSE_BRACKET] else [COMMA] + (RenderItems(items[1..]) + [CLOSE_BRACKET])
  }

  lemma RenderItemsStep(items: seq<Item>)
    requires items != []
    ensures var tail := ItemsTail(items);
            && tail[0] == (if |items| == 1 then CLOSE_BRACKET else COMMA)
            && tail[1..] == (if |items| == 1 then [] else RenderItems(items[1..]) + [CLOSE_BRACKET])
            && |RenderItems(items)| + 1 == |items[0].before + Render(items[0].value)| + |items[0].after| + |tail|
    ensures RenderItems(items) + [CLOSE_BRACKET]
         == items[0].before + Render(items[0].value) + (items[0].after + ItemsTail(items))
  {
    var head, after := items[0].before + Render(items[0].value), items[0].after;
    if |items| == 1 {
      assert RenderItems(items) == head + (after + []);
    } else {
      assert RenderItems(items) == head + (after + ([COMMA] + RenderItems(items[1..])));
    }
  }

  lemma ItemsDivide(b: Bytes, i: nat, items: seq<Item>) returns (j: nat, k: nat)
    requires items != [] && WellFormedItems(items) && Holds(b, i, RenderItems(items) + [CLOSE_BRACKET])
    ensures ItemsLayout(b, i, items, j, k)
  {
    var head, after := items[0].before + Render(items[0].value), items[0].after;
    j, k := i + |head|, i + |head| + |after|;
    RenderItemsStep(items);
    hide Holds, Ws, RenderItems, Render, ItemsTail, JsonWs, WellFormed;
    PieceDivides(b, i, head, after, ItemsTail(items));
  }

  lemma ItemsHead(b: Bytes, i: nat, items: seq<Item>)
    requires items != [] && WellFormedItems(items) && Holds(b, i, RenderItems(items) + [CLOSE_BRACKET])
    ensures !At(b, Ws(b, i), CLOSE_BRACKET)
  {
    var _, _ := ItemsDivide(b, i, items);
    WsBefore(b, i, items[0].before, items[0].value);
    RenderHead(items[0].value);
  }

  lemma {:induction false} ItemsScan(decode: Decoder, b: Bytes, i: nat, items: seq<Item>, depth: nat)
    requires items != [] && WellFormedItems(items) && Holds(b, i, RenderItems(items) + [CLOSE_BRACKET])
    ensures Decides(ScanItems(decode, b, i, depth), FineItems(decode, items, depth), i + |RenderItems(items)| + 1)
    decreases items, 0
  {
    hide Holds, Render, WellFormed, JsonWs, ScanValue, ValueAt, Fine;
    var j, k := ItemsDivide(b, i, items);
    ValueScans(decode, b, i, items[0].before, items[0].value, j, depth);
    if |items| == 1 {
      assert items[1..] == [];
    } else {
      ItemsScan(decode, b, k + 1, items[1..], depth);
    }
  }

  /** A well-formed member lies between i and end. */
  ghost predicate MemberAt(b: Bytes, i: nat, m: Member, end: nat) {
    WellFormedMember(m) && Holds(b, i, MemberText(m)) && end == i + |MemberText(m)| && Followed(b, end)
  }

  /** How its bytes divide: the name ends at j, the colon is at k. */
  ghost predicate MemberLayout(b: Bytes, i: nat, m: Member, end: nat, j: nat, k: nat) {
    && i <= |b| && Ws(b, i) == i + |m.before| && Holds(b, i + |m.before|, Quoted(m.name)) && StringBody(m.name)
    && j == i + |m.before| + |Quoted(m.name)| <= |b| && Ws(b, j) == k && At(b, k, COLON)
    && ValueAt(b, k + 1, m.afterColon, m.value, end)
  }

  lemma MemberDivides(b: Bytes, i: nat, m: Member, end: nat) returns (j: nat, k: nat)
    requires MemberAt(b, i, m, end)
    ensures MemberLayout(b, i, m, end, j, k)
  {
    hide *;
    MemberUnfold(b, i, m, end);
    j := i + |m.before| + |Quoted(m.name)|;
    k := j + |m.beforeColon|;
    NameDivides(b, i, m.before, Quoted(m.name), m.beforeColon, m.afterColon + Render(m.value));
    WsBeforeName(b, i, m.before, m.name);
    MemberLaid(b, i, m, end, j, k);
  }

  lemma NameDivides(b: Bytes, i: nat, before: Bytes, name: Bytes, w: Bytes, rest: Bytes)
    requires Holds(b, i, before + name + (w + ([COLON] + rest))) && JsonWs(w)
    ensures var j := i + |before| + |name|;
            && Holds(b, i, before + name) && j <= |b| && Ws(b, j) == j + |w|
            && At(b, j + |w|, COLON) && Holds(b, j + |w| + 1, rest)
  {
    hide *;
    HoldsSplit(b, i, before + name, w + ([COLON] + rest));
    assert |before + name| == |before| + |name|;
    ColonDivides(b, i + |before| + |name|, w, rest);
  }

  lemma MemberUnfold(b: Bytes, i: nat, m: Member, end: nat)
    requires MemberAt(b, i, m, end)
    ensures JsonWs(m.before) && StringBody(m.name) && JsonWs(m.beforeColon) && JsonWs(m.afterColon) && WellFormed(m.value)
    ensures Holds(b, i, m.before + Quoted(m.name) + (m.beforeColon + ([COLON] + (m.afterColon + Render(m.value)))))
    ensures end == i + |m.before| + |Quoted(m.name)| + |m.beforeColon| + 1 + |m.afterColon| + |Render(m.value)| && Followed(b, end)
  {
    hide JsonWs, StringBody, WellFormed, Quoted, Render, Holds, Followed;
  }

  lemma WsBeforeName(b: Bytes, i: nat, w: Bytes, name: Bytes)
    requires Holds(b, i, w + Quoted(name)) && JsonWs(w) && StringBody(name)
    ensures i <= |b| && Ws(b, i) == i + |w| && Holds(b, i + |w|, Quoted(name)) && i + |w| + |Quoted(name)| <= |b|
  {
    WsBefore(b, i, w, Text(name));
  }

  lemma MemberLaid(b: Bytes, i: nat, m: Member, end: nat, j: nat, k: nat)
    requires i <= |b| && Ws(b, i) == i + |m.before| && Holds(b, i + |m.before|, Quoted(m.name)) && StringBody(m.name)
    requires j == i + |m.before| + |Quoted(m.name)| <= |b| && Ws(b, j) == k && At(b, k, COLON)
    requires Holds(b, k + 1, m.afterColon + Render(m.value)) && JsonWs(m.afterColon) && WellFormed(m.value)
    requires end == k + 1 + |m.afterColon| + |Render(m.value)| && Followed(b, end)
    ensures MemberLayout(b, i, m, end, j, k)
  {
    hide JsonWs, StringBody, WellFormed, Quoted, Render, Holds, Followed, Ws;
  }

  /** Whitespace, a colon, and what follows it. */
  lemma ColonDivides(b: Bytes, j: nat, w: Bytes, rest: Bytes)
    requires Holds(b, j, w + ([COLON] + rest)) && JsonWs(w)
    ensures j <= |b| && Ws(b, j) == j + |w| && At(b, j + |w|, COLON) && Holds(b, j + |w| + 1, rest)
  {
    HoldsSplit(b, j, w, [COLON] + rest);
    HoldsSplit(b, j + |w|, [COLON], rest);
    HoldsAt(b, j + |w|, COLON);
    WsSkips(b, j, w);
  }

  /** The scan of one member succeeds exactly when its name decodes, is new, and its value is acceptable. */
  ghost predicate MemberDecides(r: ReadName, name: Option<Name>, keys: set<Name>, fine: bool, end: nat) {
    if name.Some? && name.value !in keys && fine then r == Named(end, name.value) else r.Unnamed?
  }

  lemma MemberSteps(decode: Decoder, b: Bytes, i: nat, depth: nat, keys: set<Name>, name: Option<Name>, j: nat, fine: bool, end: nat)
    requires i <= |b| && j <= |b| && At(b, Ws(b, j), COLON)
    requires ScanString(decode, b, Ws(b, i)) == match name case None => Unnamed(StringInvalid) case Some(x) => Named(j, x)
    requires Decides(ScanValue(decode, b, Ws(b, j) + 1, depth), fine, end)
    ensures MemberDecides(ScanMember(decode, b, i, depth, keys), name, keys, fine, end)
  {
  }

  lemma {:induction false} MemberScans(decode: Decoder, b: Bytes, i: nat, m: Member, end: nat, depth: nat, keys: set<Name>)
    requires MemberAt(b, i, m, end)
    ensures i <= |b|
         && MemberDecides(ScanMember(decode, b, i, depth, keys), decode(Quoted(m.name)), keys, Fine(decode, m.value, depth), end)
    decreases m.value, 3
  {
    hide Holds, Render, Quoted, WellFormed, StringBody, JsonWs, ScanValue, ScanString, ScanMember, Fine, Ws;
    var j, k := MemberDivides(b, i, m, end);
    QuotedScans(decode, b, Ws(b, i), m.name);
    ValueScans(decode, b, k + 1, m.afterColon, m.value, end, depth);
    MemberSteps(decode, b, i, depth, keys, decode(Quoted(m.name)), j, Fine(decode, m.value, depth), end);
  }

  /** How the bytes of a non-empty list of members divide. */
  ghost predicate MembersLayout(b: Bytes, i: nat, members: seq<Member>, j: nat, k: nat)
    requires members != []
  {
    && MemberAt(b, i, members[0], j) && Ws(b, j) == k
    && if |members| == 1 then At(b, k, CLOSE_BRACE) && |RenderMembers(members)| == k - i
       else At(b, k, COMMA) && Holds(b, k + 1, RenderMembers(members[1..]) + [CLOSE_BRACE])
            && |RenderMembers(members)| == k - i + 1 + |RenderMembers(members[1..])|
  }

  function MembersTail(members: seq<Member>): (tail: Bytes)
    requires members != []
    ensures tail != []
  {
    if |members| == 1 then [CLOSE_BRACE] else [COMMA] + (RenderMembers(members[1..]) + [CLOSE_BRACE])
  }

  lemma RenderMembersStep(members: seq<Member>)
    requires members != []
    ensures var tail := MembersTail(members);
            && tail[0] == (if |members| == 1 then CLOSE_BRACE else COMMA)
            && tail[1..] == (if |members| == 1 then [] else RenderMembers(members[1..]) + [CLOSE_BRACE])
            && |RenderMembers(members)| + 1 == |MemberText(members[0])| + |members[0].after| + |tail|
    ensures RenderMembers(members) + [CLOSE_BRACE] == MemberText(members[0]) + (members[0].after + MembersTail(members))
  {
    var head, after := MemberText(members[0]), members[0].after;
    if |members| == 1 {
      assert RenderMembers(members) == head + (after + []);
    } else {
      assert RenderMembers(members) == head + (after + ([COMMA] + RenderMembers(members[1..])));
    }
  }

  lemma MembersDivide(b: Bytes, i: nat, members: seq<Member>) returns (j: nat, k: nat)
    requires members != [] && WellFormedMembers(members) && Holds(b, i, RenderMembers(members) + [CLOSE_BRACE])
    ensures MembersLayout(b, i, members, j, k)
  {
    hide *;
    RenderMembersStep(members);
    MembersUnfold(members);
    j, k := i + |MemberText(members[0])|, i + |MemberText(members[0])| + |members[0].after|;
    PieceDivides(b, i, MemberText(members[0]), members[0].after, MembersTail(members));
    MembersLaidOut(b, i, members, j, k);
  }

  lemma MembersUnfold(members: seq<Member>)
    requires members != [] && WellFormedMembers(members)
    ensures WellFormedMember(members[0]) && JsonWs(members[0].after) && WellFormedMembers(members[1..])
    ensures EndsScalar(CLOSE_BRACE) && EndsScalar(COMMA) && !AsciiWhitespace(CLOSE_BRACE) && !AsciiWhitespace(COMMA)
  {
  }

  lemma MembersLaidOut(b: Bytes, i: nat, members: seq<Member>, j: nat, k: nat)
    requires members != [] && WellFormedMember(members[0])
    requires j == i + |MemberText(members[0])| && k == j + |members[0].after|
    requires Holds(b, i, MemberText(members[0])) && Followed(b, j) && j <= |b| && Ws(b, j) == k
    requires At(b, k, if |members| == 1 then CLOSE_BRACE else COMMA)
    requires |members| > 1 ==> Holds(b, k + 1, RenderMembers(members[1..]) + [CLOSE_BRACE])
    ensures MembersLayout(b, i, members, j, k)
  {
    RenderMembersStep(members);
    hide Holds, Ws, RenderMembers, MemberText;
  }

  lemma MembersHead(b: Bytes, i: nat, members: seq<Member>)
    requires members != [] && WellFormedMembers(members) && Holds(b, i, RenderMembers(members) + [CLOSE_BRACE])
    ensures !At(b, Ws(b, i), CLOSE_BRACE)
  {
    var m := members[0];
    var _, _ := MembersDivide(b, i, members);
    HoldsSplit(b, i, m.before + Quoted(m.name), m.beforeColon + ([COLON] + (m.afterColon + Render(m.value))));
    WsBefore(b, i, m.before, Text(m.name));
  }

  lemma MembersFromWs(decode: Decoder, b: Bytes, i: nat, depth: nat, keys: set<Name>)
    requires i <= |b|
    ensures ScanMembers(decode, b, Ws(b, i), depth, keys) == ScanMembers(decode, b, i, depth, keys)
  {
    WsIdempotent(b, i);
    assert ScanMember(decode, b, Ws(b, i), depth, keys) == ScanMember(decode, b, i, depth, keys);
  }

  lemma EmptyObjectScans(decode: Decoder, b: Bytes, j: nat, pad: Bytes, depth: nat)
    requires At(b, j, OPEN_BRACE) && Holds(b, j + 1, pad + [CLOSE_BRACE]) && JsonWs(pad)
    ensures ObjectRest(decode, b, j, depth) == Reached(j + |pad| + 2)
  {
    hide Holds, JsonWs, Ws, ScanMembers;
    EmptyCloses(b, j + 1, pad, CLOSE_BRACE);
  }

  lemma {:induction false} FullObjectScans(decode: Decoder, b: Bytes, j: nat, members: seq<Member>, depth: nat)
    requires members != [] && At(b, j, OPEN_BRACE) && Holds(b, j + 1, RenderMembers(members) + [CLOSE_BRACE])
    requires WellFormedMembers(members)
    ensures Decides(ObjectRest(decode, b, j, depth), FineMembers(decode, members, depth + 1, {}), j + |RenderMembers(members)| + 2)
    decreases members, 1
  {
    hide Holds, Ws, RenderMembers, ScanMembers, WellFormedMembers, FineMembers;
    MembersScan(decode, b, j + 1, members, depth + 1, {});
    MembersHead(b, j + 1, members);
    MembersFromWs(decode, b, j + 1, depth + 1, {});
  }

  lemma {:induction false} ObjectScans(decode: Decoder, b: Bytes, j: nat, pad: Bytes, members: seq<Member>, depth: nat)
    requires Holds(b, j, Render(Object(pad, members))) && JsonWs(pad) && WellFormedMembers(members)
    ensures j < |b| && Decides(ObjectRest(decode, b, j, depth), FineMembers(decode, members, depth + 1, {}), j + |Render(Object(pad, members))|)
    decreases members, 2
  {
    hide Holds, JsonWs, Ws, ScanMembers, ObjectRest;
    if members == [] {
      ContainerDivides(b, j, OPEN_BRACE, pad, CLOSE_BRACE);
      EmptyObjectScans(decode, b, j, pad, depth);
    } else {
      ContainerDivides(b, j, OPEN_BRACE, RenderMembers(members), CLOSE_BRACE);
      FullObjectScans(decode, b, j, members, depth);
    }
  }

  lemma {:induction false} MembersScan(decode: Decoder, b: Bytes, i: nat, members: seq<Member>, depth: nat, keys: set<Name>)
    requires members != [] && WellFormedMembers(members) && Holds(b, i, RenderMembers(members) + [CLOSE_BRACE])
    ensures Decides(ScanMembers(decode, b, i, depth, keys), FineMembers(decode, members, depth, keys), i + |RenderMembers(members)| + 1)
    decreases members, 0
  {
    hide Holds, MemberText, WellFormedMember, JsonWs, ScanMember, MemberAt, Fine;
    var j, k := MembersDivide(b, i, members);
    MemberScans(decode, b, i, members[0], j, depth, keys);
    if |members| == 1 {
      assert members[1..] == [];
    } else {
      var name := decode(Quoted(members[0].name));
      MembersScan(decode, b, k + 1, members[1..], depth, if name.Some? then keys + {name.value} else keys);
    }
  }

  lemma DocumentLayout(b: Bytes, lead: Bytes, n: Node, trail: Bytes) returns (i: nat, end: nat)
    requires b == lead + Render(n) + trail && JsonWs(lead) && WellFormed(n) && JsonWs(trail)
    ensures ValueAt(b, i, [], n, end) && Ws(b, 0) == i && end <= |b| && Ws(b, end) == |b|
  {
    i, end := |lead|, |lead| + |Render(n)|;
    assert b[0..|b|] == b;
    HoldsSplit(b, 0, lead + Render(n), trail);
    WsBefore(b, 0, lead, n);
    assert [] + Render(n) == Render(n);
    if trail != [] {
      HoldsHead(b, end, trail);
    }
    WsSkips(b, end, trail);
  }

  lemma DocumentScans(decode: Decoder, lead: Bytes, n: Node, trail: Bytes)
    requires JsonWs(lead) && WellFormed(n) && JsonWs(trail)
    ensures Scan(decode, lead + Render(n) + trail).Reached? <==> Fine(decode, n, 0)
  {
    var b := lead + Render(n) + trail;
    var i, end := DocumentLayout(b, lead, n, trail);
    ValueScans(decode, b, i, [], n, end, 0);
  }

  // ---------------------------------------------------------------- the promise, without the scan's bookkeeping

  /** No value lies more than d levels below this one. */
  ghost predicate NestedAtMost(n: Node, d: nat) {
    match n
    case Scalar(_) => true
    case Text(_) => true
    case List(_, items) => forall i :: 0 <= i < |items| ==> d > 0 && NestedAtMost(items[i].value, d - 1)
    case Object(_, members) => forall i :: 0 <= i < |members| ==> d > 0 && NestedAtMost(members[i].value, d - 1)
  }

  /** Every string and every member name decodes. */
  ghost predicate Decodable(decode: Decoder, n: Node) {
    match n
    case Scalar(_) => true
    case Text(body) => decode(Quoted(body)).Some?
    case List(_, items) => forall i :: 0 <= i < |items| ==> Decodable(decode, items[i].value)
    case Object(_, members) =>
      forall i :: 0 <= i < |members| ==> decode(Quoted(members[i].name)).Some? && Decodable(decode, members[i].value)
  }

  /** Names are compared as decoded: two spellings of one name are duplicates. */
  ghost predicate DistinctNames(decode: Decoder, members: seq<Member>) {
    forall i, j :: 0 <= i < j < |members| ==> decode(Quoted(members[i].name)) != decode(Quoted(members[j].name))
  }

  /** No object at any depth has two members of one name. */
  ghost predicate NoDuplicates(decode: Decoder, n: Node) {
    match n
    case Scalar(_) => true
    case Text(_) => true
    case List(_, items) => forall i :: 0 <= i < |items| ==> NoDuplicates(decode, items[i].value)
    case Object(_, members) =>
      DistinctNames(decode, members) && forall i :: 0 <= i < |members| ==> NoDuplicates(decode, members[i].value)
  }

  lemma {:induction false} FineItemsExactly(decode: Decoder, items: seq<Item>, depth: nat)
    ensures FineItems(decode, items, depth) <==> forall i :: 0 <= i < |items| ==> Fine(decode, items[i].value, depth)
  {
    if items != [] {
      FineItemsExactly(decode, items[1..], depth);
      assert forall i :: 0 < i < |items| ==> items[i] == items[1..][i - 1];
    }
  }

  ghost predicate FreshNames(decode: Decoder, members: seq<Member>, keys: set<Name>) {
    forall i :: 0 <= i < |members| ==>
      decode(Quoted(members[i].name)).Some? && decode(Quoted(members[i].name)).value !in keys
  }

  lemma FreshNamesStep(decode: Decoder, members: seq<Member>, keys: set<Name>)
    requires members != [] && decode(Quoted(members[0].name)).Some?
    ensures var name := decode(Quoted(members[0].name)).value;
            (FreshNames(decode, members, keys) && DistinctNames(decode, members))
            <==> (name !in keys && FreshNames(decode, members[1..], keys + {name}) && DistinctNames(decode, members[1..]))
  {
    assert members == [members[0]] + members[1..];
    var name := decode(Quoted(members[0].name)).value;
    if name !in keys && FreshNames(decode, members[1..], keys + {name}) && DistinctNames(decode, members[1..]) {
      forall i, j | 0 <= i < j < |members|
        ensures decode(Quoted(members[i].name)) != decode(Quoted(members[j].name))
      {
        assert members[j] == members[1..][j - 1];
        assert i > 0 ==> members[i] == members[1..][i - 1];
      }
    }
    if FreshNames(decode, members, keys) && DistinctNames(decode, members) {
      forall i | 0 <= i < |members[1..]|
        ensures decode(Quoted(members[1..][i].name)).Some? && decode(Quoted(members[1..][i].name)).value !in keys + {name}
      {
        assert members[1..][i] == members[i + 1];
      }
    }
  }

  lemma {:induction false} FineMembersExactly(decode: Decoder, members: seq<Member>, depth: nat, keys: set<Name>)
    ensures FineMembers(decode, members, depth, keys)
       <==> (FreshNames(decode, members, keys) && DistinctNames(decode, members)
             && forall i :: 0 <= i < |members| ==> Fine(decode, members[i].value, depth))
  {
    if members != [] {
      var name := decode(Quoted(members[0].name));
      assert forall i :: 0 < i < |members| ==> members[i] == members[1..][i - 1];
      if name.Some? {
        FreshNamesStep(decode, members, keys);
        FineMembersExactly(decode, members[1..], depth, keys + {name.value});
      }
    }
  }

  /** Acceptability spelled out: shallow enough, every string decodable, no duplicate names. */
  lemma {:induction false} FineExactly(decode: Decoder, n: Node, depth: nat)
    requires depth <= MAX_JSON_DEPTH
    ensures Fine(decode, n, depth)
       <==> (NestedAtMost(n, MAX_JSON_DEPTH - depth) && Decodable(decode, n) && NoDuplicates(decode, n))
    decreases n
  {
    match n
    case Scalar(_) =>
    case Text(_) =>
    case List(_, items) =>
      FineItemsExactly(decode, items, depth + 1);
      if depth < MAX_JSON_DEPTH {
        forall i | 0 <= i < |items| { FineExactly(decode, items[i].value, depth + 1); }
      } else {
        assert items != [] ==> !Fine(decode, items[0].value, depth + 1);
      }
    case Object(_, members) =>
      FineMembersExactly(decode, members, depth + 1, {});
      if depth < MAX_JSON_DEPTH {
        forall i | 0 <= i < |members| { FineExactly(decode, members[i].value, depth + 1); }
      } else {
        assert members != [] ==> !Fine(decode, members[0].value, depth + 1);
      }
  }

  /**
   * Every rendering of a tree, with any insignificant whitespace, is accepted exactly when the tree is nested at most
   * 128 deep, all its strings decode, and no object in it repeats a name.
   */
  lemma ScanRejectsDuplicates(decode: Decoder, lead: Bytes, n: Node, trail: Bytes)
    requires JsonWs(lead) && WellFormed(n) && JsonWs(trail)
    ensures Scan(decode, lead + Render(n) + trail).Reached?
       <==> (NestedAtMost(n, 128) && Decodable(decode, n) && NoDuplicates(decode, n))
  {
    DocumentScans(decode, lead, n, trail);
    FineExactly(decode, n, 0);
  }

  /** The scanner is not a JSON validator: this text is no JSON document, and it is accepted. */
  lemma AcceptsNonJson(decode: Decoder)
    ensures Scan(decode, [OPEN_BRACKET, COMMA, CLOSE_BRACKET]).Reached?
  {
    var b: Bytes := [OPEN_BRACKET, COMMA, CLOSE_BRACKET];
    assert Ws(b, 0) == 0 && Ws(b, 1) == 1 && Ws(b, 2) == 2 && Ws(b, 3) == 3;
    assert ScalarEnd(b, 1) == 1 && ScalarEnd(b, 2) == 2;
    assert ScanValue(decode, b, 1, 1) == Reached(1) && ScanValue(decode, b, 2, 1) == Reached(2);
    assert ScanItems(decode, b, 2, 1) == Reached(3);
    assert ScanItems(decode, b, 1, 1) == Reached(3);
  }

  /** Every byte of a number or of a literal name may stand in a scalar. */
  lemma NumbersAreScalars(b: byte)
    ensures 48 <= b <= 57 || 97 <= b <= 122 || b == 43 || b == 45 || b == 46 || b == 69 ==> ScalarByte(b)
  {
  }
}
