/** The duplicate-key scan: recursive descent over bytes with a size and a depth bound. */
module JsonScan {
  import opened Octets
  import opened Text

  /** A decoded string; decoding itself is a parameter of the scan. */
  type Name = seq<char>

  type Decoder = Bytes -> Option<Name>

  const MAX_JSON_BYTES := 24 * 1024 * 1024
  const MAX_JSON_DEPTH := 128

  const TAB: byte := 9
  const LINE_FEED: byte := 10
  const FORM_FEED: byte := 12
  const CARRIAGE_RETURN: byte := 13
  const SPACE: byte := 32
  const QUOTE: byte := 34
  const COMMA: byte := 44
  const COLON: byte := 58
  const OPEN_BRACKET: byte := 91
  const BACKSLASH: byte := 92
  const CLOSE_BRACKET: byte := 93
  const OPEN_BRACE: byte := 123
  const CLOSE_BRACE: byte := 125

  datatype ScanError =
    | TooLarge | TooDeep | UnexpectedEnd | TrailingInput | DuplicateKey(name: Name)
    | SeparatorExpected | ObjectDelimiterExpected | ArrayDelimiterExpected
    | StringExpected | EscapeUnterminated | StringUnterminated | StringInvalid

  predicate AsciiWhitespace(b: byte) {
    b == TAB || b == LINE_FEED || b == FORM_FEED || b == CARRIAGE_RETURN || b == SPACE
  }

  /** Bytes that end a scalar: note that a form feed does not. */
  predicate EndsScalar(b: byte) {
    b == COMMA || b == CLOSE_BRACKET || b == CLOSE_BRACE || b == SPACE || b == TAB || b == CARRIAGE_RETURN || b == LINE_FEED
  }

  // ---------------------------------------------------------------- the scan as functions of the cursor

  /** Where the cursor got to, or why it stopped. */
  datatype Scanned = Reached(pos: nat) | Failed(error: ScanError)

  datatype ReadName = Named(pos: nat, name: Name) | Unnamed(error: ScanError)

  function Ws(b: Bytes, i: nat): (j: nat)
    requires i <= |b|
    ensures i <= j <= |b|
    decreases |b| - i
  {
    if i < |b| && AsciiWhitespace(b[i]) then Ws(b, i + 1) else i
  }

  function ScalarEnd(b: Bytes, i: nat): (j: nat)
    requires i <= |b|
    ensures i <= j <= |b|
    decreases |b| - i
  {
    if i < |b| && !EndsScalar(b[i]) then ScalarEnd(b, i + 1) else i
  }

  /** The cursor after the closing quote, from somewhere inside a string. */
  function StringEnd(b: Bytes, i: nat): (r: Scanned)
    requires i <= |b|
    ensures r.Reached? ==> i < r.pos <= |b|
    decreases |b| - i
  {
    if i == |b| then Failed(StringUnterminated)
    else if b[i] == BACKSLASH then if i + 1 == |b| then Failed(EscapeUnterminated) else StringEnd(b, i + 2)
    else if b[i] == QUOTE then Reached(i + 1)
    else StringEnd(b, i + 1)
  }

  predicate At(b: Bytes, i: nat, c: byte) {
    i < |b| && b[i] == c
  }

  function ScanString(decode: Decoder, b: Bytes, i: nat): (r: ReadName)
    requires i <= |b|
    ensures r.Named? ==> i < r.pos <= |b|
  {
    if !At(b, i, QUOTE) then Unnamed(StringExpected)
    else
      match StringEnd(b, i + 1)
      case Failed(e) => Unnamed(e)
      case Reached(j) => match decode(b[i..j]) case None => Unnamed(StringInvalid) case Some(name) => Named(j, name)
  }

  function ScanValue(decode: Decoder, b: Bytes, i: nat, depth: nat): (r: Scanned)
    requires i <= |b|
    ensures r.Reached? ==> i <= r.pos <= |b|
    decreases |b| - i, 0
  {
    if depth > MAX_JSON_DEPTH then Failed(TooDeep)
    else
      var j := Ws(b, i);
      if j == |b| then Failed(UnexpectedEnd)
      else if b[j] == OPEN_BRACE then
        var k := Ws(b, j + 1);
        if At(b, k, CLOSE_BRACE) then Reached(k + 1) else ScanMembers(decode, b, k, depth + 1, {})
      else if b[j] == OPEN_BRACKET then
        var k := Ws(b, j + 1);
        if At(b, k, CLOSE_BRACKET) then Reached(k + 1) else ScanItems(decode, b, k, depth + 1)
      else if b[j] == QUOTE then
        match ScanString(decode, b, j) case Unnamed(e) => Failed(e) case Named(k, _) => Reached(k)
      else Reached(ScalarEnd(b, j))
  }

  function ScanItems(decode: Decoder, b: Bytes, i: nat, depth: nat): (r: Scanned)
    requires i <= |b|
    ensures r.Reached? ==> i <= r.pos <= |b|
    decreases |b| - i, 1
  {
    match ScanValue(decode, b, i, depth)
    case Failed(e) => Failed(e)
    case Reached(j) =>
      var k := Ws(b, j);
      if At(b, k, CLOSE_BRACKET) then Reached(k + 1)
      else if At(b, k, COMMA) then ScanItems(decode, b, k + 1, depth)
      else Failed(ArrayDelimiterExpected)
  }

  /** One member: a new name, a colon, a value. */
  function ScanMember(decode: Decoder, b: Bytes, i: nat, depth: nat, keys: set<Name>): (r: ReadName)
    requires i <= |b|
    ensures r.Named? ==> i < r.pos <= |b|
    decreases |b| - i, 1
  {
    match ScanString(decode, b, Ws(b, i))
    case Unnamed(e) => Unnamed(e)
    case Named(after, name) =>
      if name in keys then Unnamed(DuplicateKey(name))
      else
        var k := Ws(b, after);
        if !At(b, k, COLON) then Unnamed(SeparatorExpected)
        else match ScanValue(decode, b, k + 1, depth) case Failed(e) => Unnamed(e) case Reached(v) => Named(v, name)
  }

  function ScanMembers(decode: Decoder, b: Bytes, i: nat, depth: nat, keys: set<Name>): (r: Scanned)
    requires i <= |b|
    ensures r.Reached? ==> i <= r.pos <= |b|
    decreases |b| - i, 2
  {
    match ScanMember(decode, b, i, depth, keys)
    case Unnamed(e) => Failed(e)
    case Named(v, name) =>
      var m := Ws(b, v);
      if At(b, m, CLOSE_BRACE) then Reached(m + 1)
      else if At(b, m, COMMA) then ScanMembers(decode, b, m + 1, depth, keys + {name})
      else Failed(ObjectDelimiterExpected)
  }

  function Scan(decode: Decoder, b: Bytes): Scanned {
    match ScanValue(decode, b, Ws(b, 0), 0)
    case Failed(e) => Failed(e)
    case Reached(i) => if Ws(b, i) == |b| then Reached(|b|) else Failed(TrailingInput)
  }

  // ---------------------------------------------------------------- the scanner

  class JsonKeyScanner {
    const bytes: Bytes
    const decode: Decoder
    var pos: nat

    ghost predicate Valid()
      reads this
    {
      pos <= |bytes|
    }

    constructor (bytes: Bytes, decode: Decoder)
      ensures Valid() && pos == 0 && this.bytes == bytes && this.decode == decode
    {
      this.bytes, this.decode, pos := bytes, decode, 0;
    }

    /** The cursor never passes the end, and a success leaves it where the specification says. */
    ghost predicate Moved(before: nat, r: Result<(), ScanError>, spec: Scanned)
      reads this
    {
      && before <= pos <= |bytes|
      && (match spec case Reached(i) => r.Ok? && pos == i case Failed(e) => r == Err(e))
    }

    method ScanDocument() returns (r: Result<(), ScanError>)
      requires Valid() && pos == 0
      modifies this
      ensures Moved(0, r, Scan(decode, bytes))
    {
      SkipWs();
      r := Value(0);
      if r.Err? {
        return;
      }
      SkipWs();
      r := if pos == |bytes| then Ok(()) else Err(TrailingInput);
    }

    method Value(depth: nat) returns (r: Result<(), ScanError>)
      requires Valid()
      modifies this
      ensures Moved(old(pos), r, ScanValue(decode, bytes, old(pos), depth))
      decreases |bytes| - pos, 1
    {
      if depth > MAX_JSON_DEPTH {
        return Err(TooDeep);
      }
      SkipWs();
      if pos == |bytes| {
        return Err(UnexpectedEnd);
      }
      if bytes[pos] == OPEN_BRACE {
        r := Object(depth + 1);
      } else if bytes[pos] == OPEN_BRACKET {
        r := Array(depth + 1);
      } else if bytes[pos] == QUOTE {
        var read := String();
        r := if read.Ok? then Ok(()) else Err(read.error);
      } else {
        ghost var from := pos;
        while pos < |bytes| && !EndsScalar(bytes[pos])
          invariant from <= pos <= |bytes| && ScalarEnd(bytes, pos) == ScalarEnd(bytes, from)
        {
          pos := pos + 1;
        }
        r := Ok(());
      }
    }

    method Object(depth: nat) returns (r: Result<(), ScanError>)
      requires Valid() && At(bytes, pos, OPEN_BRACE)
      modifies this
      ensures var k := Ws(bytes, old(pos) + 1);
              Moved(old(pos), r, if At(bytes, k, CLOSE_BRACE) then Reached(k + 1) else ScanMembers(decode, bytes, k, depth, {}))
      decreases |bytes| - pos, 0
    {
      pos := pos + 1;
      SkipWs();
      var closed := Take(CLOSE_BRACE);
      if closed {
        return Ok(());
      }
      r := Members(depth);
    }

    method Members(depth: nat) returns (r: Result<(), ScanError>)
      requires Valid()
      modifies this
      ensures Moved(old(pos), r, ScanMembers(decode, bytes, old(pos), depth, {}))
      decreases |bytes| - pos, 3
    {
      hide ScanMember, ScanString, ScanValue;
      var keys: set<Name> := {};
      ghost var spec := ScanMembers(decode, bytes, pos, depth, {});
      while true
        invariant old(pos) <= pos <= |bytes| && ScanMembers(decode, bytes, pos, depth, keys) == spec
        decreases |bytes| - pos
      {
        var key := Member(depth, keys);
        if key.Err? {
          return Err(key.error);
        }
        keys := keys + {key.value};
        SkipWs();
        var closed := Take(CLOSE_BRACE);
        if closed {
          return Ok(());
        }
        var more := Take(COMMA);
        if !more {
          return Err(ObjectDelimiterExpected);
        }
      }
    }

    method Member(depth: nat, keys: set<Name>) returns (r: Result<Name, ScanError>)
      requires Valid()
      modifies this
      ensures old(pos) <= pos <= |bytes|
      ensures (match ScanMember(decode, bytes, old(pos), depth, keys)
               case Named(after, name) => r == Ok(name) && pos == after
               case Unnamed(e) => r == Err(e))
      decreases |bytes| - pos, 2
    {
      SkipWs();
      r := String();
      if r.Err? {
        return;
      }
      if r.value in keys {
        return Err(DuplicateKey(r.value));
      }
      SkipWs();
      var separated := Take(COLON);
      if !separated {
        return Err(SeparatorExpected);
      }
      var read := Value(depth);
      if read.Err? {
        return Err(read.error);
      }
    }

    method Array(depth: nat) returns (r: Result<(), ScanError>)
      requires Valid() && At(bytes, pos, OPEN_BRACKET)
      modifies this
      ensures var k := Ws(bytes, old(pos) + 1);
              Moved(old(pos), r, if At(bytes, k, CLOSE_BRACKET) then Reached(k + 1) else ScanItems(decode, bytes, k, depth))
      decreases |bytes| - pos, 0
    {
      pos := pos + 1;
      SkipWs();
      var closed := Take(CLOSE_BRACKET);
      if closed {
        return Ok(());
      }
      r := Items(depth);
    }

    method Items(depth: nat) returns (r: Result<(), ScanError>)
      requires Valid()
      modifies this
      ensures Moved(old(pos), r, ScanItems(decode, bytes, old(pos), depth))
      decreases |bytes| - pos, 3
    {
      ghost var spec := ScanItems(decode, bytes, pos, depth);
      while true
        invariant old(pos) <= pos <= |bytes| && ScanItems(decode, bytes, pos, depth) == spec
        decreases |bytes| - pos
      {
        r := Value(depth);
        if r.Err? {
          return;
        }
        SkipWs();
        var closed := Take(CLOSE_BRACKET);
        if closed {
          return Ok(());
        }
        var more := Take(COMMA);
        if !more {
          return Err(ArrayDelimiterExpected);
        }
      }
    }

    method String() returns (r: Result<Name, ScanError>)
      requires Valid()
      modifies this
      ensures old(pos) <= pos <= |bytes|
      ensures (match ScanString(decode, bytes, old(pos))
               case Named(after, name) => r == Ok(name) && pos == after
               case Unnamed(e) => r == Err(e))
    {
      var start := pos;
      var quoted := Take(QUOTE);
      if !quoted {
        return Err(StringExpected);
      }
      while pos < |bytes|
        invariant start < pos <= |bytes| && StringEnd(bytes, pos) == StringEnd(bytes, start + 1)
      {
        if bytes[pos] == BACKSLASH {
          pos := pos + 1;
          if pos >= |bytes| {
            return Err(EscapeUnterminated);
          }
          pos := pos + 1;
        } else if bytes[pos] == QUOTE {
          pos := pos + 1;
          var name := decode(bytes[start..pos]);
          r := if name.Some? then Ok(name.value) else Err(StringInvalid);
          return;
        } else {
          pos := pos + 1;
        }
      }
      r := Err(StringUnterminated);
    }

    method SkipWs()
      requires Valid()
      modifies this
      ensures Valid() && pos == Ws(bytes, old(pos))
    {
      while pos < |bytes| && AsciiWhitespace(bytes[pos])
        invariant old(pos) <= pos <= |bytes| && Ws(bytes, pos) == Ws(bytes, old(pos))
      {
        pos := pos + 1;
      }
    }

    method Take(c: byte) returns (taken: bool)
      requires Valid()
      modifies this
      ensures Valid() && taken == At(bytes, old(pos), c) && pos == if taken then old(pos) + 1 else old(pos)
    {
      taken := pos < |bytes| && bytes[pos] == c;
      if taken {
        pos := pos + 1;
      }
    }
  }

  method RejectDuplicateJsonKeysWithin(bytes: Bytes, maxBytes: nat, decode: Decoder) returns (r: Result<(), ScanError>)
    ensures |bytes| > maxBytes ==> r == Err(TooLarge)
    ensures |bytes| <= maxBytes ==> (r.Ok? <==> Scan(decode, bytes).Reached?)
    ensures |bytes| <= maxBytes && r.Err? ==> Scan(decode, bytes) == Failed(r.error)
  {
    if |bytes| > maxBytes {
      return Err(TooLarge);
    }
    var scanner := new JsonKeyScanner(bytes, decode);
    r := scanner.ScanDocument();
  }
}
