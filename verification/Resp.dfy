/**
 The RESP2 reader: a recursive-descent parser over a socket that delivers its bytes in any pieces.

 `ParseValue` is the parser on a whole byte string; `RESPReader.Parse` computes it in place, whatever
 the fragmentation. `Encode` is the wire form of the Redis serialization protocol specification.
 */
module Resp {
  import opened Bytes
  import opened Wrappers
  import opened Budget

  const MAX_DEPTH := 8
  const MAX_XRANGE_ENTRIES := 120_000
  const MAX_ITEMS := MAX_XRANGE_ENTRIES * 8 + 16
  const RECEIVE_BYTES := 64 * 1024

  const CRLF: seq<Byte> := [13, 10]

  /** Simple strings and bulk strings both come back as bytes. */
  datatype Value = Int(n: int) | Data(bytes: seq<Byte>) | Null | Array(items: seq<Value>)

  datatype Error =
    | BoundExceeded | ResponseEnded | ConnectionFailed | NestingExceeded | ServerError | IntegerMalformed
    | LengthMalformed | LengthOutside | TerminatorMalformed | CountMalformed | CountOutside | TypeUnsupported

  /** A parse of the front of a byte string: a value and the rest, a protocol error, or too few bytes. */
  datatype Parsed<T> = Done(value: T, rest: seq<Byte>) | Short | Bad(error: Error)

  datatype Result<T> = Ok(value: T) | Err(error: Error)

  // ---- Python's `int(bytes)`: surrounding whitespace, a sign, and single underscores between digits.

  predicate IsSpace(b: Byte) {
    b == 32 || 9 <= b <= 13
  }

  function StripLeft(s: seq<Byte>): seq<Byte> {
    if s != [] && IsSpace(s[0]) then StripLeft(s[1..]) else s
  }

  function StripRight(s: seq<Byte>): seq<Byte> {
    if s != [] && IsSpace(s[|s| - 1]) then StripRight(s[..|s| - 1]) else s
  }

  predicate IsDigitByte(b: Byte) {
    48 <= b < 58
  }

  function Digits(s: seq<Byte>): Option<nat>
    decreases |s|
  {
    if s == [] || !IsDigitByte(s[|s| - 1]) then None
    else
      var last: int := s[|s| - 1];
      if |s| == 1 then Some(last - 48)
      else
        var front := if s[|s| - 2] == 95 then s[..|s| - 2] else s[..|s| - 1];
        match Digits(front)
        case None => None
        case Some(n) => Some(n * 10 + (last - 48))
  }

  function PythonInt(line: seq<Byte>): Option<int> {
    var s := StripRight(StripLeft(line));
    if s != [] && s[0] == 45 then
      match Digits(s[1..])
      case None => None
      case Some(n) => var magnitude: int := n; Some(-magnitude)
    else
      Digits(if s != [] && s[0] == 43 then s[1..] else s)
  }

  // ---- The parser on a whole byte string.

  /** The bytes before the first CRLF and the bytes after it. */
  function ParseLine(input: seq<Byte>): (r: Parsed<seq<Byte>>)
    ensures !r.Bad?
  {
    if |input| < 2 then Short
    else if input[..2] == CRLF then Done([], input[2..])
    else
      match ParseLine(input[1..])
      case Done(line, rest) => Done([input[0]] + line, rest)
      case _ => Short
  }

  function ParseInt(input: seq<Byte>): Parsed<int> {
    match ParseLine(input)
    case Done(line, rest) =>
      (match PythonInt(line) case Some(n) => Done(n, rest) case None => Bad(IntegerMalformed))
    case _ => Short
  }

  function ParseBulk(maximum: nat, input: seq<Byte>): Parsed<Value> {
    match ParseInt(input)
    case Bad(_) => Bad(LengthMalformed)
    case Short => Short
    case Done(length, rest) =>
      if length == -1 then Done(Null, rest)
      else if length < 0 || length > maximum then Bad(LengthOutside)
      else if |rest| < length + 2 then Short
      else if rest[length..length + 2] != CRLF then Bad(TerminatorMalformed)
      else Done(Data(rest[..length]), rest[length + 2..])
  }

  /** Simple strings, errors and integers. */
  function ParseSimple(kind: Byte, input: seq<Byte>): Parsed<Value> {
    if kind == 58 then
      match ParseInt(input)
      case Done(n, rest) => Done(Int(n), rest)
      case Short => Short
      case Bad(e) => Bad(e)
    else
      match ParseLine(input)
      case Done(line, rest) => if kind == 45 then Bad(ServerError) else Done(Data(line), rest)
      case _ => Short
  }

  function ParseArrayBody(maximum: nat, depth: nat, input: seq<Byte>): Parsed<Value>
    requires depth <= MAX_DEPTH
    decreases MAX_DEPTH + 1 - depth, 0
  {
    match ParseInt(input)
    case Bad(_) => Bad(CountMalformed)
    case Short => Short
    case Done(count, rest) =>
      if count == -1 then Done(Null, rest)
      else if count < 0 || count > MAX_ITEMS then Bad(CountOutside)
      else
        match ParseItems(maximum, depth + 1, count, rest)
        case Done(items, after) => Done(Array(items), after)
        case Short => Short
        case Bad(e) => Bad(e)
  }

  function ParseValue(maximum: nat, depth: nat, input: seq<Byte>): Parsed<Value>
    decreases MAX_DEPTH + 1 - depth, 1
  {
    if depth > MAX_DEPTH then Bad(NestingExceeded)
    else if input == [] then Short
    else if input[0] == 43 || input[0] == 45 || input[0] == 58 then ParseSimple(input[0], input[1..])
    else if input[0] == 36 then ParseBulk(maximum, input[1..])
    else if input[0] == 42 then ParseArrayBody(maximum, depth, input[1..])
    else Bad(TypeUnsupported)
  }

  function ParseItems(maximum: nat, depth: nat, count: nat, input: seq<Byte>): Parsed<seq<Value>>
    requires depth <= MAX_DEPTH + 1
    decreases MAX_DEPTH + 1 - depth, count + 2
  {
    if count == 0 then Done([], input)
    else
      match ParseValue(maximum, depth, input)
      case Short => Short
      case Bad(e) => Bad(e)
      case Done(v, rest) => Prepend([v], ParseItems(maximum, depth, count - 1, rest))
  }

  function Prepend(done: seq<Value>, p: Parsed<seq<Value>>): Parsed<seq<Value>> {
    match p
    case Done(items, rest) => Done(done + items, rest)
    case _ => p
  }

  lemma PrependNothing(p: Parsed<seq<Value>>)
    ensures Prepend([], p) == p
  {
    if p.Done? {
      assert [] + p.value == p.value;
    }
  }

  lemma PrependTwice(a: seq<Value>, b: seq<Value>, p: Parsed<seq<Value>>)
    ensures Prepend(a, Prepend(b, p)) == Prepend(a + b, p)
  {
    if p.Done? {
      assert a + (b + p.value) == a + b + p.value;
    }
  }

  // ---- The wire form.

  /** `str(n).encode()`. */
  function IntBytes(n: int): seq<Byte> {
    if n < 0 then [45] + Ascii(Decimal(-n)) else Ascii(Decimal(n))
  }

  function Line(prefix: Byte, n: int): seq<Byte> {
    [prefix] + IntBytes(n) + CRLF
  }

  function Encode(v: Value): seq<Byte>
    decreases v, 1
  {
    match v
    case Int(n) => Line(58, n)
    case Data(bytes) => Line(36, |bytes|) + bytes + CRLF
    case Null => Line(36, -1)
    case Array(items) => Line(42, |items|) + EncodeItems(items)
  }

  function EncodeItems(items: seq<Value>): seq<Byte>
    decreases items, 0
  {
    if items == [] then [] else Encode(items[0]) + EncodeItems(items[1..])
  }

  /** What the reader's depth, count and byte limits allow. */
  predicate Fits(maximum: nat, depth: nat, v: Value)
    decreases v, 1
  {
    && depth <= MAX_DEPTH
    && match v
       case Int(_) => true
       case Data(bytes) => |bytes| <= maximum
       case Null => true
       case Array(items) => |items| <= MAX_ITEMS && ItemsFit(maximum, depth + 1, items)
  }

  predicate ItemsFit(maximum: nat, depth: nat, items: seq<Value>)
    decreases items, 0
  {
    items == [] || (Fits(maximum, depth, items[0]) && ItemsFit(maximum, depth, items[1..]))
  }

  // ---- Parsing undoes encoding.

  lemma {:induction false} DigitsOfDecimal(n: nat)
    ensures Digits(Ascii(Decimal(n))) == Some(n)
  {
    var s := Ascii(Decimal(n));
    if n >= 10 {
      DigitsOfDecimal(n / 10);
      assert s[..|s| - 1] == Ascii(Decimal(n / 10));
      assert IsDigit(Decimal(n)[|s| - 2]);
    }
  }

  lemma {:induction false} NothingToStrip(s: seq<Byte>)
    requires s != [] && !IsSpace(s[0]) && !IsSpace(s[|s| - 1])
    ensures StripRight(StripLeft(s)) == s
  {
  }

  lemma {:induction false} PythonIntOfDecimal(n: nat)
    ensures PythonInt(Ascii(Decimal(n))) == Some(n)
  {
    var s, digits := Ascii(Decimal(n)), Decimal(n);
    assert IsDigit(digits[0]) && IsDigit(digits[|digits| - 1]);
    NothingToStrip(s);
    DigitsOfDecimal(n);
  }

  lemma {:induction false} PythonIntOfNegative(n: nat)
    ensures PythonInt([45] + Ascii(Decimal(n))) == Some(-(n as int))
  {
    var s, digits: seq<Byte> := Decimal(n), Ascii(Decimal(n));
    assert IsDigit(s[|s| - 1]);
    var signed: seq<Byte> := [45] + digits;
    NothingToStrip(signed);
    DigitsOfDecimal(n);
    assert signed[1..] == digits;
  }

  lemma {:induction false} PythonIntOfBytes(n: int)
    ensures PythonInt(IntBytes(n)) == Some(n)
  {
    if n < 0 {
      var magnitude: nat := -n;
      assert IntBytes(n) == [45] + Ascii(Decimal(magnitude));
      PythonIntOfNegative(magnitude);
    } else {
      var magnitude: nat := n;
      assert IntBytes(n) == Ascii(Decimal(magnitude));
      PythonIntOfDecimal(magnitude);
    }
  }

  lemma {:induction false} ParseLineWritten(line: seq<Byte>, rest: seq<Byte>)
    requires forall i :: 0 <= i < |line| ==> line[i] != 13
    ensures ParseLine(line + CRLF + rest) == Done(line, rest)
  {
    var input := line + CRLF + rest;
    if line == [] {
      assert input[..2] == CRLF && input[2..] == rest;
    } else {
      ParseLineWritten(line[1..], rest);
      assert input[1..] == line[1..] + CRLF + rest;
      assert [line[0]] + line[1..] == line;
    }
  }

  lemma ParseIntWritten(prefix: Byte, n: int, rest: seq<Byte>)
    ensures (Line(prefix, n) + rest)[0] == prefix
    ensures ParseInt((Line(prefix, n) + rest)[1..]) == Done(n, rest)
  {
    var line := IntBytes(n);
    assert (Line(prefix, n) + rest)[1..] == line + CRLF + rest;
    assert ParseLine(line + CRLF + rest) == Done(line, rest) by {
      NoReturnInNumber(n);
      ParseLineWritten(line, rest);
    }
    assert PythonInt(line) == Some(n) by {
      PythonIntOfBytes(n);
    }
  }

  lemma NoReturnInNumber(n: int)
    ensures forall i :: 0 <= i < |IntBytes(n)| ==> IntBytes(n)[i] != 13
  {
    var digits := Decimal(if n < 0 then -n else n);
    assert forall i :: 0 <= i < |digits| ==> IsDigit(digits[i]);
  }

  /** For every value within the limits, the parser returns it and takes exactly its bytes. */
  lemma {:induction false} ParseEncoded(maximum: nat, depth: nat, v: Value, rest: seq<Byte>)
    requires Fits(maximum, depth, v)
    ensures ParseValue(maximum, depth, Encode(v) + rest) == Done(v, rest)
    decreases v, 1
  {
    match v
    case Int(n) => ParseIntWritten(58, n, rest);
    case Null => ParseIntWritten(36, -1, rest);
    case Data(bytes) => ParseEncodedData(maximum, depth, bytes, rest);
    case Array(items) =>
      var after := EncodeItems(items) + rest;
      assert Encode(v) + rest == Line(42, |items|) + after;
      ParseEncodedItems(maximum, depth + 1, items, rest);
      ParseArrayHead(maximum, depth, items, after);
  }

  lemma {:induction false} ParseArrayHead(maximum: nat, depth: nat, items: seq<Value>, after: seq<Byte>)
    requires depth <= MAX_DEPTH && |items| <= MAX_ITEMS
    requires ParseItems(maximum, depth + 1, |items|, after).Done?
    requires ParseItems(maximum, depth + 1, |items|, after).value == items
    ensures ParseValue(maximum, depth, Line(42, |items|) + after)
         == Done(Array(items), ParseItems(maximum, depth + 1, |items|, after).rest)
  {
    ParseIntWritten(42, |items|, after);
  }

  lemma {:induction false} ParseEncodedData(maximum: nat, depth: nat, bytes: seq<Byte>, rest: seq<Byte>)
    requires depth <= MAX_DEPTH && |bytes| <= maximum
    ensures ParseValue(maximum, depth, Encode(Data(bytes)) + rest) == Done(Data(bytes), rest)
  {
    var tail := bytes + CRLF + rest;
    ParseIntWritten(36, |bytes|, tail);
    assert Encode(Data(bytes)) + rest == Line(36, |bytes|) + tail;
    assert tail[|bytes|..|bytes| + 2] == CRLF && tail[..|bytes|] == bytes && tail[|bytes| + 2..] == rest;
  }

  lemma {:induction false} ParseEncodedItems(maximum: nat, depth: nat, items: seq<Value>, rest: seq<Byte>)
    requires depth <= MAX_DEPTH + 1 && ItemsFit(maximum, depth, items)
    ensures ParseItems(maximum, depth, |items|, EncodeItems(items) + rest) == Done(items, rest)
    decreases items, 0
  {
    if items == [] {
      assert EncodeItems(items) + rest == rest;
    } else {
      var after := EncodeItems(items[1..]) + rest;
      assert EncodeItems(items) + rest == Encode(items[0]) + after;
      ParseEncoded(maximum, depth, items[0], after);
      ParseEncodedItems(maximum, depth, items[1..], rest);
      assert ParseItems(maximum, depth, |items|, Encode(items[0]) + after) == Done([items[0]] + items[1..], rest);
      assert [items[0]] + items[1..] == items;
    }
  }

  /** Hence the wire form of such values is prefix-free: two replies in a row are told apart. */
  lemma EncodingIsPrefixFree(maximum: nat, a: Value, b: Value, s: seq<Byte>, t: seq<Byte>)
    requires Fits(maximum, 0, a) && Fits(maximum, 0, b)
    requires Encode(a) + s == Encode(b) + t
    ensures a == b && s == t
  {
    ParseEncoded(maximum, 0, a, s);
    ParseEncoded(maximum, 0, b, t);
  }

  // ---- Requests.

  function Parts(parts: seq<seq<Byte>>): seq<Value> {
    if parts == [] then [] else [Data(parts[0])] + Parts(parts[1..])
  }

  /** The request `_resp_command` sends. */
  function Request(parts: seq<seq<Byte>>): seq<Byte> {
    Line(42, |parts|) + RequestParts(parts)
  }

  function RequestParts(parts: seq<seq<Byte>>): seq<Byte> {
    if parts == [] then [] else Line(36, |parts[0]|) + parts[0] + CRLF + RequestParts(parts[1..])
  }

  /** A request is the array of its parts, and parses back to them. */
  lemma RequestParsesBack(maximum: nat, parts: seq<seq<Byte>>)
    requires |parts| <= MAX_ITEMS && forall i :: 0 <= i < |parts| ==> |parts[i]| <= maximum
    ensures ParseValue(maximum, 0, Request(parts)) == Done(Array(Parts(parts)), [])
  {
    RequestIsArray(maximum, parts);
    ParseEncoded(maximum, 0, Array(Parts(parts)), []);
    assert Request(parts) + [] == Request(parts);
  }

  lemma {:induction false} RequestIsArray(maximum: nat, parts: seq<seq<Byte>>)
    requires forall i :: 0 <= i < |parts| ==> |parts[i]| <= maximum
    ensures |Parts(parts)| == |parts|
    ensures EncodeItems(Parts(parts)) == RequestParts(parts)
    ensures ItemsFit(maximum, 1, Parts(parts))
  {
    if parts != [] {
      RequestIsArray(maximum, parts[1..]);
      assert Parts(parts)[1..] == Parts(parts[1..]);
    }
  }

  // ---- The reader in place.

  /**
   A connection that will deliver `wire` and then end. Each receive returns any nonempty part of what
   is left; an unreliable one may also fail or time out.
   */
  class Connection {
    const wire: seq<Byte>
    const reliable: bool
    var delivered: nat

    method Receive(limit: nat) returns (data: Option<seq<Byte>>)
      requires delivered <= |wire| && limit > 0
      modifies this
      ensures old(delivered) <= delivered <= |wire|
      ensures data.Some? ==> data.value == wire[old(delivered)..delivered] && |data.value| <= limit
      ensures data.Some? ==> (data.value == [] <==> old(delivered) == |wire|)
      ensures data.None? ==> !reliable
    {
      var failing: bool := *;
      if failing && !reliable {
        return None;
      }
      if delivered == |wire| {
        return Some([]);
      }
      assert 0 < 1 <= limit && delivered + 1 <= |wire|;
      var size: int :| 0 < size <= limit && delivered + size <= |wire|;
      data := Some(wire[delivered..delivered + size]);
      delivered := delivered + size;
    }
  }

  /** `buffer.find(b"\r\n")`. */
  function Find(s: seq<Byte>): (p: Option<nat>)
    ensures p.Some? ==> p.value + 2 <= |s|
    ensures ParseLine(s) == (if p.Some? then Done(s[..p.value], s[p.value + 2..]) else Short)
  {
    if |s| < 2 then None
    else if s[..2] == CRLF then Some(0)
    else
      match Find(s[1..])
      case None => None
      case Some(p) =>
        assert [s[0]] + s[1..][..p] == s[..p + 1];
        Some(p + 1)
  }

  /** A line found in the first bytes is the line of the whole. */
  lemma {:induction false} LineInPrefix(s: seq<Byte>, more: seq<Byte>)
    requires ParseLine(s).Done?
    ensures ParseLine(s + more) == Done(ParseLine(s).value, ParseLine(s).rest + more)
  {
    assert (s + more)[..2] == s[..2];
    if s[..2] == CRLF {
      assert (s + more)[2..] == s[2..] + more;
    } else {
      LineInPrefix(s[1..], more);
      assert (s + more)[1..] == s[1..] + more;
    }
  }

  class RESPReader {
    const connection: Connection
    const clock: Clock
    const deadline: real
    const maximum: nat
    var received: nat
    var buffer: seq<Byte>
    /** How many bytes of the wire the parser has consumed. */
    ghost var taken: nat

    /** Consumed bytes and buffered bytes together are the received prefix of the wire. */
    ghost predicate Valid()
      reads this, connection
    {
      && taken + |buffer| == received == connection.delivered <= |connection.wire|
      && buffer == connection.wire[taken..received]
      && received <= maximum
    }

    /** The unconsumed wire. */
    ghost function Rest(): seq<Byte>
      requires Valid()
      reads this, connection
    {
      connection.wire[taken..]
    }

    constructor (connection: Connection, clock: Clock, deadline: real, maximum: nat)
      requires connection.delivered == 0
      ensures Valid() && taken == 0 && received == 0
      ensures this.connection == connection && this.clock == clock
      ensures this.deadline == deadline && this.maximum == maximum
    {
      this.connection, this.clock, this.deadline, this.maximum := connection, clock, deadline, maximum;
      received, buffer, taken := 0, [], 0;
    }

    /** The three outcomes that are not about the protocol. */
    ghost predicate Excused(e: Error, short: bool)
      reads clock
    {
      || (e == BoundExceeded && (clock.now >= deadline || |connection.wire| > maximum || short))
      || (e == ResponseEnded && short)
      || (e == ConnectionFailed && !connection.reliable)
    }

    /** Receives at least one more byte. */
    method More() returns (r: Result<()>)
      requires Valid()
      modifies this`received, this`buffer, connection, clock
      ensures clock.now >= old(clock.now)
      ensures r.Ok? ==> Valid() && taken == old(taken) && received > old(received)
      ensures r.Ok? ==> old(clock.now) < deadline && old(received) < maximum
      ensures r.Err? ==> Excused(r.error, old(received) == |connection.wire|)
    {
      var t := clock.Read();
      if deadline - t <= 0.0 || maximum - received <= 0 {
        return Err(BoundExceeded);
      }
      var allowance := maximum - received + 1;
      var data := connection.Receive(if allowance < RECEIVE_BYTES then allowance else RECEIVE_BYTES);
      if data.None? {
        return Err(ConnectionFailed);
      }
      if data.value == [] {
        return Err(ResponseEnded);
      }
      received := received + |data.value|;
      if received > maximum {
        return Err(BoundExceeded);
      }
      assert connection.wire[taken..received] == buffer + data.value;
      buffer := buffer + data.value;
      return Ok(());
    }

    method Take(count: nat) returns (r: Result<seq<Byte>>)
      requires Valid()
      modifies this, connection, clock
      ensures clock.now >= old(clock.now)
      ensures r.Ok? ==> Valid() && count <= |old(Rest())|
      ensures r.Ok? ==> r.value == old(Rest())[..count] && Rest() == old(Rest())[count..]
      ensures r.Err? ==> Excused(r.error, |old(Rest())| < count)
    {
      while |buffer| < count
        invariant Valid() && taken == old(taken) && clock.now >= old(clock.now)
        decreases |connection.wire| - connection.delivered
      {
        var more := More();
        if more.Err? {
          return Err(more.error);
        }
      }
      r := Ok(buffer[..count]);
      buffer := buffer[count..];
      taken := taken + count;
    }

    /** What is buffered and what has not arrived yet make up the unconsumed wire. */
    lemma RestSplits()
      requires Valid()
      ensures Rest() == buffer + connection.wire[received..]
    {
    }

    /** Takes a line of this length and its end out of the buffer. */
    method CutLine(position: nat) returns (line: seq<Byte>)
      requires Valid() && Find(buffer) == Some(position)
      modifies this`buffer, this`taken
      ensures Valid() && ParseLine(old(Rest())) == Done(line, Rest())
    {
      ghost var tail := connection.wire[received..];
      RestSplits();
      LineInPrefix(buffer, tail);
      line := buffer[..position];
      buffer, taken := buffer[position + 2..], taken + position + 2;
      RestSplits();
    }

    method ReadLine() returns (r: Result<seq<Byte>>)
      requires Valid()
      modifies this, connection, clock
      ensures clock.now >= old(clock.now)
      ensures r.Ok? ==> Valid() && ParseLine(old(Rest())) == Done(r.value, Rest())
      ensures r.Err? ==> Excused(r.error, ParseLine(old(Rest())).Short?)
    {
      while true
        invariant Valid() && taken == old(taken) && clock.now >= old(clock.now)
        decreases |connection.wire| - connection.delivered
      {
        var position := Find(buffer);
        if position.Some? {
          var line := CutLine(position.value);
          return Ok(line);
        }
        RestSplits();
        assert received == |connection.wire| ==> Rest() == buffer;
        var more := More();
        if more.Err? {
          return Err(more.error);
        }
      }
    }

    /**
     Whatever the fragmentation: a returned value and the bytes consumed are those of the parser on the
     whole unconsumed wire, and so is a protocol error. Every other failure is excused.
     */
    method Parse(depth: nat) returns (r: Result<Value>)
      requires Valid() && depth <= MAX_DEPTH + 1
      modifies this, connection, clock
      ensures clock.now >= old(clock.now)
      ensures r.Ok? ==> Valid() && ParseValue(maximum, depth, old(Rest())) == Done(r.value, Rest())
      ensures r.Err? ==>
                || ParseValue(maximum, depth, old(Rest())) == Bad(r.error)
                || Excused(r.error, ParseValue(maximum, depth, old(Rest())).Short?)
      decreases MAX_DEPTH + 1 - depth, 1
    {
      if depth > MAX_DEPTH {
        return Err(NestingExceeded);
      }
      var prefix := Take(1);
      if prefix.Err? {
        return Err(prefix.error);
      }
      var kind := prefix.value[0];
      if kind == 43 || kind == 45 || kind == 58 {
        r := ParseScalar(kind);
      } else if kind == 36 {
        r := ParseBulkReply();
      } else if kind == 42 {
        r := ParseArray(depth);
      } else {
        r := Err(TypeUnsupported);
      }
    }

    method ParseScalar(kind: Byte) returns (r: Result<Value>)
      requires Valid() && (kind == 43 || kind == 45 || kind == 58)
      modifies this, connection, clock
      ensures clock.now >= old(clock.now)
      ensures r.Ok? ==> Valid() && ParseSimple(kind, old(Rest())) == Done(r.value, Rest())
      ensures r.Err? ==>
                || ParseSimple(kind, old(Rest())) == Bad(r.error)
                || Excused(r.error, ParseSimple(kind, old(Rest())).Short?)
    {
      var line := ReadLine();
      if line.Err? {
        return Err(line.error);
      }
      if kind == 45 {
        return Err(ServerError);
      }
      if kind == 58 {
        var n := PythonInt(line.value);
        return if n.None? then Err(IntegerMalformed) else Ok(Int(n.value));
      }
      return Ok(Data(line.value));
    }

    /** `int(self.line())`; `malformed` is the caller's name for a text that is no number. */
    method ReadInt(malformed: Error) returns (r: Result<int>)
      requires Valid()
      modifies this, connection, clock
      ensures clock.now >= old(clock.now)
      ensures r.Ok? ==> Valid() && ParseInt(old(Rest())) == Done(r.value, Rest())
      ensures r.Err? ==>
                || (r.error == malformed && ParseInt(old(Rest())).Bad?)
                || Excused(r.error, ParseInt(old(Rest())).Short?)
    {
      var line := ReadLine();
      if line.Err? {
        return Err(line.error);
      }
      var n := PythonInt(line.value);
      return if n.None? then Err(malformed) else Ok(n.value);
    }

    method ParseBulkReply() returns (r: Result<Value>)
      requires Valid()
      modifies this, connection, clock
      ensures clock.now >= old(clock.now)
      ensures r.Ok? ==> Valid() && ParseBulk(maximum, old(Rest())) == Done(r.value, Rest())
      ensures r.Err? ==>
                || ParseBulk(maximum, old(Rest())) == Bad(r.error)
                || Excused(r.error, ParseBulk(maximum, old(Rest())).Short?)
    {
      var length := ReadInt(LengthMalformed);
      if length.Err? {
        return Err(length.error);
      }
      if length.value == -1 {
        return Ok(Null);
      }
      if length.value < 0 || length.value > maximum {
        return Err(LengthOutside);
      }
      ghost var rest := Rest();
      var body := Take(length.value + 2);
      if body.Err? {
        return Err(body.error);
      }
      assert body.value[length.value..] == rest[length.value..length.value + 2];
      assert body.value[..length.value] == rest[..length.value];
      if body.value[length.value..] != CRLF {
        return Err(TerminatorMalformed);
      }
      return Ok(Data(body.value[..length.value]));
    }

    method ParseArray(depth: nat) returns (r: Result<Value>)
      requires Valid() && depth <= MAX_DEPTH
      modifies this, connection, clock
      ensures clock.now >= old(clock.now)
      ensures r.Ok? ==> Valid() && ParseArrayBody(maximum, depth, old(Rest())) == Done(r.value, Rest())
      ensures r.Err? ==>
                || ParseArrayBody(maximum, depth, old(Rest())) == Bad(r.error)
                || Excused(r.error, ParseArrayBody(maximum, depth, old(Rest())).Short?)
      decreases MAX_DEPTH + 1 - depth, 0
    {
      var count := ReadInt(CountMalformed);
      if count.Err? {
        return Err(count.error);
      }
      if count.value == -1 {
        return Ok(Null);
      }
      if count.value < 0 || count.value > MAX_ITEMS {
        return Err(CountOutside);
      }
      var items := ParseElements(depth + 1, count.value);
      if items.Err? {
        return Err(items.error);
      }
      return Ok(Array(items.value));
    }

    /** `[self.parse(depth) for _ in range(count)]`. */
    method ParseElements(depth: nat, count: nat) returns (r: Result<seq<Value>>)
      requires Valid() && depth <= MAX_DEPTH + 1
      modifies this, connection, clock
      ensures clock.now >= old(clock.now)
      ensures r.Ok? ==> Valid() && ParseItems(maximum, depth, count, old(Rest())) == Done(r.value, Rest())
      ensures r.Err? ==>
                || ParseItems(maximum, depth, count, old(Rest())) == Bad(r.error)
                || Excused(r.error, ParseItems(maximum, depth, count, old(Rest())).Short?)
      decreases MAX_DEPTH + 1 - depth, 2
    {
      var items: seq<Value> := [];
      ghost var goal := ParseItems(maximum, depth, count, Rest());
      PrependNothing(goal);
      for i := 0 to count
        invariant Valid() && clock.now >= old(clock.now)
        invariant Prepend(items, ParseItems(maximum, depth, count - i, Rest())) == goal
      {
        var item := Parse(depth);
        if item.Err? {
          return Err(item.error);
        }
        PrependTwice(items, [item.value], ParseItems(maximum, depth, count - i - 1, Rest()));
        items := items + [item.value];
      }
      assert items + [] == items;
      return Ok(items);
    }
  }

  /**
   The reader and the writer meet: over a reliable connection carrying exactly the wire form of a value
   within the limits, the parser on the wire gives that value and nothing is left over. With the
   contract of `Parse`, a read in time therefore returns the value, however it is fragmented.
   */
  lemma ReplyIsRead(maximum: nat, v: Value)
    requires Fits(maximum, 0, v)
    ensures ParseValue(maximum, 0, Encode(v)) == Done(v, [])
  {
    ParseEncoded(maximum, 0, v, []);
    assert Encode(v) + [] == Encode(v);
  }
}
