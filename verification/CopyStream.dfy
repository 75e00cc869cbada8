/**
 The incremental decoder for one ordered TEXT column of a binary COPY stream.

 `Decode` is the frame machine on values; `OrderedTextDigest` runs it in place over arbitrary chunks.
 `Encoding` is the independent reference: the whole stream that a list of rows stands for.
 */
module CopyStream {
  import opened Bytes
  import opened Wrappers
  import opened Budget
  import Utf8

  type Row = seq<Byte>

  const HEADER: seq<Byte> := [80, 71, 67, 79, 80, 89, 10, 255, 13, 10, 0, 0, 0, 0, 0, 0, 0, 0, 0]
  const MAX_CHUNK_BYTES := 8 * 1024 * 1024

  /** Lengths are signed 32-bit numbers. */
  const LENGTH_LIMIT := 0x8000_0000

  datatype Phase = Header | Fields | Length | Body | Trailer

  datatype Decoder =
    | Rejected
    | Reading(phase: Phase, needed: nat, pending: seq<Byte>, rows: seq<Row>, chargedRows: nat, chargedBytes: nat)
  {
    /** A frame is cut as soon as it is complete, so less than a frame is ever pending. */
    predicate Valid() {
      Reading? ==>
        match phase
        case Header => needed == |HEADER| && |pending| < needed && rows == []
        case Fields => needed == 2 && |pending| < needed
        case Length => needed == 4 && |pending| < needed
        case Body => |pending| < needed < LENGTH_LIMIT
        case Trailer => needed == 0 && pending == []
    }
  }

  /** The decoder before any byte, on a budget already charged with `rows` rows and `bytes` bytes. */
  function Start(rows: nat, bytes: nat): Decoder {
    Reading(Header, |HEADER|, [], [], rows, bytes)
  }

  /** A row may follow `rows` when it is valid UTF-8, in byte order and within the budget. */
  predicate Admissible(limits: Limits, d: Decoder, row: Row)
    requires d.Reading?
  {
    && Utf8.Valid(row)
    && Affordable(limits, d.chargedRows, d.chargedBytes, |row|)
    && (d.rows != [] ==> !Below(row, d.rows[|d.rows| - 1]))
  }

  function TakeRow(limits: Limits, d: Decoder, row: Row): Decoder
    requires d.Reading?
  {
    if Admissible(limits, d, row)
    then Reading(Fields, 2, [], d.rows + [row], d.chargedRows + 1, d.chargedBytes + |row|)
    else Rejected
  }

  lemma LengthIsBounded(frame: seq<Byte>)
    requires |frame| == 4
    ensures SignedBigEndian(frame) < LENGTH_LIMIT
  {
    TopByte(frame);
    assert Pow256(3) == 0x100_0000;
  }

  /** One complete frame. */
  function TakeFrame(limits: Limits, d: Decoder, frame: seq<Byte>): (r: Decoder)
    requires d.Reading? && d.Valid() && |frame| == d.needed
    ensures r.Valid()
  {
    match d.phase
    case Header => if frame == HEADER then d.(phase := Fields, needed := 2, pending := []) else Rejected
    case Fields =>
      var fields := SignedBigEndian(frame);
      if fields == -1 then d.(phase := Trailer, needed := 0, pending := [])
      else if fields == 1 then d.(phase := Length, needed := 4, pending := [])
      else Rejected
    case Length =>
      var length := SignedBigEndian(frame);
      LengthIsBounded(frame);
      if length < 0 || length > limits.maxRowBytes then Rejected
      else if length == 0 then TakeRow(limits, d, [])
      else d.(phase := Body, needed := length, pending := [])
    case Body => TakeRow(limits, d, frame)
    case Trailer => Rejected
  }

  /** How many of the bytes go to the frame in progress. */
  function Cut(d: Decoder, bytes: seq<Byte>): (n: nat)
    requires d.Reading? && d.Valid() && d.phase != Trailer && bytes != []
    ensures 0 < n <= |bytes| && |d.pending| + n <= d.needed
    ensures n == |bytes| || |d.pending| + n == d.needed
  {
    if d.needed - |d.pending| < |bytes| then d.needed - |d.pending| else |bytes|
  }

  /** Bytes that go to the frame in progress; a complete frame is taken. */
  function Extend(limits: Limits, d: Decoder, part: seq<Byte>): (r: Decoder)
    requires d.Reading? && d.Valid() && d.phase != Trailer && |d.pending| + |part| <= d.needed
    ensures r.Valid()
  {
    var frame := d.pending + part;
    if |frame| == d.needed then TakeFrame(limits, d, frame) else d.(pending := frame)
  }

  /** The machine over a run of bytes: cut frames and take them one by one. */
  function Decode(limits: Limits, d: Decoder, bytes: seq<Byte>): (r: Decoder)
    requires d.Valid()
    ensures r.Valid()
    decreases |bytes|
  {
    if d.Rejected? || bytes == [] then d
    else if d.phase == Trailer then Rejected
    else Decode(limits, Extend(limits, d, bytes[..Cut(d, bytes)]), bytes[Cut(d, bytes)..])
  }

  /** Chunk invariance: feeding `a` then `b` is feeding `a + b`, rejection included. */
  lemma {:induction false} DecodeInChunks(limits: Limits, d: Decoder, a: seq<Byte>, b: seq<Byte>)
    requires d.Valid()
    ensures Decode(limits, Decode(limits, d, a), b) == Decode(limits, d, a + b)
    decreases |a|
  {
    if a == [] {
      assert a + b == b;
    } else if d.Reading? && d.phase != Trailer {
      var n := Cut(d, a);
      if n == d.needed - |d.pending| {
        assert Cut(d, a + b) == n;
        assert (a + b)[..n] == a[..n] && (a + b)[n..] == a[n..] + b;
        DecodeInChunks(limits, Extend(limits, d, a[..n]), a[n..], b);
      } else {
        assert a[..n] == a && a[n..] == [];
        PendingInChunks(limits, d, a, b);
      }
    }
  }

  lemma ExtendTwice(limits: Limits, d: Decoder, a: seq<Byte>, b: seq<Byte>)
    requires d.Reading? && d.Valid() && d.phase != Trailer
    requires |d.pending| + |a| < d.needed && |d.pending| + |a| + |b| <= d.needed
    ensures Extend(limits, d, a) == d.(pending := d.pending + a)
    ensures Extend(limits, Extend(limits, d, a), b) == Extend(limits, d, a + b)
  {
    assert d.pending + a + b == d.pending + (a + b);
  }

  /** One unfolding of the machine. */
  lemma DecodeStep(limits: Limits, d: Decoder, part: seq<Byte>, rest: seq<Byte>)
    requires d.Reading? && d.Valid() && d.phase != Trailer && part != []
    requires |d.pending| + |part| == d.needed || (|d.pending| + |part| < d.needed && rest == [])
    ensures Decode(limits, d, part + rest) == Decode(limits, Extend(limits, d, part), rest)
  {
    assert Cut(d, part + rest) == |part|;
    assert (part + rest)[..|part|] == part && (part + rest)[|part|..] == rest;
  }

  /** Bytes that leave the frame incomplete only wait for the next chunk. */
  lemma {:induction false} PendingInChunks(limits: Limits, d: Decoder, a: seq<Byte>, b: seq<Byte>)
    requires d.Reading? && d.Valid() && d.phase != Trailer && a != [] && |d.pending| + |a| < d.needed
    ensures Decode(limits, Extend(limits, d, a), b) == Decode(limits, d, a + b)
  {
    var e := Extend(limits, d, a);
    if b == [] {
      DecodeStep(limits, d, a, []);
    } else {
      ExtendTwice(limits, d, a, []);
      var n := Cut(e, b);
      ExtendTwice(limits, d, a, b[..n]);
      DecodeStep(limits, e, b[..n], b[n..]);
      DecodeStep(limits, d, a + b[..n], b[n..]);
      assert b == b[..n] + b[n..] && a + b == (a + b[..n]) + b[n..];
    }
  }

  /** Exactly one frame's worth of bytes is one frame. */
  lemma {:induction false} DecodeFrame(limits: Limits, d: Decoder, frame: seq<Byte>)
    requires d.Reading? && d.Valid() && d.phase != Trailer && d.pending == [] && |frame| == d.needed
    ensures Decode(limits, d, frame) == TakeFrame(limits, d, frame)
  {
    DecodeStep(limits, d, frame, []);
    assert frame + [] == frame && [] + frame == frame;
  }

  /** A list of split points does not matter: any chunking reaches the one-shot state. */
  function DecodeAll(limits: Limits, d: Decoder, chunks: seq<seq<Byte>>): (r: Decoder)
    requires d.Valid()
    ensures r.Valid()
    decreases |chunks|
  {
    if chunks == [] then d else DecodeAll(limits, Decode(limits, d, chunks[0]), chunks[1..])
  }

  function Concat(chunks: seq<seq<Byte>>): seq<Byte> {
    if chunks == [] then [] else chunks[0] + Concat(chunks[1..])
  }

  lemma {:induction false} ChunkInvariance(limits: Limits, d: Decoder, chunks: seq<seq<Byte>>)
    requires d.Valid()
    ensures DecodeAll(limits, d, chunks) == Decode(limits, d, Concat(chunks))
    decreases |chunks|
  {
    if chunks != [] {
      ChunkInvariance(limits, Decode(limits, d, chunks[0]), chunks[1..]);
      DecodeInChunks(limits, d, chunks[0], Concat(chunks[1..]));
    }
  }

  // ---- The reference: what stream a list of rows stands for.

  function FramedRow(row: Row): seq<Byte> {
    BigEndian(1, 2) + BigEndian(|row|, 4) + row
  }

  function FramedRows(rows: seq<Row>): seq<Byte> {
    if rows == [] then [] else FramedRows(rows[..|rows| - 1]) + FramedRow(rows[|rows| - 1])
  }

  const END: seq<Byte> := [255, 255]

  function Encoding(rows: seq<Row>): seq<Byte> {
    HEADER + FramedRows(rows) + END
  }

  function Total(rows: seq<Row>): nat {
    if rows == [] then 0 else Total(rows[..|rows| - 1]) + |rows[|rows| - 1]|
  }

  /** Every row is valid UTF-8 and fits a COPY length, rows are in byte order, and the budget covers them. */
  predicate Acceptable(limits: Limits, rows: seq<Row>, chargedRows: nat, chargedBytes: nat) {
    && (forall i :: 0 <= i < |rows| ==>
          Utf8.Valid(rows[i]) && |rows[i]| <= limits.maxRowBytes && |rows[i]| < LENGTH_LIMIT)
    && (forall i :: 0 < i < |rows| ==> !Below(rows[i], rows[i - 1]))
    && (rows != [] ==> chargedRows + |rows| <= limits.maxRows && chargedBytes + Total(rows) <= limits.maxBytes)
  }

  /** The bytes a decoder has taken so far, read off its state. */
  function Taken(d: Decoder): seq<Byte>
    requires d.Reading?
  {
    match d.phase
    case Header => d.pending
    case Fields => HEADER + FramedRows(d.rows) + d.pending
    case Length => HEADER + FramedRows(d.rows) + BigEndian(1, 2) + d.pending
    case Body => HEADER + FramedRows(d.rows) + BigEndian(1, 2) + BigEndian(d.needed, 4) + d.pending
    case Trailer => Encoding(d.rows)
  }

  /** What a reading decoder knows about its rows and its budget. */
  predicate Sound(limits: Limits, d: Decoder, rows: nat, bytes: nat)
    requires d.Reading?
  {
    && d.Valid()
    && (d.phase == Body ==> d.needed <= limits.maxRowBytes)
    && Acceptable(limits, d.rows, rows, bytes)
    && d.chargedRows == rows + |d.rows| && d.chargedBytes == bytes + Total(d.rows)
  }

  lemma {:induction false} TakeRowIsSound(limits: Limits, d: Decoder, row: Row, rows: nat, bytes: nat)
    requires d.Reading? && Sound(limits, d, rows, bytes) && |row| < LENGTH_LIMIT
    requires TakeRow(limits, d, row).Reading?
    ensures var r := TakeRow(limits, d, row);
            && Sound(limits, r, rows, bytes)
            && Taken(r) == HEADER + FramedRows(d.rows) + FramedRow(row)
  {
    AcceptableWithRow(limits, d.rows, row, rows, bytes);
    var after := d.rows + [row];
    assert after[..|after| - 1] == d.rows;
    Reassociate(HEADER, FramedRows(d.rows), FramedRow(row));
    assert Taken(TakeRow(limits, d, row)) == HEADER + FramedRows(after);
  }

  lemma {:induction false} AcceptableWithRow(limits: Limits, rows: seq<Row>, row: Row, r0: nat, b0: nat)
    requires Acceptable(limits, rows, r0, b0) && Utf8.Valid(row) && |row| < LENGTH_LIMIT
    requires Affordable(limits, r0 + |rows|, b0 + Total(rows), |row|)
    requires rows != [] ==> !Below(row, rows[|rows| - 1])
    ensures Acceptable(limits, rows + [row], r0, b0) && Total(rows + [row]) == Total(rows) + |row|
  {
    assert (rows + [row])[..|rows|] == rows;
  }

  lemma Reassociate(a: seq<Byte>, b: seq<Byte>, c: seq<Byte>)
    ensures a + b + c == a + (b + c)
  {
  }

  lemma {:induction false} TakeFrameIsSound(limits: Limits, d: Decoder, frame: seq<Byte>, rows: nat, bytes: nat)
    requires d.Reading? && Sound(limits, d, rows, bytes) && d.phase != Trailer && |frame| == d.needed
    requires TakeFrame(limits, d, frame).Reading?
    ensures var r := TakeFrame(limits, d, frame);
            && Sound(limits, r, rows, bytes)
            && Taken(r) == Taken(d.(pending := frame))
  {
    match d.phase
    case Header => HeaderFrameIsSound(limits, d, frame, rows, bytes);
    case Fields => FieldsFrameIsSound(limits, d, frame, rows, bytes);
    case Length => LengthFrameIsSound(limits, d, frame, rows, bytes);
    case Body => BodyFrameIsSound(limits, d, frame, rows, bytes);
  }

  lemma HeaderFrameIsSound(limits: Limits, d: Decoder, frame: seq<Byte>, rows: nat, bytes: nat)
    requires d.Reading? && Sound(limits, d, rows, bytes) && d.phase == Header && |frame| == d.needed
    requires TakeFrame(limits, d, frame).Reading?
    ensures var r := TakeFrame(limits, d, frame);
            && Sound(limits, r, rows, bytes)
            && Taken(r) == Taken(d.(pending := frame))
  {
    assert Taken(TakeFrame(limits, d, frame)) == HEADER;
  }

  lemma BodyFrameIsSound(limits: Limits, d: Decoder, frame: seq<Byte>, rows: nat, bytes: nat)
    requires d.Reading? && Sound(limits, d, rows, bytes) && d.phase == Body && |frame| == d.needed
    requires TakeFrame(limits, d, frame).Reading?
    ensures var r := TakeFrame(limits, d, frame);
            && Sound(limits, r, rows, bytes)
            && Taken(r) == Taken(d.(pending := frame))
  {
    TakeRowIsSound(limits, d, frame, rows, bytes);
    BodyTaken(d, frame);
  }

  /** A complete body is a framed row. */
  lemma BodyTaken(d: Decoder, frame: seq<Byte>)
    requires d.Reading? && d.phase == Body && |frame| == d.needed
    ensures Taken(d.(pending := frame)) == HEADER + FramedRows(d.rows) + FramedRow(frame)
  {
    var head, one, size := HEADER + FramedRows(d.rows), BigEndian(1, 2), BigEndian(d.needed, 4);
    assert head + one + size + frame == head + (one + size + frame);
  }

  lemma {:induction false} FieldsFrameIsSound(limits: Limits, d: Decoder, frame: seq<Byte>, rows: nat, bytes: nat)
    requires d.Reading? && Sound(limits, d, rows, bytes) && d.phase == Fields && |frame| == 2
    requires TakeFrame(limits, d, frame).Reading?
    ensures var r := TakeFrame(limits, d, frame);
            && Sound(limits, r, rows, bytes)
            && Taken(r) == Taken(d.(pending := frame))
  {
    MinusOne(frame);
    if SignedBigEndian(frame) == 1 {
      SignedWritten(frame);
      assert Taken(TakeFrame(limits, d, frame)) == HEADER + FramedRows(d.rows) + frame;
    }
  }

  lemma {:induction false} LengthFrameIsSound(limits: Limits, d: Decoder, frame: seq<Byte>, rows: nat, bytes: nat)
    requires d.Reading? && Sound(limits, d, rows, bytes) && d.phase == Length && |frame| == 4
    requires TakeFrame(limits, d, frame).Reading?
    ensures var r := TakeFrame(limits, d, frame);
            && Sound(limits, r, rows, bytes)
            && Taken(r) == Taken(d.(pending := frame))
  {
    SignedWritten(frame);
    LengthIsBounded(frame);
    if SignedBigEndian(frame) == 0 {
      TakeRowIsSound(limits, d, [], rows, bytes);
      assert FramedRow([]) == BigEndian(1, 2) + frame;
    }
    assert Taken(TakeFrame(limits, d, frame)) == HEADER + FramedRows(d.rows) + BigEndian(1, 2) + frame;
  }

  lemma MinusOne(frame: seq<Byte>)
    requires |frame| == 2
    ensures SignedBigEndian(frame) == -1 <==> frame == END
  {
    assert frame[..1] == [frame[0]] && [frame[0]][..0] == [];
    assert FromBigEndian([frame[0]]) == frame[0];
    assert FromBigEndian(frame) == 256 * (frame[0] as int) + frame[1];
    assert Pow256(1) == 256 && Pow256(2) == 65536;
  }

  lemma {:induction false} TakenPending(d: Decoder, part: seq<Byte>)
    requires d.Reading? && d.phase != Trailer
    ensures Taken(d.(pending := d.pending + part)) == Taken(d) + part
  {
    var start := match d.phase
      case Header => []
      case Fields => HEADER + FramedRows(d.rows)
      case Length => HEADER + FramedRows(d.rows) + BigEndian(1, 2)
      case Body => HEADER + FramedRows(d.rows) + BigEndian(1, 2) + BigEndian(d.needed, 4)
      case Trailer => [];
    Reassociate(start, d.pending, part);
  }

  lemma {:induction false} ExtendIsSound(limits: Limits, d: Decoder, part: seq<Byte>, rows: nat, bytes: nat)
    requires d.Reading? && Sound(limits, d, rows, bytes) && d.phase != Trailer && |d.pending| + |part| <= d.needed
    requires Extend(limits, d, part).Reading?
    ensures var r := Extend(limits, d, part); Sound(limits, r, rows, bytes) && Taken(r) == Taken(d) + part
  {
    var frame := d.pending + part;
    TakenPending(d, part);
    if |frame| == d.needed {
      TakeFrameIsSound(limits, d, frame, rows, bytes);
    }
  }

  /** Soundness: the bytes fed are exactly the bytes the final state stands for. */
  lemma {:induction false} DecodeIsSound(limits: Limits, d: Decoder, input: seq<Byte>, rows: nat, bytes: nat)
    requires d.Reading? && Sound(limits, d, rows, bytes)
    requires Decode(limits, d, input).Reading?
    ensures var r := Decode(limits, d, input); Sound(limits, r, rows, bytes) && Taken(r) == Taken(d) + input
    decreases |input|
  {
    if input == [] {
      assert Taken(d) + input == Taken(d);
    } else {
      var part, rest := input[..Cut(d, input)], input[Cut(d, input)..];
      assert input == part + rest;
      DecodeStep(limits, d, part, rest);
      ExtendIsSound(limits, d, part, rows, bytes);
      var e := Extend(limits, d, part);
      DecodeIsSound(limits, e, rest, rows, bytes);
      Reassociate(Taken(d), part, rest);
    }
  }

  /** The state between rows. */
  function Between(rows: seq<Row>, chargedRows: nat, chargedBytes: nat): Decoder {
    Reading(Fields, 2, [], rows, chargedRows + |rows|, chargedBytes + Total(rows))
  }

  /** The state after the trailer. */
  function Ended(rows: seq<Row>, chargedRows: nat, chargedBytes: nat): Decoder {
    Reading(Trailer, 0, [], rows, chargedRows + |rows|, chargedBytes + Total(rows))
  }

  /** Dropping the last row of an acceptable list leaves an acceptable list it may be added to. */
  lemma {:induction false} LastRowIsAdmissible(limits: Limits, rows: seq<Row>, r0: nat, b0: nat)
    requires rows != [] && Acceptable(limits, rows, r0, b0)
    ensures Acceptable(limits, rows[..|rows| - 1], r0, b0)
    ensures Admissible(limits, Between(rows[..|rows| - 1], r0, b0), rows[|rows| - 1])
  {
    var init := rows[..|rows| - 1];
    assert Total(rows) == Total(init) + |rows[|rows| - 1]|;
    if init != [] {
      assert init[|init| - 1] == rows[|rows| - 2];
    }
  }

  lemma {:induction false} DecodeFramedRows(limits: Limits, rows: seq<Row>, r0: nat, b0: nat)
    requires Acceptable(limits, rows, r0, b0)
    ensures Decode(limits, Start(r0, b0), HEADER + FramedRows(rows)) == Between(rows, r0, b0)
  {
    if rows == [] {
      assert HEADER + FramedRows([]) == HEADER;
      DecodeFrame(limits, Start(r0, b0), HEADER);
    } else {
      var init, row := rows[..|rows| - 1], rows[|rows| - 1];
      LastRowIsAdmissible(limits, rows, r0, b0);
      DecodeFramedRows(limits, init, r0, b0);
      DecodeLastRow(limits, init, row, r0, b0);
      assert init + [row] == rows;
    }
  }

  lemma {:induction false} DecodeLastRow(limits: Limits, init: seq<Row>, row: Row, r0: nat, b0: nat)
    requires Decode(limits, Start(r0, b0), HEADER + FramedRows(init)) == Between(init, r0, b0)
    requires Admissible(limits, Between(init, r0, b0), row) && |row| < LENGTH_LIMIT
    ensures Decode(limits, Start(r0, b0), HEADER + FramedRows(init + [row])) == Between(init + [row], r0, b0)
  {
    var before := HEADER + FramedRows(init);
    FramedRowsGrow(init, row);
    assert before + FramedRow(row) == HEADER + FramedRows(init + [row]);
    DecodeInChunks(limits, Start(r0, b0), before, FramedRow(row));
    DecodeOneRow(limits, Between(init, r0, b0), row);
    BetweenGrows(limits, init, row, r0, b0);
  }

  lemma FramedRowsGrow(init: seq<Row>, row: Row)
    ensures FramedRows(init + [row]) == FramedRows(init) + FramedRow(row)
    ensures Total(init + [row]) == Total(init) + |row|
  {
    assert (init + [row])[..|init|] == init;
  }

  lemma BetweenGrows(limits: Limits, init: seq<Row>, row: Row, r0: nat, b0: nat)
    requires Admissible(limits, Between(init, r0, b0), row)
    ensures TakeRow(limits, Between(init, r0, b0), row) == Between(init + [row], r0, b0)
  {
    FramedRowsGrow(init, row);
  }

  /** The field count and the length in front of a row. */
  lemma {:induction false} DecodeRowHead(limits: Limits, d: Decoder, size: nat)
    requires d.Reading? && d.Valid() && d.phase == Fields && d.pending == []
    requires size <= limits.maxRowBytes && size < LENGTH_LIMIT
    ensures Decode(limits, d, BigEndian(1, 2) + BigEndian(size, 4))
         == if size == 0 then TakeRow(limits, d, []) else d.(phase := Body, needed := size)
  {
    assert Pow256(1) == 256 && Pow256(3) == 0x100_0000;
    SignedRead(1, 2);
    SignedRead(size, 4);
    var d1 := d.(phase := Length, needed := 4);
    DecodeFrame(limits, d, BigEndian(1, 2));
    DecodeFrame(limits, d1, BigEndian(size, 4));
    DecodeInChunks(limits, d, BigEndian(1, 2), BigEndian(size, 4));
  }

  lemma {:induction false} DecodeOneRow(limits: Limits, d: Decoder, row: Row)
    requires d.Reading? && d.Valid() && d.phase == Fields && d.pending == []
    requires Admissible(limits, d, row) && |row| < LENGTH_LIMIT
    ensures Decode(limits, d, FramedRow(row)) == TakeRow(limits, d, row)
  {
    DecodeRowHead(limits, d, |row|);
    if row == [] {
      assert FramedRow(row) == BigEndian(1, 2) + BigEndian(|row|, 4);
    } else {
      DecodeBody(limits, d, row);
      DecodeInChunks(limits, d, BigEndian(1, 2) + BigEndian(|row|, 4), row);
    }
  }

  /** The bytes of a nonempty row, behind its length. */
  lemma DecodeBody(limits: Limits, d: Decoder, row: Row)
    requires d.Reading? && d.phase == Fields && d.pending == [] && 0 < |row| < LENGTH_LIMIT
    ensures d.(phase := Body, needed := |row|).Valid()
    ensures Decode(limits, d.(phase := Body, needed := |row|), row) == TakeRow(limits, d, row)
  {
    var body := d.(phase := Body, needed := |row|);
    DecodeFrame(limits, body, row);
    TakeRowIgnoresPhase(limits, d, body, row);
  }

  lemma TakeRowIgnoresPhase(limits: Limits, d: Decoder, e: Decoder, row: Row)
    requires d.Reading? && e.Reading? && d.rows == e.rows
    requires d.chargedRows == e.chargedRows && d.chargedBytes == e.chargedBytes
    ensures TakeRow(limits, d, row) == TakeRow(limits, e, row)
  {
  }

  /**
   Exact language: the machine ends in the trailer with rows `rows` exactly on the encoding of
   `rows`, and only acceptable rows get there.
   */
  lemma {:induction false} ExactLanguage(limits: Limits, input: seq<Byte>, r0: nat, b0: nat)
    ensures var r := Decode(limits, Start(r0, b0), input);
            r.Reading? && r.phase == Trailer
            <==> exists rows :: Acceptable(limits, rows, r0, b0) && input == Encoding(rows)
    ensures forall rows :: Acceptable(limits, rows, r0, b0) && input == Encoding(rows) ==>
              Decode(limits, Start(r0, b0), input) == Ended(rows, r0, b0)
  {
    var r := Decode(limits, Start(r0, b0), input);
    if r.Reading? && r.phase == Trailer {
      DecodeIsSound(limits, Start(r0, b0), input, r0, b0);
      assert Acceptable(limits, r.rows, r0, b0) && input == Encoding(r.rows);
    }
    forall rows | Acceptable(limits, rows, r0, b0) && input == Encoding(rows)
      ensures r == Ended(rows, r0, b0)
    {
      DecodeFramedRows(limits, rows, r0, b0);
      MinusOne(END);
      DecodeFrame(limits, Between(rows, r0, b0), END);
      DecodeInChunks(limits, Start(r0, b0), HEADER + FramedRows(rows), END);
    }
  }

  /** Reading back what was written gives the rows: a stream stands for one list of rows only. */
  lemma EncodingDeterminesRows(limits: Limits, a: seq<Row>, b: seq<Row>, r0: nat, b0: nat)
    requires Acceptable(limits, a, r0, b0) && Acceptable(limits, b, r0, b0) && Encoding(a) == Encoding(b)
    ensures a == b
  {
    ExactLanguage(limits, Encoding(a), r0, b0);
    assert Ended(a, r0, b0) == Ended(b, r0, b0);
  }

  /** Checking each row against the one before puts all of them in byte order. */
  lemma {:induction false} RowsAreOrdered(limits: Limits, rows: seq<Row>, r0: nat, b0: nat, i: nat, j: nat)
    requires Acceptable(limits, rows, r0, b0) && i <= j < |rows|
    ensures !Below(rows[j], rows[i]) && AtMost(rows[i], rows[j])
    decreases j - i
  {
    NotBelowIsAtMost(rows[i], rows[j]);
    if i == j {
    } else {
      RowsAreOrdered(limits, rows, r0, b0, i, j - 1);
      BelowIsTransitive(rows[i], rows[j - 1], rows[j]);
    }
  }

  /** Acceptable rows are exactly those in numeric byte order that are valid and within the budget. */
  lemma AcceptableMeans(limits: Limits, rows: seq<Row>, r0: nat, b0: nat)
    ensures Acceptable(limits, rows, r0, b0) <==>
              && (forall i :: 0 <= i < |rows| ==> Utf8.IsText(rows[i]))
              && (forall i :: 0 <= i < |rows| ==> |rows[i]| <= limits.maxRowBytes && |rows[i]| < 0x8000_0000)
              && (forall i, j :: 0 <= i < j < |rows| ==> AtMost(rows[i], rows[j]))
              && (rows == [] || (r0 + |rows| <= limits.maxRows && b0 + Total(rows) <= limits.maxBytes))
  {
    forall i | 0 <= i < |rows| ensures Utf8.Valid(rows[i]) <==> Utf8.IsText(rows[i]) {
      Utf8.ValidIsText(rows[i]);
    }
    if Acceptable(limits, rows, r0, b0) {
      forall i, j | 0 <= i < j < |rows| ensures AtMost(rows[i], rows[j]) {
        RowsAreOrdered(limits, rows, r0, b0, i, j);
      }
    }
    if forall i, j :: 0 <= i < j < |rows| ==> AtMost(rows[i], rows[j]) {
      forall i | 0 < i < |rows| ensures !Below(rows[i], rows[i - 1]) {
        assert AtMost(rows[i - 1], rows[i]);
        NotBelowIsAtMost(rows[i - 1], rows[i]);
      }
    }
  }

  // ---- The digest input: every row behind its eight-byte length.

  function DigestInput(rows: seq<Row>): seq<Byte> {
    if rows == [] then [] else DigestInput(rows[..|rows| - 1]) + BigEndian(|rows[|rows| - 1]|, 8) + rows[|rows| - 1]
  }

  lemma DigestInputGrows(init: seq<Row>, row: Row)
    ensures DigestInput(init + [row]) == DigestInput(init) + BigEndian(|row|, 8) + row
  {
    assert (init + [row])[..|init|] == init;
  }

  /** The same bytes read from the front. */
  lemma {:induction false} DigestInputFromFront(rows: seq<Row>)
    requires rows != []
    ensures DigestInput(rows) == BigEndian(|rows[0]|, 8) + rows[0] + DigestInput(rows[1..])
  {
    var init, last := rows[..|rows| - 1], rows[|rows| - 1];
    if init == [] {
      assert rows == [last] && rows[1..] == [];
    } else {
      DigestInputFromFront(init);
      assert rows[1..][..|rows| - 2] == init[1..];
    }
  }

  lemma {:induction false} DigestInputIsInjective(a: seq<Row>, b: seq<Row>)
    requires forall i :: 0 <= i < |a| ==> |a[i]| < Pow256(8)
    requires forall i :: 0 <= i < |b| ==> |b[i]| < Pow256(8)
    requires DigestInput(a) == DigestInput(b)
    ensures a == b
    decreases |a|
  {
    if a != [] {
      DigestInputFromFront(a);
    }
    if b != [] {
      DigestInputFromFront(b);
    }
    if a != [] && b != [] {
      FirstRowRead(8, a[0], DigestInput(a[1..]), b[0], DigestInput(b[1..]));
      DigestInputIsInjective(a[1..], b[1..]);
      assert a == [a[0]] + a[1..] && b == [b[0]] + b[1..];
    }
  }

  /** The length in front of a row tells where the row ends. */
  lemma FirstRowRead(k: nat, x: Row, s: seq<Byte>, y: Row, t: seq<Byte>)
    requires |x| < Pow256(k) && |y| < Pow256(k)
    requires BigEndian(|x|, k) + x + s == BigEndian(|y|, k) + y + t
    ensures x == y && s == t
  {
    var u, v := BigEndian(|x|, k), BigEndian(|y|, k);
    Reassociate(u, x, s);
    Reassociate(v, y, t);
    SplitEqual(u, x + s, v, y + t);
    BigEndianRead(|x|, k);
    BigEndianRead(|y|, k);
    SplitEqual(x, s, y, t);
  }

  lemma SplitEqual(u: seq<Byte>, a: seq<Byte>, v: seq<Byte>, b: seq<Byte>)
    requires |u| == |v| && u + a == v + b
    ensures u == v && a == b
  {
    assert u == (u + a)[..|u|] && v == (v + b)[..|u|];
    assert a == (u + a)[|u|..] && b == (v + b)[|u|..];
  }

  // ---- The decoder in place.

  class OrderedTextDigest {
    const budget: Budget
    var hash: seq<Byte>
    var count: nat
    var previous: Option<Row>
    var pending: seq<Byte>
    var phase: Phase
    var needed: nat
    var failed: bool
    var sealed: bool
    /** The rows taken so far; only their number, the last one and the digest input are kept at run time. */
    ghost var rows: seq<Row>

    ghost predicate Valid()
      reads this, budget
    {
      && State().Valid()
      && (!failed ==>
            && count == |rows|
            && hash == DigestInput(rows)
            && previous == (if rows == [] then None else Some(rows[|rows| - 1])))
    }

    ghost function State(): Decoder
      reads this, budget
    {
      if failed then Rejected else Reading(phase, needed, pending, rows, budget.rows, budget.bytes)
    }

    constructor (budget: Budget)
      ensures Valid() && !failed && !sealed && this.budget == budget
      ensures State() == Start(budget.rows, budget.bytes)
    {
      this.budget := budget;
      hash, count, previous, pending := [], 0, None, [];
      phase, needed := Header, |HEADER|;
      failed, sealed, rows := false, false, [];
    }

    /** Fails the decoder when the time is over. */
    method CheckDeadline()
      requires Valid()
      modifies this`failed, budget.clock
      ensures Valid() && budget.clock.now >= old(budget.clock.now)
      ensures failed <==> old(failed) || budget.Late()
    {
      var t := budget.clock.Read();
      if t - budget.start > budget.limits.maxSeconds {
        failed := true;
      }
    }

    /** Decodes and charges a row, and compares it with the one before. */
    method Charge(row: Row) returns (ok: bool)
      requires Valid() && !failed && pending == [] && |row| < LENGTH_LIMIT
      modifies budget, budget.clock
      ensures budget.clock.now >= old(budget.clock.now)
      ensures ok ==> Admissible(budget.limits, old(State()), row)
                     && budget.rows == old(budget.rows) + 1 && budget.bytes == old(budget.bytes) + |row|
      ensures !ok ==> !Admissible(budget.limits, old(State()), row) || budget.Late()
    {
      var text := Utf8.Decode(row);
      if text.None? {
        return false;
      }
      Utf8.EncodeDecoded(row);
      var data := budget.Add(text.value);
      return data.Some? && data.value == row && (previous.None? || !Below(data.value, previous.value));
    }

    /** Digests and counts an admitted row. */
    method Keep(row: Row)
      requires count == |rows| && hash == DigestInput(rows)
      modifies this`hash, this`count, this`previous, this`phase, this`needed, this`rows
      ensures count == |rows| && hash == DigestInput(rows) && rows == old(rows) + [row]
      ensures previous == Some(row) && phase == Fields && needed == 2
    {
      DigestInputGrows(rows, row);
      hash := hash + BigEndian(|row|, 8) + row;
      previous, count := Some(row), count + 1;
      rows := rows + [row];
      phase, needed := Fields, 2;
    }

    method TakeBody(row: Row)
      requires Valid() && !failed && pending == [] && |row| < LENGTH_LIMIT
      modifies this, budget, budget.clock
      ensures Valid() && sealed == old(sealed) && budget.clock.now >= old(budget.clock.now)
      ensures !failed ==> State() == TakeRow(budget.limits, old(State()), row)
      ensures failed ==> TakeRow(budget.limits, old(State()), row) == Rejected || budget.Late()
    {
      var admitted := Charge(row);
      if !admitted {
        failed := true;
        return;
      }
      Keep(row);
    }

    method Frame(frame: seq<Byte>)
      requires Valid() && !failed && pending == [] && |frame| == needed
      modifies this, budget, budget.clock
      ensures Valid() && sealed == old(sealed) && budget.clock.now >= old(budget.clock.now)
      ensures !failed ==> State() == TakeFrame(budget.limits, old(State()), frame)
      ensures failed ==> TakeFrame(budget.limits, old(State()), frame) == Rejected || budget.Late()
    {
      match phase
      case Header =>
        if frame == HEADER {
          phase, needed := Fields, 2;
        } else {
          failed := true;
        }
      case Fields =>
        var fields := SignedBigEndian(frame);
        if fields == -1 {
          phase, needed := Trailer, 0;
        } else if fields == 1 {
          phase, needed := Length, 4;
        } else {
          failed := true;
        }
      case Length =>
        var length := SignedBigEndian(frame);
        LengthIsBounded(frame);
        if length < 0 || length > budget.limits.maxRowBytes {
          failed := true;
        } else if length == 0 {
          TakeBody([]);
        } else {
          phase, needed := Body, length;
        }
      case Body =>
        TakeBody(frame);
      case Trailer =>
        failed := true;
    }

    /** Bytes for the frame in progress; a complete frame is taken. */
    method Feed(part: seq<Byte>)
      requires Valid() && !failed && phase != Trailer && |pending| + |part| <= needed
      modifies this, budget, budget.clock
      ensures Valid() && sealed == old(sealed) && budget.clock.now >= old(budget.clock.now)
      ensures !failed ==> State() == Extend(budget.limits, old(State()), part)
      ensures failed ==> Extend(budget.limits, old(State()), part) == Rejected || budget.Late()
    {
      var frame := pending + part;
      if |frame| == needed {
        PendingIsDropped(budget.limits, State(), frame);
        pending := [];
        Frame(frame);
      } else {
        pending := frame;
      }
    }

    /** One turn of the chunk loop: as much of `rest` as the frame in progress takes. */
    method FeedNext(rest: seq<Byte>) returns (take: nat)
      requires Valid() && !failed && rest != []
      modifies this, budget, budget.clock
      ensures 0 < take <= |rest|
      ensures Valid() && sealed == old(sealed) && budget.clock.now >= old(budget.clock.now)
      ensures !failed ==> Decode(budget.limits, State(), rest[take..]) == Decode(budget.limits, old(State()), rest)
      ensures failed ==> Decode(budget.limits, old(State()), rest) == Rejected || budget.Late()
    {
      if phase == Trailer {
        failed := true;
        return 1;
      }
      take := if needed - |pending| < |rest| then needed - |pending| else |rest|;
      assert rest == rest[..take] + rest[take..];
      DecodeStep(budget.limits, State(), rest[..take], rest[take..]);
      Feed(rest[..take]);
      RejectedStays(budget.limits, rest[take..]);
      CheckDeadline();
    }

    /**
     Any chunk within the cap moves the state exactly as the machine does, unless the deadline passed.
     */
    method Write(chunk: seq<Byte>)
      requires Valid()
      modifies this, budget, budget.clock
      ensures Valid() && sealed == old(sealed) && budget.clock.now >= old(budget.clock.now)
      ensures old(failed) || old(sealed) || |chunk| > MAX_CHUNK_BYTES ==> failed
      ensures !failed ==> State() == Decode(budget.limits, old(State()), chunk)
      ensures failed ==> || old(failed) || old(sealed) || |chunk| > MAX_CHUNK_BYTES
                         || Decode(budget.limits, old(State()), chunk) == Rejected || budget.Late()
    {
      if failed || sealed || |chunk| > MAX_CHUNK_BYTES {
        failed := true;
        return;
      }
      CheckDeadline();
      var rest := chunk;
      ghost var goal := Decode(budget.limits, old(State()), chunk);
      while rest != [] && !failed
        invariant Valid() && sealed == old(sealed)
        invariant budget.clock.now >= old(budget.clock.now)
        invariant !failed ==> Decode(budget.limits, State(), rest) == goal
        invariant failed ==> goal == Rejected || budget.Late()
        decreases |rest|
      {
        var take := FeedNext(rest);
        rest := rest[take..];
      }
    }

    /** Seals the decoder: accepted exactly after the trailer with the matching row count, in time. */
    method Finish(status: string) returns (r: Option<(nat, seq<Byte>)>)
      requires Valid()
      modifies this, budget.clock
      ensures Valid() && budget.clock.now >= old(budget.clock.now) && rows == old(rows)
      ensures r.Some? <==> sealed && !failed
      ensures r.Some? ==>
                && !old(failed) && !old(sealed) && old(State()).phase == Trailer
                && r.value == (|rows|, DigestInput(rows)) && status == "COPY " + Decimal(|rows|)
      ensures r.None? ==>
                || old(failed) || old(sealed) || old(State()).phase != Trailer
                || status != "COPY " + Decimal(|rows|) || budget.Late()
    {
      if failed || sealed || phase != Trailer || pending != [] || status != "COPY " + Decimal(count) {
        failed := true;
        return None;
      }
      CheckDeadline();
      if failed {
        return None;
      }
      sealed := true;
      return Some((count, hash));
    }
  }

  lemma RejectedStays(limits: Limits, bytes: seq<Byte>)
    ensures Decode(limits, Rejected, bytes) == Rejected
  {
  }

  /** Taking a frame replaces whatever was pending. */
  lemma PendingIsDropped(limits: Limits, d: Decoder, frame: seq<Byte>)
    requires d.Reading? && d.Valid() && |frame| == d.needed
    ensures d.phase != Trailer ==> d.(pending := []).Valid()
    ensures d.phase != Trailer ==> TakeFrame(limits, d.(pending := []), frame) == TakeFrame(limits, d, frame)
  {
  }

  /** Some acceptable rows stand behind this stream and this command status. */
  ghost predicate Accepted(limits: Limits, r0: nat, b0: nat, input: seq<Byte>, status: string) {
    exists rows ::
      Acceptable(limits, rows, r0, b0) && input == Encoding(rows) && status == "COPY " + Decimal(|rows|)
  }

  /** The machine decides that question, and finds those rows. */
  lemma {:induction false} AcceptanceIsDecided(limits: Limits, r0: nat, b0: nat, input: seq<Byte>, status: string)
    ensures var d := Decode(limits, Start(r0, b0), input);
            Accepted(limits, r0, b0, input, status)
            <==> d.Reading? && d.phase == Trailer && status == "COPY " + Decimal(|d.rows|)
    ensures var d := Decode(limits, Start(r0, b0), input);
            d.Reading? && d.phase == Trailer ==> input == Encoding(d.rows)
  {
    ExactLanguage(limits, input, r0, b0);
    var d := Decode(limits, Start(r0, b0), input);
    if d.Reading? && d.phase == Trailer {
      DecodeIsSound(limits, Start(r0, b0), input, r0, b0);
    }
  }

  /**
   Any chunks of a stream: the machine ends ready to finish with this status exactly when some acceptable rows
   stand behind the stream and the status, and then it holds those rows.
   */
  lemma {:induction false} StreamVerdict(limits: Limits, r0: nat, b0: nat, chunks: seq<seq<Byte>>, status: string)
    ensures var d := DecodeAll(limits, Start(r0, b0), chunks);
            Accepted(limits, r0, b0, Concat(chunks), status)
            <==> d.Reading? && d.phase == Trailer && status == "COPY " + Decimal(|d.rows|)
    ensures var d := DecodeAll(limits, Start(r0, b0), chunks);
            d.Reading? && d.phase == Trailer ==> Concat(chunks) == Encoding(d.rows)
  {
    ChunkInvariance(limits, Start(r0, b0), chunks);
    AcceptanceIsDecided(limits, r0, b0, Concat(chunks), status);
  }

  /** Every chunk is within the cap of one write. */
  predicate WithinCap(chunks: seq<seq<Byte>>) {
    forall i :: 0 <= i < |chunks| ==> |chunks[i]| <= MAX_CHUNK_BYTES
  }

  /** One write among several: the verdict on what is left carries over to the whole. */
  method WriteNext(sink: OrderedTextDigest, chunk: seq<Byte>, ghost rest: seq<Byte>)
    requires sink.Valid() && !sink.failed && !sink.sealed
    modifies sink, sink.budget, sink.budget.clock
    ensures sink.Valid() && !sink.sealed && sink.budget.clock.now >= old(sink.budget.clock.now)
    ensures !sink.failed ==>
              && |chunk| <= MAX_CHUNK_BYTES
              && Decode(sink.budget.limits, sink.State(), rest) == Decode(sink.budget.limits, old(sink.State()), chunk + rest)
    ensures sink.failed ==> || |chunk| > MAX_CHUNK_BYTES || sink.budget.Late()
                            || Decode(sink.budget.limits, old(sink.State()), chunk + rest) == Rejected
  {
    DecodeInChunks(sink.budget.limits, sink.State(), chunk, rest);
    RejectedStays(sink.budget.limits, rest);
    sink.Write(chunk);
  }

  /** The first chunk of several: its bytes come first, and its length matters to the cap of all. */
  lemma FirstChunk(chunks: seq<seq<Byte>>)
    requires chunks != []
    ensures Concat(chunks) == chunks[0] + Concat(chunks[1..])
    ensures WithinCap(chunks) <==> |chunks[0]| <= MAX_CHUNK_BYTES && WithinCap(chunks[1..])
  {
    if |chunks[0]| <= MAX_CHUNK_BYTES && WithinCap(chunks[1..]) {
      forall i | 0 < i < |chunks| ensures |chunks[i]| <= MAX_CHUNK_BYTES {
        assert chunks[i] == chunks[1..][i - 1];
      }
    }
    if WithinCap(chunks) {
      forall i | 0 <= i < |chunks[1..]| ensures |chunks[1..][i]| <= MAX_CHUNK_BYTES {
        assert chunks[1..][i] == chunks[i + 1];
      }
    }
  }

  /** Writes the chunks one after the other, until one is refused. */
  method WriteAll(sink: OrderedTextDigest, chunks: seq<seq<Byte>>)
    requires sink.Valid() && !sink.failed && !sink.sealed
    modifies sink, sink.budget, sink.budget.clock
    ensures sink.Valid() && !sink.sealed && sink.budget.clock.now >= old(sink.budget.clock.now)
    ensures !sink.failed ==>
              WithinCap(chunks) && sink.State() == Decode(sink.budget.limits, old(sink.State()), Concat(chunks))
    ensures sink.failed ==> || !WithinCap(chunks) || sink.budget.Late()
                            || Decode(sink.budget.limits, old(sink.State()), Concat(chunks)) == Rejected
  {
    ghost var goal := Decode(sink.budget.limits, sink.State(), Concat(chunks));
    var left := chunks;
    while left != []
      invariant sink.Valid() && !sink.failed && !sink.sealed && sink.budget.clock.now >= old(sink.budget.clock.now)
      invariant WithinCap(left) <==> WithinCap(chunks)
      invariant Decode(sink.budget.limits, sink.State(), Concat(left)) == goal
      decreases |left|
    {
      FirstChunk(left);
      WriteNext(sink, left[0], Concat(left[1..]));
      if sink.failed {
        return;
      }
      left := left[1..];
    }
  }

  /** The rows behind a finished run. */
  ghost predicate Yields(limits: Limits, r0: nat, b0: nat, input: seq<Byte>, status: string, count: nat,
                         digest: seq<Byte>) {
    exists rows ::
      && Acceptable(limits, rows, r0, b0) && input == Encoding(rows) && status == "COPY " + Decimal(|rows|)
      && count == |rows| && digest == DigestInput(rows)
  }

  /** The machine stopped after the trailer, with as many rows as the command status says. */
  predicate Complete(d: Decoder, status: string) {
    d.Reading? && d.phase == Trailer && status == "COPY " + Decimal(|d.rows|)
  }

  lemma CompleteYields(limits: Limits, r0: nat, b0: nat, input: seq<Byte>, status: string)
    ensures var d := Decode(limits, Start(r0, b0), input);
            && (Accepted(limits, r0, b0, input, status) <==> Complete(d, status))
            && (Complete(d, status) ==> Yields(limits, r0, b0, input, status, |d.rows|, DigestInput(d.rows)))
  {
    AcceptanceIsDecided(limits, r0, b0, input, status);
    var d := Decode(limits, Start(r0, b0), input);
    if Complete(d, status) {
      DecodeIsSound(limits, Start(r0, b0), input, r0, b0);
    }
  }

  /** Finishing a sink that is neither failed nor sealed. */
  method Conclude(sink: OrderedTextDigest, status: string) returns (r: Option<(nat, seq<Byte>)>)
    requires sink.Valid() && !sink.failed && !sink.sealed
    modifies sink, sink.budget.clock
    ensures sink.budget.clock.now >= old(sink.budget.clock.now)
    ensures r.Some? ==> Complete(old(sink.State()), status)
                        && r.value == (|old(sink.State()).rows|, DigestInput(old(sink.State()).rows))
    ensures r.None? ==> !Complete(old(sink.State()), status) || sink.budget.Late()
  {
    r := sink.Finish(status);
  }

  /**
   A whole run of the sink: it yields a count and a digest exactly when acceptable rows stand behind the bytes
   written and the command status, however the bytes were cut, unless a chunk was over the cap or the time was
   over; and they are the count and the digest of those rows.
   */
  method Receive(budget: Budget, chunks: seq<seq<Byte>>, status: string) returns (r: Option<(nat, seq<Byte>)>)
    modifies budget, budget.clock
    ensures budget.clock.now >= old(budget.clock.now)
    ensures r.Some? ==>
              && Accepted(budget.limits, old(budget.rows), old(budget.bytes), Concat(chunks), status)
              && Yields(budget.limits, old(budget.rows), old(budget.bytes), Concat(chunks), status, r.value.0, r.value.1)
    ensures r.None? ==>
              || !Accepted(budget.limits, old(budget.rows), old(budget.bytes), Concat(chunks), status)
              || !WithinCap(chunks) || budget.Late()
  {
    CompleteYields(budget.limits, budget.rows, budget.bytes, Concat(chunks), status);
    var sink := new OrderedTextDigest(budget);
    WriteAll(sink, chunks);
    if sink.failed {
      return None;
    }
    r := Conclude(sink, status);
  }
}
