/**
 The paged XRANGE scan of one stream, against the simple classification of the whole stream.
 */
module StreamScan {
  import opened Bytes
  import opened Wrappers
  import opened Resp
  import opened LineText

  const XRANGE_PAGE_SIZE := 500

  // ---- The server: a stable stream and the range command on it.

  datatype StreamId = StreamId(ms: nat, seqNo: nat)

  datatype Entry = Entry(id: StreamId, fields: seq<Value>)

  predicate Before(a: StreamId, b: StreamId) {
    a.ms < b.ms || (a.ms == b.ms && a.seqNo < b.seqNo)
  }

  /** Ids are compared as 128-bit numbers. */
  lemma BeforeIsNumeric(a: StreamId, b: StreamId)
    requires a.seqNo < 0x1_0000_0000_0000_0000 && b.seqNo < 0x1_0000_0000_0000_0000
    ensures Before(a, b) <==> a.ms * 0x1_0000_0000_0000_0000 + a.seqNo < b.ms * 0x1_0000_0000_0000_0000 + b.seqNo
  {
  }

  predicate Ordered(entries: seq<Entry>) {
    forall i, j :: 0 <= i < j < |entries| ==> Before(entries[i].id, entries[j].id)
  }

  function IdText(id: StreamId): string {
    Decimal(id.ms) + "-" + Decimal(id.seqNo)
  }

  /** The position of the first dash, or the length. */
  function Dash(s: string): (d: nat)
    ensures d <= |s|
  {
    if s == [] || s[0] == '-' then 0 else 1 + Dash(s[1..])
  }

  function ParseId(s: string): Option<StreamId> {
    var d := Dash(s);
    if d < |s| && AllDigits(s[..d]) && AllDigits(s[d + 1..])
    then Some(StreamId(Number(s[..d]), Number(s[d + 1..])))
    else None
  }

  function After(entries: seq<Entry>, id: StreamId): seq<Entry> {
    if entries == [] then []
    else (if Before(id, entries[0].id) then [entries[0]] else []) + After(entries[1..], id)
  }

  function FirstOf(entries: seq<Entry>, count: nat): seq<Entry> {
    if count < |entries| then entries[..count] else entries
  }

  /** `XRANGE topic minimum + COUNT count`; a leading parenthesis excludes the given id. */
  function Range(entries: seq<Entry>, minimum: string, count: nat): Option<seq<Entry>> {
    if minimum == "-" then Some(FirstOf(entries, count))
    else if minimum == [] || minimum[0] != '(' then None
    else
      match ParseId(minimum[1..])
      case None => None
      case Some(id) => Some(FirstOf(After(entries, id), count))
  }

  function EntryValue(e: Entry): Value {
    Array([Data(IdBytes(e.id)), Array(e.fields)])
  }

  function IdBytes(id: StreamId): seq<Byte> {
    IdTextIsAscii(id);
    Ascii(IdText(id))
  }

  lemma IdTextIsAscii(id: StreamId)
    ensures forall i :: 0 <= i < |IdText(id)| ==> IdText(id)[i] < 128 as char
  {
    forall i | 0 <= i < |IdText(id)|
      ensures IdText(id)[i] < 128 as char
    {
      assert IdText(id)[i] == '-' || IsDigit(IdText(id)[i]);
    }
  }

  class Server {
    const entries: seq<Entry>
    const reliable: bool

    /** One request and its reply; an unreliable connection may fail instead. */
    method Xrange(minimum: string, count: nat) returns (r: Result<Value>)
      ensures r.Ok? ==> Range(entries, minimum, count).Some?
      ensures r.Ok? ==> r.value == Array(Values(Range(entries, minimum, count).value))
      ensures r.Err? ==> !reliable || Range(entries, minimum, count).None?
    {
      var failing: bool := *;
      var found := Range(entries, minimum, count);
      if found.None? {
        return Err(ServerError);
      }
      if failing && !reliable {
        return Err(ConnectionFailed);
      }
      return Ok(Array(Values(found.value)));
    }
  }

  function Values(entries: seq<Entry>): (vs: seq<Value>)
    ensures |vs| == |entries|
    ensures forall i :: 0 <= i < |entries| ==> vs[i] == EntryValue(entries[i])
  {
    if entries == [] then [] else [EntryValue(entries[0])] + Values(entries[1..])
  }

  // ---- What the scan makes of one entry.

  datatype Verdict = Malformed | Other | Match

  /** `^[0-9]{1,20}-[0-9]{1,10}$`: fewer digits behind the dash than a stream id may have. */
  predicate IdAccepted(s: string) {
    var d := Dash(s);
    && 1 <= d <= 20 && 1 <= |s| - d - 1 <= 10
    && AllDigits(s[..d]) && AllDigits(s[d + 1..])
  }

  /** The text of ASCII bytes; other bytes cannot be part of a stream id. */
  function TextOf(b: seq<Byte>): Option<string> {
    if exists i :: 0 <= i < |b| && b[i] >= 128 then None
    else Some(seq(|b|, i requires 0 <= i < |b| => b[i] as char))
  }

  const DATA: seq<Byte> := [100, 97, 116, 97]

  /** The values of the fields named `data`; a name that is neither bytes nor null is malformed. */
  function DataFields(fields: seq<Value>): Option<seq<Value>>
    requires |fields| % 2 == 0
  {
    if fields == [] then Some([])
    else if fields[0].Int? || fields[0].Array? then None
    else
      match DataFields(fields[2..])
      case None => None
      case Some(rest) => Some((if fields[0] == Data(DATA) then [fields[1]] else []) + rest)
  }

  /**
   `payloadMatches` stands for: the bytes are a JSON object with the wanted message id whose canonical
   form has the wanted digest.
   */
  function Judge(fields: seq<Value>, payloadMatches: seq<Byte> -> bool): Verdict {
    if |fields| % 2 != 0 then Malformed
    else
      match DataFields(fields)
      case None => Malformed
      case Some(found) =>
        if |found| == 1 && found[0].Data? && payloadMatches(found[0].bytes) then Match else Other
  }

  function VerdictOf(e: Entry, payloadMatches: seq<Byte> -> bool): Verdict {
    if !IdAccepted(IdText(e.id)) then Malformed else Judge(e.fields, payloadMatches)
  }

  /** The ids of the matching entries among the first `k`, in order. */
  function Matching(entries: seq<Entry>, k: nat, payloadMatches: seq<Byte> -> bool): seq<string>
    requires k <= |entries|
  {
    if k == 0 then []
    else
      Matching(entries, k - 1, payloadMatches)
      + (if VerdictOf(entries[k - 1], payloadMatches) == Match then [IdText(entries[k - 1].id)] else [])
  }

  lemma {:induction false} MatchingGrows(entries: seq<Entry>, k: nat, n: nat, payloadMatches: seq<Byte> -> bool)
    requires k <= n <= |entries|
    ensures |Matching(entries, k, payloadMatches)| <= |Matching(entries, n, payloadMatches)|
    decreases n
  {
    if k < n {
      MatchingGrows(entries, k, n - 1, payloadMatches);
    }
  }

  // ---- What the judgement of an entry means.

  /** The name at an even position is neither bytes nor null. */
  predicate NotAName(fields: seq<Value>, i: nat)
    requires i < |fields|
  {
    i % 2 == 0 && (fields[i].Int? || fields[i].Array?)
  }

  lemma {:induction false} NamesDecide(fields: seq<Value>)
    requires |fields| % 2 == 0
    ensures DataFields(fields).Some? <==> forall i :: 0 <= i < |fields| ==> !NotAName(fields, i)
  {
    if fields != [] {
      var rest := fields[2..];
      NamesDecide(rest);
      forall i | 0 <= i < |rest| ensures NotAName(rest, i) <==> NotAName(fields, i + 2) {
      }
      assert forall i :: 2 <= i < |fields| ==> NotAName(fields, i) == NotAName(rest, i - 2);
      assert NotAName(fields, 0) <==> fields[0].Int? || fields[0].Array?;
    }
  }

  /** The field with its name at position `i` is called `data`. */
  predicate IsData(fields: seq<Value>, i: nat)
    requires i < |fields|
  {
    i % 2 == 0 && fields[i] == Data([100, 97, 116, 97])
  }

  predicate OnlyData(fields: seq<Value>, i: nat)
    requires i < |fields|
  {
    IsData(fields, i) && forall j :: 0 <= j < |fields| && j != i ==> !IsData(fields, j)
  }

  predicate DataAt(fields: seq<Value>, i: nat, v: Value)
    requires i < |fields|
  {
    i + 1 < |fields| && OnlyData(fields, i) && fields[i + 1] == v
  }

  lemma NextField(fields: seq<Value>, i: nat)
    requires |fields| >= 2 && i < |fields[2..]|
    ensures IsData(fields[2..], i) <==> IsData(fields, i + 2)
  {
  }

  lemma {:induction false} NoDataField(fields: seq<Value>)
    requires |fields| % 2 == 0 && DataFields(fields).Some?
    ensures DataFields(fields).value == [] <==> forall i :: 0 <= i < |fields| ==> !IsData(fields, i)
  {
    if fields != [] {
      var rest := fields[2..];
      NoDataField(rest);
      forall i | 2 <= i < |fields| ensures IsData(fields, i) <==> IsData(rest, i - 2) {
        NextField(fields, i - 2);
      }
      assert IsData(fields, 0) <==> fields[0] == Data(DATA);
      forall i | 0 <= i < |rest| ensures IsData(rest, i) <==> IsData(fields, i + 2) {
        NextField(fields, i);
      }
    }
  }

  lemma {:induction false} OneDataField(fields: seq<Value>, v: Value)
    requires |fields| % 2 == 0 && DataFields(fields).Some?
    ensures DataFields(fields).value == [v]
        <==> exists i :: 0 <= i < |fields| && DataAt(fields, i, v)
  {
    if fields != [] {
      var rest := fields[2..];
      if fields[0] == Data(DATA) {
        NoDataField(rest);
        FirstIsData(fields);
        assert DataFields(fields).value == [fields[1]] + DataFields(rest).value;
        assert IsData(fields, 0);
        assert forall i :: 0 <= i < |fields| && OnlyData(fields, i) ==> i == 0;
        if DataFields(fields).value == [v] {
          assert |DataFields(rest).value| == 0 && fields[1] == [v][0];
          assert DataAt(fields, 0, v);
        }
        if i :| 0 <= i < |fields| && DataAt(fields, i, v) {
          assert i == 0 && DataFields(rest).value == [];
        }
      } else {
        OneDataField(rest, v);
        forall i | 0 <= i < |rest| ensures OnlyData(rest, i) <==> OnlyData(fields, i + 2) {
          OnlyDataMoves(fields, i);
        }
        if i :| 0 <= i < |fields| && DataAt(fields, i, v) {
          assert i >= 2 && DataAt(rest, i - 2, v);
        }
        if i :| 0 <= i < |rest| && DataAt(rest, i, v) {
          assert DataAt(fields, i + 2, v);
        }
      }
    }
  }

  lemma FirstIsData(fields: seq<Value>)
    requires |fields| >= 2 && fields[0] == Data(DATA)
    ensures OnlyData(fields, 0) <==> forall i :: 0 <= i < |fields[2..]| ==> !IsData(fields[2..], i)
  {
    forall i | 0 <= i < |fields[2..]| ensures IsData(fields[2..], i) <==> IsData(fields, i + 2) {
      NextField(fields, i);
    }
    assert forall j :: 2 <= j < |fields| ==> IsData(fields, j) == IsData(fields[2..], j - 2);
  }

  lemma OnlyDataMoves(fields: seq<Value>, i: nat)
    requires |fields| >= 2 && fields[0] != Data(DATA) && i < |fields[2..]|
    ensures OnlyData(fields[2..], i) <==> OnlyData(fields, i + 2)
  {
    var rest := fields[2..];
    forall j | 0 <= j < |rest| ensures IsData(rest, j) <==> IsData(fields, j + 2) {
      NextField(fields, j);
    }
    assert forall j :: 2 <= j < |fields| ==> IsData(fields, j) == IsData(rest, j - 2);
  }

  /**
   The fields of an entry match exactly when one of them, and only one, is called `data` and its value is bytes
   with the wanted payload. They are malformed exactly when they do not pair up or a name is no text.
   */
  lemma JudgeMeans(fields: seq<Value>, payloadMatches: seq<Byte> -> bool)
    ensures Judge(fields, payloadMatches) == Malformed
        <==> |fields| % 2 != 0 || exists i :: 0 <= i < |fields| && i % 2 == 0 && (fields[i].Int? || fields[i].Array?)
    ensures Judge(fields, payloadMatches) == Match
        <==> && |fields| % 2 == 0
             && (forall i :: 0 <= i < |fields| && i % 2 == 0 ==> fields[i].Data? || fields[i].Null?)
             && exists i :: 0 <= i < |fields| && PlainMatchAt(fields, i, payloadMatches)
  {
    if |fields| % 2 == 0 {
      NamesDecide(fields);
      forall i | 0 <= i < |fields|
        ensures NotAName(fields, i) <==> i % 2 == 0 && (fields[i].Int? || fields[i].Array?) {
      }
      if DataFields(fields).Some? {
        MatchMeans(fields, payloadMatches);
        forall i | 0 <= i < |fields| ensures MatchAt(fields, i, payloadMatches) <==> PlainMatchAt(fields, i, payloadMatches) {
          MatchAtIsPlain(fields, i, payloadMatches);
        }
      }
    }
  }

  predicate MatchAt(fields: seq<Value>, i: nat, payloadMatches: seq<Byte> -> bool)
    requires i < |fields|
  {
    i + 1 < |fields| && OnlyData(fields, i) && fields[i + 1].Data? && payloadMatches(fields[i + 1].bytes)
  }

  predicate PlainMatchAt(fields: seq<Value>, i: nat, payloadMatches: seq<Byte> -> bool)
    requires i < |fields|
  {
    && i + 1 < |fields| && i % 2 == 0 && fields[i] == Data([100, 97, 116, 97])
    && fields[i + 1].Data? && payloadMatches(fields[i + 1].bytes)
    && forall j :: 0 <= j < |fields| && j % 2 == 0 && j != i ==> fields[j] != Data([100, 97, 116, 97])
  }

  lemma MatchAtIsPlain(fields: seq<Value>, i: nat, payloadMatches: seq<Byte> -> bool)
    requires i < |fields|
    ensures MatchAt(fields, i, payloadMatches) <==> PlainMatchAt(fields, i, payloadMatches)
  {
    if MatchAt(fields, i, payloadMatches) {
      forall j | 0 <= j < |fields| && j % 2 == 0 && j != i ensures fields[j] != Data([100, 97, 116, 97]) {
        assert !IsData(fields, j);
      }
    }
  }

  lemma MatchMeans(fields: seq<Value>, payloadMatches: seq<Byte> -> bool)
    requires |fields| % 2 == 0 && DataFields(fields).Some?
    ensures Judge(fields, payloadMatches) == Match <==> exists i :: 0 <= i < |fields| && MatchAt(fields, i, payloadMatches)
  {
    var found := DataFields(fields).value;
    if Judge(fields, payloadMatches) == Match {
      OneDataField(fields, found[0]);
      var i :| 0 <= i < |fields| && DataAt(fields, i, found[0]);
      assert MatchAt(fields, i, payloadMatches);
    }
    if i :| 0 <= i < |fields| && MatchAt(fields, i, payloadMatches) {
      OneDataField(fields, fields[i + 1]);
      assert DataAt(fields, i, fields[i + 1]);
    }
  }

  /** A dash between two texts of digits. */
  lemma DashBetween(a: string, b: string)
    requires AllDigits(a) && AllDigits(b)
    ensures IdAccepted(a + "-" + b) <==> |a| <= 20 && |b| <= 10
  {
    var s := a + "-" + b;
    DashFound(a, b);
    assert s[..|a|] == a && s[|a| + 1..] == b;
  }

  /** What is accepted as an id: at most twenty digits, a dash, at most ten digits. */
  lemma IdAcceptedMeans(s: string)
    ensures IdAccepted(s) <==>
              exists a, b :: AllDigits(a) && AllDigits(b) && |a| <= 20 && |b| <= 10 && s == a + "-" + b
  {
    if IdAccepted(s) {
      var d := Dash(s);
      AtDash(s);
      assert s == s[..d] + "-" + s[d + 1..];
    }
    if a, b :| AllDigits(a) && AllDigits(b) && |a| <= 20 && |b| <= 10 && s == a + "-" + b {
      DashBetween(a, b);
    }
  }

  lemma {:induction false} AtDash(s: string)
    requires Dash(s) < |s|
    ensures s[Dash(s)] == '-'
  {
    if s[0] != '-' {
      AtDash(s[1..]);
    }
  }

  /**
   The ids of a stream that are accepted: 64-bit sequence numbers of eleven digits or more are not, so the scan
   of a stream with such an id fails.
   */
  lemma AcceptedIds(id: StreamId)
    ensures IdAccepted(IdText(id)) <==> id.ms < 100_000_000_000_000_000_000 && id.seqNo < 10_000_000_000
  {
    TwentyDigits();
    assert Ten(10) == 10_000_000_000 by {
      assert Ten(5) == 100_000;
    }
    DashBetween(Decimal(id.ms), Decimal(id.seqNo));
    DecimalFits(id.ms, 20);
    DecimalFits(id.seqNo, 10);
  }

  // ---- The simple scan: look at the first `limit` entries at once.

  datatype State = PositiveAccepted | Conflict | InconclusiveZeroMatch | InconclusiveScanLimit

  function Least(a: nat, b: nat): nat {
    if a < b then a else b
  }

  function Classify(entries: seq<Entry>, limit: nat, payloadMatches: seq<Byte> -> bool): State {
    var matches := |Matching(entries, Least(|entries|, limit), payloadMatches)|;
    if matches > 1 then Conflict
    else if |entries| >= limit then InconclusiveScanLimit
    else if matches == 1 then PositiveAccepted
    else InconclusiveZeroMatch
  }

  /** The first `limit` entries are well formed. */
  predicate WellFormed(entries: seq<Entry>, limit: nat, payloadMatches: seq<Byte> -> bool) {
    forall k :: 0 <= k < |entries| && k < limit ==> VerdictOf(entries[k], payloadMatches) != Malformed
  }

  // ---- Paging.

  lemma {:induction false} DashFound(digits: string, rest: string)
    requires forall i :: 0 <= i < |digits| ==> IsDigit(digits[i])
    ensures Dash(digits + "-" + rest) == |digits|
  {
    var s := digits + "-" + rest;
    if digits != [] {
      DashFound(digits[1..], rest);
      assert s[1..] == digits[1..] + "-" + rest;
    }
  }

  /** The cursor text names the entry it was taken from. */
  lemma ParseIdText(id: StreamId)
    ensures ParseId(IdText(id)) == Some(id)
  {
    var s, a, b := IdText(id), Decimal(id.ms), Decimal(id.seqNo);
    DashFound(a, b);
    NumberOfDecimal(id.ms);
    NumberOfDecimal(id.seqNo);
    assert s[..|a|] == a && s[|a| + 1..] == b;
  }

  lemma {:induction false} AfterAll(entries: seq<Entry>, id: StreamId)
    requires forall e :: e in entries ==> Before(id, e.id)
    ensures After(entries, id) == entries
  {
    if entries != [] {
      AfterAll(entries[1..], id);
    }
  }

  /** On an ordered stream the entries after the i-th are exactly the following ones. */
  lemma {:induction false} AfterEntry(entries: seq<Entry>, i: nat)
    requires Ordered(entries) && i < |entries|
    ensures After(entries, entries[i].id) == entries[i + 1..]
  {
    if i == 0 {
      AfterAll(entries[1..], entries[0].id);
    } else {
      AfterEntry(entries[1..], i - 1);
      assert entries[1..][i..] == entries[i + 1..];
    }
  }

  function Cursor(entries: seq<Entry>, i: nat): string
    requires i <= |entries|
  {
    if i == 0 then "-" else IdText(entries[i - 1].id)
  }

  /** A page that starts behind the cursor is the next run of entries: none skipped, none repeated. */
  lemma NextPage(entries: seq<Entry>, i: nat, count: nat)
    requires Ordered(entries) && i <= |entries|
    ensures var cursor := Cursor(entries, i);
            Range(entries, if cursor == "-" then cursor else "(" + cursor, count)
            == Some(FirstOf(entries[i..], count))
  {
    if i == 0 {
      assert entries[0..] == entries;
    } else {
      var text := IdText(entries[i - 1].id);
      assert IsDigit(text[0]);
      assert ("(" + text)[1..] == text;
      ParseIdText(entries[i - 1].id);
      AfterEntry(entries, i - 1);
    }
  }

  // ---- The scan in place.

  datatype Scan = Scan(state: State, streamIds: seq<string>, entriesScanned: nat, complete: bool)

  /** Reads one entry: its id text and whether it matches. */
  method ReadEntry(v: Value, payloadMatches: seq<Byte> -> bool) returns (r: Result<(string, bool)>)
    ensures forall e :: v == EntryValue(e) ==>
              match VerdictOf(e, payloadMatches)
              case Malformed => r.Err?
              case Other => r == Ok((IdText(e.id), false))
              case Match => r == Ok((IdText(e.id), true))
  {
    if !v.Array? || |v.items| != 2 || !v.items[0].Data? {
      return Err(TypeUnsupported);
    }
    var id := TextOf(v.items[0].bytes);
    forall e | v == EntryValue(e)
      ensures id == Some(IdText(e.id))
    {
      assert id.value == IdText(e.id);
    }
    if id.None? || !IdAccepted(id.value) {
      return Err(TypeUnsupported);
    }
    if !v.items[1].Array? {
      return Err(TypeUnsupported);
    }
    match Judge(v.items[1].items, payloadMatches)
    case Malformed => return Err(TypeUnsupported);
    case Other => return Ok((id.value, false));
    case Match => return Ok((id.value, true));
  }

  /** These are the values of the entries from `start` on. */
  predicate Shows(values: seq<Value>, entries: seq<Entry>, start: nat) {
    start + |values| <= |entries| && forall k :: 0 <= k < |values| ==> values[k] == EntryValue(entries[start + k])
  }

  lemma ShowsMore(values: seq<Value>, more: seq<Value>, entries: seq<Entry>, start: nat)
    requires Shows(values, entries, start) && Shows(more, entries, start + |values|)
    ensures Shows(values + more, entries, start)
  {
  }

  /** What the scan has found when it has looked at the first `k` entries. */
  predicate Found(matches: seq<string>, cursor: string, entries: seq<Entry>, k: nat, payloadMatches: seq<Byte> -> bool)
    requires k <= |entries|
  {
    matches == Matching(entries, k, payloadMatches) && cursor == Cursor(entries, k)
  }

  lemma MalformedStays(entries: seq<Entry>, k: nat, n: nat, payloadMatches: seq<Byte> -> bool)
    requires k <= n && !WellFormed(entries, k, payloadMatches)
    ensures !WellFormed(entries, n, payloadMatches)
  {
  }

  /** The entries of one page, one after the other; `visited` collects what was looked at. */
  method ReadPage(reply: seq<Value>, payloadMatches: seq<Byte> -> bool, matches: seq<string>, cursor: string,
                  ghost entries: seq<Entry>, ghost start: nat)
    returns (r: Result<(seq<string>, string)>, ghost visited: seq<Value>)
    requires Shows(reply, entries, start) && Found(matches, cursor, entries, start, payloadMatches)
    ensures Shows(visited, entries, start) && |visited| <= |reply|
    ensures r.Ok? ==> |visited| == |reply| && Found(r.value.0, r.value.1, entries, start + |reply|, payloadMatches)
    ensures r.Err? ==> !WellFormed(entries, start + |reply|, payloadMatches)
  {
    var found, last := matches, cursor;
    visited := [];
    for i := 0 to |reply|
      invariant |visited| == i && Shows(visited, entries, start) && Found(found, last, entries, start + i, payloadMatches)
    {
      var visit := VisitEntry(reply[i], payloadMatches, found, entries, start + i);
      ShowsMore(visited, [reply[i]], entries, start);
      visited := visited + [reply[i]];
      if visit.Err? {
        MalformedStays(entries, start + i + 1, start + |reply|, payloadMatches);
        return Err(visit.error), visited;
      }
      found, last := visit.value.0, visit.value.1;
    }
    return Ok((found, last)), visited;
  }

  /** One turn of that loop, at the `k`-th entry. */
  method VisitEntry(v: Value, payloadMatches: seq<Byte> -> bool, matches: seq<string>, ghost entries: seq<Entry>,
                    ghost k: nat)
    returns (r: Result<(seq<string>, string)>)
    requires k < |entries| && v == EntryValue(entries[k]) && matches == Matching(entries, k, payloadMatches)
    ensures r.Ok? ==> Found(r.value.0, r.value.1, entries, k + 1, payloadMatches)
    ensures r.Err? ==> !WellFormed(entries, k + 1, payloadMatches)
  {
    var entry := ReadEntry(v, payloadMatches);
    if entry.Err? {
      return Err(entry.error);
    }
    return Ok((matches + (if entry.value.1 then [entry.value.0] else []), entry.value.0));
  }

  /** One request behind the cursor: its reply lists the next entries. */
  method Ask(server: Server, count: nat, cursor: string, ghost scanned: nat) returns (r: Result<seq<Value>>)
    requires Ordered(server.entries) && scanned <= |server.entries| && cursor == Cursor(server.entries, scanned)
    ensures r.Ok? ==> |r.value| == PageSize(server.entries, scanned, count) && Shows(r.value, server.entries, scanned)
    ensures r.Err? ==> !server.reliable
  {
    NextPage(server.entries, scanned, count);
    var reply := server.Xrange(if cursor == "-" then cursor else "(" + cursor, count);
    if reply.Err? {
      return Err(reply.error);
    }
    return Ok(reply.value.items);
  }

  /** One request behind the cursor and the entries of its reply. */
  method ScanPage(server: Server, count: nat, payloadMatches: seq<Byte> -> bool,
                  matches: seq<string>, cursor: string, ghost scanned: nat)
    returns (r: Result<(seq<string>, string, nat)>, ghost visited: seq<Value>)
    requires Ordered(server.entries) && scanned <= |server.entries|
    requires Found(matches, cursor, server.entries, scanned, payloadMatches)
    ensures r.Ok? ==>
              && r.value.2 == |visited| == PageSize(server.entries, scanned, count)
              && Found(r.value.0, r.value.1, server.entries, scanned + r.value.2, payloadMatches)
    ensures Shows(visited, server.entries, scanned) && |visited| <= count
    ensures r.Err? && server.reliable ==> !WellFormed(server.entries, scanned + count, payloadMatches)
  {
    var reply := Ask(server, count, cursor, scanned);
    if reply.Err? {
      return Err(reply.error), [];
    }
    var read: Result<(seq<string>, string)>;
    read, visited := ReadPage(reply.value, payloadMatches, matches, cursor, server.entries, scanned);
    if read.Err? {
      return Err(read.error), visited;
    }
    return Ok((read.value.0, read.value.1, |reply.value|)), visited;
  }

  function PageSize(entries: seq<Entry>, scanned: nat, count: nat): (n: nat)
    requires scanned <= |entries|
    ensures scanned + n <= |entries|
  {
    if count < |entries| - scanned then count else |entries| - scanned
  }

  /** The page loop: matches so far, how far it got, and whether the stream ended. */
  method ScanPages(server: Server, limit: nat, pageSize: nat, payloadMatches: seq<Byte> -> bool)
    returns (r: Result<(seq<string>, nat, bool)>, ghost visited: seq<Value>)
    requires Ordered(server.entries) && limit > 0 && pageSize > 0
    ensures Shows(visited, server.entries, 0) && |visited| <= limit
    ensures r.Ok? ==>
              var (matches, scanned, complete) := r.value;
              && scanned == |visited| <= limit
              && matches == Matching(server.entries, scanned, payloadMatches)
              && (complete ==> scanned == |server.entries| < limit && |matches| <= 1)
              && (!complete && |matches| <= 1 ==> scanned == limit)
    ensures r.Err? && server.reliable ==> !WellFormed(server.entries, limit, payloadMatches)
  {
    ghost var all := server.entries;
    var matches: seq<string> := [];
    var scanned, cursor := 0, "-";
    visited := [];
    while scanned < limit
      invariant 0 <= scanned == |visited| <= limit && Shows(visited, all, 0)
      invariant |matches| <= 1 && Found(matches, cursor, all, scanned, payloadMatches)
      decreases limit - scanned
    {
      var count := if pageSize < limit - scanned then pageSize else limit - scanned;
      ghost var page: seq<Value>;
      var read: Result<(seq<string>, string, nat)>;
      read, page := ScanPage(server, count, payloadMatches, matches, cursor, scanned);
      ShowsMore(visited, page, all, 0);
      visited := visited + page;
      if read.Err? {
        return Err(read.error), visited;
      }
      var size := read.value.2;
      if size == 0 {
        return Ok((matches, scanned, true)), visited;
      }
      matches, cursor := read.value.0, read.value.1;
      scanned := scanned + size;
      if |matches| > 1 {
        return Ok((matches, scanned, false)), visited;
      }
      if size < count {
        return Ok((matches, scanned, true)), visited;
      }
    }
    return Ok((matches, scanned, false)), visited;
  }

  /**
   The paged scan. `visited` collects the entries of the replies as the loop looks at them; they are the first
   entries of the stream, each once and in order, so none is visited twice and none is skipped.
   */
  method InspectStream(server: Server, limit: nat, pageSize: nat, payloadMatches: seq<Byte> -> bool)
    returns (r: Result<Scan>, ghost visited: seq<Value>)
    requires Ordered(server.entries) && limit > 0 && pageSize > 0
    ensures Shows(visited, server.entries, 0) && |visited| <= limit
    ensures r.Ok? ==> r.value.entriesScanned == |visited|
    ensures r.Ok? ==> r.value.streamIds == Matching(server.entries, |visited|, payloadMatches)
    ensures r.Ok? ==> r.value.state == Classify(server.entries, limit, payloadMatches)
    ensures r.Ok? && r.value.state != Conflict ==> |visited| == Least(|server.entries|, limit)
    ensures r.Ok? && r.value.complete ==> |visited| == |server.entries|
    ensures r.Err? && server.reliable ==> !WellFormed(server.entries, limit, payloadMatches)
  {
    var scan: Result<(seq<string>, nat, bool)>;
    scan, visited := ScanPages(server, limit, pageSize, payloadMatches);
    if scan.Err? {
      return Err(scan.error), visited;
    }
    var (matches, scanned, complete) := scan.value;
    var state :=
      if |matches| > 1 then Conflict
      else if complete && |matches| == 1 then PositiveAccepted
      else if complete then InconclusiveZeroMatch
      else InconclusiveScanLimit;
    ScanDecides(server.entries, limit, scanned, payloadMatches);
    r := Ok(Scan(state, matches, scanned, complete));
  }

  /** The scan with the bounds of the observer. */
  method InspectTopic(server: Server, payloadMatches: seq<Byte> -> bool)
    returns (r: Result<Scan>, ghost visited: seq<Value>)
    requires Ordered(server.entries)
    ensures Shows(visited, server.entries, 0) && |visited| <= MAX_XRANGE_ENTRIES
    ensures r.Ok? ==> r.value.state == Classify(server.entries, MAX_XRANGE_ENTRIES, payloadMatches)
    ensures r.Err? && server.reliable ==> !WellFormed(server.entries, MAX_XRANGE_ENTRIES, payloadMatches)
  {
    r, visited := InspectStream(server, MAX_XRANGE_ENTRIES, XRANGE_PAGE_SIZE, payloadMatches);
  }

  /** Two matches settle the answer wherever the scan stops. */
  lemma ScanDecides(entries: seq<Entry>, limit: nat, scanned: nat, payloadMatches: seq<Byte> -> bool)
    requires scanned <= limit && scanned <= |entries|
    ensures |Matching(entries, scanned, payloadMatches)| > 1 ==> Classify(entries, limit, payloadMatches) == Conflict
  {
    MatchingGrows(entries, scanned, Least(|entries|, limit), payloadMatches);
  }
}
