/**
 The language the RESP2 parser reads, written down without the parser: the numerals `int` takes, the lines, and
 the wire forms of a value. The parser returns a value exactly for its wire forms, and each refusal has its cause.
 */
module RespGrammar {
  import opened Bytes
  import opened Wrappers
  import opened Resp

  // ---- The lenient integers.

  predicate Spaces(s: seq<Byte>) {
    forall i :: 0 <= i < |s| ==> s[i] == 32 || 9 <= s[i] <= 13
  }

  /** Digits, with single underscores between them. */
  predicate DigitText(s: seq<Byte>) {
    && s != [] && 48 <= s[0] <= 57 && 48 <= s[|s| - 1] <= 57
    && (forall i :: 0 <= i < |s| ==> 48 <= s[i] <= 57 || s[i] == 95)
    && forall i :: 0 < i < |s| ==> s[i - 1] != 95 || s[i] != 95
  }

  /** The number its digits stand for. */
  function DigitSum(s: seq<Byte>): int {
    if s == [] then 0
    else if s[|s| - 1] == 95 then DigitSum(s[..|s| - 1])
    else DigitSum(s[..|s| - 1]) * 10 + (s[|s| - 1] as int - 48)
  }

  lemma {:induction false} DigitsMean(s: seq<Byte>)
    ensures Digits(s).Some? <==> DigitText(s)
    ensures Digits(s).Some? ==> Digits(s).value == DigitSum(s)
    decreases |s|
  {
    if s != [] && IsDigitByte(s[|s| - 1]) {
      if |s| == 1 {
        assert s[..0] == [];
      } else if s[|s| - 2] == 95 {
        DigitsMean(s[..|s| - 2]);
        assert s[..|s| - 1][..|s| - 2] == s[..|s| - 2];
        LongerDigits(s, |s| - 2);
      } else {
        DigitsMean(s[..|s| - 1]);
        LongerDigits(s, |s| - 1);
      }
    }
  }

  /** One more digit, perhaps behind an underscore. */
  lemma LongerDigits(s: seq<Byte>, k: nat)
    requires |s| > 1 && IsDigitByte(s[|s| - 1])
    requires (k == |s| - 1 && s[|s| - 2] != 95) || (k == |s| - 2 && s[|s| - 2] == 95)
    ensures DigitText(s) <==> DigitText(s[..k])
  {
    var t := s[..k];
    assert forall i :: 0 <= i < k ==> s[i] == t[i];
    if DigitText(s) && k > 0 {
      var next := s[k];
      assert s[k - 1] != 95;
    }
  }

  /** A sign, or none. */
  predicate Signed(s: seq<Byte>, body: seq<Byte>, n: int) {
    || (s == body && n == DigitSum(body))
    || (s == [43] + body && n == DigitSum(body))
    || (s == [45] + body && n == -DigitSum(body))
  }

  /** White space around a sign and digits. */
  predicate NumeralOf(line: seq<Byte>, n: int, before: seq<Byte>, s: seq<Byte>, body: seq<Byte>, after: seq<Byte>) {
    line == before + s + after && Spaces(before) && Spaces(after) && DigitText(body) && Signed(s, body, n)
  }

  ghost predicate Numeral(line: seq<Byte>, n: int) {
    exists before, s, body, after :: NumeralOf(line, n, before, s, body, after)
  }

  lemma {:induction false} StrippedLeft(s: seq<Byte>) returns (before: seq<Byte>)
    ensures s == before + StripLeft(s) && Spaces(before)
  {
    before := [];
    if s != [] && IsSpace(s[0]) {
      before := StrippedLeft(s[1..]);
      before := [s[0]] + before;
    }
  }

  lemma {:induction false} StrippedRight(s: seq<Byte>) returns (after: seq<Byte>)
    ensures s == StripRight(s) + after && Spaces(after)
  {
    after := [];
    if s != [] && IsSpace(s[|s| - 1]) {
      after := StrippedRight(s[..|s| - 1]);
      after := after + [s[|s| - 1]];
    }
  }

  lemma Between(before: seq<Byte>, s: seq<Byte>, after: seq<Byte>)
    ensures before + (s + after) == before + s + after
  {
  }

  lemma {:induction false} StripBefore(before: seq<Byte>, s: seq<Byte>)
    requires Spaces(before) && s != [] && !IsSpace(s[0])
    ensures StripLeft(before + s) == s
  {
    if before != [] {
      assert (before + s)[1..] == before[1..] + s;
      StripBefore(before[1..], s);
    } else {
      assert before + s == s;
    }
  }

  lemma {:induction false} StripBehind(s: seq<Byte>, after: seq<Byte>)
    requires Spaces(after) && s != [] && !IsSpace(s[|s| - 1])
    ensures StripRight(s + after) == s
  {
    if after != [] {
      var front := after[..|after| - 1];
      assert (s + after)[..|s + after| - 1] == s + front;
      StripBehind(s, front);
    } else {
      assert s + after == s;
    }
  }

  /** Stripping finds what stands between white space. */
  lemma StripBetween(before: seq<Byte>, s: seq<Byte>, after: seq<Byte>)
    requires Spaces(before) && Spaces(after) && s != [] && !IsSpace(s[0]) && !IsSpace(s[|s| - 1])
    ensures StripRight(StripLeft(before + s + after)) == s
  {
    assert before + s + after == before + (s + after);
    StripBefore(before, s + after);
    StripBehind(s, after);
  }

  /** `int` of these bytes: it reads exactly the numerals. */
  lemma PythonIntMeans(line: seq<Byte>, n: int)
    ensures PythonInt(line) == Some(n) <==> Numeral(line, n)
  {
    if PythonInt(line) == Some(n) {
      ReadIsNumeral(line, n);
    }
    if before, s, body, after :| NumeralOf(line, n, before, s, body, after) {
      SignedIsRead(s, body, n);
      StripBetween(before, s, after);
    }
  }

  lemma ReadIsNumeral(line: seq<Byte>, n: int)
    requires PythonInt(line) == Some(n)
    ensures Numeral(line, n)
  {
    var left := StripLeft(line);
    var s := StripRight(left);
    var before := StrippedLeft(line);
    var after := StrippedRight(left);
    var body := ReadIsSigned(s, n);
    Between(before, s, after);
    assert NumeralOf(line, n, before, s, body, after);
  }

  lemma ReadIsSigned(s: seq<Byte>, n: int) returns (body: seq<Byte>)
    requires s != [] && s[0] == 45 ==> Digits(s[1..]).Some? && n == -(Digits(s[1..]).value as int)
    requires !(s != [] && s[0] == 45) ==> Digits(if s != [] && s[0] == 43 then s[1..] else s) == Some(n)
    ensures DigitText(body) && Signed(s, body, n)
  {
    body := if s != [] && (s[0] == 45 || s[0] == 43) then s[1..] else s;
    DigitsMean(body);
    assert s == body || s == [s[0]] + body;
  }

  lemma SignedIsRead(s: seq<Byte>, body: seq<Byte>, n: int)
    requires DigitText(body) && Signed(s, body, n)
    ensures s != [] && !IsSpace(s[0]) && !IsSpace(s[|s| - 1])
    ensures (if s[0] == 45 then Digits(s[1..]).Some? && n == -(Digits(s[1..]).value as int)
             else Digits(if s[0] == 43 then s[1..] else s) == Some(n))
  {
    DigitsMean(body);
    if s != body {
      assert s[1..] == body;
    }
  }

  // ---- Lines.

  /** A line: no CR LF inside. */
  predicate IsLine(line: seq<Byte>) {
    forall i :: 0 < i < |line| ==> !(line[i - 1] == 13 && line[i] == 10)
  }

  lemma {:induction false} LineIsRead(line: seq<Byte>, rest: seq<Byte>)
    requires IsLine(line)
    ensures ParseLine(line + [13, 10] + rest) == Done(line, rest)
  {
    var input := line + [13, 10] + rest;
    if line == [] {
      assert input[..2] == [13, 10] && input[2..] == rest;
    } else {
      var tail := line[1..];
      assert forall i :: 0 < i < |tail| ==> tail[i - 1] == line[i] && tail[i] == line[i + 1];
      LineIsRead(tail, rest);
      assert input[1..] == tail + [13, 10] + rest;
      assert |line| > 1 ==> input[1] == line[1];
      assert input[..2] != [13, 10] by {
        assert input[..2][0] == line[0] && input[..2][1] == input[1];
      }
      assert [line[0]] + tail == line;
    }
  }

  lemma {:induction false} ReadIsLine(input: seq<Byte>)
    requires ParseLine(input).Done?
    ensures var r := ParseLine(input); IsLine(r.value) && input == r.value + [13, 10] + r.rest
  {
    var r := ParseLine(input);
    if input[..2] != CRLF {
      var tail := ParseLine(input[1..]);
      ReadIsLine(input[1..]);
      LineGrows(input, tail.value, tail.rest);
    }
  }

  lemma LineGrows(input: seq<Byte>, line: seq<Byte>, rest: seq<Byte>)
    requires |input| >= 2 && input[..2] != CRLF && IsLine(line) && input[1..] == line + [13, 10] + rest
    ensures IsLine([input[0]] + line) && input == [input[0]] + line + [13, 10] + rest
  {
    var longer := [input[0]] + line;
    assert input == [input[0]] + input[1..];
    forall i | 0 < i < |longer| ensures !(longer[i - 1] == 13 && longer[i] == 10) {
      if i == 1 {
        assert input[1] == line[0];
        assert input[..2] == [input[0], input[1]];
      } else {
        assert longer[i - 1] == line[i - 2] && longer[i] == line[i - 1];
      }
    }
  }

  // ---- The wire forms of a value.

  /** A header line: the type byte, a numeral, the end of the line. */
  predicate Head(w: seq<Byte>, kind: Byte, line: seq<Byte>) {
    IsLine(line) && w == [kind] + line + [13, 10]
  }

  ghost predicate HeadOf(w: seq<Byte>, kind: Byte, n: int) {
    exists line :: Head(w, kind, line) && Numeral(line, n)
  }

  /** A bulk string of at most `maximum` bytes behind its length. */
  ghost predicate BulkOf(w: seq<Byte>, b: seq<Byte>, maximum: nat) {
    |b| <= maximum && exists head :: HeadOf(head, 36, |b|) && w == head + b + [13, 10]
  }

  /** `w` is a wire form of `v` at this depth, within the limits of the reader. */
  ghost predicate Wire(maximum: nat, depth: nat, w: seq<Byte>, v: Value)
    decreases v, 1
  {
    && depth <= 8
    && match v
       case Int(n) => HeadOf(w, 58, n)
       case Data(b) => Head(w, 43, b) || BulkOf(w, b, maximum)
       case Null => HeadOf(w, 36, -1) || HeadOf(w, 42, -1)
       case Array(items) =>
         |items| <= 960_016
         && exists head, body :: HeadOf(head, 42, |items|) && WireItems(maximum, depth + 1, body, items) && w == head + body
  }

  ghost predicate WireItems(maximum: nat, depth: nat, w: seq<Byte>, items: seq<Value>)
    decreases items, 0
  {
    if items == [] then w == []
    else exists a, b :: Wire(maximum, depth, a, items[0]) && WireItems(maximum, depth, b, items[1..]) && w == a + b
  }

  lemma HeadIsRead(head: seq<Byte>, kind: Byte, n: int, rest: seq<Byte>)
    requires HeadOf(head, kind, n)
    ensures (head + rest)[0] == kind && ParseInt((head + rest)[1..]) == Done(n, rest)
  {
    var line :| Head(head, kind, line) && Numeral(line, n);
    assert (head + rest)[1..] == line + [13, 10] + rest;
    LineIsRead(line, rest);
    PythonIntMeans(line, n);
  }

  lemma ReadIsHead(input: seq<Byte>) returns (head: seq<Byte>)
    requires input != [] && ParseInt(input[1..]).Done?
    ensures HeadOf(head, input[0], ParseInt(input[1..]).value) && input == head + ParseInt(input[1..]).rest
  {
    var r := ParseLine(input[1..]);
    ReadIsLine(input[1..]);
    PythonIntMeans(r.value, ParseInt(input[1..]).value);
    head := [input[0]] + r.value + [13, 10];
    assert Head(head, input[0], r.value);
    assert input == [input[0]] + input[1..];
  }

  // ---- A wire form is parsed.

  lemma BulkIsParsed(maximum: nat, depth: nat, w: seq<Byte>, b: seq<Byte>, rest: seq<Byte>)
    requires depth <= MAX_DEPTH && BulkOf(w, b, maximum)
    ensures ParseValue(maximum, depth, w + rest) == Done(Data(b), rest)
  {
    var head :| HeadOf(head, 36, |b|) && w == head + b + [13, 10];
    var tail := b + [13, 10] + rest;
    assert w + rest == head + tail;
    HeadIsRead(head, 36, |b|, tail);
    assert tail[..|b|] == b && tail[|b|..|b| + 2] == [13, 10] && tail[|b| + 2..] == rest;
  }

  lemma TypeByte(kind: Byte, line: seq<Byte>, rest: seq<Byte>)
    ensures var input := [kind] + line + [13, 10] + rest; input[0] == kind && input[1..] == line + [13, 10] + rest
  {
  }

  lemma SimpleIsParsed(maximum: nat, depth: nat, kind: Byte, line: seq<Byte>, rest: seq<Byte>)
    requires depth <= MAX_DEPTH && IsLine(line) && (kind == 43 || kind == 45)
    ensures ParseValue(maximum, depth, [kind] + line + [13, 10] + rest)
         == if kind == 43 then Done(Data(line), rest) else Bad(ServerError)
  {
    TypeByte(kind, line, rest);
    LineIsRead(line, rest);
  }

  lemma ArrayIsParsed(maximum: nat, depth: nat, head: seq<Byte>, items: seq<Value>, after: seq<Byte>, rest: seq<Byte>)
    requires depth <= MAX_DEPTH && HeadOf(head, 42, |items|) && |items| <= MAX_ITEMS
    requires ParseItems(maximum, depth + 1, |items|, after) == Done(items, rest)
    ensures ParseValue(maximum, depth, head + after) == Done(Array(items), rest)
  {
    HeadIsRead(head, 42, |items|, after);
  }

  lemma DataIsParsed(maximum: nat, depth: nat, w: seq<Byte>, b: seq<Byte>, rest: seq<Byte>)
    requires depth <= MAX_DEPTH && (Head(w, 43, b) || BulkOf(w, b, maximum))
    ensures ParseValue(maximum, depth, w + rest) == Done(Data(b), rest)
  {
    if Head(w, 43, b) {
      SimpleIsParsed(maximum, depth, 43, b, rest);
    } else {
      BulkIsParsed(maximum, depth, w, b, rest);
    }
  }

  lemma NumberIsParsed(maximum: nat, depth: nat, w: seq<Byte>, rest: seq<Byte>)
    requires depth <= MAX_DEPTH
    ensures forall n :: HeadOf(w, 58, n) ==> ParseValue(maximum, depth, w + rest) == Done(Int(n), rest)
    ensures HeadOf(w, 36, -1) || HeadOf(w, 42, -1) ==> ParseValue(maximum, depth, w + rest) == Done(Null, rest)
  {
    forall n | HeadOf(w, 58, n) ensures ParseValue(maximum, depth, w + rest) == Done(Int(n), rest) {
      HeadIsRead(w, 58, n, rest);
    }
    if HeadOf(w, 36, -1) {
      HeadIsRead(w, 36, -1, rest);
    } else if HeadOf(w, 42, -1) {
      HeadIsRead(w, 42, -1, rest);
    }
  }

  lemma ItemsStep(maximum: nat, depth: nat, input: seq<Byte>, v: Value, after: seq<Byte>, items: seq<Value>, rest: seq<Byte>)
    requires depth <= MAX_DEPTH + 1 && ParseValue(maximum, depth, input) == Done(v, after)
    requires ParseItems(maximum, depth, |items|, after) == Done(items, rest)
    ensures ParseItems(maximum, depth, |items| + 1, input) == Done([v] + items, rest)
  {
  }

  lemma Joined(a: seq<Byte>, b: seq<Byte>, rest: seq<Byte>)
    ensures a + b + rest == a + (b + rest)
  {
  }

  lemma FirstItem(maximum: nat, depth: nat, w: seq<Byte>, items: seq<Value>) returns (a: seq<Byte>, b: seq<Byte>)
    requires items != [] && WireItems(maximum, depth, w, items)
    ensures Wire(maximum, depth, a, items[0]) && WireItems(maximum, depth, b, items[1..]) && w == a + b
  {
    a, b :| Wire(maximum, depth, a, items[0]) && WireItems(maximum, depth, b, items[1..]) && w == a + b;
  }

  lemma ArrayParts(maximum: nat, depth: nat, w: seq<Byte>, items: seq<Value>) returns (head: seq<Byte>, body: seq<Byte>)
    requires Wire(maximum, depth, w, Array(items))
    ensures depth <= MAX_DEPTH && |items| <= MAX_ITEMS && HeadOf(head, 42, |items|) && w == head + body
    ensures WireItems(maximum, depth + 1, body, items)
  {
    head, body :| HeadOf(head, 42, |items|) && WireItems(maximum, depth + 1, body, items) && w == head + body;
  }

  /** Every wire form of a value is parsed as that value, and exactly its bytes are taken. */
  lemma {:induction false} WireIsParsed(maximum: nat, depth: nat, w: seq<Byte>, v: Value, rest: seq<Byte>)
    requires Wire(maximum, depth, w, v)
    ensures ParseValue(maximum, depth, w + rest) == Done(v, rest)
    decreases v, 1
  {
    if v.Array? {
      var head, body := ArrayParts(maximum, depth, w, v.items);
      WireItemsParse(maximum, depth + 1, body, v.items, rest);
      ArrayIsParsed(maximum, depth, head, v.items, body + rest, rest);
      Joined(head, body, rest);
    } else {
      ScalarIsParsed(maximum, depth, w, v, rest);
    }
  }

  lemma ScalarIsParsed(maximum: nat, depth: nat, w: seq<Byte>, v: Value, rest: seq<Byte>)
    requires Wire(maximum, depth, w, v) && !v.Array?
    ensures ParseValue(maximum, depth, w + rest) == Done(v, rest)
  {
    match v
    case Data(b) => DataIsParsed(maximum, depth, w, b, rest);
    case _ => NumberIsParsed(maximum, depth, w, rest);
  }

  lemma {:induction false} WireItemsParse(maximum: nat, depth: nat, w: seq<Byte>, items: seq<Value>, rest: seq<Byte>)
    requires depth <= MAX_DEPTH + 1 && WireItems(maximum, depth, w, items)
    ensures ParseItems(maximum, depth, |items|, w + rest) == Done(items, rest)
    decreases items, 0
  {
    if items == [] {
      assert w + rest == rest;
    } else {
      var first, others := items[0], items[1..];
      var a, b := FirstItem(maximum, depth, w, items);
      Joined(a, b, rest);
      WireIsParsed(maximum, depth, a, first, b + rest);
      WireItemsParse(maximum, depth, b, others, rest);
      ItemsStep(maximum, depth, w + rest, first, b + rest, others, rest);
      assert items == [first] + others;
    }
  }

  // ---- What is parsed was a wire form.

  lemma ParsedSimpleIsWire(maximum: nat, depth: nat, input: seq<Byte>, v: Value, rest: seq<Byte>) returns (w: seq<Byte>)
    requires depth <= MAX_DEPTH && input != [] && (input[0] == 43 || input[0] == 45 || input[0] == 58)
    requires ParseSimple(input[0], input[1..]) == Done(v, rest)
    ensures input == w + rest && Wire(maximum, depth, w, v)
  {
    if input[0] == 58 {
      w := ReadIsHead(input);
    } else {
      ReadIsLine(input[1..]);
      w := [input[0]] + ParseLine(input[1..]).value + [13, 10];
      assert input == [input[0]] + input[1..];
    }
  }

  lemma ParsedBulkIsWire(maximum: nat, depth: nat, input: seq<Byte>, v: Value, rest: seq<Byte>) returns (w: seq<Byte>)
    requires depth <= MAX_DEPTH && input != [] && input[0] == 36
    requires ParseBulk(maximum, input[1..]) == Done(v, rest)
    ensures input == w + rest && Wire(maximum, depth, w, v)
  {
    var head := ReadIsHead(input);
    if v.Data? {
      var tail, n := ParseInt(input[1..]).rest, |v.bytes|;
      CutBulk(tail, n);
      w := head + v.bytes + [13, 10];
      assert BulkOf(w, v.bytes, maximum);
      Joined(head, v.bytes, [13, 10] + rest);
      Joined(head + v.bytes, [13, 10], rest);
      Joined(v.bytes, [13, 10], rest);
    } else {
      w := head;
    }
  }

  lemma CutBulk(tail: seq<Byte>, n: nat)
    requires n + 2 <= |tail| && tail[n..n + 2] == [13, 10]
    ensures tail == tail[..n] + [13, 10] + tail[n + 2..]
  {
    assert tail == tail[..n] + tail[n..n + 2] + tail[n + 2..];
  }

  /** Every value that is parsed was there in one of its wire forms. */
  lemma {:induction false} ParsedIsWire(maximum: nat, depth: nat, input: seq<Byte>, v: Value, rest: seq<Byte>)
    returns (w: seq<Byte>)
    requires ParseValue(maximum, depth, input) == Done(v, rest)
    ensures input == w + rest && Wire(maximum, depth, w, v)
    decreases MAX_DEPTH + 1 - depth, 1
  {
    if input[0] == 43 || input[0] == 45 || input[0] == 58 {
      w := ParsedSimpleIsWire(maximum, depth, input, v, rest);
    } else if input[0] == 36 {
      w := ParsedBulkIsWire(maximum, depth, input, v, rest);
    } else {
      w := ParsedArrayIsWire(maximum, depth, input, v, rest);
    }
  }

  lemma {:induction false} ParsedArrayIsWire(maximum: nat, depth: nat, input: seq<Byte>, v: Value, rest: seq<Byte>)
    returns (w: seq<Byte>)
    requires depth <= MAX_DEPTH && input != [] && input[0] == 42
    requires ParseArrayBody(maximum, depth, input[1..]) == Done(v, rest)
    ensures input == w + rest && Wire(maximum, depth, w, v)
    decreases MAX_DEPTH + 1 - depth, 0
  {
    var head := ReadIsHead(input);
    if v.Array? {
      var count, after := ParseInt(input[1..]).value, ParseInt(input[1..]).rest;
      var body := ParsedItemsAreWire(maximum, depth + 1, count, after, v.items, rest);
      w := head + body;
      Joined(head, body, rest);
    } else {
      w := head;
    }
  }

  lemma ItemsPeel(maximum: nat, depth: nat, count: nat, input: seq<Byte>)
    returns (v: Value, after: seq<Byte>, others: seq<Value>)
    requires depth <= MAX_DEPTH + 1 && count > 0 && ParseItems(maximum, depth, count, input).Done?
    ensures ParseValue(maximum, depth, input) == Done(v, after)
    ensures var all := ParseItems(maximum, depth, count, input);
            && ParseItems(maximum, depth, count - 1, after) == Done(others, all.rest)
            && all.value == [v] + others
  {
    var first := ParseValue(maximum, depth, input);
    v, after := first.value, first.rest;
    others := ParseItems(maximum, depth, count - 1, after).value;
  }

  lemma OneItemMore(maximum: nat, depth: nat, a: seq<Byte>, v: Value, b: seq<Byte>, others: seq<Value>)
    requires Wire(maximum, depth, a, v) && WireItems(maximum, depth, b, others)
    ensures WireItems(maximum, depth, a + b, [v] + others)
  {
    var items := [v] + others;
    assert items[0] == v && items[1..] == others;
  }

  lemma {:induction false} ParsedItemsAreWire(maximum: nat, depth: nat, count: nat, input: seq<Byte>, items: seq<Value>,
                                              rest: seq<Byte>)
    returns (w: seq<Byte>)
    requires depth <= MAX_DEPTH + 1 && ParseItems(maximum, depth, count, input) == Done(items, rest)
    ensures |items| == count && input == w + rest && WireItems(maximum, depth, w, items)
    decreases MAX_DEPTH + 1 - depth, count + 2
  {
    if count == 0 {
      w := [];
    } else {
      var v, after, others := ItemsPeel(maximum, depth, count, input);
      var a := ParsedIsWire(maximum, depth, input, v, after);
      var b := ParsedItemsAreWire(maximum, depth, count - 1, after, others, rest);
      w := a + b;
      Joined(a, b, rest);
      OneItemMore(maximum, depth, a, v, b, others);
    }
  }

  /** The parser returns a value exactly when one of its wire forms stands in front. */
  lemma ParsesExactly(maximum: nat, depth: nat, input: seq<Byte>, v: Value, rest: seq<Byte>)
    ensures ParseValue(maximum, depth, input) == Done(v, rest) <==> exists w :: Wire(maximum, depth, w, v) && input == w + rest
  {
    if ParseValue(maximum, depth, input) == Done(v, rest) {
      var w := ParsedIsWire(maximum, depth, input, v, rest);
    }
    if w :| Wire(maximum, depth, w, v) && input == w + rest {
      WireIsParsed(maximum, depth, w, v, rest);
    }
  }

  // ---- The refusals.

  /** A first line of each type, and what is refused because of it. */
  lemma LinesAreRefused(maximum: nat, depth: nat, kind: Byte, line: seq<Byte>, rest: seq<Byte>)
    requires depth <= 8 && IsLine(line)
    ensures var r := ParseValue(maximum, depth, [kind] + line + [13, 10] + rest);
            && (kind == 43 ==> r == Done(Data(line), rest))
            && (kind == 45 ==> r == Bad(ServerError))
            && (kind == 58 && (forall n :: !Numeral(line, n)) ==> r == Bad(IntegerMalformed))
            && (kind == 36 && (forall n :: !Numeral(line, n)) ==> r == Bad(LengthMalformed))
            && (kind == 42 && (forall n :: !Numeral(line, n)) ==> r == Bad(CountMalformed))
            && (kind !in {36, 42, 43, 45, 58} ==> r == Bad(TypeUnsupported))
  {
    TypeByte(kind, line, rest);
    LineIsRead(line, rest);
    if PythonInt(line).Some? {
      PythonIntMeans(line, PythonInt(line).value);
    }
  }

  /** A length or a count: what is refused because of it, and what is waited for. */
  lemma NumbersAreRefused(maximum: nat, depth: nat, head: seq<Byte>, kind: Byte, n: int, rest: seq<Byte>)
    requires depth <= 8 && HeadOf(head, kind, n)
    ensures var r := ParseValue(maximum, depth, head + rest);
            && (kind == 36 && (n < -1 || n > maximum) ==> r == Bad(LengthOutside))
            && (kind == 42 && (n < -1 || n > 960_016) ==> r == Bad(CountOutside))
            && (kind == 36 && 0 <= n <= maximum && |rest| < n + 2 ==> r == Short)
            && (kind == 36 && 0 <= n <= maximum && |rest| >= n + 2 && rest[n..n + 2] != [13, 10] ==>
                  r == Bad(TerminatorMalformed))
  {
    HeadIsRead(head, kind, n, rest);
  }

  lemma NestingIsRefused(maximum: nat, depth: nat, input: seq<Byte>)
    requires depth > 8
    ensures ParseValue(maximum, depth, input) == Bad(NestingExceeded)
  {
  }
}
