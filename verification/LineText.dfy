/** Python's `splitlines`, `split`, `strip` and `join`, and the strict decimal fields of line projections. */
module LineText {
  import opened Bytes
  import opened Wrappers
  import Utf8

  /** The characters at which `str.splitlines` ends a line. */
  predicate IsBreak(c: char) {
    10 as char <= c <= 13 as char || 0x1C as char <= c <= 0x1E as char || c == 0x85 as char
    || 0x2028 as char <= c <= 0x2029 as char
  }

  /** The characters that `str.strip` removes. */
  predicate IsSpace(c: char) {
    IsBreak(c) || c == 9 as char || 0x1F as char <= c <= 0x20 as char || c == 0xA0 as char || c == 0x1680 as char
    || 0x2000 as char <= c <= 0x200A as char || c == 0x202F as char || c == 0x205F as char || c == 0x3000 as char
  }

  predicate NoBreak(s: string) {
    forall i :: 0 <= i < |s| ==> !IsBreak(s[i])
  }

  predicate Without(s: string, sep: char) {
    forall i :: 0 <= i < |s| ==> s[i] != sep
  }

  /** Where the first line of `s` ends. */
  function LineEnd(s: string, i: nat): (n: nat)
    requires i <= |s|
    ensures i <= n <= |s| && (n < |s| ==> IsBreak(s[n])) && forall j :: i <= j < n ==> !IsBreak(s[j])
    decreases |s| - i
  {
    if i < |s| && !IsBreak(s[i]) then LineEnd(s, i + 1) else i
  }

  /** What follows a break at `n`; a carriage return takes a following line feed with it. */
  function AfterBreak(s: string, n: nat): (rest: string)
    requires n < |s|
    ensures |rest| < |s| - n
  {
    if s[n] == '\r' && n + 1 < |s| && s[n + 1] == '\n' then s[n + 2..] else s[n + 1..]
  }

  /** `s.splitlines()`. */
  function Lines(s: string): seq<string>
    decreases |s|
  {
    if s == "" then []
    else
      var n := LineEnd(s, 0);
      [s[..n]] + if n == |s| then [] else Lines(AfterBreak(s, n))
  }

  function FieldEnd(s: string, sep: char, i: nat): (n: nat)
    requires i <= |s|
    ensures i <= n <= |s| && (n < |s| ==> s[n] == sep) && forall j :: i <= j < n ==> s[j] != sep
    decreases |s| - i
  {
    if i < |s| && s[i] != sep then FieldEnd(s, sep, i + 1) else i
  }

  /** `s.split(sep)`. */
  function Split(s: string, sep: char): (fields: seq<string>)
    ensures fields != []
    decreases |s|
  {
    var n := FieldEnd(s, sep, 0);
    [s[..n]] + if n == |s| then [] else Split(s[n + 1..], sep)
  }

  /** `sep.join(parts)`. */
  function Join(parts: seq<string>, sep: char): string {
    if parts == [] then ""
    else if |parts| == 1 then parts[0]
    else parts[0] + [sep] + Join(parts[1..], sep)
  }

  function StripLeft(s: string): string {
    if s != "" && IsSpace(s[0]) then StripLeft(s[1..]) else s
  }

  function StripRight(s: string): (t: string)
    ensures t <= s
  {
    if s != "" && IsSpace(s[|s| - 1]) then StripRight(s[..|s| - 1]) else s
  }

  /** `s.strip()`. */
  function Strip(s: string): string {
    StripRight(StripLeft(s))
  }

  // ---- Joining and splitting undo each other.

  lemma LineEndIs(s: string, n: nat)
    requires n <= |s| && (n < |s| ==> IsBreak(s[n])) && forall j :: 0 <= j < n ==> !IsBreak(s[j])
    ensures LineEnd(s, 0) == n
  {
  }

  /** The code points at which a line ends. */
  const BREAKS: set<int> := {0x0A, 0x0B, 0x0C, 0x0D, 0x1C, 0x1D, 0x1E, 0x85, 0x2028, 0x2029}

  /** The code points of white space that end no line. */
  const BLANKS: set<int> :=
    {0x09, 0x1F, 0x20, 0xA0, 0x1680, 0x2000, 0x2001, 0x2002, 0x2003, 0x2004, 0x2005, 0x2006, 0x2007, 0x2008, 0x2009,
     0x200A, 0x202F, 0x205F, 0x3000}

  lemma BreaksAre(c: char)
    ensures IsBreak(c) <==> c as int in BREAKS
    ensures IsSpace(c) <==> c as int in BREAKS + BLANKS
  {
  }

  /**
   `splitlines`, one line at a time: a text without breaks is its own line, and a break ends a line, where a
   carriage return and the line feed behind it are one break.
   */
  lemma LinesStep(line: string, c: char, rest: string)
    requires (forall i :: 0 <= i < |line| ==> line[i] as int !in BREAKS) && c as int in BREAKS
    ensures Lines(line) == if line == "" then [] else [line]
    ensures Lines(line + [c] + rest)
         == [line] + Lines(if c == '\r' && rest != "" && rest[0] == '\n' then rest[1..] else rest)
  {
    BreaksAre(c);
    forall i | 0 <= i < |line| ensures !IsBreak(line[i]) {
      BreaksAre(line[i]);
    }
    var s := line + [c] + rest;
    LineEndIs(line, |line|);
    assert line[..|line|] == line;
    LineEndIs(s, |line|);
    assert s[..|line|] == line && s[|line| + 1..] == rest;
    assert rest != "" ==> s[|line| + 1] == rest[0] && s[|line| + 2..] == rest[1..];
  }

  lemma {:induction false} StripsLeft(before: string, s: string)
    requires (forall i :: 0 <= i < |before| ==> before[i] as int in BREAKS + BLANKS)
    requires s == "" || s[0] as int !in BREAKS + BLANKS
    ensures StripLeft(before + s) == s
  {
    if before != "" {
      BreaksAre(before[0]);
      assert (before + s)[1..] == before[1..] + s;
      StripsLeft(before[1..], s);
    } else {
      assert before + s == s;
      if s != "" {
        BreaksAre(s[0]);
      }
    }
  }

  lemma {:induction false} StripsRight(s: string, after: string)
    requires (forall i :: 0 <= i < |after| ==> after[i] as int in BREAKS + BLANKS)
    requires s == "" || s[|s| - 1] as int !in BREAKS + BLANKS
    ensures StripRight(s + after) == s
  {
    if after != "" {
      BreaksAre(after[|after| - 1]);
      var front := after[..|after| - 1];
      assert (s + after)[..|s + after| - 1] == s + front;
      StripsRight(s, front);
    } else {
      assert s + after == s;
      if s != "" {
        BreaksAre(s[|s| - 1]);
      }
    }
  }

  /** `strip` leaves what stands between white space. */
  lemma StripsBetween(before: string, s: string, after: string)
    requires (forall i :: 0 <= i < |before| ==> before[i] as int in BREAKS + BLANKS)
    requires (forall i :: 0 <= i < |after| ==> after[i] as int in BREAKS + BLANKS)
    requires s != "" && s[0] as int !in BREAKS + BLANKS && s[|s| - 1] as int !in BREAKS + BLANKS
    ensures Strip(before + s + after) == s
  {
    assert before + s + after == before + (s + after);
    StripsLeft(before, s + after);
    StripsRight(s, after);
  }

  lemma {:induction false} LinesOfJoin(lines: seq<string>)
    requires forall i :: 0 <= i < |lines| ==> lines[i] != "" && NoBreak(lines[i])
    ensures Lines(Join(lines, '\n')) == lines
  {
    if lines != [] {
      var s := Join(lines, '\n');
      LineEndIs(s, |lines[0]|);
      assert s[..|lines[0]|] == lines[0];
      if |lines| > 1 {
        LinesOfJoin(lines[1..]);
        assert AfterBreak(s, |lines[0]|) == Join(lines[1..], '\n');
      }
    }
  }

  lemma {:induction false} LinesHaveNoBreak(s: string)
    ensures forall i :: 0 <= i < |Lines(s)| ==> NoBreak(Lines(s)[i])
    decreases |s|
  {
    if s != "" && LineEnd(s, 0) < |s| {
      LinesHaveNoBreak(AfterBreak(s, LineEnd(s, 0)));
    }
  }

  lemma {:induction false} LinesFit(s: string)
    ensures |Join(Lines(s), '\n')| <= |s|
    decreases |s|
  {
    if s != "" && LineEnd(s, 0) < |s| {
      var rest := AfterBreak(s, LineEnd(s, 0));
      LinesFit(rest);
      assert Lines(s)[1..] == Lines(rest);
    }
  }

  lemma FieldEndIs(s: string, sep: char, n: nat)
    requires n <= |s| && (n < |s| ==> s[n] == sep) && forall j :: 0 <= j < n ==> s[j] != sep
    ensures FieldEnd(s, sep, 0) == n
  {
  }

  lemma {:induction false} SplitOfJoin(fields: seq<string>, sep: char)
    requires fields != [] && forall i :: 0 <= i < |fields| ==> Without(fields[i], sep)
    ensures Split(Join(fields, sep), sep) == fields
  {
    var s := Join(fields, sep);
    FieldEndIs(s, sep, |fields[0]|);
    assert s[..|fields[0]|] == fields[0];
    if |fields| > 1 {
      SplitOfJoin(fields[1..], sep);
      assert s[|fields[0]| + 1..] == Join(fields[1..], sep);
    }
  }

  lemma {:induction false} JoinOfSplit(s: string, sep: char)
    ensures Join(Split(s, sep), sep) == s
    ensures forall i :: 0 <= i < |Split(s, sep)| ==> Without(Split(s, sep)[i], sep)
    decreases |s|
  {
    var n := FieldEnd(s, sep, 0);
    if n < |s| {
      JoinOfSplit(s[n + 1..], sep);
      assert Split(s, sep)[1..] == Split(s[n + 1..], sep);
      assert s == s[..n] + [sep] + s[n + 1..];
    }
  }

  lemma {:induction false} JoinConcat(a: seq<string>, b: seq<string>, sep: char)
    requires a != [] && b != []
    ensures Join(a + b, sep) == Join(a, sep) + [sep] + Join(b, sep)
  {
    assert (a + b)[1..] == a[1..] + b;
    if |a| > 1 {
      JoinConcat(a[1..], b, sep);
      assert Join(a, sep) == a[0] + [sep] + Join(a[1..], sep);
    } else {
      assert a[1..] + b == b;
    }
  }

  /** Splitting two texts with a separator between them. */
  lemma SplitConcat(a: string, b: string, sep: char)
    ensures Split(a + [sep] + b, sep) == Split(a, sep) + Split(b, sep)
  {
    JoinOfSplit(a, sep);
    JoinOfSplit(b, sep);
    JoinConcat(Split(a, sep), Split(b, sep), sep);
    var fields := Split(a, sep) + Split(b, sep);
    assert forall i :: 0 <= i < |fields| ==> Without(fields[i], sep);
    SplitOfJoin(fields, sep);
  }

  lemma PrefixOfFields(a: string, s: string, sep: char)
    requires Split(a, sep) <= Split(s, sep)
    ensures s == a || a + [sep] <= s
  {
    var f, g := Split(a, sep), Split(s, sep);
    JoinOfSplit(a, sep);
    JoinOfSplit(s, sep);
    var rest := g[|f|..];
    assert g == f + rest;
    if rest != [] {
      JoinConcat(f, rest, sep);
    } else {
      assert g == f;
    }
  }

  /** A text begins with another and a separator, or is it, exactly when its fields begin with those of the other. */
  lemma FieldsOfPrefix(a: string, s: string, sep: char)
    ensures Split(a, sep) <= Split(s, sep) <==> s == a || a + [sep] <= s
  {
    if Split(a, sep) <= Split(s, sep) {
      PrefixOfFields(a, s, sep);
    } else if a + [sep] <= s {
      var b := s[|a| + 1..];
      assert s == a + [sep] + b;
      SplitConcat(a, b, sep);
    }
  }

  lemma {:induction false} JoinAppend(parts: seq<string>, last: string, sep: char)
    ensures Join(parts + [last], sep) == if parts == [] then last else Join(parts, sep) + [sep] + last
  {
    if |parts| == 1 {
      assert (parts + [last])[1..] == [last];
    } else if parts != [] {
      JoinAppend(parts[1..], last, sep);
      assert (parts + [last])[1..] == parts[1..] + [last];
    }
  }

  /** Stripping never passes a character that is not white space. */
  lemma {:induction false} StripRightStops(a: string, c: char, b: string)
    requires !IsSpace(c)
    ensures StripRight(a + [c] + b) == a + [c] + StripRight(b)
    decreases |b|
  {
    var s := a + [c] + b;
    if b == "" {
      assert s[|s| - 1] == c;
    } else if IsSpace(b[|b| - 1]) {
      StripRightStops(a, c, b[..|b| - 1]);
      assert s[..|s| - 1] == a + [c] + b[..|b| - 1];
    }
  }

  /** Joining shorter parts makes a shorter text. */
  lemma {:induction false} JoinMonotone(a: seq<string>, b: seq<string>, sep: char)
    requires |a| == |b| && forall i :: 0 <= i < |a| ==> |a[i]| <= |b[i]|
    ensures |Join(a, sep)| <= |Join(b, sep)|
  {
    if |a| > 1 {
      JoinMonotone(a[1..], b[1..], sep);
    }
  }

  // ---- Length in UTF-8.

  /** `len(text.encode("utf-8"))`. */
  function ByteLength(s: string): nat {
    if s == "" then 0 else |Utf8.EncodeOne(s[0] as int)| + ByteLength(s[1..])
  }

  predicate IsAscii(s: string) {
    forall i :: 0 <= i < |s| ==> s[i] < 128 as char
  }

  lemma {:induction false} ByteLengthCovers(s: string)
    ensures |s| <= ByteLength(s)
    ensures IsAscii(s) ==> ByteLength(s) == |s|
  {
    if s != "" {
      ByteLengthCovers(s[1..]);
    }
  }

  lemma {:induction false} AsciiJoin(parts: seq<string>, sep: char)
    requires sep < 128 as char && forall i :: 0 <= i < |parts| ==> IsAscii(parts[i])
    ensures IsAscii(Join(parts, sep))
  {
    if |parts| > 1 {
      AsciiJoin(parts[1..], sep);
    }
  }

  // ---- Strict decimal fields.

  /** `mount_unsigned`: no sign, no leading zero, at most twenty digits, a bound. */
  function Unsigned(value: string, maximum: nat, positive: bool): Option<nat> {
    if !AllDigits(value) || |value| > 20 || (value[0] == '0' && |value| > 1) then None
    else
      var number := Number(value);
      if number > maximum || (positive && number == 0) then None else Some(number)
  }

  const MAX32: nat := 0xFFFF_FFFF
  const MAX64: nat := 0xFFFF_FFFF_FFFF_FFFF

  function Ten(k: nat): (p: nat)
    ensures p > 0
  {
    if k == 0 then 1 else 10 * Ten(k - 1)
  }

  lemma {:induction false} DecimalLength(n: nat, k: nat)
    requires k > 0 && n < Ten(k)
    ensures |Decimal(n)| <= k
  {
    if n >= 10 && k > 1 {
      DecimalLength(n / 10, k - 1);
    }
  }

  /** A number has at most `k` digits exactly when it is below the `k`-th power of ten. */
  lemma {:induction false} DecimalFits(n: nat, k: nat)
    requires k > 0
    ensures |Decimal(n)| <= k <==> n < Ten(k)
  {
    if n >= 10 && k > 1 {
      DecimalFits(n / 10, k - 1);
    }
  }

  lemma TwentyDigits()
    ensures MAX64 < Ten(20) == 100_000_000_000_000_000_000
  {
    assert Ten(5) == 100_000;
    assert Ten(10) == 10_000_000_000;
    assert Ten(15) == 1_000_000_000_000_000;
    assert Ten(20) == 100_000_000_000_000_000_000;
  }

  /** A field is accepted exactly when it is the decimal text of a number in range. */
  lemma UnsignedIsDecimal(value: string, maximum: nat, positive: bool, n: nat)
    requires maximum <= MAX64
    ensures Unsigned(value, maximum, positive) == Some(n) <==>
              value == Decimal(n) && n <= maximum && (positive ==> n > 0)
  {
    if value == Decimal(n) && n <= maximum {
      TwentyDigits();
      DecimalLength(n, 20);
      NumberOfDecimal(n);
    }
    if Unsigned(value, maximum, positive) == Some(n) {
      DecimalOfNumber(value);
    }
  }
}
