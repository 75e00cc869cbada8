/** Bytes, byte order and the fixed-width and decimal number forms the formats share. */
module Bytes {
  type Byte = x: int | 0 <= x < 256

  /** Python's `a < b` on byte strings: lexicographic, a proper prefix is smaller. */
  predicate Below(a: seq<Byte>, b: seq<Byte>) {
    if b == [] then false
    else if a == [] then true
    else a[0] < b[0] || (a[0] == b[0] && Below(a[1..], b[1..]))
  }

  lemma {:induction false} BelowIsTransitive(a: seq<Byte>, b: seq<Byte>, c: seq<Byte>)
    requires !Below(b, a) && !Below(c, b)
    ensures !Below(c, a)
  {
    if a != [] && b != [] && c != [] && a[0] == b[0] == c[0] {
      BelowIsTransitive(a[1..], b[1..], c[1..]);
    }
  }

  lemma {:induction false} BelowIsTotal(a: seq<Byte>, b: seq<Byte>)
    ensures a == b <==> !Below(a, b) && !Below(b, a)
  {
    if a != [] && b != [] {
      BelowIsTotal(a[1..], b[1..]);
      assert a == [a[0]] + a[1..] && b == [b[0]] + b[1..];
    }
  }

  lemma {:induction false} BelowIsAsymmetric(a: seq<Byte>, b: seq<Byte>)
    requires Below(a, b)
    ensures !Below(b, a)
  {
    if a != [] && a[0] == b[0] {
      BelowIsAsymmetric(a[1..], b[1..]);
    }
  }

  /** The order is numeric: at the first difference stands the smaller byte, or the smaller string has ended. */
  lemma {:induction false} BelowIsNumeric(a: seq<Byte>, b: seq<Byte>)
    ensures Below(a, b) <==> exists k :: 0 <= k <= |a| && k < |b| && a[..k] == b[..k] && (k == |a| || a[k] < b[k])
  {
    if a != [] && b != [] && a[0] == b[0] {
      BelowIsNumeric(a[1..], b[1..]);
      if Below(a[1..], b[1..]) {
        var k :| 0 <= k <= |a[1..]| && k < |b[1..]| && a[1..][..k] == b[1..][..k] && (k == |a[1..]| || a[1..][k] < b[1..][k]);
        LongerPrefix(a, b, k);
      }
      if k :| 0 <= k <= |a| && k < |b| && a[..k] == b[..k] && (k == |a| || a[k] < b[k]) {
        assert k > 0;
        assert a[1..][..k - 1] == a[..k][1..] && b[1..][..k - 1] == b[..k][1..];
      }
    } else if a != [] && b != [] {
      assert a[..0] == b[..0];
      assert forall k :: 0 < k <= |a| && k < |b| ==> a[..k][0] == a[0] && b[..k][0] == b[0];
    } else if b != [] {
      assert a[..0] == b[..0];
    }
  }

  /** Equal, or smaller at the first difference. */
  predicate AtMost(a: seq<Byte>, b: seq<Byte>) {
    a == b || exists k :: 0 <= k <= |a| && k < |b| && a[..k] == b[..k] && (k == |a| || a[k] < b[k])
  }

  lemma NotBelowIsAtMost(a: seq<Byte>, b: seq<Byte>)
    ensures !Below(b, a) <==> AtMost(a, b)
  {
    BelowIsNumeric(a, b);
    BelowIsTotal(a, b);
    if Below(a, b) {
      BelowIsAsymmetric(a, b);
    }
  }

  lemma LongerPrefix(a: seq<Byte>, b: seq<Byte>, k: nat)
    requires a != [] && b != [] && a[0] == b[0] && k < |a| && k < |b| && a[1..][..k] == b[1..][..k]
    ensures a[..k + 1] == b[..k + 1]
  {
    assert a[..k + 1] == [a[0]] + a[1..][..k] && b[..k + 1] == [b[0]] + b[1..][..k];
  }

  function Pow256(k: nat): (p: nat)
    ensures p > 0
  {
    if k == 0 then 1 else 256 * Pow256(k - 1)
  }

  /** `n.to_bytes(k, "big")` for `n < 256^k`. */
  function BigEndian(n: nat, k: nat): (s: seq<Byte>)
    ensures |s| == k
  {
    if k == 0 then [] else BigEndian(n / 256, k - 1) + [n % 256]
  }

  /** `int.from_bytes(s, "big")`. */
  function FromBigEndian(s: seq<Byte>): (n: nat)
    ensures n < Pow256(|s|)
  {
    if s == [] then 0 else FromBigEndian(s[..|s| - 1]) * 256 + s[|s| - 1]
  }

  /** `int.from_bytes(s, "big", signed=True)`. */
  function SignedBigEndian(s: seq<Byte>): int
    requires s != []
  {
    if s[0] >= 128 then FromBigEndian(s) - Pow256(|s|) else FromBigEndian(s)
  }

  lemma {:induction false} BigEndianRead(n: nat, k: nat)
    requires n < Pow256(k)
    ensures FromBigEndian(BigEndian(n, k)) == n
  {
    if k > 0 {
      BigEndianRead(n / 256, k - 1);
      assert BigEndian(n, k)[..k - 1] == BigEndian(n / 256, k - 1);
    }
  }

  lemma Shift(n: nat, last: Byte)
    ensures (n * 256 + last) / 256 == n && (n * 256 + last) % 256 == last
  {
  }

  lemma {:induction false} BigEndianWritten(s: seq<Byte>)
    ensures BigEndian(FromBigEndian(s), |s|) == s
  {
    if s != [] {
      var front, last := s[..|s| - 1], s[|s| - 1];
      BigEndianWritten(front);
      Shift(FromBigEndian(front), last);
      assert s == front + [last];
    }
  }

  lemma LastByte(n: nat, last: Byte, k: nat)
    ensures BigEndian(n * 256 + last, k + 1) == BigEndian(n, k) + [last]
  {
    Shift(n, last);
  }

  /** The most significant byte comes first. */
  lemma BigEndianBytes(a: Byte, b: Byte, c: Byte, d: Byte)
    ensures BigEndian(c * 256 + d, 2) == [c, d]
    ensures BigEndian(a * 0x100_0000 + b * 0x1_0000 + c * 256 + d, 4) == [a, b, c, d]
  {
    var none: nat := 0;
    assert BigEndian(none, 0) == [];
    LastByte(none, c, 0);
    LastByte(c, d, 1);
    LastByte(none, a, 0);
    LastByte(a, b, 1);
    LastByte(a * 256 + b, c, 2);
    LastByte((a * 256 + b) * 256 + c, d, 3);
  }

  lemma Scale(b: nat, p: nat)
    ensures b * (256 * p) == 256 * (b * p)
  {
  }

  /** The top byte decides the sign, so a written number below half the range reads back. */
  lemma {:induction false} TopByte(s: seq<Byte>)
    requires s != []
    ensures s[0] * Pow256(|s| - 1) <= FromBigEndian(s) < (s[0] + 1) * Pow256(|s| - 1)
  {
    if |s| > 1 {
      TopByte(s[..|s| - 1]);
      Scale(s[0], Pow256(|s| - 2));
      Scale(s[0] as int + 1, Pow256(|s| - 2));
    } else {
      assert s[..0] == [] && FromBigEndian(s) == s[0];
    }
  }

  lemma Grows(b: nat, p: nat)
    ensures b >= 128 ==> b * p >= 128 * p
  {
  }

  lemma SignedRead(n: nat, k: nat)
    requires k > 0 && n < 128 * Pow256(k - 1)
    ensures SignedBigEndian(BigEndian(n, k)) == n
  {
    BigEndianRead(n, k);
    TopByte(BigEndian(n, k));
    Grows(BigEndian(n, k)[0], Pow256(k - 1));
  }

  lemma SignedWritten(s: seq<Byte>)
    requires s != [] && SignedBigEndian(s) >= 0
    ensures BigEndian(SignedBigEndian(s), |s|) == s
  {
    BigEndianWritten(s);
  }

  function Digit(d: nat): char
    requires d < 10
  {
    ('0' as int + d) as char
  }

  predicate IsDigit(c: char) {
    '0' <= c <= '9'
  }

  predicate AllDigits(s: string) {
    s != "" && forall i :: 0 <= i < |s| ==> IsDigit(s[i])
  }

  function DigitValue(c: char): (d: nat)
    requires IsDigit(c)
    ensures d < 10 && Digit(d) == c
  {
    (c as int) - ('0' as int)
  }

  /** Python's `str(n)` for a nonnegative integer. */
  function Decimal(n: nat): (s: string)
    ensures s != []
    ensures forall i :: 0 <= i < |s| ==> IsDigit(s[i])
    ensures s[0] == '0' ==> s == "0"
  {
    if n < 10 then [Digit(n)] else Decimal(n / 10) + [Digit(n % 10)]
  }

  /** Python's `int(s)` on a nonempty string of ASCII digits. */
  function Number(s: string): (n: nat)
    requires AllDigits(s)
  {
    if |s| == 1 then DigitValue(s[0])
    else Number(s[..|s| - 1]) * 10 + DigitValue(s[|s| - 1])
  }

  lemma {:induction false} NumberOfDecimal(n: nat)
    ensures Number(Decimal(n)) == n
  {
    if n >= 10 {
      NumberOfDecimal(n / 10);
      assert Decimal(n)[..|Decimal(n)| - 1] == Decimal(n / 10);
    }
  }

  /** A number without leading zeros is the decimal text of its value. */
  lemma {:induction false} DecimalOfNumber(s: string)
    requires AllDigits(s)
    requires s[0] == '0' ==> s == "0"
    ensures Decimal(Number(s)) == s
  {
    if |s| > 1 {
      var t := s[..|s| - 1];
      DecimalOfNumber(t);
      assert t[0] == s[0] != '0';
      assert Number(t) != 0;
      assert s == t + [s[|s| - 1]];
    }
  }

  /** ASCII text as bytes; the texts encoded here hold no other character. */
  function Ascii(s: string): (b: seq<Byte>)
    requires forall i :: 0 <= i < |s| ==> s[i] < 128 as char
    ensures |b| == |s|
    ensures forall i :: 0 <= i < |s| ==> b[i] == s[i] as int
  {
    seq(|s|, i requires 0 <= i < |s| => s[i] as int)
  }
}
