/** Strict UTF-8 (RFC 3629, sections 3 and 4), as `bytes.decode("utf-8", errors="strict")`. */
module Utf8 {
  import opened Bytes
  import opened Wrappers

  /** A Unicode scalar value: surrogates are not encodable. */
  type Scalar = x: int | 0 <= x < 0xD800 || 0xE000 <= x < 0x11_0000

  function EncodeOne(c: Scalar): (s: seq<Byte>) {
    if c < 0x80 then [c]
    else if c < 0x800 then [0xC0 + c / 64, 0x80 + c % 64]
    else if c < 0x1_0000 then [0xE0 + c / 4096, 0x80 + c / 64 % 64, 0x80 + c % 64]
    else [0xF0 + c / 262144, 0x80 + c / 4096 % 64, 0x80 + c / 64 % 64, 0x80 + c % 64]
  }

  function Encode(text: seq<Scalar>): seq<Byte> {
    if text == [] then [] else EncodeOne(text[0]) + Encode(text[1..])
  }

  predicate Tail(b: Byte) {
    0x80 <= b < 0xC0
  }

  /** The six payload bits of a continuation byte. */
  function Low(b: Byte): int {
    b - 0x80
  }

  /** The scalar value at the front of `s` and its width, by the ranges of RFC 3629 section 4. */
  function DecodeOne(s: seq<Byte>): (r: Option<(Scalar, nat)>)
    requires s != []
    ensures r.Some? ==> 0 < r.value.1 <= |s|
  {
    var a: int := s[0];
    if a < 0x80 then Some((a, 1))
    else if 0xC2 <= a < 0xE0 then
      if |s| >= 2 && Tail(s[1]) then Some(((a - 0xC0) * 64 + Low(s[1]), 2)) else None
    else if 0xE0 <= a < 0xF0 then
      if |s| >= 3 && Tail(s[1]) && Tail(s[2])
         && (a == 0xE0 ==> s[1] >= 0xA0) && (a == 0xED ==> s[1] < 0xA0)
      then Some(((a - 0xE0) * 4096 + Low(s[1]) * 64 + Low(s[2]), 3)) else None
    else if 0xF0 <= a < 0xF5 then
      if |s| >= 4 && Tail(s[1]) && Tail(s[2]) && Tail(s[3])
         && (a == 0xF0 ==> s[1] >= 0x90) && (a == 0xF4 ==> s[1] < 0x90)
      then Some(((a - 0xF0) * 262144 + Low(s[1]) * 4096 + Low(s[2]) * 64 + Low(s[3]), 4)) else None
    else None
  }

  function Decode(s: seq<Byte>): Option<seq<Scalar>> {
    if s == [] then Some([])
    else
      match DecodeOne(s)
      case None => None
      case Some((c, k)) =>
        match Decode(s[k..])
        case None => None
        case Some(rest) => Some([c] + rest)
  }

  predicate Valid(s: seq<Byte>) {
    Decode(s).Some?
  }

  /** Base-64 digits of a scalar value. */
  lemma Digits64(c: nat)
    ensures c == c / 64 * 64 + c % 64
    ensures c / 64 == c / 4096 * 64 + c / 64 % 64
    ensures c / 4096 == c / 262144 * 64 + c / 4096 % 64
  {
  }

  lemma DecodeOneEncoded(c: Scalar, rest: seq<Byte>)
    ensures DecodeOne(EncodeOne(c) + rest) == Some((c, |EncodeOne(c)|))
  {
    var e := EncodeOne(c);
    var s := e + rest;
    assert forall i :: 0 <= i < |e| ==> s[i] == e[i];
    Digits64(c);
  }

  lemma Digits64Unique(h: nat, l: nat)
    requires l < 64
    ensures (h * 64 + l) / 64 == h && (h * 64 + l) % 64 == l
  {
  }

  lemma EncodeTwoDecoded(s: seq<Byte>)
    requires s != [] && DecodeOne(s).Some? && DecodeOne(s).value.1 == 2
    ensures EncodeOne(DecodeOne(s).value.0) == s[..2]
  {
    var a: int := s[0];
    Digits64Unique(a - 0xC0, Low(s[1]));
  }

  lemma EncodeThreeDecoded(s: seq<Byte>)
    requires s != [] && DecodeOne(s).Some? && DecodeOne(s).value.1 == 3
    ensures EncodeOne(DecodeOne(s).value.0) == s[..3]
  {
    var a: int := s[0];
    Digits64Unique((a - 0xE0) * 64 + Low(s[1]), Low(s[2]));
    Digits64Unique(a - 0xE0, Low(s[1]));
    Digits64(DecodeOne(s).value.0);
  }

  lemma EncodeFourDecoded(s: seq<Byte>)
    requires s != [] && DecodeOne(s).Some? && DecodeOne(s).value.1 == 4
    ensures EncodeOne(DecodeOne(s).value.0) == s[..4]
  {
    var a: int := s[0];
    Digits64Unique(((a - 0xF0) * 64 + Low(s[1])) * 64 + Low(s[2]), Low(s[3]));
    Digits64Unique((a - 0xF0) * 64 + Low(s[1]), Low(s[2]));
    Digits64Unique(a - 0xF0, Low(s[1]));
    Digits64(DecodeOne(s).value.0);
  }

  lemma EncodeOneDecoded(s: seq<Byte>)
    requires s != [] && DecodeOne(s).Some?
    ensures EncodeOne(DecodeOne(s).value.0) == s[..DecodeOne(s).value.1]
  {
    var k := DecodeOne(s).value.1;
    if k == 2 {
      EncodeTwoDecoded(s);
    } else if k == 3 {
      EncodeThreeDecoded(s);
    } else if k == 4 {
      EncodeFourDecoded(s);
    }
  }

  /** Decoding undoes encoding. */
  lemma {:induction false} DecodeEncoded(text: seq<Scalar>)
    ensures Decode(Encode(text)) == Some(text)
  {
    if text != [] {
      var c, rest := text[0], text[1..];
      DecodeOneEncoded(c, Encode(rest));
      DecodeEncoded(rest);
      assert Encode(text)[|EncodeOne(c)|..] == Encode(rest);
      assert text == [c] + rest;
    }
  }

  /** Strict decoding accepts exactly one byte form: encoding gives the same bytes back. */
  lemma EncodeDecoded(s: seq<Byte>)
    requires Valid(s)
    ensures Encode(Decode(s).value) == s
  {
    Reencoded(s, Decode(s).value);
  }

  lemma {:induction false} Reencoded(s: seq<Byte>, text: seq<Scalar>)
    requires Decode(s) == Some(text)
    ensures Encode(text) == s
    decreases |s|
  {
    if s != [] {
      var front, rest, more := FirstScalar(s, text);
      Reencoded(rest, more);
    }
  }

  /** The first scalar value takes some bytes, which its encoding gives back. */
  lemma FirstScalar(s: seq<Byte>, text: seq<Scalar>) returns (front: seq<Byte>, rest: seq<Byte>, more: seq<Scalar>)
    requires s != [] && Decode(s) == Some(text)
    ensures s == front + rest && |rest| < |s|
    ensures Decode(rest) == Some(more) && Encode(text) == front + Encode(more)
  {
    var c := DecodeOne(s).value.0;
    var k := DecodeOne(s).value.1;
    front, rest := s[..k], s[k..];
    more := Decode(rest).value;
    EncodeOneDecoded(s);
    EncodeMore(c, more);
  }

  lemma EncodeMore(c: Scalar, rest: seq<Scalar>)
    ensures Encode([c] + rest) == EncodeOne(c) + Encode(rest)
  {
    assert ([c] + rest)[1..] == rest;
  }

  /** The bytes of some text. */
  ghost predicate IsText(s: seq<Byte>) {
    exists text :: Encode(text) == s
  }

  /** The valid byte strings are exactly the encoded texts. */
  lemma ValidIsText(s: seq<Byte>)
    ensures Valid(s) <==> IsText(s)
  {
    if Valid(s) {
      EncodeDecoded(s);
    }
    if text :| Encode(text) == s {
      DecodeEncoded(text);
    }
  }
}
