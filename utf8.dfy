/** UTF-8 transformation of a single Unicode scalar value, as RFC 3629 section 3 defines it.
    encodeURIComponent turns every character it escapes into these octets, and
    decodeURIComponent accepts an escaped run only if its octets are such an encoding. */
module Utf8 {
  import opened Wrappers

  /** An octet. */
  type Byte = b: int | 0 <= b < 256

  /** Number of octets RFC 3629 uses for a code point. */
  function Width(cp: int): nat
  {
    if cp < 0x80 then 1 else if cp < 0x800 then 2 else if cp < 0x1_0000 then 3 else 4
  }

  /** Number of leading one bits of an octet: 0 for an ASCII octet, 1 for a continuation
      octet, 2 to 4 for the first octet of a multi-octet sequence, more for octets that never
      occur in UTF-8. */
  function LeadingOnes(b: Byte): (n: nat)
    ensures n <= 8
  {
    if b < 0x80 then 0
    else if b < 0xC0 then 1
    else if b < 0xE0 then 2
    else if b < 0xF0 then 3
    else if b < 0xF8 then 4
    else if b < 0xFC then 5
    else if b < 0xFE then 6
    else if b < 0xFF then 7
    else 8
  }

  /** A continuation octet, 10xxxxxx. */
  predicate IsContinuation(b: Byte)
  {
    LeadingOnes(b) == 1
  }

  /** The octets of one scalar value. The first octet announces the length of the sequence
      through its leading one bits and every later octet is a continuation octet, which is
      what lets a decoder find the end of the sequence. */
  function EncodeScalar(c: char): (bytes: seq<Byte>)
    ensures |bytes| == Width(c as int)
    ensures |bytes| == 1 <==> c as int < 0x80
    ensures LeadingOnes(bytes[0]) == if |bytes| == 1 then 0 else |bytes|
    ensures forall i :: 1 <= i < |bytes| ==> IsContinuation(bytes[i])
  {
    var cp := c as int;
    if cp < 0x80 then
      [cp]
    else if cp < 0x800 then
      [0xC0 + cp / 0x40, 0x80 + cp % 0x40]
    else if cp < 0x1_0000 then
      [0xE0 + cp / 0x1000, 0x80 + cp / 0x40 % 0x40, 0x80 + cp % 0x40]
    else
      [0xF0 + cp / 0x4_0000, 0x80 + cp / 0x1000 % 0x40, 0x80 + cp / 0x40 % 0x40, 0x80 + cp % 0x40]
  }

  /** The scalar value `v`, provided it is one (no surrogate, at most U+10FFFF) and was not
      encoded in more octets than it needs (`min` is the smallest value of its length). */
  function Scalar(v: int, min: nat): Option<char>
  {
    if min <= v <= 0x10_FFFF && !(0xD800 <= v <= 0xDFFF) then Some(v as char) else None
  }

  /** The scalar value a sequence of octets encodes, if it is a valid UTF-8 encoding of
      exactly one scalar value (RFC 3629 section 4): a lead octet of the right length, only
      continuation octets after it, no overlong form, no surrogate, nothing above U+10FFFF. */
  function DecodeScalar(bytes: seq<Byte>): Option<char>
  {
    if |bytes| == 1 then
      if bytes[0] < 0x80 then Some(bytes[0] as char) else None
    else if |bytes| == 2 && LeadingOnes(bytes[0]) == 2 && IsContinuation(bytes[1]) then
      Scalar((bytes[0] as int - 0xC0) * 0x40 + (bytes[1] as int - 0x80), 0x80)
    else if |bytes| == 3 && LeadingOnes(bytes[0]) == 3
         && IsContinuation(bytes[1]) && IsContinuation(bytes[2]) then
      Scalar((bytes[0] as int - 0xE0) * 0x1000 + (bytes[1] as int - 0x80) * 0x40
             + (bytes[2] as int - 0x80), 0x800)
    else if |bytes| == 4 && LeadingOnes(bytes[0]) == 4
         && IsContinuation(bytes[1]) && IsContinuation(bytes[2]) && IsContinuation(bytes[3]) then
      Scalar((bytes[0] as int - 0xF0) * 0x4_0000 + (bytes[1] as int - 0x80) * 0x1000
             + (bytes[2] as int - 0x80) * 0x40 + (bytes[3] as int - 0x80), 0x1_0000)
    else
      None
  }

  /** A two-octet scalar value split into its high five and low six bits. */
  lemma EncodeTwo(c: char, hi: int, lo: int)
    requires 0x80 <= c as int < 0x800
    requires 0 <= lo < 0x40 && c as int == hi * 0x40 + lo
    ensures EncodeScalar(c) == [0xC0 + hi, 0x80 + lo]
  {
  }

  /** A three-octet scalar value split into four, six and six bits. */
  lemma EncodeThree(c: char, hi: int, mid: int, lo: int)
    requires 0x800 <= c as int < 0x1_0000
    requires 0 <= mid < 0x40 && 0 <= lo < 0x40 && c as int == hi * 0x1000 + mid * 0x40 + lo
    ensures EncodeScalar(c) == [0xE0 + hi, 0x80 + mid, 0x80 + lo]
  {
    var cp := c as int;
    assert cp / 0x40 == hi * 0x40 + mid;
  }

  /** A four-octet scalar value split into three, six, six and six bits. */
  lemma EncodeFour(c: char, hi: int, upper: int, mid: int, lo: int)
    requires 0x1_0000 <= c as int
    requires 0 <= upper < 0x40 && 0 <= mid < 0x40 && 0 <= lo < 0x40
    requires c as int == hi * 0x4_0000 + upper * 0x1000 + mid * 0x40 + lo
    ensures EncodeScalar(c) == [0xF0 + hi, 0x80 + upper, 0x80 + mid, 0x80 + lo]
  {
    var cp := c as int;
    assert cp / 0x40 == (hi * 0x40 + upper) * 0x40 + mid;
    assert cp / 0x1000 == hi * 0x40 + upper;
  }

  /** Decoding undoes encoding for every scalar value. */
  lemma DecodeEncodeScalar(c: char)
    ensures DecodeScalar(EncodeScalar(c)) == Some(c)
  {
    var cp := c as int;
    var q1, lo := cp / 0x40, cp % 0x40;
    var q2, mid := q1 / 0x40, q1 % 0x40;
    var q3, upper := q2 / 0x40, q2 % 0x40;
    assert cp == q1 * 0x40 + lo && q1 == q2 * 0x40 + mid && q2 == q3 * 0x40 + upper;
    if cp < 0x80 {
    } else if cp < 0x800 {
      DecodeTwo(c, q1, lo);
    } else if cp < 0x1_0000 {
      DecodeThree(c, q2, mid, lo);
    } else {
      DecodeFour(c, q3, upper, mid, lo);
    }
  }

  lemma DecodeTwo(c: char, hi: int, lo: int)
    requires 0x80 <= c as int < 0x800
    requires 0 <= lo < 0x40 && c as int == hi * 0x40 + lo
    ensures DecodeScalar(EncodeScalar(c)) == Some(c)
  {
    EncodeTwo(c, hi, lo);
    assert LeadingOnes(0xC0 + hi) == 2 && IsContinuation(0x80 + lo);
  }

  lemma DecodeThree(c: char, hi: int, mid: int, lo: int)
    requires 0x800 <= c as int < 0x1_0000
    requires 0 <= mid < 0x40 && 0 <= lo < 0x40 && c as int == hi * 0x1000 + mid * 0x40 + lo
    ensures DecodeScalar(EncodeScalar(c)) == Some(c)
  {
    EncodeThree(c, hi, mid, lo);
    assert LeadingOnes(0xE0 + hi) == 3 && IsContinuation(0x80 + mid) && IsContinuation(0x80 + lo);
  }

  lemma DecodeFour(c: char, hi: int, upper: int, mid: int, lo: int)
    requires 0x1_0000 <= c as int
    requires 0 <= upper < 0x40 && 0 <= mid < 0x40 && 0 <= lo < 0x40
    requires c as int == hi * 0x4_0000 + upper * 0x1000 + mid * 0x40 + lo
    ensures DecodeScalar(EncodeScalar(c)) == Some(c)
  {
    EncodeFour(c, hi, upper, mid, lo);
    assert LeadingOnes(0xF0 + hi) == 4 && IsContinuation(0x80 + upper);
    assert IsContinuation(0x80 + mid) && IsContinuation(0x80 + lo);
  }

  /** Whatever the decoder accepts is the one canonical encoding of what it returns. */
  lemma DecodeScalarSound(bytes: seq<Byte>)
    ensures DecodeScalar(bytes).Some? ==> EncodeScalar(DecodeScalar(bytes).value) == bytes
  {
    var r := DecodeScalar(bytes);
    if r.Some? {
      var c := r.value;
      if |bytes| == 2 {
        EncodeTwo(c, bytes[0] - 0xC0, bytes[1] - 0x80);
      } else if |bytes| == 3 {
        EncodeThree(c, bytes[0] - 0xE0, bytes[1] - 0x80, bytes[2] - 0x80);
      } else if |bytes| == 4 {
        EncodeFour(c, bytes[0] - 0xF0, bytes[1] - 0x80, bytes[2] - 0x80, bytes[3] - 0x80);
      }
    }
  }

  /** An octet sequence is accepted exactly when it is the encoding of some scalar value. */
  lemma DecodeScalarAcceptsExactlyEncodings(bytes: seq<Byte>, c: char)
    ensures DecodeScalar(bytes) == Some(c) <==> EncodeScalar(c) == bytes
  {
    if EncodeScalar(c) == bytes {
      DecodeEncodeScalar(c);
    } else {
      DecodeScalarSound(bytes);
    }
  }

  /** The rupee sign U+20B9 takes three octets; an overlong form of '/', an encoded
      surrogate half and a value above U+10FFFF are refused. */
  lemma ScalarExamples()
    ensures EncodeScalar('\U{20B9}') == [0xE2, 0x82, 0xB9]
    ensures DecodeScalar([0xC0, 0xAF]) == None
    ensures DecodeScalar([0xED, 0xA0, 0x80]) == None
    ensures DecodeScalar([0xF4, 0x90, 0x80, 0x80]) == None
  {
  }
}
