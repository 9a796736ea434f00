/** encodeURIComponent and decodeURIComponent as section 19.2.6 of ECMA-262 defines them
    (the abstract operations Encode and Decode with an empty preserve set).

    A string here is a sequence of Unicode scalar values, so it can hold no lone surrogate:
    that is the well-formed input on which encodeURIComponent never throws. The UTF-16 view
    of the host (one code point taking two code units) is not needed: Encode reads a whole
    code point at a time and emits its UTF-8 octets, which is what happens here per char. */
module UriComponent {
  import opened Wrappers
  import opened Utf8

  /** The characters encodeURIComponent leaves as they are: uriAlpha, DecimalDigit and
      uriMark (section 19.2.6.5 of ECMA-262). */
  predicate IsUnreserved(c: char)
  {
    'A' <= c <= 'Z' || 'a' <= c <= 'z' || '0' <= c <= '9' || c in "-_.!~*'()"
  }

  /** An upper-case hexadecimal digit, as Encode writes them. */
  predicate IsUpperHex(c: char)
  {
    '0' <= c <= '9' || 'A' <= c <= 'F'
  }

  /** The upper-case hexadecimal digit of a value below 16. */
  function HexDigit(d: int): (c: char)
    requires 0 <= d < 16
    ensures IsUpperHex(c) && IsUnreserved(c)
    ensures HexValue(c) == Some(d)
  {
    if d < 10 then ('0' as int + d) as char else ('A' as int + d - 10) as char
  }

  /** The value of a hexadecimal digit of either case; the decoder accepts both. */
  function HexValue(c: char): (r: Option<int>)
    ensures r.Some? ==> 0 <= r.value < 16
  {
    if '0' <= c <= '9' then Some(c as int - '0' as int)
    else if 'A' <= c <= 'F' then Some(c as int - 'A' as int + 10)
    else if 'a' <= c <= 'f' then Some(c as int - 'a' as int + 10)
    else None
  }

  /** "%XX" for one octet. */
  function EscapeOctet(b: Byte): string
  {
    ['%', HexDigit(b / 16), HexDigit(b % 16)]
  }

  /** One "%XX" per octet, in order. */
  function EscapeOctets(bytes: seq<Byte>): (e: string)
    ensures |e| == 3 * |bytes|
    ensures forall i :: 0 <= i < |e| ==> IsUnreserved(e[i]) || e[i] == '%'
  {
    if bytes == [] then [] else EscapeOctet(bytes[0]) + EscapeOctets(bytes[1..])
  }

  /** How Encode writes one character of the input. */
  function EncodeChar(c: char): (e: string)
    ensures 1 <= |e|
    ensures forall i :: 0 <= i < |e| ==> IsUnreserved(e[i]) || e[i] == '%'
  {
    if IsUnreserved(c) then [c] else EscapeOctets(EncodeScalar(c))
  }

  /** encodeURIComponent(s). Every character of the result is unreserved or '%'; in
      particular no space, line break, '&', '?', '#', '+' or '=' survives, so the result can
      stand as one query value. Text made only of unreserved characters is returned as is. */
  function EncodeUriComponent(s: string): (r: string)
    ensures forall i :: 0 <= i < |r| ==> IsUnreserved(r[i]) || r[i] == '%'
    ensures |s| <= |r|
    ensures (forall i :: 0 <= i < |s| ==> IsUnreserved(s[i])) ==> r == s
  {
    if s == [] then [] else EncodeChar(s[0]) + EncodeUriComponent(s[1..])
  }

  /** The octet that a three-character escape "%XX" denotes (ParseHexOctet after the '%'). */
  function ParseEscape(e: string): Option<Byte>
    requires |e| == 3
  {
    match (HexValue(e[1]), HexValue(e[2]))
    case (Some(hi), Some(lo)) => if e[0] == '%' then Some(hi * 16 + lo) else None
    case _ => None
  }

  /** The octets of a run of escapes, if every group of three characters is one. */
  function ParseEscapes(s: string): Option<seq<Byte>>
    requires |s| % 3 == 0
  {
    if s == [] then Some([])
    else match (ParseEscape(s[..3]), ParseEscapes(s[3..]))
      case (Some(b), Some(rest)) => Some([b] + rest)
      case _ => None
  }

  /** Decoding of the escape run for one character at the start of `s` (which starts with
      '%'): the character and the number of input characters the run takes. None is where
      Decode throws URIError: a truncated or non-hexadecimal escape, a lead octet of length
      1 or above 4, too few escapes left, or octets that are not a valid UTF-8 encoding. */
  function DecodeEscape(s: string): (r: Option<(char, nat)>)
    requires |s| > 0 && s[0] == '%'
    ensures r.Some? ==> 3 <= r.value.1 <= |s|
  {
    if |s| < 3 then None
    else match ParseEscape(s[..3])
      case None => None
      case Some(b) =>
        var n := LeadingOnes(b);
        if n == 0 then Some((b as char, 3))
        else if n == 1 || n > 4 || |s| < 3 * n then None
        else match ParseEscapes(s[..3 * n])
          case None => None
          case Some(octets) =>
            match DecodeScalar(octets)
            case None => None
            case Some(c) => Some((c, 3 * n))
  }

  /** `c` in front of a decoded rest, if there is one. */
  function Prepend(c: char, rest: Option<string>): Option<string>
  {
    match rest
    case None => None
    case Some(t) => Some([c] + t)
  }

  /** decodeURIComponent(s); None where it throws URIError. */
  function DecodeUriComponent(s: string): Option<string>
    decreases |s|
  {
    if s == [] then Some([])
    else if s[0] != '%' then Prepend(s[0], DecodeUriComponent(s[1..]))
    else match DecodeEscape(s)
      case None => None
      case Some((c, used)) => Prepend(c, DecodeUriComponent(s[used..]))
  }

  /** The escape of an octet reads back as that octet. */
  lemma ParseEscapeOctet(b: Byte)
    ensures ParseEscape(EscapeOctet(b)) == Some(b)
  {
  }

  lemma {:induction false} ParseEscapeOctets(bytes: seq<Byte>)
    ensures ParseEscapes(EscapeOctets(bytes)) == Some(bytes)
  {
    if bytes != [] {
      var e := EscapeOctets(bytes);
      assert e[..3] == EscapeOctet(bytes[0]) && e[3..] == EscapeOctets(bytes[1..]);
      ParseEscapeOctet(bytes[0]);
      ParseEscapeOctets(bytes[1..]);
      assert [bytes[0]] + bytes[1..] == bytes;
    }
  }

  /** Decoding the encoding of one character gives that character back and resumes exactly
      where the encoding ends. */
  lemma DecodeEncodeChar(c: char, rest: string)
    ensures DecodeUriComponent(EncodeChar(c) + rest) == Prepend(c, DecodeUriComponent(rest))
  {
    var s := EncodeChar(c) + rest;
    if IsUnreserved(c) {
      assert s[0] == c && s[1..] == rest;
    } else {
      var bytes := EncodeScalar(c);
      var e := EscapeOctets(bytes);
      assert e[..3] == EscapeOctet(bytes[0]);
      assert s[..3] == e[..3];
      ParseEscapeOctet(bytes[0]);
      if |bytes| == 1 {
        assert DecodeEscape(s) == Some((c, 3));
        assert s[3..] == rest;
      } else {
        var n := |bytes|;
        assert s[..3 * n] == e && s[3 * n..] == rest;
        ParseEscapeOctets(bytes);
        DecodeEncodeScalar(c);
        assert DecodeEscape(s) == Some((c, 3 * n));
      }
    }
  }

  /** decodeURIComponent(encodeURIComponent(s)) == s for every well-formed string. */
  lemma {:induction false} DecodeEncode(s: string)
    ensures DecodeUriComponent(EncodeUriComponent(s)) == Some(s)
  {
    if s != [] {
      DecodeEncode(s[1..]);
      DecodeEncodeChar(s[0], EncodeUriComponent(s[1..]));
      assert [s[0]] + s[1..] == s;
    }
  }

  /** Different messages never share an encoding. */
  lemma EncodeInjective(s: string, t: string)
    requires EncodeUriComponent(s) == EncodeUriComponent(t)
    ensures s == t
  {
    DecodeEncode(s);
    DecodeEncode(t);
  }

  /** A run of unreserved characters and "%XX" escapes with upper-case digits: the only
      shape encodeURIComponent produces. */
  predicate IsEscapedForm(t: string)
    decreases |t|
  {
    if t == [] then true
    else if IsUnreserved(t[0]) then IsEscapedForm(t[1..])
    else t[0] == '%' && |t| >= 3 && IsUpperHex(t[1]) && IsUpperHex(t[2]) && IsEscapedForm(t[3..])
  }

  lemma {:induction false} EscapedFormAppend(a: string, b: string)
    requires IsEscapedForm(a) && IsEscapedForm(b)
    ensures IsEscapedForm(a + b)
  {
    if a != [] {
      if IsUnreserved(a[0]) {
        assert (a + b)[1..] == a[1..] + b;
        EscapedFormAppend(a[1..], b);
      } else {
        assert (a + b)[3..] == a[3..] + b;
        EscapedFormAppend(a[3..], b);
      }
    } else {
      assert a + b == b;
    }
  }

  lemma {:induction false} EscapeOctetsEscapedForm(bytes: seq<Byte>)
    ensures IsEscapedForm(EscapeOctets(bytes))
  {
    if bytes != [] {
      var e := EscapeOctet(bytes[0]);
      assert IsEscapedForm(e[3..]);
      EscapeOctetsEscapedForm(bytes[1..]);
      EscapedFormAppend(e, EscapeOctets(bytes[1..]));
    }
  }

  /** Every '%' in the output of encodeURIComponent opens a "%XX" escape. */
  lemma {:induction false} EncodeEscapedForm(s: string)
    ensures IsEscapedForm(EncodeUriComponent(s))
  {
    if s != [] {
      if IsUnreserved(s[0]) {
        assert IsEscapedForm([s[0]]);
      } else {
        EscapeOctetsEscapedForm(EncodeScalar(s[0]));
      }
      EncodeEscapedForm(s[1..]);
      EscapedFormAppend(EncodeChar(s[0]), EncodeUriComponent(s[1..]));
    }
  }

  /** Space and line break are escaped as single octets; a '%' that does not start a
      complete escape is refused. */
  lemma EscapeExamples()
    ensures EncodeChar(' ') == "%20" && EncodeChar('\n') == "%0A" && EncodeChar('%') == "%25"
    ensures DecodeUriComponent("%4") == None
  {
  }
}
