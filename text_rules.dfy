/** The small string rules the page handlers apply before building a message: the digit
    filter used on prices, the whitespace trimming used on the feedback text, and the decimal
    rendering of a number inside a template literal. */
module TextRules {

  /** `\d` in a regular expression without the `u` flag: the ASCII digits only. */
  predicate IsDigit(c: char)
  {
    '0' <= c <= '9'
  }

  /** price.replace(/[^\d]/g, ''): every character that is not a digit is dropped. */
  function DigitsOnly(s: string): (r: string)
    ensures forall i :: 0 <= i < |r| ==> IsDigit(r[i])
    ensures |r| <= |s|
    ensures (forall i :: 0 <= i < |s| ==> IsDigit(s[i])) ==> r == s
  {
    if s == [] then [] else (if IsDigit(s[0]) then [s[0]] else []) + DigitsOnly(s[1..])
  }

  /** Filtering a filtered price changes nothing. */
  lemma DigitsOnlyIdempotent(s: string)
    ensures DigitsOnly(DigitsOnly(s)) == DigitsOnly(s)
  {
  }

  /** The filter keeps every digit, as often as it occurs, and nothing else. */
  lemma {:induction false} DigitsOnlyCounts(s: string, c: char)
    ensures multiset(DigitsOnly(s))[c] == if IsDigit(c) then multiset(s)[c] else 0
  {
    if s != [] {
      DigitsOnlyCounts(s[1..], c);
      assert s == [s[0]] + s[1..];
      assert multiset(s) == multiset([s[0]]) + multiset(s[1..]);
    }
  }

  /** `r` can be obtained from `s` by deleting characters. */
  predicate IsSubsequence(r: string, s: string)
    decreases |s|
  {
    if r == [] then true
    else if s == [] then false
    else (r[0] == s[0] && IsSubsequence(r[1..], s[1..])) || IsSubsequence(r, s[1..])
  }

  /** The digits come out in the order they stood in. With DigitsOnlyCounts this pins the
      result down: the subsequence of all the digits of the input. */
  lemma {:induction false} DigitsOnlyIsSubsequence(s: string)
    ensures IsSubsequence(DigitsOnly(s), s)
  {
    if s != [] {
      DigitsOnlyIsSubsequence(s[1..]);
      if IsDigit(s[0]) {
        var r := DigitsOnly(s);
        assert r == [s[0]] + DigitsOnly(s[1..]);
        assert r[0] == s[0] && r[1..] == DigitsOnly(s[1..]);
      } else {
        var r := DigitsOnly(s);
        assert [] + DigitsOnly(s[1..]) == DigitsOnly(s[1..]);
        assert r == DigitsOnly(s[1..]);
        assert IsSubsequence(r, s[1..]);
      }
    }
  }

  /** The WhiteSpace and LineTerminator code points of sections 12.2 and 12.3 of ECMA-262
      (tab, vertical tab, form feed, the Zs space separators, ZWNBSP, LF, CR, LS, PS): what
      String.prototype.trim removes from both ends. */
  predicate IsTrimmable(c: char)
  {
    c in {'\t', '\U{B}', '\U{C}', ' ', '\U{A0}', '\U{1680}', '\U{202F}', '\U{205F}', '\U{3000}',
          '\U{FEFF}', '\n', '\r', '\U{2028}', '\U{2029}'}
    || '\U{2000}' <= c <= '\U{200A}'
  }

  /** Index of the first character that trim keeps. */
  function TrimStartIndex(s: string): (k: nat)
    ensures k <= |s|
    ensures forall i :: 0 <= i < k ==> IsTrimmable(s[i])
    ensures k < |s| ==> !IsTrimmable(s[k])
  {
    if s == [] || !IsTrimmable(s[0]) then 0 else 1 + TrimStartIndex(s[1..])
  }

  /** Index just after the last character that trim keeps. */
  function TrimEndIndex(s: string): (k: nat)
    ensures k <= |s|
    ensures forall i :: k <= i < |s| ==> IsTrimmable(s[i])
    ensures 0 < k ==> !IsTrimmable(s[k - 1])
  {
    if s == [] || !IsTrimmable(s[|s| - 1]) then |s| else TrimEndIndex(s[..|s| - 1])
  }

  /** String.prototype.trim. */
  function Trim(s: string): (r: string)
  {
    var start := TrimStartIndex(s);
    if start == |s| then [] else s[start..TrimEndIndex(s)]
  }

  /** `!text.trim()` holds exactly when the text is nothing but white space. */
  lemma TrimEmptyIffBlank(s: string)
    ensures Trim(s) == [] <==> forall i :: 0 <= i < |s| ==> IsTrimmable(s[i])
  {
    var start, end := TrimStartIndex(s), TrimEndIndex(s);
    if start < |s| {
      assert start < end;
    }
  }

  /** Trim keeps a contiguous middle part that neither starts nor ends with white space, and
      only white space is cut from either side. */
  lemma TrimKeepsMiddle(s: string)
    ensures Trim(s) == s[TrimStartIndex(s)..TrimStartIndex(s) + |Trim(s)|]
    ensures Trim(s) != [] ==> !IsTrimmable(Trim(s)[0]) && !IsTrimmable(Trim(s)[|Trim(s)| - 1])
    ensures forall i :: 0 <= i < TrimStartIndex(s) ==> IsTrimmable(s[i])
    ensures forall i :: TrimStartIndex(s) + |Trim(s)| <= i < |s| ==> IsTrimmable(s[i])
  {
    var start, end := TrimStartIndex(s), TrimEndIndex(s);
    if start < |s| {
      assert start < end;
    }
  }

  /** The character of a digit value. */
  function DigitChar(d: int): (c: char)
    requires 0 <= d < 10
    ensures IsDigit(c)
  {
    ('0' as int + d) as char
  }

  /** The digits of a natural number as a template literal writes them: no sign, no leading
      zero. */
  function NatToDecimal(n: nat): (r: string)
    ensures 1 <= |r|
    ensures forall i :: 0 <= i < |r| ==> IsDigit(r[i])
    ensures r[0] == '0' ==> n == 0
  {
    if n < 10 then [DigitChar(n)] else NatToDecimal(n / 10) + [DigitChar(n % 10)]
  }

  /** `${i}` for a safe integer (magnitude at most 2^53). */
  function IntToDecimal(i: int): (r: string)
    ensures 1 <= |r|
  {
    if i < 0 then "-" + NatToDecimal(-i) else NatToDecimal(i)
  }

  /** The number a string of digits denotes. */
  function DecimalValue(digits: string): nat
    requires forall i :: 0 <= i < |digits| ==> IsDigit(digits[i])
  {
    if digits == [] then 0
    else
      var last := digits[|digits| - 1];
      assert IsDigit(last);
      10 * DecimalValue(digits[..|digits| - 1]) + (last as int - '0' as int)
  }

  /** Reading the rendered digits back gives the number. */
  lemma {:induction false} NatToDecimalValue(n: nat)
    ensures DecimalValue(NatToDecimal(n)) == n
  {
    if n >= 10 {
      var r := NatToDecimal(n);
      assert r[..|r| - 1] == NatToDecimal(n / 10);
      NatToDecimalValue(n / 10);
    }
  }

  /** Different integers render differently. */
  lemma IntToDecimalInjective(i: int, j: int)
    requires IntToDecimal(i) == IntToDecimal(j)
    ensures i == j
  {
    if i < 0 && j < 0 {
      assert NatToDecimal(-i) == IntToDecimal(i)[1..];
      NatToDecimalValue(-i);
      NatToDecimalValue(-j);
    } else if 0 <= i && 0 <= j {
      NatToDecimalValue(i);
      NatToDecimalValue(j);
    }
  }
}
