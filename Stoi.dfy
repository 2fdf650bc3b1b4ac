/**
  The part of `std::stoi` (base 10) that the lines option relies on: leading
  white space is skipped, an optional sign is read, then at least one decimal
  digit; whatever follows the digits is ignored.
 */
module Stoi {
  import opened Wrappers

  /** The white-space characters of the "C" locale. */
  predicate IsSpace(c: char) {
    c == ' ' || c == '\t' || c == '\n' || c == '\U{000B}' || c == '\U{000C}' || c == '\r'
  }

  predicate IsDigit(c: char) {
    '0' <= c <= '9'
  }

  predicate AllDigits(s: string) {
    forall k :: 0 <= k < |s| ==> IsDigit(s[k])
  }

  function DigitValue(c: char): nat
    requires IsDigit(c)
  {
    c as int - '0' as int
  }

  function DigitChar(d: nat): (c: char)
    requires d < 10
    ensures IsDigit(c) && DigitValue(c) == d
  {
    ('0' as int + d) as char
  }

  /** The number of digits at the start of `s`. */
  function DigitPrefixLength(s: string): (n: nat)
    ensures n <= |s|
    ensures AllDigits(s[..n])
    ensures n < |s| ==> !IsDigit(s[n])
  {
    if s == [] || !IsDigit(s[0]) then 0 else 1 + DigitPrefixLength(s[1..])
  }

  /** The number a string of decimal digits denotes, most significant digit first. */
  function DecimalValue(ds: string): nat
    requires AllDigits(ds)
  {
    if ds == [] then 0 else 10 * DecimalValue(ds[..|ds| - 1]) + DigitValue(ds[|ds| - 1])
  }

  /** `s` without its leading white space. */
  function SkipSpaces(s: string): (t: string)
    ensures |t| <= |s| && t == s[|s| - |t|..]
    ensures t != [] ==> !IsSpace(t[0])
    ensures forall k :: 0 <= k < |s| - |t| ==> IsSpace(s[k])
  {
    if s != [] && IsSpace(s[0]) then SkipSpaces(s[1..]) else s
  }

  /** The number spelled by the digits at the start of `s`, if there is at least one. */
  function ReadDigits(s: string): Option<nat> {
    var n := DigitPrefixLength(s);
    if n == 0 then None else Some(DecimalValue(s[..n]))
  }

  /**
    `std::stoi(s)`; None where it throws `std::invalid_argument`, that is,
    where no digit follows the white space and the sign.
   */
  function StringToInt(s: string): (r: Option<int>)
    ensures r.Some? && r.value < 0 ==> var t := SkipSpaces(s); t != [] && t[0] == '-'
  {
    var t := SkipSpaces(s);
    if t != [] && t[0] == '-' then Negated(ReadDigits(t[1..]))
    else if t != [] && t[0] == '+' then Widened(ReadDigits(t[1..]))
    else Widened(ReadDigits(t))
  }

  function Negated(m: Option<nat>): Option<int> {
    match m
    case None => None
    case Some(v) => Some(-(v as int))
  }

  function Widened(m: Option<nat>): Option<int> {
    match m
    case None => None
    case Some(v) => Some(v as int)
  }

  /** The decimal spelling of `n`, without sign or leading zeros. */
  function Decimal(n: nat): (s: string)
    ensures |s| >= 1 && AllDigits(s)
  {
    if n < 10 then [DigitChar(n)] else Decimal(n / 10) + [DigitChar(n % 10)]
  }

  lemma {:induction false} DecimalValueOfDecimal(n: nat)
    ensures DecimalValue(Decimal(n)) == n
  {
    if n >= 10 {
      var s := Decimal(n);
      assert s[..|s| - 1] == Decimal(n / 10);
      DecimalValueOfDecimal(n / 10);
    }
  }

  lemma {:induction false} SkipLeadingSpaces(spaces: string, s: string)
    requires forall k :: 0 <= k < |spaces| ==> IsSpace(spaces[k])
    requires s == [] || !IsSpace(s[0])
    ensures SkipSpaces(spaces + s) == s
  {
    if spaces != [] {
      assert (spaces + s)[1..] == spaces[1..] + s;
      SkipLeadingSpaces(spaces[1..], s);
    }
  }

  /** Leading white space does not change what `std::stoi` reads. */
  lemma StringToIntAfterSpaces(spaces: string, s: string)
    requires forall k :: 0 <= k < |spaces| ==> IsSpace(spaces[k])
    requires s == [] || !IsSpace(s[0])
    ensures StringToInt(spaces + s) == StringToInt(s)
  {
    SkipLeadingSpaces(spaces, s);
  }

  /** The digits at the start of `s` are read up to the first non-digit. */
  lemma {:induction false} DigitPrefixOf(s: string, ds: string)
    requires AllDigits(ds) && ds <= s
    requires |s| == |ds| || !IsDigit(s[|ds|])
    ensures DigitPrefixLength(s) == |ds| && s[..|ds|] == ds
  {
    if ds != [] {
      DigitPrefixOf(s[1..], ds[1..]);
    }
  }

  /**
    `std::stoi` reads a string that starts with decimal digits as the number
    they spell and ignores whatever follows them.
   */
  lemma StringToIntOfDigits(s: string, ds: string)
    requires |ds| >= 1 && AllDigits(ds) && ds <= s
    requires |s| == |ds| || !IsDigit(s[|ds|])
    ensures StringToInt(s) == Some(DecimalValue(ds))
  {
    assert !IsSpace(s[0]);
    assert SkipSpaces(s) == s;
    DigitPrefixOf(s, ds);
  }

  /** After a sign, the digits read as the number or its negation. */
  lemma StringToIntOfSignedDigits(s: string, ds: string)
    requires |ds| >= 1 && AllDigits(ds)
    requires |s| > |ds| && (s[0] == '+' || s[0] == '-') && ds <= s[1..]
    requires |s| == |ds| + 1 || !IsDigit(s[|ds| + 1])
    ensures StringToInt(s) == Some(if s[0] == '-' then -(DecimalValue(ds) as int) else DecimalValue(ds))
  {
    assert !IsSpace(s[0]) && SkipSpaces(s) == s;
    var rest := s[1..];
    assert |rest| == |ds| || !IsDigit(rest[|ds|]);
    DigitPrefixOf(rest, ds);
    assert ReadDigits(rest) == Some(DecimalValue(ds));
  }

  /**
    Without a digit after the white space and the optional sign,
    `std::stoi` throws `std::invalid_argument`.
   */
  lemma StringToIntRejects(s: string)
    requires s == [] || (!IsSpace(s[0]) && !IsDigit(s[0]))
    requires |s| >= 1 && (s[0] == '+' || s[0] == '-') ==> |s| == 1 || !IsDigit(s[1])
    ensures StringToInt(s) == None
  {
    assert SkipSpaces(s) == s;
  }
}
