/**
 * Decimal numbers as the client prints them and the server reads them, and
 * the `Content-Range` header built on top (section 14.4 of RFC 9110).
 */
module ContentRange {
  import opened Prelude

  predicate IsDigit(c: char) {
    '0' <= c <= '9'
  }

  predicate AllDigits(s: string) {
    forall i :: 0 <= i < |s| ==> IsDigit(s[i])
  }

  function DigitValue(c: char): (d: nat)
    requires IsDigit(c)
    ensures d < 10
  {
    c as int - '0' as int
  }

  function Digit(d: nat): (c: char)
    requires d < 10
    ensures IsDigit(c) && DigitValue(c) == d
  {
    (d + '0' as int) as char
  }

  /** How an unsigned integer is formatted. */
  function Decimal(n: nat): (s: string)
    ensures s != [] && AllDigits(s)
  {
    if n < 10 then [Digit(n)] else Decimal(n / 10) + [Digit(n % 10)]
  }

  /** The unbounded number that the digits `s` denote when they follow `acc`. */
  function ValueFrom(acc: nat, s: string): (v: nat)
    requires AllDigits(s)
    ensures v >= acc
    decreases |s|
  {
    if s == [] then acc else ValueFrom(acc * 10 + DigitValue(s[0]), s[1..])
  }

  /** The parser's digit loop: every multiplication and addition is checked against 64 bits. */
  function ParseDigits(acc: U64Int, s: string): (r: Option<U64Int>)
    decreases |s|
  {
    if s == [] then Some(acc)
    else if !IsDigit(s[0]) then None
    else if acc * 10 >= U64 || acc * 10 + DigitValue(s[0]) >= U64 then None
    else ParseDigits(acc * 10 + DigitValue(s[0]), s[1..])
  }

  /** An unsigned number may carry one leading plus sign. */
  function Unsigned(s: string): string {
    if s != [] && s[0] == '+' then s[1..] else s
  }

  function ParseU64(s: string): (r: Option<U64Int>) {
    var digits := Unsigned(s);
    if digits == [] then None else ParseDigits(0, digits)
  }

  function StripPrefix(s: string, prefix: string): Option<string> {
    if prefix <= s then Some(s[|prefix|..]) else None
  }

  const BYTES_UNIT := "bytes "

  function ParseResumeOffset(header: Option<string>): (r: Option<U64Int>) {
    match header
    case None => None
    case Some(raw) =>
      match StripPrefix(raw, BYTES_UNIT)
      case None => None
      case Some(rest) => ParseU64(Before(rest, '-'))
  }

  function SaturatingPred(n: nat): nat {
    if n == 0 then 0 else n - 1
  }

  /** The header a resuming client sends. */
  function FormatContentRange(resumeFrom: nat, total: nat): string {
    BYTES_UNIT + Decimal(resumeFrom) + "-" + Decimal(SaturatingPred(total)) + "/" + Decimal(total)
  }

  lemma {:induction false} ValueFromAppend(acc: nat, s: string, c: char)
    requires AllDigits(s) && IsDigit(c)
    ensures AllDigits(s + [c])
    ensures ValueFrom(acc, s + [c]) == ValueFrom(acc, s) * 10 + DigitValue(c)
    decreases |s|
  {
    if s == [] {
      assert ([c])[1..] == [];
    } else {
      ValueFromAppend(acc * 10 + DigitValue(s[0]), s[1..], c);
      assert (s + [c])[1..] == s[1..] + [c];
    }
  }

  lemma {:induction false} DecimalValue(n: nat)
    ensures ValueFrom(0, Decimal(n)) == n
  {
    if n < 10 {
      assert Decimal(n)[1..] == [];
    } else {
      DecimalValue(n / 10);
      ValueFromAppend(0, Decimal(n / 10), Digit(n % 10));
    }
  }

  /** Checking each step for overflow is the same as checking the final value. */
  lemma {:induction false} ParseDigitsExact(acc: U64Int, s: string)
    ensures ParseDigits(acc, s) ==
            if AllDigits(s) && ValueFrom(acc, s) < U64 then Some(ValueFrom(acc, s)) else None
    decreases |s|
  {
    if s == [] {
    } else if !IsDigit(s[0]) {
    } else {
      assert AllDigits(s) <==> AllDigits(s[1..]) by {
        assert forall i :: 0 < i < |s| ==> s[i] == s[1..][i - 1];
      }
      if acc * 10 + DigitValue(s[0]) < U64 {
        ParseDigitsExact(acc * 10 + DigitValue(s[0]), s[1..]);
      }
    }
  }

  /** The parser accepts exactly the 64-bit decimals, with the value the digits denote. */
  lemma ParseU64Exact(s: string)
    ensures var d := Unsigned(s);
            ParseU64(s) == if d != [] && AllDigits(d) && ValueFrom(0, d) < U64
                           then Some(ValueFrom(0, d)) else None
  {
    ParseDigitsExact(0, Unsigned(s));
  }

  lemma DecimalRoundTrip(n: U64Int)
    ensures ParseU64(Decimal(n)) == Some(n)
  {
    assert Unsigned(Decimal(n)) == Decimal(n) by {
      assert IsDigit(Decimal(n)[0]);
    }
    ParseU64Exact(Decimal(n));
    DecimalValue(n);
  }

  /** Printing writes the digits of a number from the last one up. */
  lemma DecimalExact(n: nat)
    ensures Decimal(n) == if n < 10 then ["0123456789"[n]] else Decimal(n / 10) + ["0123456789"[n % 10]]
  {
  }

  /** Reading weighs each digit ten times the next. */
  lemma ValueExact(s: string, d: nat)
    requires AllDigits(s) && d < 10
    ensures AllDigits(s + ["0123456789"[d]]) && ValueFrom(0, "") == 0
    ensures ValueFrom(0, s + ["0123456789"[d]]) == ValueFrom(0, s) * 10 + d
  {
    ValueFromAppend(0, s, "0123456789"[d]);
  }

  /** `s` is a number below 2^64 as the parser takes it: an optional plus and digits that denote `n`. */
  ghost predicate NamesNumber(s: string, n: nat) {
    exists sign, digits :: NumberIn(s, sign, digits, n)
  }

  ghost predicate NumberIn(s: string, sign: string, digits: string, n: nat) {
    && s == sign + digits && (sign == "" || sign == "+")
    && digits != [] && AllDigits(digits) && ValueFrom(0, digits) == n < U64
  }

  /** The parser answers `n` iff the text names it. */
  lemma ParseU64Names(s: string, n: U64Int)
    ensures ParseU64(s) == Some(n) <==> NamesNumber(s, n)
  {
    ParseU64Exact(s);
    if ParseU64(s) == Some(n) {
      var sign := UnsignedSplits(s);
      assert NumberIn(s, sign, Unsigned(s), n);
    }
    forall sign, digits | NumberIn(s, sign, digits, n) ensures Unsigned(s) == digits {
      if sign == "+" {
        assert s[1..] == digits;
      } else {
        assert s == digits && IsDigit(digits[0]);
      }
    }
  }

  /** The header in full: unit, first and last byte, total. */
  lemma ContentRangeText(resumeFrom: nat, total: nat)
    requires total > 0
    ensures FormatContentRange(resumeFrom, total) ==
            "bytes " + Decimal(resumeFrom) + "-" + Decimal(total - 1) + "/" + Decimal(total)
    ensures FormatContentRange(5, 10) == "bytes 5-9/10"
  {
    assert Decimal(10) == Decimal(1) + Decimal(0) == "10";
  }

  /** The server reads back the offset the client printed, whatever the total. */
  lemma ContentRangeRoundTrip(resumeFrom: U64Int, total: nat)
    ensures ParseResumeOffset(Some(FormatContentRange(resumeFrom, total))) == Some(resumeFrom)
  {
    var tail := "-" + Decimal(SaturatingPred(total)) + "/" + Decimal(total);
    var header := FormatContentRange(resumeFrom, total);
    var rest := Decimal(resumeFrom) + tail;
    assert header == BYTES_UNIT + rest;
    assert header[|BYTES_UNIT|..] == rest;
    assert '-' !in Decimal(resumeFrom);
    BeforeUnique(rest, '-', Decimal(resumeFrom));
    DecimalRoundTrip(resumeFrom);
  }

  /**
   * Which headers name an offset: the unit, an optional plus, digits that fit in
   * 64 bits, then the end or a dash. What follows the dash is never looked at.
   */
  ghost predicate NamesOffset(raw: string, sign: string, digits: string, tail: string, offset: nat) {
    && raw == BYTES_UNIT + ((sign + digits) + tail)
    && (sign == "" || sign == "+")
    && digits != [] && AllDigits(digits)
    && (tail == "" || tail[0] == '-')
    && ValueFrom(0, digits) == offset < U64
  }

  lemma {:induction false} OffsetNamed(raw: string, sign: string, digits: string, tail: string, offset: nat)
    requires NamesOffset(raw, sign, digits, tail, offset)
    ensures ParseResumeOffset(Some(raw)) == Some(offset)
  {
    var number := sign + digits;
    assert raw[|BYTES_UNIT|..] == number + tail;
    assert '-' !in number;
    BeforeUnique(number + tail, '-', number);
    assert Unsigned(number) == digits by {
      if sign == "+" {
        assert number[1..] == digits;
      } else {
        assert number == digits && IsDigit(digits[0]);
      }
    }
    ParseU64Exact(number);
  }

  lemma UnsignedSplits(number: string) returns (sign: string)
    ensures number == sign + Unsigned(number) && (sign == "" || sign == "+")
  {
    sign := if number != [] && number[0] == '+' then "+" else "";
    if sign == "+" {
      assert number == [number[0]] + number[1..];
    }
  }

  lemma OffsetParsed(raw: string) returns (sign: string, digits: string, tail: string)
    requires ParseResumeOffset(Some(raw)).Some?
    ensures NamesOffset(raw, sign, digits, tail, ParseResumeOffset(Some(raw)).value)
  {
    var rest := raw[|BYTES_UNIT|..];
    var number := Before(rest, '-');
    ParseU64Exact(number);
    digits, tail := Unsigned(number), rest[|number|..];
    assert rest == number + tail && raw == BYTES_UNIT + rest;
    assert ParseResumeOffset(Some(raw)) == ParseU64(number);
    hide Before, ParseU64, ParseResumeOffset, Unsigned, ValueFrom;
    sign := UnsignedSplits(number);
  }

  /** Acceptance in both directions: the parser answers `offset` iff the header names it. */
  lemma ParseResumeOffsetExact(raw: string, offset: U64Int)
    ensures ParseResumeOffset(Some(raw)) == Some(offset) <==>
            exists sign, digits, tail :: NamesOffset(raw, sign, digits, tail, offset)
  {
    if ParseResumeOffset(Some(raw)) == Some(offset) {
      var sign, digits, tail := OffsetParsed(raw);
    }
    forall sign, digits, tail | NamesOffset(raw, sign, digits, tail, offset)
      ensures ParseResumeOffset(Some(raw)) == Some(offset)
    {
      OffsetNamed(raw, sign, digits, tail, offset);
    }
  }
}
