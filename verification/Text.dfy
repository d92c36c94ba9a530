/** Decimal numbers and segment file names, as Rust's `parse::<u64>` and `format!` treat them. */
module Text {
  import opened Prelude

  const U64_MAX := 0xFFFF_FFFF_FFFF_FFFF

  predicate IsDigit(c: char) {
    '0' <= c <= '9'
  }

  function DigitValue(c: char): nat
    requires IsDigit(c)
  {
    (c - '0') as nat
  }

  function Digit(d: nat): (c: char)
    requires d < 10
    ensures IsDigit(c) && DigitValue(c) == d
  {
    '0' + d as char
  }

  predicate AllDigits(s: string) {
    forall i :: 0 <= i < |s| ==> IsDigit(s[i])
  }

  function DecimalValue(s: string): nat
    requires AllDigits(s)
  {
    if s == "" then 0 else 10 * DecimalValue(s[..|s| - 1]) + DigitValue(s[|s| - 1])
  }

  /** An optional plus sign and at least one digit, within range. */
  function ParseU64(s: string): Option<u64> {
    var digits := if s != "" && s[0] == '+' then s[1..] else s;
    if digits == "" || !AllDigits(digits) || DecimalValue(digits) > U64_MAX then None
    else Some(DecimalValue(digits))
  }

  function Format(n: nat): (s: string)
    ensures s != "" && AllDigits(s)
  {
    if n < 10 then [Digit(n)] else Format(n / 10) + [Digit(n % 10)]
  }

  lemma {:induction false} FormatValue(n: nat)
    ensures DecimalValue(Format(n)) == n
  {
    if n >= 10 {
      FormatValue(n / 10);
      assert Format(n)[..|Format(n)| - 1] == Format(n / 10);
    } else {
      assert Format(n)[..0] == "";
    }
  }

  lemma ParseFormat(n: u64)
    ensures ParseU64(Format(n)) == Some(n)
  {
    FormatValue(n);
    assert IsDigit(Format(n)[0]);
  }

  /** Exactly the texts of one or more digits, after an optional plus sign, whose number fits 64 bits. */
  lemma ParsesExactly(s: string, n: u64)
    ensures ParseU64(s) == Some(n) <==>
      exists digits :: (s == digits || s == "+" + digits) && digits != "" && AllDigits(digits) && DecimalValue(digits) == n
  {
    if ParseU64(s) == Some(n) {
      var digits := if s != "" && s[0] == '+' then s[1..] else s;
      assert s == digits || s == "+" + digits;
    }
    if digits :| (s == digits || s == "+" + digits) && digits != "" && AllDigits(digits) && DecimalValue(digits) == n {
      assert IsDigit(digits[0]);
      assert s == "+" + digits ==> s[1..] == digits;
    }
  }

  predicate StartsWith(s: string, prefix: string) {
    prefix <= s
  }

  /** `seg_<number>.ts` */
  function SegmentNumber(name: string): Option<u64> {
    if !StartsWith(name, "seg_") then None
    else
      var rest := name[4..];
      if |rest| < 3 || rest[|rest| - 3..] != ".ts" then None
      else ParseU64(rest[..|rest| - 3])
  }

  function SegmentName(n: nat): string {
    "seg_" + Format(n) + ".ts"
  }

  lemma SegmentNameRoundTrip(n: u64)
    ensures SegmentNumber(SegmentName(n)) == Some(n)
  {
    var rest := SegmentName(n)[4..];
    assert rest == Format(n) + ".ts";
    assert rest[..|rest| - 3] == Format(n) && rest[|rest| - 3..] == ".ts";
    ParseFormat(n);
  }

  /** Exactly the names of that form. */
  lemma SegmentNumberExactly(name: string, n: u64)
    ensures SegmentNumber(name) == Some(n) <==>
      exists number :: name == "seg_" + number + ".ts" && ParseU64(number) == Some(n)
  {
    hide ParseU64;
    if SegmentNumber(name) == Some(n) {
      var rest := name[4..];
      assert name == name[..4] + rest && rest == rest[..|rest| - 3] + rest[|rest| - 3..];
      assert name == "seg_" + rest[..|rest| - 3] + ".ts";
    }
    if number :| name == "seg_" + number + ".ts" && ParseU64(number) == Some(n) {
      assert name[4..] == number + ".ts";
      assert name[4..][..|name[4..]| - 3] == number && name[4..][|name[4..]| - 3..] == ".ts";
    }
  }

  /** `valid_filename`: no path separators, no hidden files, printable ASCII, at most 255 characters. */
  predicate ValidFilename(name: string) {
    && 0 < |name| <= 255
    && '/' !in name
    && '\\' !in name
    && name[0] != '.'
    && forall i :: 0 <= i < |name| ==> '!' <= name[i] <= '~'
  }
}
