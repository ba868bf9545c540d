/** WAL positions as text, "hi/lo" in upper-case hexadecimal, written by both readers and parsed by the Go one. */
module LsnText {
  import opened Bytes
  import opened Options

  const LO_DIGITS: nat := 8

  function HexDigit(d: nat): char
    requires d < 16
  {
    "0123456789ABCDEF"[d]
  }

  /** Scanning accepts both cases, formatting writes upper case. */
  function HexValue(c: char): (v: Option<nat>)
    ensures v.Some? ==> v.value < 16
  {
    if '0' <= c <= '9' then Some(c as int - '0' as int)
    else if 'A' <= c <= 'F' then Some(c as int - 'A' as int + 10)
    else if 'a' <= c <= 'f' then Some(c as int - 'a' as int + 10)
    else None
  }

  predicate IsHex(s: string) {
    forall i :: 0 <= i < |s| ==> HexValue(s[i]).Some?
  }

  /** The verb %X: no leading zeros, one digit for zero. */
  function Hex(n: nat): (s: string)
    ensures |s| > 0 && IsHex(s)
  {
    if n < 16 then [HexDigit(n)] else Hex(n / 16) + [HexDigit(n % 16)]
  }

  /** The verb %0wX. */
  function HexPadded(n: nat, width: nat): (s: string)
    ensures |s| >= width && IsHex(s)
  {
    var digits := Hex(n);
    if |digits| >= width then digits else seq(width - |digits|, _ => '0') + digits
  }

  function FormatLSN(hi: u32, lo: u32): string {
    Hex(hi) + "/" + HexPadded(lo, LO_DIGITS)
  }

  function FormatLSN64(lsn: u64): string {
    FormatLSN(lsn / TWO_32, lsn % TWO_32)
  }

  // ---- parsing ----

  /** The longest prefix of hexadecimal digits. */
  function HexPrefix(s: string): (digits: string)
    ensures digits <= s && IsHex(digits)
    ensures |digits| < |s| ==> HexValue(s[|digits|]).None?
  {
    if s == [] || HexValue(s[0]).None? then [] else [s[0]] + HexPrefix(s[1..])
  }

  function HexNumber(s: string): nat
    requires IsHex(s)
  {
    if s == [] then 0 else 16 * HexNumber(s[..|s| - 1]) + HexValue(s[|s| - 1]).value
  }

  /** Scanning "%X" into a uint32: what follows the digits is ignored; no digits or too large a number leave 0. */
  function ScanHex32(s: string): u32 {
    var n := HexNumber(HexPrefix(s));
    if n < TWO_32 then n else 0
  }

  function Split(s: string, sep: char): (parts: seq<string>)
    ensures |parts| > 0
  {
    if s == [] then [""]
    else
      var rest := Split(s[1..], sep);
      if s[0] == sep then [""] + rest else [[s[0]] + rest[0]] + rest[1..]
  }

  datatype ParseResult = Parsed(hi: u32, lo: u32) | InvalidFormat

  function ParseLSN(lsn: string): ParseResult {
    var parts := Split(lsn, '/');
    if |parts| != 2 then InvalidFormat else Parsed(ScanHex32(parts[0]), ScanHex32(parts[1]))
  }

  // ---- round trips ----

  lemma DigitRoundTrip(d: nat)
    requires d < 16
    ensures HexValue(HexDigit(d)) == Some(d)
  {
  }

  lemma {:induction false} HexRoundTrip(n: nat)
    ensures HexNumber(Hex(n)) == n
  {
    hide HexDigit, HexValue;
    DigitRoundTrip(n % 16);
    var s := Hex(n);
    if n < 16 {
      assert s[..|s| - 1] == [];
    } else {
      HexRoundTrip(n / 16);
      assert s[..|s| - 1] == Hex(n / 16);
    }
  }

  lemma {:induction false} LeadingZeros(zeros: string, digits: string)
    requires IsHex(digits) && forall i :: 0 <= i < |zeros| ==> zeros[i] == '0'
    ensures IsHex(zeros + digits) && HexNumber(zeros + digits) == HexNumber(digits)
    decreases |zeros| + |digits|
  {
    var s := zeros + digits;
    if digits != [] {
      assert s[..|s| - 1] == zeros + digits[..|digits| - 1];
      LeadingZeros(zeros, digits[..|digits| - 1]);
    } else if zeros != [] {
      assert s[..|s| - 1] == zeros[..|zeros| - 1] + [];
      LeadingZeros(zeros[..|zeros| - 1], []);
    }
  }

  lemma PaddedRoundTrip(n: nat, width: nat)
    ensures HexNumber(HexPadded(n, width)) == n
  {
    HexRoundTrip(n);
    if |Hex(n)| < width { LeadingZeros(seq(width - |Hex(n)|, _ => '0'), Hex(n)); }
  }

  lemma {:induction false} AllHexIsPrefix(s: string)
    requires IsHex(s)
    ensures HexPrefix(s) == s
  {
    if s != [] {
      AllHexIsPrefix(s[1..]);
      assert s == [s[0]] + s[1..];
    }
  }

  lemma {:induction false} SplitWhole(s: string, sep: char)
    requires sep !in s
    ensures Split(s, sep) == [s]
  {
    if s != [] {
      SplitWhole(s[1..], sep);
      assert [s[0]] + s[1..] == s;
    }
  }

  lemma {:induction false} SplitOnce(left: string, sep: char, right: string)
    requires sep !in left && sep !in right
    ensures Split(left + [sep] + right, sep) == [left, right]
  {
    var s := left + [sep] + right;
    if left == [] {
      assert s[1..] == right;
      SplitWhole(right, sep);
    } else {
      assert s[1..] == left[1..] + [sep] + right;
      SplitOnce(left[1..], sep, right);
      assert [left[0]] + left[1..] == left;
    }
  }

  lemma ParseFormat(hi: u32, lo: u32)
    ensures ParseLSN(FormatLSN(hi, lo)) == Parsed(hi, lo)
  {
    var l, r := Hex(hi), HexPadded(lo, LO_DIGITS);
    assert HexValue('/').None?;
    SplitOnce(l, '/', r);
    AllHexIsPrefix(l);
    AllHexIsPrefix(r);
    HexRoundTrip(hi);
    PaddedRoundTrip(lo, LO_DIGITS);
  }

  /** Upper-case hexadecimal digits only. */
  predicate UpperHex(s: string) {
    forall i :: 0 <= i < |s| ==> '0' <= s[i] <= '9' || 'A' <= s[i] <= 'F'
  }

  lemma {:induction false} HexShape(n: nat)
    ensures UpperHex(Hex(n)) && (n > 0 ==> Hex(n)[0] != '0') && (n == 0 ==> Hex(n) == "0")
  {
    if n >= 16 { HexShape(n / 16); }
  }

  lemma {:induction false} HexLength(n: nat, bound: nat, digits: nat)
    requires n < bound && digits > 0 && bound == Power16(digits)
    ensures |Hex(n)| <= digits
  {
    if n >= 16 { HexLength(n / 16, Power16(digits - 1), digits - 1); }
  }

  function Power16(k: nat): nat { if k == 0 then 1 else 16 * Power16(k - 1) }

  /** An LSN text: a high part without leading zeros, a slash, and exactly eight digits; upper case throughout. */
  lemma FormatShape(hi: u32, lo: u32) returns (high: string, low: string)
    ensures FormatLSN(hi, lo) == high + "/" + low
    ensures UpperHex(high) && |high| > 0 && (high[0] == '0' ==> high == "0")
    ensures UpperHex(low) && |low| == 8
  {
    high, low := Hex(hi), HexPadded(lo, LO_DIGITS);
    HexShape(hi);
    HexShape(lo);
    assert Power16(8) == 16 * (16 * (16 * (16 * Power16(4)))) && Power16(4) == 0x1_0000;
    HexLength(lo, TWO_32, 8);
  }

  /** Comparing LSN texts is comparing LSN values. */
  lemma FormatInjective(a: u64, b: u64)
    ensures FormatLSN64(a) == FormatLSN64(b) <==> a == b
  {
    ParseFormat(a / TWO_32, a % TWO_32);
    ParseFormat(b / TWO_32, b % TWO_32);
  }

  /** Parsing accepts a text exactly when it has one slash, whatever stands around it. */
  lemma {:induction false} SplitParts(s: string, sep: char)
    ensures |Split(s, sep)| == multiset(s)[sep] + 1
  {
    if s != [] {
      SplitParts(s[1..], sep);
      assert s == [s[0]] + s[1..];
    }
  }
}
