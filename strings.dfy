/**
 * The handful of JavaScript string operations the app relies on, over `seq<char>`:
 * `Number.prototype.toString` in base 10 and 16, `padStart`, `split` on one
 * character, `join`, ASCII case mapping, and the digit-reading side of `Number(s)`
 * and `parseInt(s, 16)`.
 */
module Strings {
  import opened Wrappers

  predicate IsDigit(c: char) {
    '0' <= c <= '9'
  }

  predicate AllDigits(s: string) {
    forall i :: 0 <= i < |s| ==> IsDigit(s[i])
  }

  function DigitChar(d: nat): (c: char)
    requires d < 10
    ensures IsDigit(c)
  {
    ('0' as int + d) as char
  }

  function DigitValue(c: char): (d: nat)
    requires IsDigit(c)
    ensures d < 10
  {
    c as int - '0' as int
  }

  /** `n.toString()` for a non-negative integer. */
  function NatToString(n: nat): (s: string)
    ensures |s| >= 1 && AllDigits(s)
    decreases n
  {
    if n < 10 then [DigitChar(n)] else NatToString(n / 10) + [DigitChar(n % 10)]
  }

  /** `i.toString()` (`${i}`) for any integer. */
  function IntToString(i: int): string {
    if i < 0 then "-" + NatToString(-i) else NatToString(i)
  }

  /** `s.padStart(width, c)` with a one-character pad string. */
  function PadStart(s: string, width: nat, c: char): (r: string)
    ensures |r| == if |s| >= width then |s| else width
    ensures r[|r| - |s|..] == s
    ensures forall i :: 0 <= i < |r| - |s| ==> r[i] == c
  {
    if |s| >= width then s else seq(width - |s|, _ => c) + s
  }

  /** `s.padStart(2, '0')`, used for every month, day, minute and hex channel. */
  function Pad2(s: string): string {
    PadStart(s, 2, '0')
  }

  /** The value of a string of decimal digits. */
  function DigitsValue(s: string): nat
    requires AllDigits(s)
  {
    if s == [] then 0 else DigitsValue(s[..|s| - 1]) * 10 + DigitValue(s[|s| - 1])
  }

  /**
   * `Number(s)` restricted to what date keys contain: the empty string is 0, a
   * string of decimal digits is its value, anything else is NaN (None).
   */
  function NumberOf(s: string): Option<nat> {
    if AllDigits(s) then Some(DigitsValue(s)) else None
  }

  lemma {:induction false} DigitsValueOfNatToString(n: nat)
    ensures DigitsValue(NatToString(n)) == n
    decreases n
  {
    var s := NatToString(n);
    if n >= 10 {
      DigitsValueOfNatToString(n / 10);
      assert s[..|s| - 1] == NatToString(n / 10);
    }
  }

  lemma {:induction false} DigitsValueLeadingZero(s: string)
    requires AllDigits(s)
    ensures AllDigits("0" + s) && DigitsValue("0" + s) == DigitsValue(s)
    decreases |s|
  {
    if s != [] {
      var t := "0" + s;
      assert t[..|t| - 1] == "0" + s[..|s| - 1];
      DigitsValueLeadingZero(s[..|s| - 1]);
    }
  }

  /** Reading back a zero-padded decimal: `Number(String(n).padStart(2, '0')) === n`. */
  lemma NumberOfPad2(n: nat)
    ensures NumberOf(Pad2(NatToString(n))) == Some(n)
  {
    var s := NatToString(n);
    DigitsValueOfNatToString(n);
    if |s| < 2 {
      assert Pad2(s) == "0" + s;
      DigitsValueLeadingZero(s);
    } else {
      assert Pad2(s) == s;
    }
  }

  lemma NumberOfNatToString(n: nat)
    ensures NumberOf(NatToString(n)) == Some(n)
  {
    DigitsValueOfNatToString(n);
  }

  lemma {:induction false} NatToStringLength(n: nat)
    ensures n < 10 ==> |NatToString(n)| == 1
    ensures 10 <= n < 100 ==> |NatToString(n)| == 2
    ensures 100 <= n < 1000 ==> |NatToString(n)| == 3
    ensures 1000 <= n < 10000 ==> |NatToString(n)| == 4
    decreases n
  {
    if n >= 10 {
      NatToStringLength(n / 10);
    }
  }

  /** Two-digit decimal fields: for 0 <= n < 100, `Pad2` gives exactly two digits. */
  lemma Pad2Length(n: nat)
    requires n < 100
    ensures |Pad2(NatToString(n))| == 2 && AllDigits(Pad2(NatToString(n)))
  {
    NatToStringLength(n);
  }

  // ---------------------------------------------------------------- hexadecimal

  predicate IsHexDigit(c: char) {
    '0' <= c <= '9' || 'a' <= c <= 'f' || 'A' <= c <= 'F'
  }

  function HexDigitValue(c: char): (d: nat)
    requires IsHexDigit(c)
    ensures d < 16
  {
    if '0' <= c <= '9' then c as int - '0' as int
    else if 'a' <= c <= 'f' then c as int - 'a' as int + 10
    else c as int - 'A' as int + 10
  }

  /** The lower-case digit `Number.prototype.toString(16)` writes for `d`. */
  function HexDigitChar(d: nat): (c: char)
    requires d < 16
    ensures IsHexDigit(c) && HexDigitValue(c) == d
    ensures !('A' <= c <= 'Z')
  {
    if d < 10 then ('0' as int + d) as char else ('a' as int + d - 10) as char
  }

  /** `n.toString(16)` for a non-negative integer. */
  function NatToHex(n: nat): (s: string)
    ensures |s| >= 1
    ensures forall i :: 0 <= i < |s| ==> IsHexDigit(s[i]) && !('A' <= s[i] <= 'Z')
    decreases n
  {
    if n < 16 then [HexDigitChar(n)] else NatToHex(n / 16) + [HexDigitChar(n % 16)]
  }

  /** `i.toString(16)` for any integer (a minus sign before the digits). */
  function IntToHex(i: int): string {
    if i < 0 then "-" + NatToHex(-i) else NatToHex(i)
  }

  /** Length of the longest prefix of `s` made of hex digits. */
  function HexPrefixLength(s: string): (k: nat)
    ensures k <= |s|
    ensures forall i :: 0 <= i < k ==> IsHexDigit(s[i])
    ensures k < |s| ==> !IsHexDigit(s[k])
  {
    if s == [] || !IsHexDigit(s[0]) then 0 else 1 + HexPrefixLength(s[1..])
  }

  function HexValue(s: string): nat
    requires forall i :: 0 <= i < |s| ==> IsHexDigit(s[i])
  {
    if s == [] then 0 else HexValue(s[..|s| - 1]) * 16 + HexDigitValue(s[|s| - 1])
  }

  /** A leading `0x` or `0X`, which `parseInt(_, 16)` skips before reading digits. */
  predicate HasHexPrefix(s: string) {
    |s| >= 2 && s[0] == '0' && (s[1] == 'x' || s[1] == 'X')
  }

  /**
   * `parseInt(s, 16)` on the short substrings colour strings are cut into: a
   * leading `0x`/`0X` is dropped, then the value of the leading hex digits is
   * read, or NaN (None) when there is none.
   */
  function ParseHex(s: string): (r: Option<nat>)
    ensures HasHexPrefix(s) ==> (r.None? <==> (|s| == 2 || !IsHexDigit(s[2])))
    ensures !HasHexPrefix(s) ==> (r.None? <==> (s == [] || !IsHexDigit(s[0])))
  {
    var digits := if HasHexPrefix(s) then s[2..] else s;
    var k := HexPrefixLength(digits);
    if k == 0 then None else Some(HexValue(digits[..k]))
  }

  /**
   * The prefix alone is NaN, either case of it is skipped alike, and only one
   * prefix is skipped: what follows is read as if written on its own.
   */
  lemma ParseHexSkipsPrefix(digits: string)
    ensures ParseHex("0x") == None && ParseHex("0X") == None
    ensures ParseHex("0x" + digits) == ParseHex("0X" + digits)
    ensures !HasHexPrefix(digits) ==> ParseHex("0x" + digits) == ParseHex(digits)
    ensures HasHexPrefix(digits) ==> ParseHex("0x" + digits) == Some(0)
  {
    var lower, upper := "0x" + digits, "0X" + digits;
    assert HasHexPrefix(lower) && lower[2..] == digits;
    assert HasHexPrefix(upper) && upper[2..] == digits;
    if HasHexPrefix(digits) {
      assert HexPrefixLength(digits[1..]) == 0;
      assert HexPrefixLength(digits) == 1;
      assert digits[..1] == ['0'] && ['0'][..0] == [];
      assert HexValue(['0']) == 0;
    }
  }

  lemma {:induction false} NatToHexLength(n: nat)
    ensures n < 16 ==> |NatToHex(n)| == 1
    ensures 16 <= n < 256 ==> |NatToHex(n)| == 2
  {
    if n >= 16 {
      NatToHexLength(n / 16);
    }
  }

  /** Reading back a byte written as two lower-case hex digits. */
  lemma ParseHexOfPaddedByte(n: nat)
    requires n < 256
    ensures |Pad2(NatToHex(n))| == 2
    ensures ParseHex(Pad2(NatToHex(n))) == Some(n)
  {
    PaddedByteDigits(n);
    ParseHexPair(HexDigitChar(n / 16), HexDigitChar(n % 16));
  }

  /** A byte padded to two hex digits is its high digit, then its low digit. */
  lemma PaddedByteDigits(n: nat)
    requires n < 256
    ensures n / 16 < 16 && Pad2(NatToHex(n)) == [HexDigitChar(n / 16), HexDigitChar(n % 16)]
  {
    if n < 16 {
      assert NatToHex(n) == [HexDigitChar(n)];
      assert HexDigitChar(0) == '0';
    } else {
      assert NatToHex(n / 16) == [HexDigitChar(n / 16)];
    }
  }

  /** Two hex digits read as a number. */
  lemma ParseHexPair(a: char, b: char)
    requires IsHexDigit(a) && IsHexDigit(b)
    ensures ParseHex([a, b]) == Some(16 * HexDigitValue(a) + HexDigitValue(b))
  {
    var s := [a, b];
    assert s[1..][1..] == [];
    assert HexPrefixLength(s) == 2;
    assert s[..2] == s && s[..1] == [a];
    assert HexValue([a]) == HexDigitValue(a) by {
      assert [a][..0] == [];
    }
  }

  // ---------------------------------------------------------------- case mapping

  /** `toLowerCase` on one character (ASCII letters only). */
  function ToLower(c: char): char {
    if 'A' <= c <= 'Z' then (c as int + 32) as char else c
  }

  /** `toUpperCase` on one character (ASCII letters only). */
  function ToUpper(c: char): char {
    if 'a' <= c <= 'z' then (c as int - 32) as char else c
  }

  function Lower(s: string): (r: string)
    ensures |r| == |s| && forall i :: 0 <= i < |s| ==> r[i] == ToLower(s[i])
  {
    seq(|s|, i requires 0 <= i < |s| => ToLower(s[i]))
  }

  // ---------------------------------------------------------------- split and join

  /** `s.split(c)` for a one-character separator: always at least one part. */
  function Split(s: string, c: char): (parts: seq<string>)
    ensures |parts| >= 1
    decreases |s|
  {
    if s == [] then [[]]
    else if s[0] == c then [[]] + Split(s[1..], c)
    else
      var rest := Split(s[1..], c);
      [[s[0]] + rest[0]] + rest[1..]
  }

  /** `parts.join(sep)`. */
  function Join(parts: seq<string>, sep: string): string
    decreases |parts|
  {
    if parts == [] then []
    else if |parts| == 1 then parts[0]
    else parts[0] + sep + Join(parts[1..], sep)
  }

  lemma {:induction false} SplitWithoutSeparator(s: string, c: char)
    requires c !in s
    ensures Split(s, c) == [s]
    decreases |s|
  {
    if s != [] {
      assert c !in s[1..];
      SplitWithoutSeparator(s[1..], c);
      assert [s[0]] + s[1..] == s;
    }
  }

  lemma {:induction false} SplitAtFirstSeparator(a: string, c: char, b: string)
    requires c !in a
    ensures Split(a + [c] + b, c) == [a] + Split(b, c)
    decreases |a|
  {
    if a == [] {
      assert a + [c] + b == [c] + b;
      assert ([c] + b)[1..] == b;
    } else {
      assert (a + [c] + b)[1..] == a[1..] + [c] + b;
      SplitAtFirstSeparator(a[1..], c, b);
      assert [a[0]] + a[1..] == a;
    }
  }

  /** Splitting on a separator that the pieces do not contain gives the pieces back. */
  lemma SplitThree(x: string, y: string, z: string, c: char)
    requires c !in x && c !in y && c !in z
    ensures Split(x + [c] + y + [c] + z, c) == [x, y, z]
  {
    assert x + [c] + y + [c] + z == x + [c] + (y + [c] + z);
    SplitAtFirstSeparator(x, c, y + [c] + z);
    SplitAtFirstSeparator(y, c, z);
    SplitWithoutSeparator(z, c);
  }

  /** `split` inverts `join` on a one-character separator that no part contains. */
  lemma {:induction false} SplitJoin(parts: seq<string>, c: char)
    requires |parts| >= 1
    requires forall i :: 0 <= i < |parts| ==> c !in parts[i]
    ensures Split(Join(parts, [c]), c) == parts
    decreases |parts|
  {
    if |parts| == 1 {
      SplitWithoutSeparator(parts[0], c);
    } else {
      SplitJoin(parts[1..], c);
      SplitAtFirstSeparator(parts[0], c, Join(parts[1..], [c]));
      assert parts == [parts[0]] + parts[1..];
    }
  }

  lemma DigitsHaveNoDash(s: string)
    requires AllDigits(s)
    ensures '-' !in s
  {
  }

  /** `s.replace(pat, "")` with a string pattern: only the first occurrence goes. */
  function RemoveFirst(s: string, pat: string): (r: string)
    requires |pat| > 0
    ensures |r| == |s| || |r| == |s| - |pat|
    decreases |s|
  {
    if |s| < |pat| then s
    else if s[..|pat|] == pat then s[|pat|..]
    else [s[0]] + RemoveFirst(s[1..], pat)
  }

  predicate EndsWith(s: string, suffix: string) {
    |suffix| <= |s| && s[|s| - |suffix|..] == suffix
  }
}
