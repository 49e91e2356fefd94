/** JavaScript's `parseInt(s)` (no radix argument) and the decimal text of a
    number as a template literal `${n}` prints it, restricted to the values
    `parseInt` can produce. */
module Numbers {
  import opened Text

  /** A number as `parseInt` can return it: NaN, or an integer (`-0` is the
      integer 0, which is also how JavaScript prints `-0`). */
  datatype Num = NaN | Int(value: int)

  /** Value of `c` as a digit of a radix up to 36, or 36 if it is no digit at all. */
  function DigitValue(c: char): (d: nat)
    ensures d <= 36
    ensures d < 10 <==> '0' <= c <= '9'
  {
    if '0' <= c <= '9' then c as int - '0' as int
    else if 'a' <= c <= 'z' then c as int - 'a' as int + 10
    else if 'A' <= c <= 'Z' then c as int - 'A' as int + 10
    else 36
  }

  predicate AllDigits(s: string, radix: nat) {
    forall i :: 0 <= i < |s| ==> DigitValue(s[i]) < radix
  }

  /** The longest prefix of `s` made only of digits of `radix`. */
  function DigitPrefix(s: string, radix: nat): (ds: string)
    ensures StartsWith(s, ds) && AllDigits(ds, radix)
    ensures |ds| < |s| ==> DigitValue(s[|ds|]) >= radix
  {
    if s != [] && DigitValue(s[0]) < radix then [s[0]] + DigitPrefix(s[1..], radix) else []
  }

  /** Value of a digit string, most significant digit first. */
  function DigitsValue(ds: string, radix: nat): nat
  {
    if ds == [] then 0 else DigitsValue(ds[..|ds| - 1], radix) * radix + DigitValue(ds[|ds| - 1])
  }

  /** The unsigned part of `parseInt`: an optional `0x`/`0X` prefix that
      switches to radix 16, then the longest run of digits; NaN when that run
      is empty. */
  function ParseUnsigned(u: string): (x: Num)
    ensures x.Int? ==> x.value >= 0
  {
    var hex := |u| >= 2 && u[0] == '0' && (u[1] == 'x' || u[1] == 'X');
    var radix := if hex then 16 else 10;
    var digits := DigitPrefix(if hex then u[2..] else u, radix);
    if digits == [] then NaN else Int(DigitsValue(digits, radix))
  }

  /** `parseInt(s)`: skip leading white space, take an optional sign, then
      read the unsigned part. */
  function ParseInt(s: string): Num
  {
    var t := TrimStart(s);
    if t != [] && t[0] == '-' then
      match ParseUnsigned(t[1..])
      case NaN => NaN
      case Int(v) => Int(-v)
    else if t != [] && t[0] == '+' then ParseUnsigned(t[1..])
    else ParseUnsigned(t)
  }

  function DigitChar(d: nat): (c: char)
    requires d < 10
    ensures DigitValue(c) == d
  {
    ('0' as int + d) as char
  }

  /** Decimal digits of `n`, without leading zeros. */
  function NatText(n: nat): (s: string)
    ensures s != [] && AllDigits(s, 10)
  {
    if n < 10 then [DigitChar(n)] else NatText(n / 10) + [DigitChar(n % 10)]
  }

  /** The text of a number in a template literal: `NaN`, or the decimal digits
      with a leading `-` for a negative integer. */
  function NumText(x: Num): string
  {
    match x
    case NaN => "NaN"
    case Int(n) => if n < 0 then "-" + NatText(-n) else NatText(n)
  }

  lemma {:induction false} NatTextValue(n: nat)
    ensures DigitsValue(NatText(n), 10) == n
  {
    if n >= 10 {
      NatTextValue(n / 10);
      var s := NatText(n);
      assert s[..|s| - 1] == NatText(n / 10);
    }
  }

  /** Only zero is written with a leading `0`. */
  lemma {:induction false} NatTextNoLeadingZero(n: nat)
    ensures NatText(n)[0] == '0' ==> n == 0
  {
    if n >= 10 {
      NatTextNoLeadingZero(n / 10);
      assert NatText(n)[0] == NatText(n / 10)[0];
    }
  }

  lemma {:induction false} DigitPrefixOfDigits(s: string, radix: nat)
    requires AllDigits(s, radix)
    ensures DigitPrefix(s, radix) == s
  {
    if s != [] {
      DigitPrefixOfDigits(s[1..], radix);
    }
  }

  /** The decimal text of a natural number parses back to it. */
  lemma ParseUnsignedNatText(m: nat)
    ensures ParseUnsigned(NatText(m)) == Int(m)
  {
    var digits := NatText(m);
    NatTextNoLeadingZero(m);
    if m == 0 { assert digits == "0"; }
    DigitPrefixOfDigits(digits, 10);
    NatTextValue(m);
  }

  lemma DigitIsNoSpace(c: char)
    requires '0' <= c <= '9'
    ensures !IsSpace(c)
  {
  }

  /** `parseInt` reads back the text of a negative integer. */
  lemma ParseIntNegative(m: nat)
    requires m > 0
    ensures ParseInt("-" + NatText(m)) == Int(-(m as int))
  {
    var t := "-" + NatText(m);
    assert t[0] == '-' && !IsSpace(t[0]);
    assert TrimStart(t) == t;
    assert t[1..] == NatText(m);
    ParseUnsignedNatText(m);
    assert ParseUnsigned(t[1..]) == Int(m);
  }

  /** `parseInt` reads back the text of a non-negative integer. */
  lemma ParseIntNatText(m: nat)
    ensures ParseInt(NatText(m)) == Int(m)
  {
    var t := NatText(m);
    DigitIsNoSpace(t[0]);
    assert TrimStart(t) == t;
    ParseUnsignedNatText(m);
  }

  /** `parseInt` reads back every number it can produce from its printed text. */
  lemma ParseIntNumText(x: Num)
    ensures ParseInt(NumText(x)) == x
  {
    match x
    case NaN =>
      var t := "NaN";
      assert t[0] == 'N' && !IsSpace(t[0]);
      assert TrimStart(t) == t;
      assert DigitValue(t[0]) == 23;
      assert DigitPrefix(t, 10) == [];
      assert ParseUnsigned(t) == NaN;
    case Int(n) =>
      if n < 0 { ParseIntNegative(-n); } else { ParseIntNatText(n); }
  }

  /** Distinct numbers print differently. */
  lemma NumTextInjective(x: Num, y: Num)
    ensures NumText(x) == NumText(y) ==> x == y
  {
    ParseIntNumText(x);
    ParseIntNumText(y);
  }
}
