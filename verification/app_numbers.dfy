/**
 JavaScript numbers as text: Number.prototype.toString writes them and parseInt reads them.

 ECMA-262 leaves the digits that toString takes open where several would do, and lets parseInt read
 a long string of digits to a close number; both are parameters here, with the laws that the standard gives.
 */
module AppNumbers {
  const TWO_53: nat := 9007199254740992
  const TEN_21: nat := 1000000000000000000000

  /** At most 53 significant binary digits. */
  predicate Fits(n: nat) { n <= TWO_53 || (n % 2 == 0 && Fits(n / 2)) }

  function Size(n: int): nat { if n < 0 then -n else n }

  /** The whole numbers that JavaScript represents. */
  type Whole = n: nat | Fits(n) witness 0

  type Number = n: int | Fits(Size(n)) witness 0

  function Pow2(k: nat): nat { if k == 0 then 1 else 2 * Pow2(k - 1) }

  lemma {:induction false} Doubled(n: nat, k: nat)
    requires Fits(n)
    ensures Fits(n * Pow2(k))
    decreases k
  {
    if k > 0 {
      Doubled(2 * n, k - 1);
      Regroup(n, Pow2(k - 1));
    }
  }

  lemma Regroup(n: nat, p: nat)
    ensures 2 * n * p == n * (2 * p)
  {}

  /** Ten to the power of 21 is a number. */
  lemma TenTo21Fits()
    ensures Fits(TEN_21)
  {
    Doubled(476837158203125, 21);
    assert Pow2(6) == 64 && Pow2(12) == 4096 && Pow2(18) == 262144;
  }

  /** The other finite numbers. */
  type Fraction = x: real | x.Floor as real != x witness 0.5

  /** `shortest` is the decimal number with the fewest significant digits that stands for a whole number,
      `rounded` the number that a decimal number stands for, `fraction` the text of a fraction. */
  datatype NumberText = NumberText(shortest: Whole -> nat, rounded: nat -> Whole, fraction: Fraction -> string)

  /** ECMA-262, section 6.1.6.1.20: the digits stand for the number. Ten to the power of 21 is itself a
      number, so its digits and those of the numbers below it are on different sides. */
  ghost predicate Lawful(num: NumberText, n: Whole) {
    && num.rounded(n) == n && num.rounded(num.shortest(n)) == n
    && (num.shortest(n) < TEN_21 <==> n < TEN_21)
  }

  /** Numbers that are all written in full keep the laws. */
  function InFull(): NumberText {
    NumberText((n: Whole) => n, (n: nat) => if Fits(n) then n else 0, (x: Fraction) => "")
  }

  type Numbers = num: NumberText | forall n: Whole :: Lawful(num, n) witness InFull()

  // ---------- writing ----------

  function Digit(d: nat): char
    requires d < 10
  {
    '0' + d as char
  }

  predicate IsDigit(c: char) { '0' <= c <= '9' }

  function Decimal(n: nat): (s: string)
    ensures s != [] && forall i :: 0 <= i < |s| ==> IsDigit(s[i])
  {
    if n < 10 then [Digit(n)] else Decimal(n / 10) + [Digit(n % 10)]
  }

  function WithoutZeros(s: string): string {
    if s != [] && s[|s| - 1] == '0' then WithoutZeros(s[..|s| - 1]) else s
  }

  /** Number.prototype.toString of a whole number that is not negative. */
  function WholeText(num: Numbers, n: Whole): string {
    var s := Decimal(num.shortest(n));
    if num.shortest(n) < TEN_21 then s
    else
      var rest := WithoutZeros(s[1..]);
      s[..1] + (if rest == [] then "" else "." + rest) + "e+" + Decimal(|s| - 1)
  }

  /** Number.prototype.toString of a whole number. */
  function IntText(num: Numbers, n: Number): string {
    var s := WholeText(num, Size(n));
    if n < 0 then "-" + s else s
  }

  // ---------- reading ----------

  predicate IsSpace(c: char) {
    c in [' ', '\t', '\n', '\r', '\U{0B}', '\U{0C}', '\U{A0}', '\U{FEFF}', '\U{2028}', '\U{2029}']
  }

  function Trimmed(s: string): string { if s != [] && IsSpace(s[0]) then Trimmed(s[1..]) else s }

  function HexValue(c: char): int {
    if IsDigit(c) then (c - '0') as int
    else if 'a' <= c <= 'f' then (c - 'a') as int + 10
    else if 'A' <= c <= 'F' then (c - 'A') as int + 10 else 16
  }

  /** The value of the digits that `s` starts with. */
  function ParseDigits(s: string, radix: int, acc: nat): nat
    requires radix == 10 || radix == 16
  {
    if s == [] || HexValue(s[0]) >= radix then acc else ParseDigits(s[1..], radix, acc * radix + HexValue(s[0]))
  }

  predicate StartsHex(s: string) { |s| >= 2 && s[0] == '0' && (s[1] == 'x' || s[1] == 'X') }

  datatype Parsed = NaN | Parsed(n: Number)

  /** parseInt without a radix. */
  function ParseInt(num: Numbers, text: string): Parsed {
    var s := Trimmed(text);
    var negative := s != [] && s[0] == '-';
    var u := if s != [] && (s[0] == '-' || s[0] == '+') then s[1..] else s;
    var radix := if StartsHex(u) then 16 else 10;
    var digits := if StartsHex(u) then u[2..] else u;
    if digits == [] || HexValue(digits[0]) >= radix then NaN
    else
      var v: int := num.rounded(ParseDigits(digits, radix, 0));
      Parsed(if negative then -v else v)
  }

  // ---------- what is written is read ----------

  lemma {:induction false} ParseAppend(s: string, c: char, acc: nat)
    requires IsDigit(c) && forall i :: 0 <= i < |s| ==> IsDigit(s[i])
    ensures ParseDigits(s + [c], 10, acc) == ParseDigits(s, 10, acc) * 10 + HexValue(c)
    decreases |s|
  {
    if s == [] {
      assert ParseDigits([c], 10, acc) == ParseDigits([c][1..], 10, acc * 10 + HexValue(c));
    } else {
      assert (s + [c])[1..] == s[1..] + [c];
      ParseAppend(s[1..], c, acc * 10 + HexValue(s[0]));
    }
  }

  lemma {:induction false} DecimalBack(n: nat)
    ensures ParseDigits(Decimal(n), 10, 0) == n
  {
    if n < 10 {
      var s := Decimal(n);
      assert s == [Digit(n)] && s[1..] == [];
      assert ParseDigits(s, 10, 0) == ParseDigits(s[1..], 10, HexValue(s[0]));
    } else {
      DecimalBack(n / 10);
      ParseAppend(Decimal(n / 10), Digit(n % 10), 0);
    }
  }

  /** Of a text with an exponent only the first digit is read. */
  lemma FirstDigitRead(num: Numbers, n: Whole)
    requires n >= TEN_21
    ensures var s := WholeText(num, n); |s| > 1 && IsDigit(s[0]) && !IsDigit(s[1])
    ensures !StartsHex(WholeText(num, n))
      && ParseDigits(WholeText(num, n), 10, 0) == HexValue(WholeText(num, n)[0]) <= 9
  {
    assert Lawful(num, n);
    var s := WholeText(num, n);
    assert s[0] == Decimal(num.shortest(n))[0] && (s[1] == '.' || s[1] == 'e');
    assert ParseDigits(s, 10, 0) == ParseDigits(s[1..], 10, HexValue(s[0]));
  }

  /** The text of a whole number starts with a digit, is not hexadecimal, and is read as that number exactly
      if it is below ten to the power of 21; otherwise a single digit is read. */
  lemma WholeTextBack(num: Numbers, n: Whole)
    ensures var s := WholeText(num, n); s != [] && IsDigit(s[0]) && !StartsHex(s)
    ensures var v := num.rounded(ParseDigits(WholeText(num, n), 10, 0)); if n < TEN_21 then v == n else v <= 9
  {
    assert Lawful(num, n);
    if n < TEN_21 {
      var s := Decimal(num.shortest(n));
      DecimalBack(num.shortest(n));
      if |s| >= 2 { assert IsDigit(s[1]); }
      assert IsDigit(s[0]);
    } else {
      FirstDigitRead(num, n);
      assert Fits(HexValue(WholeText(num, n)[0]));
      assert Lawful(num, HexValue(WholeText(num, n)[0]));
    }
  }

  /** parseInt gives a whole number back exactly if it is below ten to the power of 21 in size. */
  lemma IntTextBack(num: Numbers, n: Number)
    ensures var r := ParseInt(num, IntText(num, n)); r.Parsed? && (r.n == n <==> Size(n) < TEN_21)
    ensures Size(n) >= TEN_21 ==> Size(ParseInt(num, IntText(num, n)).n) <= 9
  {
    hide WholeText, ParseDigits, Fits;
    var t := WholeText(num, Size(n));
    WholeTextBack(num, Size(n));
    var s := IntText(num, n);
    assert Trimmed(s) == s && HexValue(t[0]) < 10;
    if n < 0 { assert s[1..] == t; }
  }
}
