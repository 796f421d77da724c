/** The Go integer behaviour the service relies on: fixed-width `int32` and
    `int` (64-bit) values, the truncating conversion `int32(x)`, the
    wrap-around of `x++`, decimal rendering as done by `fmt.Sprintf("%d", x)`,
    and parsing as done by `strconv.Atoi`. */
module GoInt {
  import opened Wrappers

  const MinInt32: int := -0x8000_0000
  const MaxInt32: int := 0x7fff_ffff
  const MinInt64: int := -0x8000_0000_0000_0000
  const MaxInt64: int := 0x7fff_ffff_ffff_ffff

  type Int32 = x: int | MinInt32 <= x <= MaxInt32
  type Int64 = x: int | MinInt64 <= x <= MaxInt64

  /** Go's `int32(x)` for a 64-bit `x`: keep the low 32 bits, read them as
      two's complement. */
  function WrapInt32(x: int): (r: Int32)
    ensures (x - r) % 0x1_0000_0000 == 0
    ensures MinInt32 <= x <= MaxInt32 ==> r == x
  {
    var m := x % 0x1_0000_0000;
    if m > MaxInt32 then m - 0x1_0000_0000 else m
  }

  /** Go's `x++` on a 64-bit `int`: one more, except that the largest
      value wraps around to the smallest. */
  function Increment64(x: Int64): (r: Int64)
    ensures x < MaxInt64 ==> r == x + 1
    ensures (r - x - 1) % 0x1_0000_0000_0000_0000 == 0
  {
    if x == MaxInt64 then MinInt64 else x + 1
  }

  predicate IsDigit(c: char) {
    '0' <= c <= '9'
  }

  predicate AllDigits(s: string) {
    forall i :: 0 <= i < |s| ==> IsDigit(s[i])
  }

  /** A canonical decimal numeral: digits only, and no leading zero except
      for "0" itself. */
  predicate Canonical(s: string) {
    |s| > 0 && AllDigits(s) && (s[0] == '0' ==> |s| == 1)
  }

  function DigitChar(d: nat): (c: char)
    requires d < 10
    ensures IsDigit(c)
    ensures c as int - '0' as int == d
  {
    ('0' as int + d) as char
  }

  function DigitValue(c: char): (d: nat)
    requires IsDigit(c)
    ensures d < 10
  {
    c as int - '0' as int
  }

  /** The number a string of digits denotes. */
  function DigitsValue(s: string): nat
    requires AllDigits(s)
  {
    if |s| == 0 then 0
    else DigitsValue(s[..|s| - 1]) * 10 + DigitValue(s[|s| - 1])
  }

  /** Decimal digits of a natural number, most significant first. */
  function NatDigits(n: nat): (s: string)
    ensures |s| > 0 && AllDigits(s)
    decreases n
  {
    if n < 10 then [DigitChar(n)] else NatDigits(n / 10) + [DigitChar(n % 10)]
  }

  /** `fmt.Sprintf("%d", n)`: a minus sign for negative values, then the
      digits of the magnitude. */
  function FormatInt(n: int): (s: string)
    ensures |s| > 0
    ensures n < 0 <==> s[0] == '-'
    ensures n < 0 ==> |s| > 1 && AllDigits(s[1..])
    ensures n >= 0 ==> AllDigits(s)
  {
    if n < 0 then "-" + NatDigits(-n) else NatDigits(n)
  }

  predicate IsSign(c: char) {
    c == '+' || c == '-'
  }

  /** The strings `strconv.Atoi` reads as a number: an optional sign
      followed by one or more decimal digits. */
  predicate Numeral(s: string) {
    (|s| > 0 && AllDigits(s)) || (|s| > 1 && IsSign(s[0]) && AllDigits(s[1..]))
  }

  /** The integer a numeral denotes, whatever its size. */
  function NumeralValue(s: string): int
    requires Numeral(s)
  {
    if IsDigit(s[0]) then DigitsValue(s)
    else if s[0] == '-' then -(DigitsValue(s[1..]) as int)
    else DigitsValue(s[1..])
  }

  /** `strconv.Atoi` on a 64-bit platform: an optional `+` or `-`, then at
      least one decimal digit, and a value that fits in `int`; anything else
      (the empty string, spaces, underscores, a bare sign, an overflow) is an
      error. */
  function Atoi(s: string): (r: Option<Int64>)
    ensures r.Some? <==> Numeral(s) && MinInt64 <= NumeralValue(s) <= MaxInt64
    ensures r.Some? ==> r.value == NumeralValue(s)
    ensures AllDigits(s) && |s| > 0 && DigitsValue(s) <= MaxInt64 ==> r == Some(DigitsValue(s))
  {
    if |s| == 0 then None
    else
      var signed := s[0] == '-' || s[0] == '+';
      var body := if signed then s[1..] else s;
      if |body| == 0 || !AllDigits(body) then None
      else
        var v: int := if s[0] == '-' then -(DigitsValue(body) as int) else DigitsValue(body);
        if MinInt64 <= v <= MaxInt64 then Some(v) else None
  }

  lemma {:induction false} NatDigitsValue(n: nat)
    ensures DigitsValue(NatDigits(n)) == n
    decreases n
  {
    if n >= 10 {
      var s := NatDigits(n);
      var prefix := NatDigits(n / 10);
      assert s == prefix + [DigitChar(n % 10)];
      assert s[..|s| - 1] == prefix;
      NatDigitsValue(n / 10);
    }
  }

  lemma {:induction false} NatDigitsCanonical(n: nat)
    ensures Canonical(NatDigits(n))
    ensures |NatDigits(n)| > 1 ==> n >= 10
    decreases n
  {
    if n >= 10 {
      NatDigitsCanonical(n / 10);
      var prefix := NatDigits(n / 10);
      assert NatDigits(n)[0] == prefix[0];
    }
  }

  /** Digit strings that denote the same number and carry no leading zero
      are the same string: the decimal rendering of a natural is unique. */
  lemma {:induction false} CanonicalDigitsUnique(n: nat)
    ensures forall s :: Canonical(s) && DigitsValue(s) == n ==> s == NatDigits(n)
    decreases n
  {
    forall s | Canonical(s) && DigitsValue(s) == n
      ensures s == NatDigits(n)
    {
      CanonicalIsNatDigits(s, n);
    }
  }

  lemma {:induction false} CanonicalIsNatDigits(s: string, n: nat)
    requires Canonical(s) && DigitsValue(s) == n
    ensures s == NatDigits(n)
    decreases n
  {
    var last := DigitValue(s[|s| - 1]);
    var init := s[..|s| - 1];
    if |s| == 1 {
      assert init == [];
      assert n == last;
      assert s == [DigitChar(n)];
    } else {
      assert s[0] != '0';
      assert init[0] == s[0];
      assert AllDigits(init);
      if DigitsValue(init) == 0 {
        LeadingDigitPositive(init);
        assert false;
      }
      assert n == DigitsValue(init) * 10 + last;
      assert n / 10 == DigitsValue(init) && n % 10 == last;
      CanonicalIsNatDigits(init, n / 10);
      assert s == init + [s[|s| - 1]];
    }
  }

  lemma {:induction false} LeadingDigitPositive(s: string)
    requires |s| > 0 && AllDigits(s) && s[0] != '0'
    ensures DigitsValue(s) > 0
    decreases |s|
  {
    if |s| > 1 {
      var init := s[..|s| - 1];
      assert init[0] == s[0];
      LeadingDigitPositive(init);
    }
  }

  /** Parsing a rendered 64-bit value gives the value back. */
  lemma AtoiFormatInt(n: Int64)
    ensures Atoi(FormatInt(n)) == Some(n)
  {
    if n < 0 {
      var digits := NatDigits(-(n as int));
      NatDigitsValue(-(n as int));
      assert FormatInt(n)[1..] == digits;
    } else {
      NatDigitsValue(n);
      NatDigitsCanonical(n);
    }
  }

  /** A non-negative value renders as a canonical numeral: no sign, no
      leading zero, and "0" only for zero. */
  lemma FormatNonNegative(n: int)
    ensures n >= 0 ==> Canonical(FormatInt(n))
    ensures n >= 0 ==> (FormatInt(n)[0] != '0' <==> n > 0)
  {
    if n >= 0 {
      NatDigitsCanonical(n);
    }
  }

  /** Distinct 64-bit values render as distinct strings. */
  lemma FormatIntInjective(a: Int64, b: Int64)
    requires a != b
    ensures FormatInt(a) != FormatInt(b)
  {
    AtoiFormatInt(a);
    AtoiFormatInt(b);
  }
}
