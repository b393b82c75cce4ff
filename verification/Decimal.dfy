/** strconv's decimal and boolean conversions, as far as the settings use them. */
module Decimal {
  import opened Text

  const MIN_INT64: int := -0x8000_0000_0000_0000
  const MAX_INT64: int := 0x7FFF_FFFF_FFFF_FFFF

  predicate IsInt64(n: int) {
    MIN_INT64 <= n <= MAX_INT64
  }

  predicate IsDigit(c: char) {
    '0' <= c <= '9'
  }

  function DigitChar(d: nat): (c: char)
    requires d < 10
    ensures IsDigit(c)
  {
    '0' + d as char
  }

  function DigitsOf(n: nat): (s: string)
    ensures s != "" && forall i | 0 <= i < |s| :: IsDigit(s[i])
  {
    if n < 10 then [DigitChar(n)] else DigitsOf(n / 10) + [DigitChar(n % 10)]
  }

  /** strconv.Itoa. */
  function Itoa(n: int): string {
    if n < 0 then "-" + DigitsOf(-n) else DigitsOf(n)
  }

  function ParseDigits(s: string): Option<nat> {
    if s == "" then Some(0)
    else
      var front, c := ParseDigits(s[..|s| - 1]), s[|s| - 1];
      if front.None? || !IsDigit(c) then None else Some(10 * front.value + (c - '0') as nat)
  }

  /** strconv.Atoi: an optional sign, at least one digit, nothing else, within int64. */
  function Atoi(s: string): Option<int> {
    var signed := s != "" && (s[0] == '-' || s[0] == '+');
    var digits := if signed then s[1..] else s;
    if digits == "" || ParseDigits(digits).None? then None
    else
      var magnitude: int := ParseDigits(digits).value;
      var n := if signed && s[0] == '-' then -magnitude else magnitude;
      if IsInt64(n) then Some(n) else None
  }

  lemma {:induction false} ParseOfDigits(n: nat)
    ensures ParseDigits(DigitsOf(n)) == Some(n)
  {
    if n < 10 {
      assert DigitsOf(n)[..0] == "";
    } else {
      ParseOfDigits(n / 10);
      assert DigitsOf(n)[..|DigitsOf(n)| - 1] == DigitsOf(n / 10);
    }
  }

  predicate AllDigits(s: string) {
    forall i | 0 <= i < |s| :: IsDigit(s[i])
  }

  predicate AllZeros(s: string) {
    forall i | 0 <= i < |s| :: s[i] == '0'
  }

  /** The digits of a positive number do not start with 0. */
  lemma {:induction false} NoLeadingZero(n: nat)
    requires n > 0
    ensures DigitsOf(n)[0] != '0'
  {
    if n >= 10 {
      NoLeadingZero(n / 10);
    }
  }

  lemma {:induction false} ParsesIff(s: string)
    ensures ParseDigits(s).Some? <==> AllDigits(s)
  {
    if s != "" {
      ParsesIff(s[..|s| - 1]);
      assert s == s[..|s| - 1] + [s[|s| - 1]];
    }
  }

  /** Any digits are the digits of their number behind zeros; only zeros have no number to show. */
  lemma {:induction false} ZerosThenDigits(s: string) returns (zeros: string)
    requires AllDigits(s) && s != ""
    ensures ParseDigits(s).Some? && AllZeros(zeros) && s == zeros + DigitsOf(ParseDigits(s).value)
  {
    ParsesIff(s);
    var front, c := s[..|s| - 1], s[|s| - 1];
    assert s == front + [c];
    var d := (c - '0') as nat;
    assert DigitChar(d) == c;
    ParsesIff(front);
    if front == "" {
      zeros := "";
    } else {
      zeros := ZerosThenDigits(front);
      if ParseDigits(front).value == 0 {
        zeros := zeros + "0";
        assert DigitsOf(0) == "0";
      }
    }
  }

  lemma {:induction false} ParseAfterZeros(zeros: string, s: string)
    requires AllZeros(zeros)
    ensures ParseDigits(zeros + s) == ParseDigits(s)
  {
    if s != "" {
      ParseAfterZeros(zeros, s[..|s| - 1]);
      assert (zeros + s)[..|zeros + s| - 1] == zeros + s[..|s| - 1];
    } else if zeros != "" {
      assert zeros + s == zeros;
      ParseAfterZeros(zeros[..|zeros| - 1], "");
      assert zeros[..|zeros| - 1] + "" == zeros[..|zeros| - 1];
    }
  }

  /** s is a sign that fits n, or no sign, then any number of zeros, then the digits of n. */
  ghost predicate Spells(s: string, n: int, sign: string, zeros: string) {
    && s == sign + zeros + DigitsOf(if n < 0 then -n else n) && AllZeros(zeros)
    && (sign == "-" || (n >= 0 && (sign == "" || sign == "+"))) && (n > 0 ==> sign != "-")
  }

  /** Atoi takes exactly the spellings of machine integers. */
  lemma {:induction false} AtoiIff(s: string, n: int)
    ensures Atoi(s) == Some(n) <==> IsInt64(n) && exists sign, zeros :: Spells(s, n, sign, zeros)
  {
    if Atoi(s) == Some(n) {
      AtoiSpelled(s, n);
    }
    forall sign, zeros | IsInt64(n) && Spells(s, n, sign, zeros) ensures Atoi(s) == Some(n) {
      SpelledAtoi(s, n, sign, zeros);
    }
  }

  function Signed(sign: string, m: int): int {
    if sign == "-" then -m else m
  }

  /** Atoi takes the sign off, if there is one, and reads the rest as digits. */
  lemma {:induction false} AtoiOfSigned(sign: string, digits: string)
    requires sign in ["", "+", "-"] && digits != "" && (sign == "" ==> digits[0] != '+' && digits[0] != '-')
    ensures Atoi(sign + digits) ==
            if ParseDigits(digits).Some? && IsInt64(Signed(sign, ParseDigits(digits).value))
            then Some(Signed(sign, ParseDigits(digits).value)) else None
  {
    if sign == "" {
      assert sign + digits == digits;
    } else {
      assert (sign + digits)[1..] == digits;
    }
  }

  lemma {:induction false} AtoiSpelled(s: string, n: int)
    requires Atoi(s) == Some(n)
    ensures IsInt64(n) && exists sign, zeros :: Spells(s, n, sign, zeros)
  {
    var sign := if s[0] == '-' then "-" else if s[0] == '+' then "+" else "";
    var digits := s[|sign|..];
    assert s == sign + digits;
    AtoiOfSigned(sign, digits);
    ParsesIff(digits);
    var zeros := ZerosThenDigits(digits);
    SpelledBySign(s, sign, zeros, ParseDigits(digits).value);
  }

  lemma {:induction false} SpelledBySign(s: string, sign: string, zeros: string, m: nat)
    requires sign in ["", "+", "-"] && AllZeros(zeros) && s == sign + (zeros + DigitsOf(m))
    ensures Spells(s, Signed(sign, m), sign, zeros)
  {
    assert s == sign + zeros + DigitsOf(m);
  }

  lemma {:induction false} SpelledAtoi(s: string, n: int, sign: string, zeros: string)
    requires IsInt64(n) && Spells(s, n, sign, zeros)
    ensures Atoi(s) == Some(n)
  {
    var m := if n < 0 then -n else n;
    var digits := zeros + DigitsOf(m);
    assert s == sign + digits;
    ParseAfterZeros(zeros, DigitsOf(m));
    ParseOfDigits(m);
    FirstIsDigit(zeros, m);
    AtoiOfSigned(sign, digits);
  }

  lemma {:induction false} FirstIsDigit(zeros: string, m: nat)
    requires AllZeros(zeros)
    ensures IsDigit((zeros + DigitsOf(m))[0])
  {
    if zeros == "" {
      assert zeros + DigitsOf(m) == DigitsOf(m);
    } else {
      assert (zeros + DigitsOf(m))[0] == zeros[0];
    }
  }

  /** Printing and parsing a number are inverse over the whole machine range. */
  lemma {:induction false} AtoiOfItoa(n: int)
    requires IsInt64(n)
    ensures Atoi(Itoa(n)) == Some(n)
  {
    ParseOfDigits(if n < 0 then -n else n);
    if n < 0 {
      assert Itoa(n)[1..] == DigitsOf(-n);
    }
  }

  lemma {:induction false} DigitsAreInjective(m: nat, n: nat)
    requires DigitsOf(m) == DigitsOf(n)
    ensures m == n
  {
    ParseOfDigits(m);
    ParseOfDigits(n);
  }

  lemma {:induction false} ItoaIsZero(n: int)
    ensures Itoa(n) == "0" <==> n == 0
  {
  }

  /** strconv.FormatBool. */
  function FormatBool(b: bool): string {
    if b then "true" else "false"
  }

  /** strconv.ParseBool. */
  function ParseBool(s: string): Option<bool> {
    if s in ["1", "t", "T", "TRUE", "true", "True"] then Some(true)
    else if s in ["0", "f", "F", "FALSE", "false", "False"] then Some(false)
    else None
  }

  lemma {:induction false} ParseOfFormatBool(b: bool)
    ensures ParseBool(FormatBool(b)) == Some(b)
  {
  }
}
