/** The unit search of formatBytes. */
module ByteFormat {
  import opened Decimal

  const UNIT := 1024
  const UNITS := "KMGTPE"

  function Power(n: nat): (p: nat)
    ensures p >= 1
  {
    if n == 0 then 1 else UNIT * Power(n - 1)
  }

  lemma {:induction false} PowerGrows(a: nat, b: nat)
    requires a < b
    ensures UNIT * Power(a) <= Power(b)
  {
    if a < b - 1 {
      PowerGrows(a, b - 1);
    }
  }

  /** Only one exponent fits a byte count. */
  lemma {:induction false} ExponentIsUnique(bytes: nat, a: nat, b: nat)
    requires Power(a) <= bytes < UNIT * Power(a) && Power(b) <= bytes < UNIT * Power(b)
    ensures a == b
  {
    if a < b {
      PowerGrows(a, b);
    } else if b < a {
      PowerGrows(b, a);
    }
  }

  /** An int64 never needs a unit beyond the last letter. */
  lemma {:induction false} Int64NeedsSixUnits(bytes: nat, exp: nat)
    requires IsInt64(bytes) && Power(exp + 1) <= bytes
    ensures exp < |UNITS|
  {
    assert Power(2) == 0x10_0000 && Power(4) == 0x100_0000_0000;
    assert Power(6) == 0x1000_0000_0000_0000;
    if exp >= 6 {
      PowerGrows(6, exp + 1);
    }
  }

  /** The divisor and the unit index of formatBytes; counts below one unit, and negative ones, are
      printed as they are, which is divisor 1. */
  method PickUnit(bytes: int) returns (div: int, exp: nat)
    requires IsInt64(bytes)
    ensures bytes < UNIT ==> div == 1 && exp == 0
    ensures bytes >= UNIT ==> exp < |UNITS| && div == Power(exp + 1) && div <= bytes < UNIT * div
    ensures IsInt64(div)
  {
    if bytes < UNIT {
      return 1, 0;
    }
    div, exp := UNIT, 0;
    var n := bytes / UNIT;
    while n >= UNIT
      invariant div == Power(exp + 1) && 1 <= n && n * div <= bytes < (n + 1) * div
    {
      StepKeepsQuotient(n, div, bytes);
      n := n / UNIT;
      div := div * UNIT;
      exp := exp + 1;
    }
    Below(n, div);
    Int64NeedsSixUnits(bytes, exp);
  }

  lemma {:induction false} Below(n: nat, div: nat)
    requires 1 <= n < UNIT
    ensures div <= n * div && (n + 1) * div <= UNIT * div
  {
    Grows(1, n, div);
    Grows(n + 1, UNIT, div);
  }

  lemma {:induction false} Grows(a: nat, b: nat, c: nat)
    requires a <= b
    ensures a * c <= b * c
  {
  }

  /** If n is bytes / div, then n / 1024 is bytes / (1024 * div). */
  lemma {:induction false} StepKeepsQuotient(n: nat, div: nat, bytes: nat)
    requires n >= UNIT && n * div <= bytes < (n + 1) * div
    ensures 1 <= n / UNIT && (n / UNIT) * (div * UNIT) <= bytes < (n / UNIT + 1) * (div * UNIT)
  {
    var q := n / UNIT;
    Grows(q * UNIT, n, div);
    Grows(n + 1, (q + 1) * UNIT, div);
    Regroup(q, div);
    Regroup(q + 1, div);
  }

  lemma {:induction false} Regroup(q: nat, div: nat)
    ensures q * (div * UNIT) == (q * UNIT) * div
  {
  }
}
