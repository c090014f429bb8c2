/** The part of java.math.BigDecimal the transfer relies on. */
module BigDecimals {
  import opened Results

  const INT_MIN: int := -0x8000_0000
  const INT_MAX: int := 0x7fff_ffff

  predicate InIntRange(n: int) {
    INT_MIN <= n <= INT_MAX
  }

  /** `intValueExact`: the value as a Java int, or an ArithmeticException when it has a
      nonzero fractional part or lies outside the 32-bit range. */
  function IntValueExact(x: real): (r: Result<int>)
    ensures r.Ok? ==> r.value as real == x && InIntRange(r.value)
    ensures r.Err? ==> r.error == Arithmetic
  {
    if x.Floor as real == x && InIntRange(x.Floor) then Ok(x.Floor) else Err(Arithmetic)
  }

  /** The converse of IntValueExact's contract: every value of a Java int is accepted. */
  lemma IntValueExactAcceptsInts(n: int)
    requires InIntRange(n)
    ensures IntValueExact(n as real) == Ok(n)
  {
  }

  /** A value with a fraction, or beyond the int range, is refused. */
  lemma IntValueExactRefuses(x: real)
    requires x.Floor as real != x || x < INT_MIN as real || x > INT_MAX as real
    ensures IntValueExact(x) == Err(Arithmetic)
  {
  }
}
