/** The narrowing in the rings' `increment(int n)`: a 64-bit index is passed as a 32-bit `int`,
    incremented there and widened again. */
module Int32 {

  const INT_MAX := 0x7FFF_FFFF

  /** The value a 64-bit integer takes when it is converted to a 32-bit signed one. */
  function Wrap(n: int): int {
    (n + 0x8000_0000) % 0x1_0000_0000 - 0x8000_0000
  }

  /** The sum `n + 1` of the narrowed argument. At INT_MAX the source overflows; the model wraps. */
  function Successor(n: int): int {
    Wrap(Wrap(n) + 1)
  }

  /** C++ remainder: the quotient is truncated toward zero. */
  function Remainder(a: int, b: nat): int
    requires b > 0
  {
    if a >= 0 then a % b else -((-a) % b)
  }

  /** On an index, which is never negative, the detour through `int` is exact just below INT_MAX. */
  lemma SuccessorExact(n: nat)
    ensures Successor(n) == n + 1 <==> n < INT_MAX
    ensures Successor(n) <= INT_MAX
  {
    if n < INT_MAX {
      assert Wrap(n) == n;
      assert Wrap(n + 1) == n + 1;
    }
  }
}
