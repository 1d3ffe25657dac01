/** Quota sizes: bytes to whole mebibytes in signed 64-bit arithmetic. */
module Quota {
  import opened Text

  const TWO63: int := 0x8000_0000_0000_0000
  const MIB: int := 0x10_0000

  /** A quantity: an integer number of bytes, or one int64 cannot hold. */
  datatype Quantity = Bytes(n: int) | Unrepresentable(negative: bool)

  predicate Int64(x: int) { -TWO63 <= x < TWO63 }

  /** Go's wrap-around on int64. */
  function Wrap(x: int): (r: int)
    ensures Int64(r) && (Int64(x) ==> r == x)
  {
    (x + TWO63) % (2 * TWO63) - TWO63
  }

  /** Go's division, truncating toward zero. */
  function Quot(a: int, b: int): int
    requires b > 0
  {
    if a >= 0 then a / b else -((-a) / b)
  }

  /** Whole MiB rounded up; None for the two error returns. */
  function QuantityToMiB(q: Quantity): Option<int> {
    match q
    case Unrepresentable(_) => None
    case Bytes(n) =>
      if n < 0 || !Int64(n) then None
      else if n == 0 then Some(0)
      else Some(Quot(Wrap(Wrap(n + MIB) - 1), MIB))
  }

  ghost predicate LeastCover(n: int, bytes: int) {
    n * MIB >= bytes && forall m :: m * MIB >= bytes ==> n <= m
  }

  /** The result is the least number of MiB that covers the size, exactly up to
      2^63 - 2^20 bytes; above that the sum wraps and the result is negative. */
  lemma QuantityExact(n: int)
    requires 0 <= n < TWO63
    ensures QuantityToMiB(Bytes(n)).Some?
    ensures var r := QuantityToMiB(Bytes(n)).value;
            && (LeastCover(r, n) <==> n <= TWO63 - MIB)
            && (n <= TWO63 - MIB ==> 0 <= r && Int64(r * MIB))
            && (n > TWO63 - MIB ==> r < 0)
  {
    var r := QuantityToMiB(Bytes(n)).value;
    if n <= TWO63 - MIB {
      if 0 < n {
        WrapSum(n);
        var s := n + MIB - 1;
        assert r == s / MIB;
        DivBounds(s);
      }
      assert LeastCover(r, n);
    } else {
      WrapSum(n);
      var s := n + MIB - 1 - 2 * TWO63;
      DivBounds(-s);
      assert r == -((-s) / MIB);
    }
  }

  lemma DivBounds(s: int)
    requires s >= 0
    ensures s / MIB * MIB <= s < s / MIB * MIB + MIB
  {
  }

  lemma WrapSum(n: int)
    requires 0 < n < TWO63
    ensures Wrap(Wrap(n + MIB) - 1) == if n <= TWO63 - MIB then n + MIB - 1 else n + MIB - 1 - 2 * TWO63
  {
    if n + MIB < TWO63 {
    } else {
      assert Wrap(n + MIB) == n + MIB - 2 * TWO63;
    }
  }
}
