/** Go's `int64`: unbounded integers cut down to 64-bit two's complement. */
module Int64 {

  const TWO_63: int := 0x8000_0000_0000_0000
  const TWO_64: int := 0x1_0000_0000_0000_0000

  predicate Fits(x: int) {
    -TWO_63 <= x < TWO_63
  }

  /** The value an `int64` variable holds after being assigned the exact result `x`. */
  function Wrap(x: int): (r: int)
    ensures Fits(r)
    ensures Fits(x) ==> r == x
  {
    (x + TWO_63) % TWO_64 - TWO_63
  }

  lemma WrapShift(x: int, k: int)
    ensures Wrap(x + k * TWO_64) == Wrap(x)
  {
    var y := x + TWO_63;
    assert (y + k * TWO_64) % TWO_64 == y % TWO_64;
  }

  /** Wrapping operands early or late gives the same machine result. */
  lemma WrapSum(a: int, b: int)
    ensures Wrap(Wrap(a) + b) == Wrap(a + b)
    ensures Wrap(a - Wrap(b)) == Wrap(a - b)
  {
    var j, k := (a + TWO_63) / TWO_64, (b + TWO_63) / TWO_64;
    assert Wrap(a) == a - j * TWO_64 && Wrap(b) == b - k * TWO_64;
    WrapShift(a + b, -j);
    WrapShift(a - b, k);
  }

  /** The sign of the machine result is the 64th bit. */
  lemma WrapSign(x: int)
    ensures Wrap(x) >= 0 <==> x % TWO_64 < TWO_63
  {
    var k, r := x / TWO_64, x % TWO_64;
    WrapShift(r, k);
    WrapShift(r - TWO_64, 1);
  }
}
