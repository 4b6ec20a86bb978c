/** Integer arithmetic where C differs from Dafny. */
module CInt {

  /** Integer division as in C: towards zero. */
  function TruncDiv(a: int, b: int): int
    requires b > 0
  {
    if a >= 0 then a / b else -((-a) / b)
  }

  /** A wider value stored into a 32-bit int. */
  function ToInt32(x: int): (r: int)
    ensures -0x8000_0000 <= r < 0x8000_0000
  {
    var y := x % 0x1_0000_0000;
    if y < 0x8000_0000 then y else y - 0x1_0000_0000
  }

  lemma ToInt32Exact(x: int)
    ensures ToInt32(x) == x <==> -0x8000_0000 <= x < 0x8000_0000
  {
  }

  lemma Scaled(a: int, b: int, k: nat)
    ensures a <= b ==> a * k <= b * k
  {
    if a <= b {
      assert b * k == a * k + (b - a) * k;
    }
  }
}
