/** JavaScript's 32-bit integer conversions and bitwise operators on
    unbounded integers: `ToUint32` (`x >>> 0`), `ToInt32`, `^` and `<<`,
    with congruence modulo 2^32 as the tool for reasoning about them. */
module JsInt {

  const TWO32: int := 0x1_0000_0000
  const TWO31: int := 0x8000_0000

  /** `x >>> 0` */
  function ToUint32(x: int): (r: int)
    ensures 0 <= r < TWO32
    ensures 0 <= x < TWO32 ==> r == x
  {
    x % TWO32
  }

  /** The signed 32-bit value every bitwise operator reads its operand as. */
  function ToInt32(x: int): (r: int)
    ensures -TWO31 <= r < TWO31
    ensures -TWO31 <= x < TWO31 ==> r == x
  {
    var u := x % TWO32;
    if u >= TWO31 then u - TWO32 else u
  }

  /** Bitwise exclusive or of two unsigned 32-bit values. */
  function XorU32(a: int, b: int): (r: int)
    requires 0 <= a < TWO32 && 0 <= b < TWO32
    ensures 0 <= r < TWO32
  {
    ((a as bv32) ^ (b as bv32)) as int
  }

  function Pow2(k: nat): (r: nat)
    ensures r >= 1
  {
    if k == 0 then 1 else 2 * Pow2(k - 1)
  }

  /** `x << k` for a shift count below 32. */
  function Shl(x: int, k: nat): int
    requires k < 32
  {
    ToInt32(ToInt32(x) * Pow2(k))
  }

  /** a and b agree modulo 2^32. */
  predicate Cong(a: int, b: int) {
    (a - b) % TWO32 == 0
  }

  lemma ToInt32Cong(x: int)
    ensures Cong(ToInt32(x), x)
  {
    var q := x / TWO32;
    assert x == q * TWO32 + x % TWO32;
    if x % TWO32 >= TWO31 {
      assert ToInt32(x) - x == (-1 - q) * TWO32;
    } else {
      assert ToInt32(x) - x == (-q) * TWO32;
    }
  }

  lemma CongMul(a: int, b: int, k: int)
    requires Cong(a, b)
    ensures Cong(a * k, b * k)
  {
    var q := (a - b) / TWO32;
    assert a - b == q * TWO32;
    assert a * k - b * k == (q * k) * TWO32;
  }

  lemma CongAdd(a: int, b: int, c: int, d: int)
    requires Cong(a, b) && Cong(c, d)
    ensures Cong(a + c, b + d)
  {
    var q := (a - b) / TWO32;
    var p := (c - d) / TWO32;
    assert a - b == q * TWO32;
    assert c - d == p * TWO32;
    assert (a + c) - (b + d) == (q + p) * TWO32;
  }

  lemma CongTrans(a: int, b: int, c: int)
    requires Cong(a, b) && Cong(b, c)
    ensures Cong(a, c)
  {
    var q := (a - b) / TWO32;
    var p := (b - c) / TWO32;
    assert a - b == q * TWO32;
    assert b - c == p * TWO32;
    assert a - c == (q + p) * TWO32;
  }

  /** Congruent values have the same unsigned 32-bit image. */
  lemma CongUint32(a: int, b: int)
    requires Cong(a, b)
    ensures ToUint32(a) == ToUint32(b)
  {
    var q := (a - b) / TWO32;
    assert a == b + q * TWO32;
  }

  /** A left shift multiplies by 2^k modulo 2^32. */
  lemma ShlCong(x: int, k: nat)
    requires k < 32
    ensures Cong(Shl(x, k), x * Pow2(k))
  {
    var y := ToInt32(x);
    ToInt32Cong(x);
    CongMul(y, x, Pow2(k));
    ToInt32Cong(y * Pow2(k));
    CongTrans(Shl(x, k), y * Pow2(k), x * Pow2(k));
  }
}
