/** Fixed-width arithmetic and quotients. */
module Words {
  type Byte = x: int | 0 <= x < 256

  const TWO_31 := 0x8000_0000
  const TWO_32 := 0x1_0000_0000
  const TWO_64 := 0x1_0000_0000_0000_0000

  /** Conversion to, and arithmetic in, a 32-bit unsigned integer. */
  function U32(x: int): nat {
    x % TWO_32
  }

  /** Conversion to a 32-bit signed integer. */
  function Int32(x: int): int {
    (x + TWO_31) % TWO_32 - TWO_31
  }

  function U64(x: int): nat {
    x % TWO_64
  }

  predicate FitsInt32(x: int) {
    -TWO_31 <= x < TWO_31
  }

  lemma WrapAdd(a: int, b: int)
    ensures U32(U32(a) + b) == U32(a + b)
  {
    var q := a / TWO_32;
    assert a + b == (U32(a) + b) + q * TWO_32;
  }

  lemma WrapTriple(a: int)
    ensures U32(U32(a) * 3) == U32(a * 3)
  {
    WrapAdd(a, 2 * U32(a));
    WrapAdd(a, a + U32(a));
    WrapAdd(a, 2 * a);
  }

  /** Converting a wrapped value back yields the signed value exactly when it is representable. */
  lemma WrapThenConvert(x: int)
    ensures Int32(U32(x)) == x <==> FitsInt32(x)
  {
    var q := x / TWO_32;
    assert x + TWO_31 == (U32(x) + TWO_31) + q * TWO_32;
    assert Int32(U32(x)) == Int32(x);
  }

  lemma WrapDifference(a: nat, b: nat)
    requires a <= b < TWO_64
    ensures U64(b) == b && U64(a) == a && U64(U64(b) - U64(a)) == b - a
  {
  }

  // ---- Quotients ----

  lemma Scaled(a: int, b: int, w: nat)
    ensures a < b ==> (a + 1) * w <= b * w
    ensures a <= b ==> a * w <= b * w
  {
  }

  lemma UniqueQuotient(d: nat, m: nat, j: nat, i: nat, w: nat)
    requires m < w && i < w && d * w + m == j * w + i
    ensures d == j && m == i
  {
    Scaled(d, j, w);
    Scaled(j, d, w);
  }

  lemma Decompose(n: nat, w: nat)
    requires w > 0
    ensures n == (n / w) * w + n % w
  {
  }

  lemma DivMod(i: nat, j: nat, w: nat)
    requires i < w
    ensures (j * w + i) / w == j && (j * w + i) % w == i
  {
    var n := j * w + i;
    Decompose(n, w);
    UniqueQuotient(n / w, n % w, j, i, w);
  }
}
