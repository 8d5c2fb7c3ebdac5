/** Java's fixed-width two's-complement integers over Dafny's unbounded `int`.
    Every narrowing cast and every wrapping operation of the source is written
    with the functions below. */
module JavaInt {

  type i8 = x: int | -0x80 <= x < 0x80
  type i16 = x: int | -0x8000 <= x < 0x8000
  type i32 = x: int | -0x8000_0000 <= x < 0x8000_0000
  type i64 = x: int | -0x8000_0000_0000_0000 <= x < 0x8000_0000_0000_0000

  /** `Integer.MAX_VALUE`. */
  const MAX_INT: i32 := 0x7FFF_FFFF

  /** `(byte) x`: the low 8 bits of x read as a signed value. */
  function ToI8(x: int): (r: i8)
    ensures (x - r) % 0x100 == 0
  {
    var m := x % 0x100;
    if m < 0x80 then m else m - 0x100
  }

  /** `(short) x`: the low 16 bits of x read as a signed value. */
  function ToI16(x: int): (r: i16)
    ensures (x - r) % 0x1_0000 == 0
  {
    var m := x % 0x1_0000;
    if m < 0x8000 then m else m - 0x1_0000
  }

  /** `(int) x`, and the result of any wrapping `int` arithmetic whose exact value is x. */
  function ToI32(x: int): (r: i32)
    ensures (x - r) % 0x1_0000_0000 == 0
  {
    var m := x % 0x1_0000_0000;
    if m < 0x8000_0000 then m else m - 0x1_0000_0000
  }

  /** `(long) x`, and the result of any wrapping `long` arithmetic whose exact value is x. */
  function ToI64(x: int): (r: i64)
    ensures (x - r) % 0x1_0000_0000_0000_0000 == 0
  {
    var m := x % 0x1_0000_0000_0000_0000;
    if m < 0x8000_0000_0000_0000 then m else m - 0x1_0000_0000_0000_0000
  }

  /** `b & 0xFF`: a byte read as unsigned. */
  function U8(b: i8): (r: nat)
    ensures r < 0x100 && (r - b) % 0x100 == 0
    ensures b >= 0 ==> r == b
  {
    b % 0x100
  }

  /** Two ints that agree modulo 2^32 wrap to the same Java int. */
  lemma ToI32Congruent(x: int, y: int)
    requires (x - y) % 0x1_0000_0000 == 0
    ensures ToI32(x) == ToI32(y)
  {
    var k := (x - y) / 0x1_0000_0000;
    assert x == y + k * 0x1_0000_0000;
    assert x % 0x1_0000_0000 == y % 0x1_0000_0000;
  }

  /** Wrapping an intermediate result of a chain of int operations changes nothing:
      `(int)(a op b)` may be taken at each step or once at the end. */
  lemma ToI32Absorbs(x: int, c: int, y: int)
    ensures ToI32(c * ToI32(x) + y) == ToI32(c * x + y)
  {
    var k := (x - ToI32(x)) / 0x1_0000_0000;
    assert x == ToI32(x) + k * 0x1_0000_0000;
    assert c * x + y == c * ToI32(x) + y + (c * k) * 0x1_0000_0000;
    ToI32Congruent(c * ToI32(x) + y, c * x + y);
  }

  /** Java's widths repeat with period 2^width. */
  lemma ToI16Periodic(x: int, k: int)
    ensures ToI16(x + k * 0x1_0000) == ToI16(x)
  {
    DivModUnique(x + k * 0x1_0000, 0x1_0000, x / 0x1_0000 + k, x % 0x1_0000);
  }

  lemma ToI32Periodic(x: int, k: int)
    ensures ToI32(x + k * 0x1_0000_0000) == ToI32(x)
  {
    DivModUnique(x + k * 0x1_0000_0000, 0x1_0000_0000, x / 0x1_0000_0000 + k, x % 0x1_0000_0000);
  }

  lemma ToI64Periodic(x: int, k: int)
    ensures ToI64(x + k * 0x1_0000_0000_0000_0000) == ToI64(x)
  {
    DivModUnique(x + k * 0x1_0000_0000_0000_0000, 0x1_0000_0000_0000_0000,
                 x / 0x1_0000_0000_0000_0000 + k, x % 0x1_0000_0000_0000_0000);
  }

  /** Wrapping a value of the width changes nothing; nor does reducing it first. */
  lemma ToI16OfMod(v: i16)
    ensures ToI16(v) == v && ToI16(v % 0x1_0000) == v
  {
    if v >= 0 {
      DivModUnique(v, 0x1_0000, 0, v);
    } else {
      DivModUnique(v, 0x1_0000, -1, v + 0x1_0000);
    }
  }

  lemma ToI32OfMod(v: i32)
    ensures ToI32(v) == v && ToI32(v % 0x1_0000_0000) == v
  {
    if v >= 0 {
      DivModUnique(v, 0x1_0000_0000, 0, v);
    } else {
      DivModUnique(v, 0x1_0000_0000, -1, v + 0x1_0000_0000);
    }
  }

  lemma ToI64OfMod(v: i64)
    ensures ToI64(v) == v && ToI64(v % 0x1_0000_0000_0000_0000) == v
  {
    if v >= 0 {
      DivModUnique(v, 0x1_0000_0000_0000_0000, 0, v);
    } else {
      DivModUnique(v, 0x1_0000_0000_0000_0000, -1, v + 0x1_0000_0000_0000_0000);
    }
  }

  /** Euclidean division by d is unique. */
  lemma DivModUnique(u: int, d: int, q: int, r: int)
    requires d > 0 && 0 <= r < d && u == q * d + r
    ensures u / d == q && u % d == r
  {
    var q', r' := u / d, u % d;
    assert (q' - q) * d == r - r' by {
      assert q' * d + r' == q * d + r;
      Distribute(q', q, d);
    }
    if q' > q {
      MulAtLeast(q' - q, d);
    } else if q' < q {
      MulAtLeast(q - q', d);
      Distribute(q, q', d);
      Distribute(q', q, d);
    }
  }

  lemma Distribute(a: int, b: int, d: int)
    ensures (a - b) * d == a * d - b * d
  {
  }

  lemma MulAtLeast(a: int, d: int)
    requires a >= 1 && d >= 0
    ensures a * d >= d
  {
    assert a * d == (a - 1) * d + d;
    assert (a - 1) * d >= 0;
  }
}
