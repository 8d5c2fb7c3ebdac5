/** `Codec.Binary.BigEndian`: 64-, 32- and 16-bit two's-complement integers
    written to and read from a caller's `byte[]` at an offset, most significant
    byte first. */
module Codec {
  import opened Lang
  import opened JavaInt
  import opened Decimal

  /** `Codec.LONG_BYTES`, `INTEGER_BYTES` and `SHORT_BYTES`: `SIZE / Byte.SIZE`. */
  const LONG_BYTES: i32 := 64 / 8
  const INTEGER_BYTES: i32 := 32 / 8
  const SHORT_BYTES: i32 := 16 / 8

  // ------------------------------------------------------------------------
  // Big-endian layout, independent of the source's expressions
  // ------------------------------------------------------------------------

  function Pow256(n: nat): (p: nat)
    ensures p >= 1
  {
    if n == 0 then 1 else 0x100 * Pow256(n - 1)
  }

  /** The unsigned value of a byte string read most significant byte first. */
  function Unsigned(s: seq<i8>): (u: nat)
    ensures u < Pow256(|s|)
  {
    if s == [] then 0
    else
      var rest := Unsigned(s[1..]);
      PlaceBound(U8(s[0]), Pow256(|s| - 1), rest);
      U8(s[0]) * Pow256(|s| - 1) + rest
  }

  lemma PlaceBound(b: nat, p: nat, r: nat)
    requires b < 0x100 && r < p
    ensures b * p + r < 0x100 * p
  {
    assert (0xFF - b) * p >= 0;
    Distribute(0xFF, b, p);
  }

  /** The n bytes of u modulo 256^n, most significant first. */
  function Digits(u: nat, n: nat): (s: seq<i8>)
    ensures |s| == n
  {
    if n == 0 then [] else [ToI8(u / Pow256(n - 1))] + Digits(u, n - 1)
  }

  /** The byte at position k of n big-endian bytes of u. */
  lemma {:induction false} DigitsAt(u: nat, n: nat, k: nat)
    requires k < n
    ensures Digits(u, n)[k] == ToI8(u / Pow256(n - 1 - k))
  {
    if k > 0 {
      DigitsAt(u, n - 1, k - 1);
    }
  }

  /** Splitting a remainder at one more byte. */
  lemma ModSplit(u: nat, p: nat)
    requires p >= 1
    ensures ((u / p) % 0x100) * p + u % p == u % (0x100 * p)
  {
    var q, r := u / p, u % p;
    var a, c := q / 0x100, q % 0x100;
    assert u == q * p + r;
    assert q == a * 0x100 + c;
    Regroup(p, a, c, r);
    PlaceBound(c, p, r);
    DivModUnique(u, 0x100 * p, a, c * p + r);
  }

  /** The ring identity behind `ModSplit`. */
  lemma Regroup(p: int, a: int, c: int, r: int)
    ensures (a * 0x100 + c) * p + r == a * (0x100 * p) + (c * p + r)
  {
  }

  /** Reading n written bytes gives back the value modulo 256^n. */
  lemma {:induction false} UnsignedDigits(u: nat, n: nat)
    ensures Unsigned(Digits(u, n)) == u % Pow256(n)
  {
    if n > 0 {
      var p := Pow256(n - 1);
      UnsignedDigitsStep(u, n);
      UnsignedDigits(u, n - 1);
      ModSplit(u, p);
    }
  }

  /** One unfolding of `Unsigned` over `Digits`: the leading byte is the
      quotient by 256^(n-1), taken modulo 256. */
  lemma UnsignedDigitsStep(u: nat, n: nat)
    requires n > 0
    ensures Pow256(n) == 0x100 * Pow256(n - 1)
    ensures Unsigned(Digits(u, n)) == ((u / Pow256(n - 1)) % 0x100) * Pow256(n - 1) + Unsigned(Digits(u, n - 1))
  {
    var d := Digits(u, n);
    assert d[0] == ToI8(u / Pow256(n - 1)) && d[1..] == Digits(u, n - 1);
    ByteOfByte(u / Pow256(n - 1));
  }

  /** The unsigned byte of `(byte) x` is x modulo 256. */
  lemma ByteOfByte(x: int)
    ensures U8(ToI8(x)) == x % 0x100
  {
  }

  /** Two byte strings of one length with the same unsigned value are equal. */
  lemma {:induction false} UnsignedInjective(s: seq<i8>, t: seq<i8>)
    requires |s| == |t| && Unsigned(s) == Unsigned(t)
    ensures s == t
  {
    if s != [] {
      HeadAndTail(s);
      HeadAndTail(t);
      U8Injective(s[0], t[0]);
      UnsignedInjective(s[1..], t[1..]);
      assert s == [s[0]] + s[1..] && t == [t[0]] + t[1..];
    }
  }

  /** The leading byte and the rest of a non-empty string are the quotient
      and remainder of its value by 256^(n-1). */
  lemma HeadAndTail(s: seq<i8>)
    requires s != []
    ensures U8(s[0]) == Unsigned(s) / Pow256(|s| - 1)
    ensures Unsigned(s[1..]) == Unsigned(s) % Pow256(|s| - 1)
  {
    UnsignedStep(s, 0);
    assert s[0..] == s;
    DivModUnique(Unsigned(s), Pow256(|s| - 1), U8(s[0]), Unsigned(s[1..]));
  }

  lemma U8Injective(x: i8, y: i8)
    requires U8(x) == U8(y)
    ensures x == y
  {
  }

  /** Writing the bytes that were read gives the same bytes back. */
  lemma DigitsUnsigned(s: seq<i8>)
    ensures Digits(Unsigned(s), |s|) == s
  {
    var u := Unsigned(s);
    UnsignedDigits(u, |s|);
    DivModUnique(u, Pow256(|s|), 0, u);
    UnsignedInjective(Digits(u, |s|), s);
  }

  lemma ModOfMod(u: int, p: nat, k: nat)
    requires p >= 1 && k >= 1
    ensures (u % (k * p)) % p == u % p
  {
    var a := u / (k * p);
    var b := u % (k * p);
    assert u == (k * p) * a + b;
    assert u == p * (k * a + b / p) + b % p;
    DivModUnique(u, p, k * a + b / p, b % p);
  }

  lemma ByteOfQuotient(u: nat, p: nat)
    requires p >= 1
    ensures ToI8(u / p) == ToI8((u / p) % 0x100)
  {
  }

  // ------------------------------------------------------------------------
  // The source's expressions
  // ------------------------------------------------------------------------

  /** Powers of two the source shifts by: `x << n` is `x * TWO_n`. */
  const TWO_8: nat := 0x100
  const TWO_16: nat := 0x1_0000
  const TWO_24: nat := 0x100_0000
  const TWO_32: nat := 0x1_0000_0000
  const TWO_40: nat := 0x100_0000_0000
  const TWO_48: nat := 0x1_0000_0000_0000
  const TWO_56: nat := 0x100_0000_0000_0000
  const TWO_64: nat := 0x1_0000_0000_0000_0000

  /** `v >>> n` on a long, where `d == 2^n`. */
  function UShr64(v: i64, d: nat): nat
    requires d >= 1
  {
    (v as int % TWO_64) / d
  }

  /** `v >>> n` on an int, where `d == 2^n`. */
  function UShr32(v: i32, d: nat): nat
    requires d >= 1
  {
    (v as int % TWO_32) / d
  }

  /** The eight bytes `writeLong` stores: `(byte)(v >>> 56)`, ..., `(byte)(v >>> 0)`. */
  function LongBytes(v: i64): seq<i8>
  {
    [ToI8(UShr64(v, TWO_56)), ToI8(UShr64(v, TWO_48)), ToI8(UShr64(v, TWO_40)), ToI8(UShr64(v, TWO_32)),
     ToI8(UShr64(v, TWO_24)), ToI8(UShr64(v, TWO_16)), ToI8(UShr64(v, TWO_8)), ToI8(UShr64(v, 1))]
  }

  /** The four bytes `writeInt` stores: `(byte)((v >>> 24) & 0xFF)`, ... */
  function IntBytes(v: i32): seq<i8>
  {
    [ToI8(UShr32(v, TWO_24) % 0x100), ToI8(UShr32(v, TWO_16) % 0x100),
     ToI8(UShr32(v, TWO_8) % 0x100), ToI8(UShr32(v, 1) % 0x100)]
  }

  /** The two bytes `writeShort` stores; the short is widened to int before `>>>`. */
  function ShortBytes(v: i16): seq<i8>
  {
    [ToI8(UShr32(v, TWO_8) % 0x100), ToI8(UShr32(v, 1) % 0x100)]
  }

  /** The sum `readLong` computes from its eight bytes, in wrapping long arithmetic:
      the first byte sign-extended and shifted by 56, the others masked with 255. */
  function DecodeLong(s: seq<i8>): i64
    requires |s| == 8
  {
    ToI64(s[0] * TWO_56 + U8(s[1]) * TWO_48 + U8(s[2]) * TWO_40 + U8(s[3]) * TWO_32
          + U8(s[4]) * TWO_24 + U8(s[5]) * TWO_16 + U8(s[6]) * TWO_8 + U8(s[7]))
  }

  /** `readInt`'s `(b1 << 24) + (b2 << 16) + (b3 << 8) + (b4 << 0)` in wrapping int arithmetic. */
  function DecodeInt(s: seq<i8>): i32
    requires |s| == 4
  {
    ToI32(U8(s[0]) * TWO_24 + U8(s[1]) * TWO_16 + U8(s[2]) * TWO_8 + U8(s[3]))
  }

  /** `readShort`'s `(short)((b1 << 8) + (b2 << 0))`. */
  function DecodeShort(s: seq<i8>): i16
    requires |s| == 2
  {
    ToI16(U8(s[0]) * TWO_8 + U8(s[1]))
  }

  // ------------------------------------------------------------------------
  // The source's expressions are the big-endian layout
  // ------------------------------------------------------------------------

  lemma Pow256Values()
    ensures Pow256(1) == TWO_8 && Pow256(2) == TWO_16 && Pow256(3) == TWO_24
    ensures Pow256(4) == TWO_32 && Pow256(5) == TWO_40 && Pow256(6) == TWO_48
    ensures Pow256(7) == TWO_56 && Pow256(8) == TWO_64
  {
  }

  /** `writeLong` stores the 8 big-endian bytes of v. */
  lemma LongBytesAreDigits(v: i64)
    ensures LongBytes(v) == Digits(v as int % TWO_64, 8)
  {
    var u: nat := v as int % TWO_64;
    Pow256Values();
    forall k | 0 <= k < 8 ensures LongBytes(v)[k] == Digits(u, 8)[k] {
      DigitsAt(u, 8, k);
    }
  }

  /** `writeInt` stores the 4 big-endian bytes of v. */
  lemma IntBytesAreDigits(v: i32)
    ensures IntBytes(v) == Digits(v as int % TWO_32, 4)
  {
    var u: nat := v as int % 0x1_0000_0000;
    Pow256Values();
    forall k | 0 <= k < 4 ensures IntBytes(v)[k] == Digits(u, 4)[k] {
      DigitsAt(u, 4, k);
      ByteOfQuotient(u, Pow256(3 - k));
    }
  }

  /** `writeShort` stores the 2 big-endian bytes of v. */
  lemma ShortBytesAreDigits(v: i16)
    ensures ShortBytes(v) == Digits(v as int % TWO_32, 2)
  {
    var u: nat := v as int % 0x1_0000_0000;
    Pow256Values();
    forall k | 0 <= k < 2 ensures ShortBytes(v)[k] == Digits(u, 2)[k] {
      DigitsAt(u, 2, k);
      ByteOfQuotient(u, Pow256(1 - k));
    }
  }

  /** One more byte of a big-endian suffix. */
  lemma UnsignedStep(s: seq<i8>, i: nat)
    requires i < |s|
    ensures Unsigned(s[i..]) == U8(s[i]) * Pow256(|s| - 1 - i) + Unsigned(s[i + 1..])
  {
    assert s[i..][1..] == s[i + 1..];
  }

  lemma UnsignedOf8(s: seq<i8>)
    requires |s| == 8
    ensures Unsigned(s) == U8(s[0]) * TWO_56 + U8(s[1]) * TWO_48 + U8(s[2]) * TWO_40
      + U8(s[3]) * TWO_32 + U8(s[4]) * TWO_24 + U8(s[5]) * TWO_16 + U8(s[6]) * TWO_8 + U8(s[7])
  {
    Pow256Values();
    UnsignedStep(s, 0); UnsignedStep(s, 1); UnsignedStep(s, 2); UnsignedStep(s, 3);
    UnsignedStep(s, 4); UnsignedStep(s, 5); UnsignedStep(s, 6); UnsignedStep(s, 7);
    assert s[0..] == s && s[8..] == [];
  }

  lemma UnsignedOf4(s: seq<i8>)
    requires |s| == 4
    ensures Unsigned(s) == U8(s[0]) * TWO_24 + U8(s[1]) * TWO_16 + U8(s[2]) * TWO_8 + U8(s[3])
  {
    Pow256Values();
    UnsignedStep(s, 0); UnsignedStep(s, 1); UnsignedStep(s, 2); UnsignedStep(s, 3);
    assert s[0..] == s && s[4..] == [];
  }

  lemma UnsignedOf2(s: seq<i8>)
    requires |s| == 2
    ensures Unsigned(s) == U8(s[0]) * TWO_8 + U8(s[1])
  {
    Pow256Values();
    UnsignedStep(s, 0); UnsignedStep(s, 1);
    assert s[0..] == s && s[2..] == [];
  }

  /** `readLong`'s sum is the two's-complement value of its 8 big-endian bytes. */
  lemma DecodeLongIsSigned(s: seq<i8>)
    requires |s| == 8
    ensures DecodeLong(s) == ToI64(Unsigned(s))
  {
    UnsignedOf8(s);
    var rest := U8(s[1]) * TWO_48 + U8(s[2]) * TWO_40 + U8(s[3]) * TWO_32
      + U8(s[4]) * TWO_24 + U8(s[5]) * TWO_16 + U8(s[6]) * TWO_8 + U8(s[7]);
    assert DecodeLong(s) == ToI64(s[0] * TWO_56 + rest);
    assert Unsigned(s) == U8(s[0]) * TWO_56 + rest;
    SignedTop(s[0], rest);
  }

  /** The sign-extended top byte and the unsigned one differ by 2^64. */
  lemma SignedTop(b: i8, rest: int)
    ensures ToI64(b * TWO_56 + rest) == ToI64(U8(b) * TWO_56 + rest)
  {
    if b < 0 {
      assert U8(b) * TWO_56 + rest == (b * TWO_56 + rest) + 1 * TWO_64;
      ToI64Periodic(b * TWO_56 + rest, 1);
    }
  }

  lemma DecodeIntIsSigned(s: seq<i8>)
    requires |s| == 4
    ensures DecodeInt(s) == ToI32(Unsigned(s))
  {
    UnsignedOf4(s);
  }

  lemma DecodeShortIsSigned(s: seq<i8>)
    requires |s| == 2
    ensures DecodeShort(s) == ToI16(Unsigned(s))
  {
    UnsignedOf2(s);
  }

  /** The bytes `writeLong` stores, read as unsigned, are v modulo 2^64. */
  lemma UnsignedLongBytes(v: i64)
    ensures Unsigned(LongBytes(v)) == v as int % TWO_64
  {
    var u: nat := v as int % TWO_64;
    LongBytesAreDigits(v);
    UnsignedDigits(u, 8);
    Pow256Values();
    DivModUnique(u, TWO_64, 0, u);
  }

  /** The bytes `writeInt` stores, read as unsigned, are v modulo 2^32. */
  lemma UnsignedIntBytes(v: i32)
    ensures Unsigned(IntBytes(v)) == v as int % TWO_32
  {
    var u: nat := v as int % TWO_32;
    IntBytesAreDigits(v);
    UnsignedDigits(u, 4);
    Pow256Values();
    DivModUnique(u, TWO_32, 0, u);
  }

  /** The bytes `writeShort` stores, read as unsigned, are v modulo 2^16. */
  lemma UnsignedShortBytes(v: i16)
    ensures Unsigned(ShortBytes(v)) == v as int % TWO_16
  {
    var u: nat := v as int % TWO_32;
    ShortBytesAreDigits(v);
    UnsignedDigits(u, 2);
    Pow256Values();
    ModOfMod(v, TWO_16, TWO_16);
  }

  /** A long wrapped from an unsigned 64-bit value is that value modulo 2^64. */
  lemma WrappedLongMod(u: nat)
    requires u < TWO_64
    ensures ToI64(u) as int % TWO_64 == u
  {
    DivModUnique(u, TWO_64, 0, u);
    if u >= 0x8000_0000_0000_0000 {
      DivModUnique(u - TWO_64, TWO_64, -1, u);
    } else {
      DivModUnique(u, TWO_64, 0, u);
    }
  }

  lemma WrappedIntMod(u: nat)
    requires u < TWO_32
    ensures ToI32(u) as int % TWO_32 == u
  {
    DivModUnique(u, TWO_32, 0, u);
    if u >= 0x8000_0000 {
      DivModUnique(u - TWO_32, TWO_32, -1, u);
    }
  }

  lemma WrappedShortMod(u: nat)
    requires u < TWO_16
    ensures ToI16(u) as int % TWO_16 == u
  {
    DivModUnique(u, TWO_16, 0, u);
    if u >= 0x8000 {
      DivModUnique(u - TWO_16, TWO_16, -1, u);
    }
  }

  // ------------------------------------------------------------------------
  // Round trips on byte strings
  // ------------------------------------------------------------------------

  /** Decoding the 8 bytes `writeLong` stores gives back v. */
  lemma LongRoundTrip(v: i64)
    ensures DecodeLong(LongBytes(v)) == v
  {
    UnsignedLongBytes(v);
    DecodeLongIsSigned(LongBytes(v));
    ToI64OfMod(v);
  }

  /** Encoding the value of any 8 bytes gives back those bytes. */
  lemma LongBytesOfDecode(s: seq<i8>)
    requires |s| == 8
    ensures LongBytes(DecodeLong(s)) == s
  {
    Pow256Values();
    DecodeLongIsSigned(s);
    WrappedLongMod(Unsigned(s));
    LongBytesAreDigits(DecodeLong(s));
    DigitsUnsigned(s);
  }

  /** Decoding the 4 bytes `writeInt` stores gives back v. */
  lemma IntRoundTrip(v: i32)
    ensures DecodeInt(IntBytes(v)) == v
  {
    UnsignedIntBytes(v);
    DecodeIntIsSigned(IntBytes(v));
    ToI32OfMod(v);
  }

  /** Encoding the value of any 4 bytes gives back those bytes. */
  lemma IntBytesOfDecode(s: seq<i8>)
    requires |s| == 4
    ensures IntBytes(DecodeInt(s)) == s
  {
    Pow256Values();
    DecodeIntIsSigned(s);
    WrappedIntMod(Unsigned(s));
    IntBytesAreDigits(DecodeInt(s));
    DigitsUnsigned(s);
  }

  /** Decoding the 2 bytes `writeShort` stores gives back v. */
  lemma ShortRoundTrip(v: i16)
    ensures DecodeShort(ShortBytes(v)) == v
  {
    UnsignedShortBytes(v);
    DecodeShortIsSigned(ShortBytes(v));
    ToI16OfMod(v);
  }

  /** Encoding the value of any 2 bytes gives back those bytes. */
  lemma ShortBytesOfDecode(s: seq<i8>)
    requires |s| == 2
    ensures ShortBytes(DecodeShort(s)) == s
  {
    Pow256Values();
    DecodeShortIsSigned(s);
    WrappedShortMod(Unsigned(s));
    UnsignedShortBytes(DecodeShort(s));
    UnsignedInjective(ShortBytes(DecodeShort(s)), s);
  }
  // ------------------------------------------------------------------------
  // The buffer operations of `Codec.Binary.BigEndian`
  // ------------------------------------------------------------------------

  /** The length of a Java array is at most `Integer.MAX_VALUE`. */
  predicate JavaArray(b: array?<i8>)
  {
    b != null ==> b.Length <= MAX_INT
  }

  /** The message of the IllegalArgumentException: `"(b.len:%d, off:%d)"`. */
  function LengthMessage(len: int, off: int): string
  {
    "(b.len:" + IntString(len) + ", off:" + IntString(off) + ")"
  }

  /** The two checks every operation makes: a null buffer, then fewer than
      `width` bytes from `off` to the end, computed in int arithmetic. */
  function Check(b: array?<i8>, off: i32, width: i32): (r: Result<()>)
    requires JavaArray(b) && 1 <= width <= LONG_BYTES
    ensures b == null <==> r == Throws(Thrown(NullPointer, "b"))
    ensures b != null && 0 <= off ==> (r.Ok? <==> off + width <= b.Length)
  {
    if b == null then Throws(Thrown(NullPointer, "b"))
    else if ToI32(b.Length - off) < width then Throws(Thrown(IllegalArgument, LengthMessage(b.Length, off)))
    else
      ToI32OfMod(b.Length - off as int);
      Ok(())
  }

  /** The outcome of touching `b[off]` to `b[off + width - 1]` after the checks:
      a negative offset that passes them fails at the first index. */
  function Access(b: array?<i8>, off: i32, width: i32): (r: Result<()>)
    requires JavaArray(b) && 1 <= width <= LONG_BYTES
    ensures r.Ok? <==> b != null && 0 <= off && off + width <= b.Length
    ensures r.Throws? && Check(b, off, width).Ok? ==> r.error == Jdk(ArrayIndexOutOfBounds)
  {
    match Check(b, off, width)
    case Throws(e) => Throws(e)
    case Ok(_) => if off < 0 then Throws(Jdk(ArrayIndexOutOfBounds)) else Ok(())
  }

  /** s with the bytes w stored from position off on. */
  function Spliced(s: seq<i8>, off: nat, w: seq<i8>): (t: seq<i8>)
    requires off + |w| <= |s|
    ensures |t| == |s| && t[off..off + |w|] == w
    ensures forall i :: 0 <= i < |s| && !(off <= i < off + |w|) ==> t[i] == s[i]
  {
    s[..off] + w + s[off + |w|..]
  }

  /** A string that has w at off and agrees with s elsewhere is `Spliced(s, off, w)`. */
  lemma SplicedBy(s: seq<i8>, t: seq<i8>, off: nat, w: seq<i8>)
    requires |t| == |s| && off + |w| <= |s|
    requires forall k :: 0 <= k < |w| ==> t[off + k] == w[k]
    requires forall i :: 0 <= i < |s| && !(off <= i < off + |w|) ==> t[i] == s[i]
    ensures t == Spliced(s, off, w)
  {
  }

  /** `writeLong(v, b, off)`: stores the 8 bytes of v at `b[off..off+8]` and
      returns LONG_BYTES, or throws and leaves b as it was. */
  method WriteLongAt(v: i64, b: array?<i8>, off: i32) returns (r: Result<i32>)
    requires JavaArray(b)
    modifies b
    ensures r.Throws? <==> Access(b, off, LONG_BYTES).Throws?
    ensures r.Throws? ==> r.error == Access(b, off, LONG_BYTES).error && (b != null ==> b[..] == old(b[..]))
    ensures r.Ok? ==> r.value == LONG_BYTES && b[..] == Spliced(old(b[..]), off, LongBytes(v))
  {
    if b == null {
      return Throws(Thrown(NullPointer, "b"));
    }
    if ToI32(b.Length - off) < LONG_BYTES {
      return Throws(Thrown(IllegalArgument, LengthMessage(b.Length, off)));
    }
    if off < 0 {
      // `b[off] = ...` is the first store and fails before any byte changes
      return Throws(Jdk(ArrayIndexOutOfBounds));
    }
    ghost var before := b[..];
    b[off] := ToI8(UShr64(v, TWO_56));
    b[off + 1] := ToI8(UShr64(v, TWO_48));
    b[off + 2] := ToI8(UShr64(v, TWO_40));
    b[off + 3] := ToI8(UShr64(v, TWO_32));
    b[off + 4] := ToI8(UShr64(v, TWO_24));
    b[off + 5] := ToI8(UShr64(v, TWO_16));
    b[off + 6] := ToI8(UShr64(v, TWO_8));
    b[off + 7] := ToI8(UShr64(v, 1));
    SplicedBy(before, b[..], off, LongBytes(v));
    return Ok(LONG_BYTES);
  }

  /** `writeLong(v, b)`: `writeLong(v, b, 0)`. */
  method WriteLong(v: i64, b: array?<i8>) returns (r: Result<()>)
    requires JavaArray(b)
    modifies b
    ensures r.Ok? <==> b != null && LONG_BYTES <= b.Length
    ensures r.Throws? ==> r.error == Check(b, 0, LONG_BYTES).error && (b != null ==> b[..] == old(b[..]))
    ensures r.Ok? ==> b[..] == LongBytes(v) + old(b[LONG_BYTES..])
  {
    var n := WriteLongAt(v, b, 0);
    match n
    case Throws(e) => return Throws(e);
    case Ok(_) => return Ok(());
  }

  /** `readLong(b, off)` as written: after the checks on off it reads `b[0..8]`,
      not `b[off..off+8]`; a negative offset that passes the checks with fewer
      than 8 bytes in b fails at the first missing index. */
  function ReadLongAt(b: array?<i8>, off: i32): (r: Result<i64>)
    requires JavaArray(b)
    reads b
    ensures r.Ok? <==> b != null && LONG_BYTES <= b.Length && Check(b, off, LONG_BYTES).Ok?
    ensures r.Throws? ==> r.error == if Check(b, off, LONG_BYTES).Throws? then Check(b, off, LONG_BYTES).error
                                     else Jdk(ArrayIndexOutOfBounds)
    ensures r.Ok? ==> r.value == ToI64(Unsigned(b[..LONG_BYTES]))
  {
    match Check(b, off, LONG_BYTES)
    case Throws(e) => Throws(e)
    case Ok(_) =>
      if b.Length < LONG_BYTES then Throws(Jdk(ArrayIndexOutOfBounds))
      else
        DecodeLongIsSigned(b[..LONG_BYTES]);
        Ok(DecodeLong(b[..LONG_BYTES]))
  }

  /** `readLong(b)`: `readLong(b, 0)`, the two's-complement value of the first 8 bytes. */
  function ReadLong(b: array?<i8>): (r: Result<i64>)
    requires JavaArray(b)
    reads b
    ensures r.Ok? <==> b != null && LONG_BYTES <= b.Length
    ensures r.Ok? ==> r.value == ToI64(Unsigned(b[..LONG_BYTES]))
    ensures b == null ==> r == Throws(Thrown(NullPointer, "b"))
    ensures b != null && b.Length < LONG_BYTES ==> r == Throws(Thrown(IllegalArgument, LengthMessage(b.Length, 0)))
  {
    ReadLongAt(b, 0)
  }

  /** `readLong(b, off)` as its callers need it: the 8 bytes from off on. */
  function IntendedReadLongAt(b: array?<i8>, off: i32): (r: Result<i64>)
    requires JavaArray(b)
    reads b
    ensures r.Ok? <==> Access(b, off, LONG_BYTES).Ok?
    ensures r.Throws? ==> r.error == Access(b, off, LONG_BYTES).error
    ensures r.Ok? ==> r.value == ToI64(Unsigned(b[off..off + LONG_BYTES]))
  {
    match Access(b, off, LONG_BYTES)
    case Throws(e) => Throws(e)
    case Ok(_) =>
      DecodeLongIsSigned(b[off..off + LONG_BYTES]);
      Ok(DecodeLong(b[off..off + LONG_BYTES]))
  }

  /** `writeInt(v, b, off)`: stores the 4 bytes of v at `b[off..off+4]`. */
  method WriteIntAt(v: i32, b: array?<i8>, off: i32) returns (r: Result<()>)
    requires JavaArray(b)
    modifies b
    ensures r == Access(b, off, INTEGER_BYTES)
    ensures r.Throws? && b != null ==> b[..] == old(b[..])
    ensures r.Ok? ==> b[..] == Spliced(old(b[..]), off, IntBytes(v))
  {
    if b == null {
      return Throws(Thrown(NullPointer, "b"));
    }
    if ToI32(b.Length - off) < INTEGER_BYTES {
      return Throws(Thrown(IllegalArgument, LengthMessage(b.Length, off)));
    }
    if off < 0 {
      return Throws(Jdk(ArrayIndexOutOfBounds));
    }
    ghost var before := b[..];
    b[off] := ToI8(UShr32(v, TWO_24) % 0x100);
    b[off + 1] := ToI8(UShr32(v, TWO_16) % 0x100);
    b[off + 2] := ToI8(UShr32(v, TWO_8) % 0x100);
    b[off + 3] := ToI8(UShr32(v, 1) % 0x100);
    assert b[..] == Spliced(before, off, IntBytes(v));
    return Ok(());
  }

  /** `writeInt(v, b)`: `writeInt(v, b, 0)`. */
  method WriteInt(v: i32, b: array?<i8>) returns (r: Result<()>)
    requires JavaArray(b)
    modifies b
    ensures r.Ok? <==> b != null && INTEGER_BYTES <= b.Length
    ensures r.Throws? ==> r.error == Check(b, 0, INTEGER_BYTES).error && (b != null ==> b[..] == old(b[..]))
    ensures r.Ok? ==> b[..] == IntBytes(v) + old(b[INTEGER_BYTES..])
  {
    r := WriteIntAt(v, b, 0);
  }

  /** `readInt(b, off)`: the two's-complement value of `b[off..off+4]`. */
  function ReadIntAt(b: array?<i8>, off: i32): (r: Result<i32>)
    requires JavaArray(b)
    reads b
    ensures r.Ok? <==> Access(b, off, INTEGER_BYTES).Ok?
    ensures r.Throws? ==> r.error == Access(b, off, INTEGER_BYTES).error
    ensures r.Ok? ==> r.value == ToI32(Unsigned(b[off..off + INTEGER_BYTES]))
  {
    match Access(b, off, INTEGER_BYTES)
    case Throws(e) => Throws(e)
    case Ok(_) =>
      DecodeIntIsSigned(b[off..off + INTEGER_BYTES]);
      Ok(DecodeInt(b[off..off + INTEGER_BYTES]))
  }

  /** `readInt(b)`: `readInt(b, 0)`. */
  function ReadInt(b: array?<i8>): (r: Result<i32>)
    requires JavaArray(b)
    reads b
    ensures r.Ok? <==> b != null && INTEGER_BYTES <= b.Length
    ensures r.Ok? ==> r.value == ToI32(Unsigned(b[..INTEGER_BYTES]))
    ensures b == null ==> r == Throws(Thrown(NullPointer, "b"))
    ensures b != null && b.Length < INTEGER_BYTES ==> r == Throws(Thrown(IllegalArgument, LengthMessage(b.Length, 0)))
  {
    assert b != null && INTEGER_BYTES <= b.Length ==> b[0..INTEGER_BYTES] == b[..INTEGER_BYTES];
    ReadIntAt(b, 0)
  }

  /** `writeShort(v, b, off)`: stores the 2 bytes of v at `b[off..off+2]`. */
  method WriteShortAt(v: i16, b: array?<i8>, off: i32) returns (r: Result<()>)
    requires JavaArray(b)
    modifies b
    ensures r == Access(b, off, SHORT_BYTES)
    ensures r.Throws? && b != null ==> b[..] == old(b[..])
    ensures r.Ok? ==> b[..] == Spliced(old(b[..]), off, ShortBytes(v))
  {
    if b == null {
      return Throws(Thrown(NullPointer, "b"));
    }
    if ToI32(b.Length - off) < SHORT_BYTES {
      return Throws(Thrown(IllegalArgument, LengthMessage(b.Length, off)));
    }
    if off < 0 {
      return Throws(Jdk(ArrayIndexOutOfBounds));
    }
    ghost var before := b[..];
    b[off] := ToI8(UShr32(v, TWO_8) % 0x100);
    b[off + 1] := ToI8(UShr32(v, 1) % 0x100);
    assert b[..] == Spliced(before, off, ShortBytes(v));
    return Ok(());
  }

  /** `writeShort(v, b)`: `writeShort(v, b, 0)`. */
  method WriteShort(v: i16, b: array?<i8>) returns (r: Result<()>)
    requires JavaArray(b)
    modifies b
    ensures r.Ok? <==> b != null && SHORT_BYTES <= b.Length
    ensures r.Throws? ==> r.error == Check(b, 0, SHORT_BYTES).error && (b != null ==> b[..] == old(b[..]))
    ensures r.Ok? ==> b[..] == ShortBytes(v) + old(b[SHORT_BYTES..])
  {
    r := WriteShortAt(v, b, 0);
  }

  /** `readShort(b, off)`: the two's-complement value of `b[off..off+2]`. */
  function ReadShortAt(b: array?<i8>, off: i32): (r: Result<i16>)
    requires JavaArray(b)
    reads b
    ensures r.Ok? <==> Access(b, off, SHORT_BYTES).Ok?
    ensures r.Throws? ==> r.error == Access(b, off, SHORT_BYTES).error
    ensures r.Ok? ==> r.value == ToI16(Unsigned(b[off..off + SHORT_BYTES]))
  {
    match Access(b, off, SHORT_BYTES)
    case Throws(e) => Throws(e)
    case Ok(_) =>
      DecodeShortIsSigned(b[off..off + SHORT_BYTES]);
      Ok(DecodeShort(b[off..off + SHORT_BYTES]))
  }

  /** `readShort(b)`: `readShort(b, 0)`. */
  function ReadShort(b: array?<i8>): (r: Result<i16>)
    requires JavaArray(b)
    reads b
    ensures r.Ok? <==> b != null && SHORT_BYTES <= b.Length
    ensures r.Ok? ==> r.value == ToI16(Unsigned(b[..SHORT_BYTES]))
    ensures b == null ==> r == Throws(Thrown(NullPointer, "b"))
    ensures b != null && b.Length < SHORT_BYTES ==> r == Throws(Thrown(IllegalArgument, LengthMessage(b.Length, 0)))
  {
    assert b != null && SHORT_BYTES <= b.Length ==> b[0..SHORT_BYTES] == b[..SHORT_BYTES];
    ReadShortAt(b, 0)
  }
  // ------------------------------------------------------------------------
  // Round trips through a buffer
  // ------------------------------------------------------------------------

  /** After `writeInt(v, b, off)` succeeds, `readInt(b, off)` returns v. */
  lemma ReadIntAfterWrite(b: array<i8>, off: i32, v: i32, before: seq<i8>)
    requires b.Length <= MAX_INT && |before| == b.Length
    requires 0 <= off && off as int + INTEGER_BYTES as int <= b.Length
    requires b[..] == Spliced(before, off, IntBytes(v))
    ensures ReadIntAt(b, off) == Ok(v)
  {
    assert b[off..off + INTEGER_BYTES] == b[..][off..off + INTEGER_BYTES];
    IntRoundTrip(v);
  }

  /** After `writeShort(v, b, off)` succeeds, `readShort(b, off)` returns v. */
  lemma ReadShortAfterWrite(b: array<i8>, off: i32, v: i16, before: seq<i8>)
    requires b.Length <= MAX_INT && |before| == b.Length
    requires 0 <= off && off as int + SHORT_BYTES as int <= b.Length
    requires b[..] == Spliced(before, off, ShortBytes(v))
    ensures ReadShortAt(b, off) == Ok(v)
  {
    assert b[off..off + SHORT_BYTES] == b[..][off..off + SHORT_BYTES];
    ShortRoundTrip(v);
  }

  /** After `writeLong(v, b, off)` succeeds, the intended `readLong(b, off)` returns v. */
  lemma IntendedReadLongAfterWrite(b: array<i8>, off: i32, v: i64, before: seq<i8>)
    requires b.Length <= MAX_INT && |before| == b.Length
    requires 0 <= off && off as int + LONG_BYTES as int <= b.Length
    requires b[..] == Spliced(before, off, LongBytes(v))
    ensures IntendedReadLongAt(b, off) == Ok(v)
  {
    assert b[off..off + LONG_BYTES] == b[..][off..off + LONG_BYTES];
    LongRoundTrip(v);
  }

  /** `readLong(b, off)` as written returns the same as `readLong(b)` whenever it
      returns at all: the offset only takes part in the checks. */
  lemma ReadLongAtIgnoresOffset(b: array?<i8>, off: i32)
    requires JavaArray(b)
    requires ReadLongAt(b, off).Ok?
    ensures ReadLong(b) == ReadLongAt(b, off)
  {
  }

  /** The two readings agree at offset 0. */
  lemma ReadLongAtStart(b: array?<i8>)
    requires JavaArray(b)
    ensures IntendedReadLongAt(b, 0) == ReadLongAt(b, 0)
  {
    if b != null && LONG_BYTES <= b.Length {
      assert b[0..LONG_BYTES] == b[..LONG_BYTES];
    }
  }

  /** A 16-byte zero buffer after `writeLong(1, b, 8)`: `readLong(b, 8)` as written
      returns 0, the value of the untouched first 8 bytes; the intended reading
      returns 1. */
  lemma ReadLongAtMissesWrite(b: array<i8>)
    requires b.Length == 16
    requires b[..] == Spliced(seq(16, _ => 0), 8, LongBytes(1))
    ensures ReadLongAt(b, 8) == Ok(0)
    ensures IntendedReadLongAt(b, 8) == Ok(1)
  {
    var zeros: seq<i8> := seq(16, _ => 0);
    IntendedReadLongAfterWrite(b, 8, 1, zeros);
    var head := b[..LONG_BYTES];
    assert head == seq(8, _ => 0) by {
      forall i | 0 <= i < 8 ensures head[i] == 0 {
        assert head[i] == b[..][i] == zeros[i];
      }
    }
    ZeroBytes(8);
    assert ReadLongAt(b, 8).Ok?;
  }

  lemma {:induction false} ZeroBytes(n: nat)
    ensures Unsigned(seq(n, _ => 0)) == 0
  {
    if n > 0 {
      assert seq(n, _ => 0)[1..] == seq(n - 1, _ => 0);
      ZeroBytes(n - 1);
    }
  }
}
