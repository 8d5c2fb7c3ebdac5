/** `Hash.ModifiedBernstein`: the Bernstein string hash `h = 31h + b` over a
    byte buffer, seeded with 5381, in wrapping int arithmetic (`Int32`), and the
    same hash with its sign bit masked off (`Uint32`). */
module Hash {
  import opened Lang
  import opened JavaInt

  const SEED: i32 := 5381

  /** The two `Hash.Provider`s. */
  datatype Provider = MBInt32 | MBUint32

  /** `bitsize()` of each provider: 31 exactly for the provider whose every
      hash is non-negative, 32 for the one that can set the sign bit. */
  function Bitsize(p: Provider): (b: int)
    ensures b == 31 || b == 32
    ensures b == 31 <==> forall s :: HashOf(p, s) >= 0
  {
    match p
    case MBInt32 => Int32HighBitSet(); 32
    case MBUint32 => 31
  }

  /** `Provider.id`: `"%s.%s"` of the algorithm group and the provider class. */
  function Id(p: Provider): string
  {
    match p
    case MBInt32 => "ModifiedBernstein" + "." + "Int32"
    case MBUint32 => "ModifiedBernstein" + "." + "Uint32"
  }

  /** The hash of a byte string: each byte folded into `h` as `31 * h + b`,
      every step wrapped to 32 bits. */
  function Fold(s: seq<i8>): i32
  {
    if s == [] then SEED else ToI32(31 * Fold(s[..|s| - 1]) + s[|s| - 1])
  }

  /** The hash of the empty buffer is the seed. */
  lemma EmptyHash()
    ensures Fold([]) == 5381
  {
  }

  /** Appending a byte to a buffer folds it into the buffer's hash. */
  lemma FoldSnoc(s: seq<i8>, x: i8)
    ensures Fold(s + [x]) == ToI32(31 * Fold(s) + x)
  {
    assert (s + [x])[..|s|] == s;
  }

  /** The same recurrence in exact integers: the polynomial
      `5381 * 31^n + b0 * 31^(n-1) + ... + b(n-1)`. */
  function Poly(s: seq<i8>): int
  {
    if s == [] then SEED else 31 * Poly(s[..|s| - 1]) + s[|s| - 1]
  }

  /** The wrapping hash is the exact polynomial reduced to a Java int. */
  lemma {:induction false} FoldIsPoly(s: seq<i8>)
    ensures Fold(s) == ToI32(Poly(s))
  {
    if s == [] {
      ToI32OfMod(SEED);
    } else {
      var p := s[..|s| - 1];
      FoldIsPoly(p);
      ToI32Absorbs(Poly(p), 31, s[|s| - 1]);
    }
  }

  /** Hashing a concatenation continues from the hash of the first part. */
  lemma {:induction false} PolyAppend(s: seq<i8>, t: seq<i8>)
    ensures Poly(s + t) == Pow31(|t|) * Poly(s) + PolyTail(t)
  {
    if t == [] {
      assert s + t == s;
    } else {
      var t' := t[..|t| - 1];
      assert (s + t)[..|s + t| - 1] == s + t';
      PolyAppend(s, t');
    }
  }

  function Pow31(n: nat): int
  {
    if n == 0 then 1 else 31 * Pow31(n - 1)
  }

  /** The contribution of the bytes t alone, with a zero seed. */
  function PolyTail(t: seq<i8>): int
  {
    if t == [] then 0 else 31 * PolyTail(t[..|t| - 1]) + t[|t| - 1]
  }

  /** `(h << 5) - h + b` in int arithmetic is `31 * h + b` wrapped. */
  lemma ShiftStep(h: i32, b: i8)
    ensures ToI32(ToI32(ToI32(h * 32) - h) + b) == ToI32(31 * h + b)
  {
    ToI32Absorbs(h * 32, 1, 0 - h as int);
    ToI32Absorbs(h * 32 - h, 1, b);
  }

  /** `ModifiedBernstein.Int32.hash(b)`; a null buffer fails at `b.length`. */
  method Int32Hash(b: array?<i8>) returns (r: Result<i32>)
    ensures b == null ==> r == Throws(Jdk(NullPointer))
    ensures b != null ==> r == Ok(Fold(b[..]))
  {
    if b == null {
      return Throws(Jdk(NullPointer));
    }
    var h: i32 := SEED;
    var i := 0;
    while i < b.Length
      invariant 0 <= i <= b.Length
      invariant h == Fold(b[..i])
    {
      ShiftStep(h, b[i]);
      assert b[..i + 1][..i] == b[..i];
      h := ToI32(ToI32(ToI32(h * 32) - h) + b[i]);
      i := i + 1;
    }
    assert b[..i] == b[..];
    return Ok(h);
  }

  /** `h & Integer.MAX_VALUE`: the low 31 bits of h, as a non-negative int. */
  function Masked(h: i32): (r: i32)
    ensures 0 <= r <= MAX_INT
    ensures h >= 0 ==> r == h
    ensures h < 0 ==> r == h + 0x8000_0000
  {
    h % 0x8000_0000
  }

  /** `ModifiedBernstein.Uint32.hash(b)`: the Int32 hash, masked. */
  method Uint32Hash(b: array?<i8>) returns (r: Result<i32>)
    ensures b == null ==> r == Throws(Jdk(NullPointer))
    ensures b != null ==> r == Ok(Masked(Fold(b[..])))
  {
    r := Int32Hash(b);
    if r.Ok? {
      r := Ok(Masked(r.value));
    }
  }

  /** What `hash(b)` of each provider returns for a non-null buffer. */
  function HashOf(p: Provider, s: seq<i8>): i32
  {
    match p
    case MBInt32 => Fold(s)
    case MBUint32 => Masked(Fold(s))
  }

  /** `provider.hash(b)`. */
  method ProviderHash(p: Provider, b: array?<i8>) returns (r: Result<i32>)
    ensures b == null ==> r == Throws(Jdk(NullPointer))
    ensures b != null ==> r == Ok(HashOf(p, b[..]))
  {
    match p
    case MBInt32 => r := Int32Hash(b);
    case MBUint32 => r := Uint32Hash(b);
  }

  /** `h | Integer.MAX_VALUE`: bits 0 to 30 set, the sign bit that of h. */
  function OrMaxInt(h: i32): i32
  {
    if h >= 0 then MAX_INT else -1
  }

  /** The test's high-bit check `(h | 0x7fffffff) == 0x7fffffff`. */
  predicate HighBitClear(h: i32)
  {
    OrMaxInt(h) == MAX_INT
  }

  /** Every hash fits in `bitsize()` bits: a 31-bit hash is a non-negative int. */
  lemma HashFitsBitsize(p: Provider, s: seq<i8>)
    ensures Bitsize(p) == 31 ==> HighBitClear(HashOf(p, s))
    ensures Bitsize(p) == 31 ==> 0 <= HashOf(p, s) < 0x8000_0000
  {
  }

  /** Five zero bytes hash to a negative Int32 value, whose high bit is set. */
  lemma Int32HighBitSet()
    ensures HashOf(MBInt32, [0, 0, 0, 0, 0]) == -565361125
    ensures !HighBitClear(HashOf(MBInt32, [0, 0, 0, 0, 0]))
  {
    ThreeZeros();
    var z: seq<i8> := [0, 0, 0, 0, 0];
    assert z[..4] == [0, 0, 0, 0] && [0, 0, 0, 0][..3] == [0, 0, 0];
    assert Fold([0, 0, 0, 0]) == 674499205;
    assert Fold(z) == -565361125;
  }

  /** The first three steps of the fold over zero bytes. */
  lemma ThreeZeros()
    ensures Fold([0, 0, 0]) == 160305371
  {
    assert [0, 0, 0][..2] == [0, 0] && [0, 0][..1] == [0] && [0][..0] == [];
    assert Fold([]) == 5381;
    assert Fold([0]) == 166811;
    assert Fold([0, 0]) == 5171141;
  }
}
