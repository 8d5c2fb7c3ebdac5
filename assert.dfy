/** `util.Assert`: argument checks that return their argument or throw the
    exception class the caller names (`clazz`, here `kind`) with a fixed message. */
module Assert {
  import opened Lang
  import opened JavaInt
  import opened Decimal

  /** `notNull(obj, clazz)`. */
  function NotNull<T>(obj: Option<T>, kind: ExceptionKind): (r: Result<T>)
    ensures r.Ok? <==> obj.Some?
    ensures r.Ok? ==> r.value == obj.value
    ensures r.Throws? ==> r.error == Thrown(kind, "null reference")
  {
    if obj.None? then Throws(Thrown(kind, "null reference")) else Ok(obj.value)
  }

  /** `notNull(obj, info, clazz)`: the message names the argument. */
  function NotNullInfo<T>(obj: Option<T>, info: string, kind: ExceptionKind): (r: Result<T>)
    ensures r.Ok? <==> obj.Some?
    ensures r.Ok? ==> r.value == obj.value
    ensures r.Throws? ==> r.error.kind == kind && r.error.message.Some?
    ensures r.Throws? ==> NullInfoOf(r.error.message.value) == Some(info)
  {
    if obj.None? then Throws(Thrown(kind, "null reference:{" + info + "}")) else Ok(obj.value)
  }

  /** The argument named in a `"null reference:{info}"` message. */
  function NullInfoOf(m: string): Option<string>
  {
    if |m| >= 17 && m[..16] == "null reference:{" && m[|m| - 1] == '}' then Some(m[16..|m| - 1]) else None
  }

  /** `notNull(obj, idx, clazz)`: the message gives the argument's position. */
  function NotNullIdx<T>(obj: Option<T>, idx: i32, kind: ExceptionKind): (r: Result<T>)
    ensures r.Ok? <==> obj.Some?
    ensures r.Ok? ==> r.value == obj.value
    ensures r.Throws? ==> r.error.kind == kind && r.error.message.Some?
    ensures r.Throws? ==> NullIdxOf(r.error.message.value) == Ok(idx)
  {
    ParseIntString(idx);
    var m := "null reference: arg {" + IntString(idx) + "}";
    assert m[21..|m| - 1] == IntString(idx);
    if obj.None? then Throws(Thrown(kind, "null reference: arg {" + IntString(idx) + "}")) else Ok(obj.value)
  }

  /** The position read back from a `"null reference: arg {idx}"` message. */
  function NullIdxOf(m: string): Result<i32>
  {
    if |m| >= 22 && m[..21] == "null reference: arg {" && m[|m| - 1] == '}' then ParseInt(m[21..|m| - 1])
    else Throws(Jdk(NumberFormat))
  }

  /** `isTrue(fact, claim, clazz)`. */
  function IsTrue(fact: bool, claim: string, kind: ExceptionKind): (r: Result<()>)
    ensures r.Ok? <==> fact
    ensures r.Throws? ==> r.error == Thrown(kind, "its not true that \"" + claim + "\"")
  {
    if !fact then Throws(Thrown(kind, "its not true that \"" + claim + "\"")) else Ok(())
  }

  /** `isTrue(fact, clazz)`. */
  function IsFact(fact: bool, kind: ExceptionKind): (r: Result<()>)
    ensures r.Ok? <==> fact
    ensures r.Throws? ==> r.error == Thrown(kind, "Factual error ")
  {
    if !fact then Throws(Thrown(kind, "Factual error ")) else Ok(())
  }

  /** `inRange(long n, long from, long to, info, clazz)`: n, inclusive of both ends. */
  function InRangeLong(n: i64, from: i64, to: i64, info: string, kind: ExceptionKind): (r: Result<i64>)
    ensures r.Ok? <==> from <= n <= to
    ensures r.Ok? ==> r.value == n
    ensures r.Throws? ==> r.error == Thrown(kind, "exceeds valid range :{" + info + "}")
  {
    if n > to || n < from then Throws(Thrown(kind, "exceeds valid range :{" + info + "}")) else Ok(n)
  }

  /** `inRange(int n, int from, int to, info, clazz)`. */
  function InRangeInt(n: i32, from: i32, to: i32, info: string, kind: ExceptionKind): (r: Result<i32>)
    ensures r.Ok? <==> from <= n <= to
    ensures r.Ok? ==> r.value == n
    ensures r.Throws? ==> r.error == Thrown(kind, "exceeds valid range :{" + info + "}")
  {
    if n > to || n < from then Throws(Thrown(kind, "exceeds valid range :{" + info + "}")) else Ok(n)
  }

  /** The int overload behaves as the long one on the widened arguments. */
  lemma InRangeWidens(n: i32, from: i32, to: i32, info: string, kind: ExceptionKind)
    ensures InRangeInt(n, from, to, info, kind).Ok? == InRangeLong(n, from, to, info, kind).Ok?
    ensures InRangeInt(n, from, to, info, kind).Throws? ==>
              InRangeInt(n, from, to, info, kind).error == InRangeLong(n, from, to, info, kind).error
  {
  }

  /** i is the first index at which s and t differ. */
  predicate FirstDifference(s: seq<i8>, t: seq<i8>, i: nat)
  {
    i < |s| && i < |t| && s[i] != t[i] && s[..i] == t[..i]
  }

  /** The message reporting the first differing index. */
  function DiffMessage(i: nat): string
  {
    "byte arrays being compared differ beginning at index " + IntString(i)
  }

  /** Two equal-length strings either are equal or have exactly one first difference. */
  lemma FirstDifferenceUnique(s: seq<i8>, t: seq<i8>, i: nat, j: nat)
    requires FirstDifference(s, t, i) && FirstDifference(s, t, j)
    ensures i == j
  {
  }

  /** `isEquivalent(a, b, clazz)`: non-null arrays of one length with equal
      contents; otherwise the first check to fail throws. */
  method IsEquivalent(a: array?<i8>, b: array?<i8>, kind: ExceptionKind) returns (r: Result<()>)
    ensures a == null ==> r == Throws(Thrown(kind, "null reference:{" + "arg a" + "}"))
    ensures a != null && b == null ==> r == Throws(Thrown(kind, "null reference:{" + "arg b" + "}"))
    ensures a != null && b != null && a.Length != b.Length ==>
              r == Throws(Thrown(kind, "byte arrays being compared are of unequal length"))
    ensures r.Ok? <==> a != null && b != null && a[..] == b[..]
    ensures a != null && b != null && a.Length == b.Length && r.Throws? ==>
              exists i :: FirstDifference(a[..], b[..], i) && r.error == Thrown(kind, DiffMessage(i))
  {
    var na := NotNullInfo(if a == null then None else Some(a), "arg a", kind);
    if na.Throws? {
      return Throws(na.error);
    }
    var nb := NotNullInfo(if b == null then None else Some(b), "arg b", kind);
    if nb.Throws? {
      return Throws(nb.error);
    }
    if a.Length != b.Length {
      return Throws(Thrown(kind, "byte arrays being compared are of unequal length"));
    }
    var i := 0;
    while i < a.Length
      invariant 0 <= i <= a.Length
      invariant a[..i] == b[..i]
    {
      if a[i] != b[i] {
        assert FirstDifference(a[..], b[..], i);
        return Throws(Thrown(kind, DiffMessage(i)));
      }
      assert a[..i + 1] == a[..i] + [a[i]] && b[..i + 1] == b[..i] + [b[i]];
      i := i + 1;
    }
    assert a[..] == a[..i] && b[..] == b[..i];
    return Ok(());
  }

  /** `isEquivalent(a, b)`: the same check, throwing RuntimeException. */
  method IsEquivalentDefault(a: array?<i8>, b: array?<i8>) returns (r: Result<()>)
    ensures r.Ok? <==> a != null && b != null && a[..] == b[..]
    ensures r.Throws? ==> r.error.kind == Runtime
  {
    r := IsEquivalent(a, b, Runtime);
  }
}
