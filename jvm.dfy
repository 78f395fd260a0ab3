/** What the JVM and the Kotlin standard library give the mod: nullable
    values, exceptions, kotlin.Result, two's-complement 32-bit `int`
    arithmetic, and the hash codes of strings and lists. */
module Jvm {

  /** A nullable value: `None` is Java's `null`. */
  datatype Option<+T> = None | Some(value: T)

  /** A Throwable. `Exception(name)` stands for any exception raised by code
      outside the model (an I/O error, a timeout, an exception a callback
      throws); `RuntimeException(cause, suppressed)` is the wrapper the mod
      builds itself: its cause and the exceptions added to it with
      `addSuppressed`, in the order they were added. */
  datatype Throwable =
    | Exception(name: string)
    | RuntimeException(cause: Throwable, suppressed: seq<Throwable>)

  /** The exception `DataInputStream` throws when the stream ends early. */
  const EndOfFile: Throwable := Exception("java.io.EOFException")

  /** kotlin.Result: a value or the exception that replaced it. */
  datatype Result<+T> = Success(value: T) | Failure(exception: Throwable) {

    /** `getOrNull()`: the value, or null for a failure. */
    function GetOrNull(): (r: Option<T>)
      ensures r.Some? <==> Success?
      ensures r.Some? ==> r.value == value
    {
      if Success? then Some(value) else None
    }

    /** `exceptionOrNull()`: the exception, or null for a success. */
    function ExceptionOrNull(): (r: Option<Throwable>)
      ensures r.Some? <==> Failure?
      ensures r.Some? ==> r.value == exception
    {
      if Failure? then Some(exception) else None
    }
  }

  const Two32: int := 0x1_0000_0000
  const MinInt: int := -0x8000_0000
  const MaxInt: int := 0x7fff_ffff

  /** The values of a Java `int`. */
  predicate IsInt(x: int) {
    MinInt <= x <= MaxInt
  }

  /** The `int` that Java arithmetic leaves when the exact result is `x`:
      two's-complement wrap-around modulo 2^32. */
  function Wrap(x: int): (r: int)
    ensures IsInt(r)
    ensures IsInt(x) ==> r == x
  {
    (x - MinInt) % Two32 + MinInt
  }

  /** Wrapping changes a value by a multiple of 2^32. */
  lemma WrapDifference(x: int)
    ensures (Wrap(x) - x) % Two32 == 0
  {
    var q := (x - MinInt) / Two32;
    assert x - MinInt == q * Two32 + (x - MinInt) % Two32;
    assert Wrap(x) - x == -q * Two32;
  }

  /** Two exact results that agree modulo 2^32 wrap to the same `int`. */
  lemma WrapCongruent(a: int, b: int)
    requires (a - b) % Two32 == 0
    ensures Wrap(a) == Wrap(b)
  {
    var k := (a - b) / Two32;
    assert a - MinInt == (b - MinInt) + k * Two32;
  }

  /** Wrapping an operand first does not change the wrapped sum. */
  lemma WrapAddLeft(a: int, b: int)
    ensures Wrap(Wrap(a) + b) == Wrap(a + b)
  {
    WrapDifference(a);
    assert (Wrap(a) + b) - (a + b) == Wrap(a) - a;
    WrapCongruent(Wrap(a) + b, a + b);
  }

  lemma WrapAddRight(a: int, b: int)
    ensures Wrap(a + Wrap(b)) == Wrap(a + b)
  {
    WrapDifference(b);
    assert (a + Wrap(b)) - (a + b) == Wrap(b) - b;
    WrapCongruent(a + Wrap(b), a + b);
  }

  /** `e - d - q` and `d + q`, each in `int` arithmetic, add up to `e`
      in `int` arithmetic. */
  lemma WrapMirror(e: int, d: int, q: int)
    ensures Wrap(Wrap(Wrap(e - d) - q) + Wrap(d + q)) == Wrap(e)
  {
    var u := Wrap(e - d);
    calc {
      Wrap(Wrap(u - q) + Wrap(d + q));
    == { WrapAddLeft(u - q, Wrap(d + q)); }
      Wrap(u - q + Wrap(d + q));
    == { WrapAddRight(u - q, d + q); }
      Wrap(u + d);
    == { WrapAddLeft(e - d, d); }
      Wrap(e);
    }
  }

  /** Shifting one of two placements that mirror each other about `h` by
      `k` shifts their wrapped sum by `k`. */
  lemma WrapShiftedMirror(t: int, b: int, d: int, h: int, k: int)
    requires t == Wrap(d + k) && Wrap(b + d) == h
    ensures Wrap(t + b) == Wrap(h + k)
  {
    WrapAddLeft(d + k, b);
    WrapAddLeft(b + d, k);
    assert d + k + b == b + d + k;
  }

  /** Java's `/` on `int` for a positive divisor: the quotient is truncated
      toward zero, so the remainder takes the sign of the dividend. */
  function Div(a: int, b: int): (q: int)
    requires b > 0
    ensures a >= 0 ==> 0 <= a - q * b < b
    ensures a < 0 ==> -b < a - q * b <= 0
  {
    if a >= 0 then a / b else -((-a) / b)
  }

  /** `String.startsWith`. */
  predicate StartsWith(s: string, prefix: string) {
    |prefix| <= |s| && s[..|prefix|] == prefix
  }

  /** `String.hashCode`: h = 31 * h + c over the characters, in `int`
      arithmetic, starting from 0. */
  function StringHashCode(s: string): (h: int)
    ensures IsInt(h)
  {
    if s == [] then 0
    else Wrap(31 * StringHashCode(s[..|s| - 1]) + s[|s| - 1] as int)
  }

  /** `List<String>.hashCode`: h = 31 * h + e.hashCode() over the elements,
      in `int` arithmetic, starting from 1. */
  function ListHashCode(l: seq<string>): (h: int)
    ensures IsInt(h)
  {
    if l == [] then 1
    else Wrap(31 * ListHashCode(l[..|l| - 1]) + StringHashCode(l[|l| - 1]))
  }
}
