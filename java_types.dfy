/**
 * The Java-side vocabulary the generated proxies are written in: the fixed-width
 * integer types, the narrowing conversion `(int)`, `null`, and the exceptions a
 * proxy method can raise.
 */
module JavaTypes {

  const TWO_32: int := 0x1_0000_0000

  /** Java `int`: 32-bit two's complement. */
  newtype Int32 = x: int | -0x8000_0000 <= x < 0x8000_0000

  /** Java `long`: 64-bit two's complement. Native pointers cross into Java as a `long`. */
  newtype Int64 = x: int | -0x8000_0000_0000_0000 <= x < 0x8000_0000_0000_0000

  predicate InInt32Range(x: int) {
    -0x8000_0000 <= x < 0x8000_0000
  }

  /** x and y agree in their low 32 bits. */
  predicate SameLow32(x: int, y: int) {
    (x - y) % TWO_32 == 0
  }

  /**
   * Java's narrowing conversion `(int) x`: the low 32 bits read as two's
   * complement. Java `int` addition wraps around in exactly the same way,
   * so `a + b` on two `int`s is `ToInt32(a + b)`.
   */
  function ToInt32(x: int): (r: Int32)
    ensures SameLow32(x, r as int)
    ensures InInt32Range(x) ==> r as int == x
  {
    var m := x % TWO_32;
    if m < 0x8000_0000 then m as Int32 else (m - TWO_32) as Int32
  }

  /** The narrowing is the only `int` that agrees with x in its low 32 bits. */
  lemma ToInt32Unique(x: int, r: Int32)
    requires SameLow32(x, r as int)
    ensures r == ToInt32(x)
  {
    var s := ToInt32(x);
    var a := (x - r as int) / TWO_32;
    var b := (x - s as int) / TWO_32;
    assert x - r as int == a * TWO_32;
    assert x - s as int == b * TWO_32;
    assert s as int - r as int == (a - b) * TWO_32;
  }

  /** Wrapping an intermediate sum does not change the wrapped total. */
  lemma ToInt32AddLeft(x: int, y: int)
    ensures ToInt32(ToInt32(x) as int + y) == ToInt32(x + y)
  {
    var w := ToInt32(x) as int;
    var r := ToInt32(x + y);
    var a := (x - w) / TWO_32;
    var b := (x + y - r as int) / TWO_32;
    assert x - w == a * TWO_32;
    assert x + y - r as int == b * TWO_32;
    assert w + y - r as int == (b - a) * TWO_32;
    ToInt32Unique(w + y, r);
  }

  /** Two longs 2^32 apart narrow to the same `int`: the narrowing is not injective. */
  lemma ToInt32NotInjective(x: int)
    ensures ToInt32(x + TWO_32) == ToInt32(x)
  {
    ToInt32Unique(x + TWO_32, ToInt32(x));
  }

  /** A Java reference that may be `null`. */
  datatype Option<T> = None | Some(value: T)

  /** The unchecked exceptions the proxy methods raise. */
  datatype JavaException = IllegalStateException | UnsupportedOperationException

  /** A call that returns a value or raises. */
  datatype Result<T> = Ok(value: T) | Threw(exception: JavaException)

  /** A `void` call that returns normally or raises. */
  datatype Outcome = Normal | Thrown(exception: JavaException)
}
