/** The upper and lower bounds of Java's integral types, as the bridge's
    header defines them. The minimums of `int` and `long` are written as
    `-1 * MAX - 1` because some C compilers overflow when parsing the
    magnitude of the most negative value as a literal. */
module Bounds {
  import opened Wrappers

  const JByteMin: int := -128
  const JByteMax: int := 127

  const JShortMin: int := -32768
  const JShortMax: int := 32767

  const JIntMax: int := 2147483647
  const JIntMin: int := -1 * JIntMax - 1

  const JLongMax: int := 9223372036854775807
  const JLongMin: int := -1 * JLongMax - 1

  const JCharMax: int := 0xFFFF

  function Pow2(n: nat): (r: int)
    ensures r >= 1
  {
    if n == 0 then 1 else 2 * Pow2(n - 1)
  }

  lemma {:induction false} Pow2Add(a: nat, b: nat)
    ensures Pow2(a + b) == Pow2(a) * Pow2(b)
  {
    if a > 0 {
      Pow2Add(a - 1, b);
      assert Pow2(a + b) == 2 * Pow2(a - 1 + b);
    }
  }

  /** The powers of two the bounds are made of. */
  lemma Pow2Values()
    ensures Pow2(7) == 128 && Pow2(8) == 256
    ensures Pow2(15) == 32768 && Pow2(16) == 65536
    ensures Pow2(31) == 2147483648 && Pow2(32) == 4294967296
    ensures Pow2(63) == 9223372036854775808
  {
    assert Pow2(7) == 128;
    assert Pow2(8) == 256;
    Pow2Add(7, 8);
    Pow2Add(8, 8);
    Pow2Add(15, 16);
    Pow2Add(16, 16);
    Pow2Add(31, 32);
  }

  /** The range of a `w`-bit two's-complement integer. */
  function MinSigned(w: nat): int
    requires w >= 1
  {
    -Pow2(w - 1)
  }

  function MaxSigned(w: nat): int
    requires w >= 1
  {
    Pow2(w - 1) - 1
  }

  /** The largest `w`-bit unsigned integer. */
  function MaxUnsigned(w: nat): int
  {
    Pow2(w) - 1
  }

  /** A constant expression as the preprocessor leaves it for the compiler. */
  datatype Expr =
    | Lit(n: nat)
    | Neg(e: Expr)
    | Mul(a: Expr, b: Expr)
    | Sub(a: Expr, b: Expr)

  predicate InSigned(x: int, w: nat)
    requires w >= 1
  {
    MinSigned(w) <= x <= MaxSigned(w)
  }

  /** The value of `e` in unbounded integer arithmetic. */
  function Value(e: Expr): int
  {
    match e
    case Lit(n) => n
    case Neg(x) => -Value(x)
    case Mul(x, y) => Value(x) * Value(y)
    case Sub(x, y) => Value(x) - Value(y)
  }

  /** Every subexpression of `e`, `e` itself included, has a value that fits
      `w`-bit signed arithmetic. */
  predicate FitsEverywhere(e: Expr, w: nat)
    requires w >= 1
  {
    && InSigned(Value(e), w)
    && match e
       case Lit(_) => true
       case Neg(x) => FitsEverywhere(x, w)
       case Mul(x, y) => FitsEverywhere(x, w) && FitsEverywhere(y, w)
       case Sub(x, y) => FitsEverywhere(x, w) && FitsEverywhere(y, w)
  }

  /** Evaluates `e` in `w`-bit signed arithmetic: a literal or an intermediate
      value that does not fit the type is an overflow (None). Whatever it
      produces is the true value of `e`. */
  function Eval(e: Expr, w: nat): (r: Option<int>)
    requires w >= 1
    ensures r.Some? ==> r.value == Value(e)
    ensures r.Some? ==> InSigned(r.value, w)
  {
    var v := match e
      case Lit(n) => Some(n)
      case Neg(x) => (match Eval(x, w) case Some(a) => Some(-a) case None => None)
      case Mul(x, y) =>
        (match (Eval(x, w), Eval(y, w))
         case (Some(a), Some(b)) => Some(a * b)
         case _ => None)
      case Sub(x, y) =>
        (match (Eval(x, w), Eval(y, w))
         case (Some(a), Some(b)) => Some(a - b)
         case _ => None);
    if v.Some? && InSigned(v.value, w) then v else None
  }

  /** Evaluation overflows exactly when some subexpression's true value does
      not fit the width; otherwise it yields that true value. */
  lemma {:induction false} EvalOverflowsExactly(e: Expr, w: nat)
    requires w >= 1
    ensures Eval(e, w).Some? <==> FitsEverywhere(e, w)
  {
    match e
    case Lit(_) =>
    case Neg(x) => EvalOverflowsExactly(x, w);
    case Mul(x, y) => EvalOverflowsExactly(x, w); EvalOverflowsExactly(y, w);
    case Sub(x, y) => EvalOverflowsExactly(x, w); EvalOverflowsExactly(y, w);
  }

  /** `-1 * MAX - 1`, the form the header uses for a minimum. */
  function DerivedMin(max: nat): Expr
  {
    Sub(Mul(Neg(Lit(1)), Lit(max)), Lit(1))
  }

  /** For every width of at least two bits, `-1 * MAX - 1` evaluates without
      overflow to the two's-complement minimum, whereas negating the literal
      magnitude of that minimum overflows, because the magnitude itself does
      not fit. */
  lemma DerivedMinIsSafe(w: nat)
    requires w >= 2
    ensures Eval(DerivedMin(MaxSigned(w) as nat), w) == Some(MinSigned(w))
    ensures Eval(Neg(Lit(Pow2(w - 1))), w) == None
  {
    var m := MaxSigned(w);
    assert Pow2(w - 1) == 2 * Pow2(w - 2);
    assert Eval(Lit(1), w) == Some(1);
    assert Eval(Neg(Lit(1)), w) == Some(-1);
    assert Eval(Lit(m as nat), w) == Some(m);
    assert Eval(Mul(Neg(Lit(1)), Lit(m as nat)), w) == Some(-m);
  }

  /** `JINT_MIN` and `JLONG_MIN` are the 32- and 64-bit minimums, and their
      derivations never overflow. */
  lemma IntAndLongBounds()
    ensures JIntMax == MaxSigned(32) && JIntMin == MinSigned(32) && JIntMin == -Pow2(31)
    ensures JLongMax == MaxSigned(64) && JLongMin == MinSigned(64) && JLongMin == -Pow2(63)
    ensures Eval(DerivedMin(JIntMax as nat), 32) == Some(JIntMin)
    ensures Eval(DerivedMin(JLongMax as nat), 64) == Some(JLongMin)
  {
    Pow2Values();
    DerivedMinIsSafe(32);
    DerivedMinIsSafe(64);
  }

  /** Byte and short bounds are the 8- and 16-bit two's-complement ranges, so
      each minimum is `-(MAX + 1)`; `JCHAR_MAX` is the largest 16-bit unsigned
      value. */
  lemma ByteShortCharBounds()
    ensures JByteMin == MinSigned(8) && JByteMax == MaxSigned(8) && JByteMin == -(JByteMax + 1)
    ensures JShortMin == MinSigned(16) && JShortMax == MaxSigned(16) && JShortMin == -(JShortMax + 1)
    ensures JCharMax == MaxUnsigned(16) && JCharMax == JShortMax - JShortMin
  {
    Pow2Values();
  }
}
