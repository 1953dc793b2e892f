/**
 * A 24.8 fixed-point number (src/FixedFloat.php): the integer `value` is the number times
 * 256, truncated toward zero. Floats are modelled as exact reals.
 */
module FixedFloats {
  import opened MathUtil
  import opened Detections

  const FRACT_BITS: nat := 8
  /** 1.0 in fixed-point representation, `1 << FRACT_BITS`. */
  const FIXED_ONE: int := 256

  lemma FixedOneIsShiftedOne()
    ensures FIXED_ONE == Pow2(FRACT_BITS)
  {
    assert Pow2(FRACT_BITS) == 2 * 2 * 2 * 2 * 2 * 2 * 2 * 2 * Pow2(0);
  }

  /**
   * The product of two representations: `(a * b) >> FRACT_BITS`, an arithmetic shift,
   * which rounds toward negative infinity.
   */
  function Product(a: int, b: int): (r: int)
    ensures r * FIXED_ONE <= a * b < r * FIXED_ONE + FIXED_ONE
  {
    Shr8(a * b)
  }

  /**
   * The quotient of two representations, `(a << FRACT_BITS) / b`; PHP's `/` yields an int
   * only when the division is exact, which is what the precondition states.
   */
  function Quotient(a: int, b: int): (r: int)
    requires b != 0 && (a * FIXED_ONE) % b == 0
    ensures r * b == a * FIXED_ONE
  {
    (a * FIXED_ONE) / b
  }

  class FixedFloat {
    var value: int

    /** `new FixedFloat($value)`: the float times FIXED_ONE, truncated toward zero. */
    constructor (v: real)
      ensures value == Truncate(v * FIXED_ONE as real)
    {
      value := Truncate(v * FIXED_ONE as real);
    }

    /** The fixed-point representation, `value()`. */
    function Value(): (r: int)
      reads this
      ensures r == value
    {
      value
    }

    /** `toFloat()`: the representation divided by FIXED_ONE. */
    function ToFloat(): (r: real)
      reads this
      ensures r * FIXED_ONE as real == value as real
    {
      value as real / FIXED_ONE as real
    }

    method Add(x: FixedFloat)
      modifies this
      ensures value == old(value) + old(x.value)
    {
      value := value + x.Value();
    }

    method Substract(x: FixedFloat)
      modifies this
      ensures value == old(value) - old(x.value)
    {
      value := value - x.Value();
    }

    method Multiply(x: FixedFloat)
      modifies this
      ensures value == Product(old(value), old(x.value))
    {
      value := Product(value, x.Value());
    }

    method Divide(x: FixedFloat)
      requires x.value != 0 && (value * FIXED_ONE) % x.value == 0
      modifies this
      ensures value == Quotient(old(value), old(x.value))
    {
      value := Quotient(value, x.Value());
    }
  }

  /** Multiplying by 1.0 (the representation FIXED_ONE) leaves a representation unchanged. */
  lemma MultiplyByOne(a: int)
    ensures Product(a, FIXED_ONE) == a
  {
  }

  /** Dividing by 1.0 leaves a representation unchanged. */
  lemma DivideByOne(a: int)
    ensures Quotient(a, FIXED_ONE) == a
  {
  }

  /** Adding and then substracting the same operand restores the original value (distinct objects). */
  method AddThenSubstract(f: FixedFloat, x: FixedFloat)
    requires f != x
    modifies f
    ensures f.value == old(f.value) && x.value == old(x.value)
  {
    f.Add(x);
    f.Substract(x);
  }

  /** Adding an object to itself doubles it: the operand is read before the field is written. */
  method AddToItself(f: FixedFloat)
    modifies f
    ensures f.value == 2 * old(f.value)
  {
    f.Add(f);
  }

  /**
   * Converting a float and back loses less than one step of 1/256, toward zero: the result
   * has the sign of the input and is no larger in magnitude.
   */
  lemma FloatRoundTrip(v: real)
    ensures var back := Truncate(v * FIXED_ONE as real) as real / FIXED_ONE as real;
      (v >= 0.0 ==> 0.0 <= back <= v < back + 1.0 / FIXED_ONE as real) &&
      (v < 0.0 ==> back - 1.0 / FIXED_ONE as real < v <= back <= 0.0)
  {
  }

  /** 450.12 becomes 115230, i.e. 450.1171875: the truncation drops part of the last step. */
  method FloatExample() returns (r: int, back: real)
    ensures r == 115230 && back == 450.1171875
  {
    var f := new FixedFloat(450.12);
    assert 450.12 * 256.0 == 115230.72;
    r := f.Value();
    back := f.ToFloat();
  }

  /** 900.25 (230464) divided by 2.0 (512) is 450.125 (115232). */
  method DivideExample() returns (r: int)
    ensures r == 115232 && r == 450 * FIXED_ONE + FIXED_ONE / 8
  {
    var f := new FixedFloat(900.25);
    var two := new FixedFloat(2.0);
    assert 900.25 * 256.0 == 230464.0;
    f.Divide(two);
    r := f.Value();
  }
}
