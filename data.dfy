/**
 * Tagged numeric values (data.c): a `numtype` tag and a payload that is a
 * 32-bit C `int` or a C `float`.  Every operation is a pure function that
 * builds a fresh value.  Integer arithmetic follows C exactly; the float
 * payload is its IEEE 754 binary32 bit pattern and float arithmetic is left
 * abstract, supplied by a `FloatArith` record.
 */
module Data {
  import opened CInt

  const DATA_INTEGER: char := 'I'
  const DATA_FLOAT: char := 'F'

  const DATA_SUM: char := '+'
  const DATA_SUBSTRACT: char := '-'
  const DATA_MULTIPLY: char := '*'
  const DATA_DIVIDE: char := '/'
  const DATA_NEGATIVE: char := '~'

  const DATA_LESS: char := '<'
  const DATA_GREATER: char := '>'
  const DATA_EQUALS: char := '='
  const DATA_LTE: char := 'l'
  const DATA_GTE: char := 'g'
  const DATA_ZERO: char := 'z'

  /** The bit pattern of a C `float`. */
  type Binary32 = bv32

  /** `0.0f`, what the C code obtains from the int constant 0. */
  const FLOAT_ZERO: Binary32 := 0x0000_0000
  /** `-1.0f`, what the C code obtains from the int constant -1. */
  const FLOAT_MINUS_ONE: Binary32 := 0xBF80_0000

  /** The float operators the C code applies; their IEEE semantics are not modelled. */
  datatype FloatArith = FloatArith(
    add: (Binary32, Binary32) -> Binary32,
    sub: (Binary32, Binary32) -> Binary32,
    mul: (Binary32, Binary32) -> Binary32,
    div: (Binary32, Binary32) -> Binary32,
    less: (Binary32, Binary32) -> bool,
    greater: (Binary32, Binary32) -> bool,
    equals: (Binary32, Binary32) -> bool,
    lte: (Binary32, Binary32) -> bool,
    gte: (Binary32, Binary32) -> bool)

  /** A `numtype` byte other than DATA_INTEGER and DATA_FLOAT. */
  type OtherTag = c: char | c != 'I' && c != 'F' witness '\0'

  /**
   * A `data_value`.  The variant fixes which union member is meaningful;
   * `Other` is a value whose tag names neither member.
   */
  datatype DataValue =
    | Integer(intValue: Int32)
    | Float(floatValue: Binary32)
    | Other(tag: OtherTag)

  /** The `numtype` field of a value. */
  function NumType(v: DataValue): (c: char)
    ensures c == DATA_INTEGER <==> v.Integer?
    ensures c == DATA_FLOAT <==> v.Float?
  {
    match v
    case Integer(_) => DATA_INTEGER
    case Float(_) => DATA_FLOAT
    case Other(t) => t
  }

  /** `data_numtype_match`: the two tags are equal. */
  function NumTypeMatch(one: DataValue, two: DataValue): (r: bool)
    ensures r <==> (one.Integer? && two.Integer?) || (one.Float? && two.Float?)
                   || (one.Other? && two.Other? && one.tag == two.tag)
  {
    NumType(one) == NumType(two)
  }

  /** Matching kinds is an equivalence relation. */
  lemma NumTypeMatchEquivalence(x: DataValue, y: DataValue, z: DataValue)
    ensures NumTypeMatch(x, x)
    ensures NumTypeMatch(x, y) == NumTypeMatch(y, x)
    ensures NumTypeMatch(x, y) && NumTypeMatch(y, z) ==> NumTypeMatch(x, z)
  {
  }

  /** `data_create_integer`. */
  function CreateInteger(n: Int32): (r: DataValue)
    ensures NumType(r) == DATA_INTEGER && r.intValue == n
  {
    Integer(n)
  }

  /** `data_create_float`. */
  function CreateFloat(f: Binary32): (r: DataValue)
    ensures NumType(r) == DATA_FLOAT && r.floatValue == f
  {
    Float(f)
  }

  predicate IsRelational(operation: char) {
    operation == DATA_LESS || operation == DATA_GREATER || operation == DATA_EQUALS
    || operation == DATA_LTE || operation == DATA_GTE
  }

  predicate IsArithmetic(operation: char) {
    operation == DATA_SUM || operation == DATA_SUBSTRACT
    || operation == DATA_MULTIPLY || operation == DATA_DIVIDE
  }

  /**
   * `data_evaluation`: a relational operator applied to two values.  Values
   * of different kinds, values of an unknown kind and unknown operator codes
   * all give false.
   */
  function Evaluation(one: DataValue, two: DataValue, operation: char, fa: FloatArith): (r: bool)
    ensures !NumTypeMatch(one, two) ==> !r
    ensures one.Other? ==> !r
    ensures !IsRelational(operation) ==> !r
    ensures NumTypeMatch(one, two) && one.Float? && operation == DATA_EQUALS
            ==> r == fa.equals(one.floatValue, two.floatValue)
  {
    if !NumTypeMatch(one, two) then false
    else if one.Integer? then
      var inputOne, inputTwo := one.intValue, two.intValue;
      match operation
      case '<' => inputOne < inputTwo
      case '>' => inputOne > inputTwo
      case '=' => inputOne == inputTwo
      case 'l' => inputOne <= inputTwo
      case 'g' => inputOne >= inputTwo
      case _ => false
    else if one.Float? then
      var inputOne, inputTwo := one.floatValue, two.floatValue;
      match operation
      case '<' => fa.less(inputOne, inputTwo)
      case '>' => fa.greater(inputOne, inputTwo)
      case '=' => fa.equals(inputOne, inputTwo)
      case 'l' => fa.lte(inputOne, inputTwo)
      case 'g' => fa.gte(inputOne, inputTwo)
      case _ => false
    else false
  }

  /** On two integers each operator code agrees with the comparison it names. */
  lemma IntegerComparisons(a: Int32, b: Int32, fa: FloatArith)
    ensures Evaluation(Integer(a), Integer(b), DATA_LESS, fa) <==> a < b
    ensures Evaluation(Integer(a), Integer(b), DATA_GREATER, fa) <==> a > b
    ensures Evaluation(Integer(a), Integer(b), DATA_EQUALS, fa) <==> a == b
    ensures Evaluation(Integer(a), Integer(b), DATA_LTE, fa) <==> a <= b
    ensures Evaluation(Integer(a), Integer(b), DATA_GTE, fa) <==> a >= b
  {
  }

  /**
   * The integer comparisons form a total order: `>` is `<` with its operands
   * swapped, `l` is `<` or `=`, `g` is the negation of `<`, and exactly one of
   * `<`, `=`, `>` holds.
   */
  lemma IntegerComparisonsConsistent(x: DataValue, y: DataValue, fa: FloatArith)
    requires x.Integer? && y.Integer?
    ensures Evaluation(x, y, DATA_GREATER, fa) == Evaluation(y, x, DATA_LESS, fa)
    ensures Evaluation(x, y, DATA_GTE, fa) == Evaluation(y, x, DATA_LTE, fa)
    ensures Evaluation(x, y, DATA_LTE, fa)
            == (Evaluation(x, y, DATA_LESS, fa) || Evaluation(x, y, DATA_EQUALS, fa))
    ensures Evaluation(x, y, DATA_GTE, fa) == !Evaluation(x, y, DATA_LESS, fa)
    ensures Evaluation(x, y, DATA_EQUALS, fa) == Evaluation(y, x, DATA_EQUALS, fa)
    ensures (Evaluation(x, y, DATA_EQUALS, fa) <==> x == y)
    ensures Evaluation(x, y, DATA_LESS, fa) || Evaluation(x, y, DATA_EQUALS, fa)
            || Evaluation(x, y, DATA_GREATER, fa)
  {
  }

  /** `data_zero`: the payload equals zero; a value of unknown kind is not zero. */
  function Zero(one: DataValue, fa: FloatArith): (r: bool)
    ensures one.Integer? ==> (r <==> one.intValue == 0)
    ensures one.Other? ==> !r
  {
    if one.Integer? then one.intValue == 0
    else if one.Float? then fa.equals(one.floatValue, FLOAT_ZERO)
    else false
  }

  /** The zero of a value's kind, as `data_operation` produces it by default. */
  function ZeroOf(v: DataValue): (z: DataValue)
    ensures NumType(z) == if v.Float? then DATA_FLOAT else DATA_INTEGER
  {
    if v.Float? then CreateFloat(FLOAT_ZERO) else CreateInteger(0)
  }

  /** The zero test is the `=` comparison with the zero of the same kind, for every kind. */
  lemma ZeroIsEqualsZero(v: DataValue, fa: FloatArith)
    ensures Zero(v, fa) == Evaluation(v, ZeroOf(v), DATA_EQUALS, fa)
  {
  }

  /**
   * What C leaves undefined in the integer branch of `data_operation`: a
   * result outside the int range, and division by zero.
   */
  predicate OperationDefined(one: DataValue, two: DataValue, operation: char): (d: bool)
    ensures !(one.Integer? && two.Integer?) ==> d
    ensures one.Integer? && two.Integer? && !IsArithmetic(operation) ==> d
    ensures one.Integer? && two.Integer? && operation == DATA_DIVIDE && two.intValue == 0 ==> !d
  {
    one.Integer? && two.Integer? ==>
      var a, b := one.intValue, two.intValue;
      match operation
      case '+' => InInt32(a + b)
      case '-' => InInt32(a - b)
      case '*' => InInt32(a * b)
      case '/' => b != 0 && InInt32(Div(a, b))
      case _ => true
  }

  /** An integer division is defined except by zero and for INT_MIN / -1. */
  lemma DivisionDefined(x: DataValue, y: DataValue)
    requires x.Integer? && y.Integer?
    ensures OperationDefined(x, y, DATA_DIVIDE) <==>
              y.intValue != 0 && !(x.intValue == INT_MIN && y.intValue == -1)
  {
    if y.intValue != 0 {
      DivInRange(x.intValue, y.intValue);
    }
  }

  /**
   * `data_operation`: an arithmetic operator applied to two values of the
   * same kind; mismatched kinds or an unknown kind give the integer 0, an
   * unknown operator code the zero of the operands' kind.
   */
  function Operation(one: DataValue, two: DataValue, operation: char, fa: FloatArith): (r: DataValue)
    requires OperationDefined(one, two, operation)
    ensures !NumTypeMatch(one, two) || one.Other? ==> r == CreateInteger(0)
    ensures NumTypeMatch(one, two) && !IsArithmetic(operation) ==> r == ZeroOf(one)
    ensures NumType(r) == if NumTypeMatch(one, two) && one.Float? then DATA_FLOAT else DATA_INTEGER
  {
    if !NumTypeMatch(one, two) then CreateInteger(0)
    else if one.Integer? then
      var inputOne, inputTwo := one.intValue, two.intValue;
      var output: Int32 :=
        match operation
        case '+' => inputOne + inputTwo
        case '-' => inputOne - inputTwo
        case '*' => inputOne * inputTwo
        case '/' => Div(inputOne, inputTwo)
        case _ => 0;
      CreateInteger(output)
    else if one.Float? then
      var inputOne, inputTwo := one.floatValue, two.floatValue;
      var output :=
        match operation
        case '+' => fa.add(inputOne, inputTwo)
        case '-' => fa.sub(inputOne, inputTwo)
        case '*' => fa.mul(inputOne, inputTwo)
        case '/' => fa.div(inputOne, inputTwo)
        case _ => FLOAT_ZERO;
      CreateFloat(output)
    else CreateInteger(0)
  }

  /**
   * On two integers whose result is defined, `data_operation` is exact integer
   * arithmetic, with the quotient truncated toward zero (see CInt.DivRem).
   */
  lemma IntegerArithmetic(a: Int32, b: Int32, fa: FloatArith)
    ensures InInt32(a + b) ==> Operation(Integer(a), Integer(b), DATA_SUM, fa) == Integer(a + b)
    ensures InInt32(a - b) ==> Operation(Integer(a), Integer(b), DATA_SUBSTRACT, fa) == Integer(a - b)
    ensures InInt32(a * b) ==> Operation(Integer(a), Integer(b), DATA_MULTIPLY, fa) == Integer(a * b)
    ensures b != 0 && InInt32(Div(a, b)) ==>
              Operation(Integer(a), Integer(b), DATA_DIVIDE, fa) == Integer(Div(a, b))
  {
  }

  /** Adding and then subtracting the same integer gives back the first operand. */
  lemma SumThenSubtract(x: DataValue, y: DataValue, fa: FloatArith)
    requires x.Integer? && y.Integer? && OperationDefined(x, y, DATA_SUM)
    ensures OperationDefined(Operation(x, y, DATA_SUM, fa), y, DATA_SUBSTRACT)
    ensures Operation(Operation(x, y, DATA_SUM, fa), y, DATA_SUBSTRACT, fa) == x
  {
  }

  /**
   * Multiplying the truncated quotient back by the divisor and adding the C
   * remainder gives back the dividend.
   */
  lemma QuotientTimesDivisor(x: DataValue, y: DataValue, fa: FloatArith)
    requires x.Integer? && y.Integer? && OperationDefined(x, y, DATA_DIVIDE)
    ensures OperationDefined(Operation(x, y, DATA_DIVIDE, fa), y, DATA_MULTIPLY)
    ensures Operation(Operation(x, y, DATA_DIVIDE, fa), y, DATA_MULTIPLY, fa).intValue
            + Rem(x.intValue, y.intValue) == x.intValue
  {
    var a, b := x.intValue, y.intValue;
    DivRem(a, b);
    var q := Div(a, b);
    assert Abs(q * b) <= Abs(a) by {
      assert Abs(q * b) == Abs(q) * Abs(b) by { AbsMul(q, b); }
    }
  }

  lemma AbsMul(x: int, y: int)
    ensures Abs(x * y) == Abs(x) * Abs(y)
  {
    if x < 0 && y < 0 {
      assert x * y == (-x) * (-y);
    } else if x < 0 {
      assert x * y == -((-x) * y);
    } else if y < 0 {
      assert x * y == -(x * (-y));
    }
  }

  /** Integer sum and product do not depend on the order of the operands. */
  lemma IntegerCommutative(x: DataValue, y: DataValue, fa: FloatArith)
    requires x.Integer? && y.Integer?
    ensures OperationDefined(x, y, DATA_SUM) <==> OperationDefined(y, x, DATA_SUM)
    ensures OperationDefined(x, y, DATA_MULTIPLY) <==> OperationDefined(y, x, DATA_MULTIPLY)
    ensures OperationDefined(x, y, DATA_SUM) ==>
              Operation(x, y, DATA_SUM, fa) == Operation(y, x, DATA_SUM, fa)
    ensures OperationDefined(x, y, DATA_MULTIPLY) ==>
              Operation(x, y, DATA_MULTIPLY, fa) == Operation(y, x, DATA_MULTIPLY, fa)
  {
  }

  /** Kinds that do not match degrade to false and to the integer 0. */
  lemma MismatchDegrades(x: DataValue, y: DataValue, operation: char, fa: FloatArith)
    requires !NumTypeMatch(x, y)
    ensures !Evaluation(x, y, operation, fa)
    ensures OperationDefined(x, y, operation) && Operation(x, y, operation, fa) == Integer(0)
  {
  }

  /**
   * `data_negative`: the payload multiplied by -1 in its own kind; a value of
   * unknown kind gives the integer 0.  Negating INT_MIN overflows in C.
   */
  function Negative(one: DataValue, fa: FloatArith): (r: DataValue)
    requires one.Integer? ==> one.intValue != INT_MIN
    ensures one.Integer? ==> r.Integer? && r.intValue + one.intValue == 0
    ensures one.Float? ==> r == CreateFloat(fa.mul(one.floatValue, FLOAT_MINUS_ONE))
    ensures one.Other? ==> r == CreateInteger(0)
  {
    if one.Integer? then CreateInteger(one.intValue * -1)
    else if one.Float? then CreateFloat(fa.mul(one.floatValue, FLOAT_MINUS_ONE))
    else CreateInteger(0)
  }

  /** Negating an integer twice gives it back. */
  lemma NegativeInvolutive(x: DataValue, fa: FloatArith)
    requires x.Integer? && x.intValue != INT_MIN
    ensures Negative(x, fa).intValue != INT_MIN
    ensures Negative(Negative(x, fa), fa) == x
  {
  }

  /** Integer subtraction is addition of the negated second operand. */
  lemma SubtractIsAddNegative(x: DataValue, y: DataValue, fa: FloatArith)
    requires x.Integer? && y.Integer? && y.intValue != INT_MIN
    requires OperationDefined(x, y, DATA_SUBSTRACT)
    ensures OperationDefined(x, Negative(y, fa), DATA_SUM)
    ensures Operation(x, y, DATA_SUBSTRACT, fa) == Operation(x, Negative(y, fa), DATA_SUM, fa)
  {
  }

  /** Sample values: 3 + 4 = 7, 5 = 5, mixed kinds compare false, and division truncates toward zero. */
  lemma Examples(fa: FloatArith)
    ensures Operation(CreateInteger(3), CreateInteger(4), DATA_SUM, fa) == CreateInteger(7)
    ensures Evaluation(CreateInteger(5), CreateInteger(5), DATA_EQUALS, fa)
    ensures !Evaluation(CreateInteger(5), CreateFloat(0x40A0_0000), DATA_EQUALS, fa)
    ensures Zero(CreateInteger(0), fa) && !Zero(CreateInteger(1), fa)
    ensures Operation(CreateInteger(7), CreateInteger(-2), DATA_DIVIDE, fa) == CreateInteger(-3)
    ensures Operation(CreateInteger(-7), CreateInteger(2), DATA_DIVIDE, fa) == CreateInteger(-3)
  {
  }
}
