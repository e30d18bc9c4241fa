/**
 * The demonstration `main` of the fold helpers: a handful of arithmetic
 * types, the predicate `is_signed_type` and the check `assert_arithmetic`.
 */
module TypeHelpersDemo {
  import opened Wrappers
  import opened PackFolds

  /**
   * The types the demonstration names, and `std::string`, the non-arithmetic
   * type that shows what `assert_arithmetic` is for.
   */
  datatype CType = Int | UnsignedInt | Float | Double | SizeT | StdString

  /** `std::is_arithmetic_v<T>`: the integer and floating-point types. */
  function IsArithmetic(t: CType): bool {
    !t.StdString?
  }

  /**
   * `T(-1)` for an arithmetic type: -1 for the signed integer and the
   * floating-point types, the largest value for the unsigned ones (`size_t`
   * is 64 bits wide).
   */
  function MinusOneConverted(t: CType): int
    requires IsArithmetic(t)
  {
    match t
    case Int => -1
    case Float => -1
    case Double => -1
    case UnsignedInt => 0xffff_ffff
    case SizeT => 0xffff_ffff_ffff_ffff
  }

  /**
   * `is_signed_type<T>`: `std::is_signed_v<T>`, which is defined as "`T` is
   * arithmetic and `T(-1) < T(0)`".
   */
  function IsSignedType(t: CType): (r: bool)
    ensures r <==> IsArithmetic(t) && MinusOneConverted(t) < 0
  {
    match t
    case Int => true
    case Float => true
    case Double => true
    case UnsignedInt => false
    case SizeT => false
    case StdString => false
  }

  /**
   * Evaluating `assert_arithmetic<T>()`, the fold operand as written: a
   * temporary is value-initialised and its call operator is not called, so
   * the `static_assert` in that operator's body is never instantiated and
   * the operand compiles for every `T`.
   */
  function ConstructAssertArithmetic(t: CType): bool {
    true
  }

  /**
   * Evaluating `assert_arithmetic<T>()()`, with the call: the operator's
   * `static_assert` is instantiated and compiles exactly when `T` is
   * arithmetic.
   */
  function CallAssertArithmetic(t: CType): bool {
    IsArithmetic(t)
  }

  /** `some_numeric_types`: `std::tuple<int, float, unsigned int>`. */
  const SomeNumericTypes: Tuple<CType> := Tuple([Int, Float, UnsignedInt])

  /** Every operand of a fold compiled. */
  predicate AllPass(trace: seq<bool>) {
    forall k :: 0 <= k < |trace| ==> trace[k]
  }

  /**
   * The as-written `for_each` with `assert_arithmetic` compiles for every
   * pack, arithmetic or not: it checks nothing.
   */
  lemma AsWrittenForEachChecksNothing(pack: seq<CType>)
    ensures AllPass(ForEach(ConstructAssertArithmetic, pack))
  {
  }

  /**
   * As written, `for_each<assert_arithmetic, std::string>()` compiles
   * although `std::string` is not arithmetic.
   */
  lemma AsWrittenAcceptsStdString()
    ensures AllPass(ForEach(ConstructAssertArithmetic, [StdString]))
    ensures !AllOf(IsArithmetic, [StdString])
  {
    AsWrittenForEachChecksNothing([StdString]);
  }

  /**
   * With the call, `for_each<assert_arithmetic, Args...>()` compiles
   * exactly when every type of the pack is arithmetic; in particular it
   * rejects `std::string`.
   */
  lemma {:induction false} CalledForEachChecksArithmetic(pack: seq<CType>)
    ensures AllPass(ForEach(CallAssertArithmetic, pack)) <==> AllOf(IsArithmetic, pack)
    ensures pack == [StdString] ==> !AllPass(ForEach(CallAssertArithmetic, pack))
  {
    ForEachPassesIffAllOf(CallAssertArithmetic, pack);
    assert forall k :: 0 <= k < |pack| ==> CallAssertArithmetic(pack[k]) == IsArithmetic(pack[k]);
    if pack == [StdString] {
      assert !IsArithmetic(pack[0]);
    }
  }

  /** The value `main` returns once its visits have compiled. */
  function MainSum(): int {
    Count([Int, Int, Float])
    + CountIf(IsSignedType, [Int, UnsignedInt, Double])
    + Bit(AllOf(IsSignedType, [Int, Double]))
    + Bit(AnyOf(IsSignedType, [Int, SizeT]))
    + Bit(NoneOf(IsSignedType, [UnsignedInt, SizeT]))
  }

  /** The program with the visitor `visit`: `None` if one of its three visits does not compile. */
  function MainWith(visit: CType -> bool): Option<int> {
    if !AllPass(ForEach(visit, [Int, Float, UnsignedInt]))
       || !AllPass(ForEachTupleTypeArg(visit, SomeNumericTypes))
       || !AllPass(ForEachTupleType(visit, SomeNumericTypes))
    then None
    else Some(MainSum())
  }

  /** `main` as written: the `assert_arithmetic` visits only construct temporaries. */
  function MainExitCodeAsWritten(): Option<int> {
    MainWith(ConstructAssertArithmetic)
  }

  /** `main` with the `assert_arithmetic` visits calling the check. */
  function MainExitCode(): Option<int> {
    MainWith(CallAssertArithmetic)
  }

  /** The terms of `main`'s sum are 3, 2, 1, 1 and 1. */
  lemma MainSumIsEight()
    ensures MainSum() == 8
  {
    assert Count([Int, Int, Float]) == 3;
    assert CountIf(IsSignedType, [Int, UnsignedInt, Double]) == 2 by {
      CountIfIsFilterSize(IsSignedType, [Int, UnsignedInt, Double]);
      assert Filter(IsSignedType, [Int, UnsignedInt, Double]) == [Int, Double];
    }
    assert AllOf(IsSignedType, [Int, Double]);
    assert AnyOf(IsSignedType, [Int, SizeT]) by {
      assert IsSignedType([Int, SizeT][0]);
    }
    assert NoneOf(IsSignedType, [UnsignedInt, SizeT]);
  }

  /**
   * The program compiles and `main` returns 3 + 2 + 1 + 1 + 1 = 8, both as
   * written and with the check called, since int, float and unsigned int are
   * arithmetic.
   */
  lemma MainReturnsEight()
    ensures MainExitCode() == Some(8)
    ensures MainExitCodeAsWritten() == Some(8)
  {
    MainSumIsEight();
    CalledForEachChecksArithmetic([Int, Float, UnsignedInt]);
    TupleVisitorsAgree(CallAssertArithmetic, SomeNumericTypes);
  }
}
