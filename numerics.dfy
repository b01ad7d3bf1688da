/**
 * The element type of a vector, the return codes shared by every operation and
 * the norm selector.
 *
 * An element is the 64-bit pattern of an IEEE-754 double. Classifying a pattern
 * (infinite, not-a-number) and taking its magnitude are exact bit operations and
 * are defined here; the arithmetic itself (+, -, *, <, <=, sqrt and the
 * conversion of an index to a double) is left uninterpreted: it is handed to
 * every operation as an `Arith` value, so each property proved about the model
 * holds for every choice of that arithmetic.
 */
module Numerics {

  /** The bit pattern of a double. */
  type Elem = bv64

  /** Every bit but the sign bit. */
  const MagnitudeMask: Elem := 0x7FFF_FFFF_FFFF_FFFF
  /** The exponent field with all bits set and a zero fraction: +Infinity. */
  const ExponentMask: Elem := 0x7FF0_0000_0000_0000

  /** +0.0, the value the source's accumulators start from. */
  const Zero: Elem := 0
  /** The quiet NaN produced by the `NAN` macro. */
  const NaN: Elem := 0x7FF8_0000_0000_0000

  /** `std::isinf`: all exponent bits set, fraction zero. */
  predicate IsInf(x: Elem) {
    x & MagnitudeMask == ExponentMask
  }

  /** `std::isnan`: all exponent bits set, fraction non-zero. */
  predicate IsNaN(x: Elem) {
    x & MagnitudeMask > ExponentMask
  }

  predicate IsFinite(x: Elem) {
    !IsInf(x) && !IsNaN(x)
  }

  /** `fabs`: clears the sign bit. */
  function Abs(x: Elem): (r: Elem)
    ensures IsInf(r) == IsInf(x)
    ensures IsNaN(r) == IsNaN(x)
  {
    x & MagnitudeMask
  }

  /** The floating-point operations the source uses, uninterpreted. */
  datatype Arith = Arith(
    add: (Elem, Elem) -> Elem,
    sub: (Elem, Elem) -> Elem,
    mul: (Elem, Elem) -> Elem,
    sqrt: Elem -> Elem,
    lt: (Elem, Elem) -> bool,
    le: (Elem, Elem) -> bool,
    fromIndex: nat -> Elem  // conversion of a size_t to double
  )

  /** `<` on doubles is irreflexive and transitive (NaN compares false with everything). */
  ghost predicate StrictOrder(ar: Arith) {
    && (forall x :: !ar.lt(x, x))
    && (forall x, y, z :: ar.lt(x, y) && ar.lt(y, z) ==> ar.lt(x, z))
  }

  /** The library's return codes (RC). */
  datatype RC =
    | Success
    | InvalidArgument
    | MismatchingDimensions
    | IndexOutOfBound
    | InfinityOverflow
    | NotNumber
    | AllocationError
    | NullptrError
    | FileNotFound
    | VectorNotFound
    | IoError
    | MemoryIntersection
    | Amount
    | Unknown

  /** IVector::NORM. `Amount` is the enumeration's sentinel. */
  datatype Norm = Chebyshev | First | Second | NormAmount

  /** A `const double *` argument: absent (nullptr) or the readable elements. */
  datatype Option<T> = None | Some(value: T)
}
