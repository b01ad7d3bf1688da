/**
 * The meaning of the vector operations on plain values: an element sequence
 * stands for the payload of a vector, and each function below gives the code an
 * operation returns or the payload it leaves behind. The imperative model in
 * Engine, Factory and Legacy is proved against these functions; the lemmas here
 * state what the functions guarantee.
 */
module VectorMath {
  import opened Numerics

  // ---------------------------------------------------------------- element checks

  /** VectorImpl::elemCheck: infinity is tested first, then NaN. */
  function ElemCheck(x: Elem): (rc: RC)
    ensures rc == Success <==> IsFinite(x)
    ensures rc == InfinityOverflow <==> IsInf(x)
    ensures rc == NotNumber <==> IsNaN(x)
    ensures rc == Success || rc == InfinityOverflow || rc == NotNumber
  {
    if x & MagnitudeMask == ExponentMask then InfinityOverflow
    else if x & MagnitudeMask > ExponentMask then NotNumber
    else Success
  }

  /**
   * The validation loop shared by createVector and setData: the code of the
   * first element in [from, n) that fails ElemCheck, or Success.
   */
  function FirstFailure(s: seq<Elem>, from: nat, n: nat): (rc: RC)
    requires from <= n <= |s|
    ensures rc == Success <==> forall j :: from <= j < n ==> IsFinite(s[j])
    ensures rc != Success ==>
      exists k :: from <= k < n && rc == ElemCheck(s[k]) &&
        forall j :: from <= j < k ==> IsFinite(s[j])
    decreases n - from
  {
    if from == n then Success
    else if ElemCheck(s[from]) != Success then ElemCheck(s[from])
    else FirstFailure(s, from + 1, n)
  }

  predicate AllFinite(s: seq<Elem>) {
    forall j :: 0 <= j < |s| ==> IsFinite(s[j])
  }

  // ---------------------------------------------------------------- getMaxAbs

  /**
   * VectorImpl::getMaxAbs over the first n elements, as written: the running
   * result is an index, and each element's magnitude is compared with that
   * index converted to a double (not with the magnitude at that index).
   */
  function MaxAbsIndex(ar: Arith, s: seq<Elem>, n: nat): (k: nat)
    requires n <= |s|
    ensures n == 0 ==> k == 0
    ensures n > 0 ==> k < n
  {
    if n == 0 then 0
    else
      var k := MaxAbsIndex(ar, s, n - 1);
      if ar.lt(ar.fromIndex(k), Abs(s[n - 1])) then n - 1 else k
  }

  /**
   * getMaxAbs does not in general find the element of largest magnitude: with
   * two elements whose magnitudes both exceed 0.0 (say 5.0 and 1.0) it returns
   * the index of the second, whatever the magnitudes are.
   */
  lemma MaxAbsIndexPicksLastAboveZero(ar: Arith, x: Elem, y: Elem)
    requires ar.lt(ar.fromIndex(0), Abs(x))
    requires ar.lt(ar.fromIndex(0), Abs(y))
    ensures MaxAbsIndex(ar, [x, y], 2) == 1
  {
  }

  // ---------------------------------------------------------------- norms and dot

  /**
   * doChebyshev over the first n loop steps: starts from |s[0]| and keeps the
   * running value unless it is less than the next magnitude. The norm of a
   * finite vector is finite, whatever `<` is.
   */
  function MaxAbs(ar: Arith, s: seq<Elem>, n: nat): (r: Elem)
    requires 1 <= |s| && n <= |s|
    ensures AllFinite(s) ==> IsFinite(r)
  {
    if n == 0 then Abs(s[0])
    else
      var prev := MaxAbs(ar, s, n - 1);
      if ar.lt(prev, Abs(s[n - 1])) then Abs(s[n - 1]) else prev
  }

  /**
   * doFirst: left-to-right sum of magnitudes from 0.0. When 0.0 + 0.0 is 0.0,
   * the sum over zeros of either sign is 0.0.
   */
  function SumAbs(ar: Arith, s: seq<Elem>, n: nat): (r: Elem)
    requires n <= |s|
    ensures ar.add(Zero, Zero) == Zero && (forall j :: 0 <= j < n ==> Abs(s[j]) == Zero) ==> r == Zero
  {
    if n == 0 then Zero else ar.add(SumAbs(ar, s, n - 1), Abs(s[n - 1]))
  }

  /**
   * doSecond's accumulator: left-to-right sum of squares from 0.0 (pow(x, 2)
   * as x * x). When 0.0 + 0.0 is 0.0 and a zero of either sign squares to
   * 0.0, the sum over zeros is 0.0.
   */
  function SumSquares(ar: Arith, s: seq<Elem>, n: nat): (r: Elem)
    requires n <= |s|
    ensures
      && ar.add(Zero, Zero) == Zero
      && (forall x :: Abs(x) == Zero ==> ar.mul(x, x) == Zero)
      && (forall j :: 0 <= j < n ==> Abs(s[j]) == Zero)
      ==> r == Zero
  {
    if n == 0 then Zero else ar.add(SumSquares(ar, s, n - 1), ar.mul(s[n - 1], s[n - 1]))
  }

  /**
   * dot's accumulator: left-to-right sum of pairwise products from 0.0. When a
   * zero times a finite value is a zero of either sign, and 0.0 plus such a
   * zero is 0.0, the dot product of a zero vector with a finite one is 0.0.
   */
  function DotSum(ar: Arith, a: seq<Elem>, b: seq<Elem>, n: nat): (r: Elem)
    requires n <= |a| && n <= |b|
    ensures
      && (forall z, x :: Abs(z) == Zero && IsFinite(x) ==> Abs(ar.mul(z, x)) == Zero)
      && (forall y :: Abs(y) == Zero ==> ar.add(Zero, y) == Zero)
      && (forall j :: 0 <= j < n ==> Abs(a[j]) == Zero && IsFinite(b[j]))
      ==> r == Zero
  {
    if n == 0 then Zero else ar.add(DotSum(ar, a, b, n - 1), ar.mul(a[n - 1], b[n - 1]))
  }

  /** VectorImpl::norm on a payload. */
  function NormValue(ar: Arith, kind: Norm, s: seq<Elem>): (r: Elem)
    requires 1 <= |s|
    ensures kind == NormAmount ==> IsNaN(r)
    ensures kind == Second ==> r == ar.sqrt(SumSquares(ar, s, |s|))
  {
    match kind
    case Chebyshev => MaxAbs(ar, s, |s|)
    case First => SumAbs(ar, s, |s|)
    case Second => ar.sqrt(SumSquares(ar, s, |s|))
    case NormAmount => NaN
  }

  /** When `<` is a strict order, the Chebyshev norm is not exceeded by any magnitude. */
  lemma {:induction false} MaxAbsIsMaximal(ar: Arith, s: seq<Elem>, n: nat)
    requires StrictOrder(ar)
    requires 1 <= |s| && n <= |s|
    ensures forall j :: 0 <= j < n ==> !ar.lt(MaxAbs(ar, s, n), Abs(s[j]))
    ensures !ar.lt(MaxAbs(ar, s, n), Abs(s[0]))
  {
    if n > 0 {
      MaxAbsIsMaximal(ar, s, n - 1);
      var r := MaxAbs(ar, s, n - 1);
      if ar.lt(r, Abs(s[n - 1])) {
        // A magnitude above the new maximum would, by transitivity, be above
        // the previous one too.
        forall j | 0 <= j < n - 1
          ensures !ar.lt(Abs(s[n - 1]), Abs(s[j]))
        {
          assert !ar.lt(r, Abs(s[j]));
        }
      }
    }
  }

  /** Whatever `<` is, the Chebyshev norm is the magnitude of one of the elements. */
  lemma {:induction false} MaxAbsAttained(ar: Arith, s: seq<Elem>, n: nat)
    requires 1 <= |s| && n <= |s|
    ensures exists j :: 0 <= j < |s| && MaxAbs(ar, s, n) == Abs(s[j])
  {
    if n == 0 {
      assert MaxAbs(ar, s, n) == Abs(s[0]);
    } else {
      MaxAbsAttained(ar, s, n - 1);
      if ar.lt(MaxAbs(ar, s, n - 1), Abs(s[n - 1])) {
        assert MaxAbs(ar, s, n) == Abs(s[n - 1]);
      }
    }
  }

  lemma {:induction false} SumSquaresIsSelfDot(ar: Arith, s: seq<Elem>, n: nat)
    requires n <= |s|
    ensures SumSquares(ar, s, n) == DotSum(ar, s, s, n)
  {
    if n > 0 {
      SumSquaresIsSelfDot(ar, s, n - 1);
    }
  }

  /** The Euclidean norm is the square root of the vector's dot product with itself. */
  lemma SecondNormIsSqrtOfSelfDot(ar: Arith, s: seq<Elem>)
    requires 1 <= |s|
    ensures NormValue(ar, Second, s) == ar.sqrt(DotSum(ar, s, s, |s|))
  {
    SumSquaresIsSelfDot(ar, s, |s|);
  }

  // ---------------------------------------------------------------- scale

  /** The payload after a successful scale: every element multiplied. */
  function Scaled(ar: Arith, s: seq<Elem>, m: Elem): (r: seq<Elem>)
    ensures |r| == |s|
    ensures forall i :: 0 <= i < |s| ==> r[i] == ar.mul(s[i], m)
  {
    seq(|s|, i requires 0 <= i < |s| => ar.mul(s[i], m))
  }

  /**
   * The code scale returns: the multiplier's check, then the check of the
   * product at the getMaxAbs probe index.
   */
  function ScaleCode(ar: Arith, s: seq<Elem>, m: Elem): (rc: RC)
    requires 1 <= |s|
    ensures rc == Success <==>
      IsFinite(m) && IsFinite(ar.mul(s[MaxAbsIndex(ar, s, |s|)], m))
    ensures !IsFinite(m) ==> rc == ElemCheck(m)
  {
    if ElemCheck(m) != Success then ElemCheck(m)
    else ElemCheck(ar.mul(s[MaxAbsIndex(ar, s, |s|)], m))
  }

  /**
   * scale(0) on a finite vector: when multiplying a finite value by 0.0 gives
   * a zero of either sign, the call succeeds, every element becomes a zero and
   * the Chebyshev norm of the result is 0.0.
   */
  lemma ScaleByZero(ar: Arith, s: seq<Elem>)
    requires 1 <= |s| && AllFinite(s)
    requires forall x :: IsFinite(x) ==> Abs(ar.mul(x, Zero)) == Zero
    ensures ScaleCode(ar, s, Zero) == Success
    ensures forall i :: 0 <= i < |s| ==> Abs(Scaled(ar, s, Zero)[i]) == Zero
    ensures NormValue(ar, Chebyshev, Scaled(ar, s, Zero)) == Zero
  {
    var t := Scaled(ar, s, Zero);
    var k := MaxAbsIndex(ar, s, |s|);
    assert Abs(t[k]) == Zero;
    assert IsFinite(t[k]) by { assert IsFinite(Abs(t[k])); }
    MaxAbsOfZeros(ar, t, |t|);
  }

  lemma {:induction false} MaxAbsOfZeros(ar: Arith, s: seq<Elem>, n: nat)
    requires 1 <= |s| && n <= |s|
    requires forall i :: 0 <= i < |s| ==> Abs(s[i]) == Zero
    ensures MaxAbs(ar, s, n) == Zero
  {
    if n > 0 {
      MaxAbsOfZeros(ar, s, n - 1);
    }
  }

  // ---------------------------------------------------------------- inc / dec

  /** op1[i] + op2[i] (inc) or op1[i] - op2[i] (dec). */
  function Op(ar: Arith, x: Elem, y: Elem, minus: bool): Elem {
    if minus then ar.sub(x, y) else ar.add(x, y)
  }

  /** The payload after a successful inc (minus = false) or dec (minus = true). */
  function Combine(ar: Arith, a: seq<Elem>, b: seq<Elem>, minus: bool): (r: seq<Elem>)
    requires |a| == |b|
    ensures |r| == |a|
    ensures forall i :: 0 <= i < |a| ==> r[i] == Op(ar, a[i], b[i], minus)
  {
    seq(|a|, i requires 0 <= i < |a| => Op(ar, a[i], b[i], minus))
  }

  /**
   * The code inc/dec return for a non-null operand: dimensions first, then the
   * result at this vector's getMaxAbs index, then at the operand's.
   */
  function SumCode(ar: Arith, a: seq<Elem>, b: seq<Elem>, minus: bool): (rc: RC)
    requires 1 <= |a|
    ensures |a| != |b| ==> rc == MismatchingDimensions
    ensures rc == Success <==>
      |a| == |b|
      && IsFinite(Op(ar, a[MaxAbsIndex(ar, a, |a|)], b[MaxAbsIndex(ar, a, |a|)], minus))
      && IsFinite(Op(ar, a[MaxAbsIndex(ar, b, |b|)], b[MaxAbsIndex(ar, b, |b|)], minus))
  {
    if |a| != |b| then MismatchingDimensions
    else
      var k1 := MaxAbsIndex(ar, a, |a|);
      var c1 := ElemCheck(Op(ar, a[k1], b[k1], minus));
      if c1 != Success then c1
      else
        var k2 := MaxAbsIndex(ar, b, |b|);
        ElemCheck(Op(ar, a[k2], b[k2], minus))
  }

  /**
   * Only the two probe indices are checked: a successful inc can leave an
   * element infinite, even when `<` is a strict order. Witness: the payload
   * [DBL_MAX, 0.5, 0.5] added to itself, with `<` ordering non-negative
   * doubles by their bit patterns. getMaxAbs compares 0.0 with |DBL_MAX| and
   * with 0.5 (index 1), then 1.0 with 0.5, so both probes land on index 1,
   * where 0.5 + 0.5 is finite, while DBL_MAX + DBL_MAX at index 0 overflows.
   */
  lemma SumCheckMissesOtherIndices()
    ensures exists ar: Arith, a: seq<Elem>, b: seq<Elem> ::
      && StrictOrder(ar)
      && |a| == |b| == 3 && AllFinite(a) && AllFinite(b)
      && SumCode(ar, a, b, false) == Success && !AllFinite(Combine(ar, a, b, false))
  {
    var big: Elem := 0x7FEF_FFFF_FFFF_FFFF;
    var half: Elem := 0x3FE0_0000_0000_0000;
    var one: Elem := 0x3FF0_0000_0000_0000;
    var add := (x: Elem, y: Elem) =>
      if x == big && y == big then ExponentMask else if x == half && y == half then one else x;
    var less := (x: Elem, y: Elem) => x < y;
    var le := (x: Elem, y: Elem) => x <= y;
    var index := (i: nat) => if i == 0 then Zero else if i == 1 then one else 0x4000_0000_0000_0000;
    var ar := Arith(add, add, add, (x: Elem) => x, less, le, index);
    assert StrictOrder(ar);
    var a := [big, half, half];
    assert MaxAbsIndex(ar, a, 3) == 1;
    assert SumCode(ar, a, a, false) == Success;
    assert Combine(ar, a, a, false)[0] == ExponentMask;
    assert !IsFinite(Combine(ar, a, a, false)[0]);
  }

  // ---------------------------------------------------------------- setData

  /**
   * The code setData returns: the dimension rule (non-zero, no larger than
   * the current dimension) before the null check, then the first element that
   * fails ElemCheck.
   */
  function SetDataCode(cur: nat, n: nat, src: Option<seq<Elem>>): (rc: RC)
    requires src.Some? && 0 < n <= cur ==> n <= |src.value|
    ensures n == 0 || cur < n ==> rc == MismatchingDimensions
    ensures 0 < n <= cur && src.None? ==> rc == NullptrError
    ensures rc == Success <==> 0 < n <= cur && src.Some? && forall j :: 0 <= j < n ==> IsFinite(src.value[j])
  {
    if n == 0 || cur < n then MismatchingDimensions
    else if src.None? then NullptrError
    else FirstFailure(src.value, 0, n)
  }

  // ---------------------------------------------------------------- sizes and copying

  /** sizeof(VectorImpl) on a 64-bit target: the vtable pointer and `dim`. */
  const HeaderSize: nat := 16
  /** sizeof(double). */
  const ElemSize: nat := 8

  /** VectorImpl::sizeAllocated for a vector of dimension `dim`. */
  function AllocationSize(dim: nat): (n: nat)
    ensures n > 0
  {
    HeaderSize + ElemSize * dim
  }

  /** The AMOUNT check compares dimensions: one size is below another exactly when its dimension is. */
  lemma AmountIffFewerElements(d1: nat, d2: nat)
    ensures AllocationSize(d1) < AllocationSize(d2) <==> d1 < d2
  {
  }

  /** The byte ranges [a, a + sa) and [b, b + sb) intersect. */
  predicate Overlap(a: int, sa: nat, b: int, sb: nat) {
    a < b + sb && b < a + sa
  }

  function Distance(a: int, b: int): nat {
    if a < b then b - a else a - b
  }

  /**
   * The code copyInstance returns for two non-null handles: AMOUNT when dest
   * is smaller than src, then MEMORY_INTERSECTION when the start addresses are
   * closer than dest's size.
   */
  function CopyCode(destSize: nat, srcSize: nat, destAddr: int, srcAddr: int): (rc: RC)
    ensures destSize < srcSize ==> rc == Amount
    ensures rc == Success <==> srcSize <= destSize && destSize <= Distance(srcAddr, destAddr)
  {
    if destSize < srcSize then Amount
    else if Distance(srcAddr, destAddr) < destSize then MemoryIntersection
    else Success
  }

  /** Once the AMOUNT check has passed, every genuine overlap is rejected. */
  lemma CopyRejectsEveryOverlap(destSize: nat, srcSize: nat, destAddr: int, srcAddr: int)
    requires srcSize <= destSize
    requires Overlap(srcAddr, srcSize, destAddr, destSize)
    ensures CopyCode(destSize, srcSize, destAddr, srcAddr) == MemoryIntersection
  {
  }

  /** A vector copied onto itself is always rejected. */
  lemma SelfCopyRejected(dim: nat, addr: int)
    ensures CopyCode(AllocationSize(dim), AllocationSize(dim), addr, addr) == MemoryIntersection
  {
  }

  /**
   * The distance test is stricter than an overlap test: a 1-element source at
   * 70 (24 bytes) is disjoint from a 3-element dest at 100 (40 bytes), yet the
   * copy is refused.
   */
  lemma CopyRefusesSomeDisjointRanges()
    ensures !Overlap(70, AllocationSize(1), 100, AllocationSize(3))
    ensures CopyCode(AllocationSize(3), AllocationSize(1), 100, 70) == MemoryIntersection
  {
  }

  /**
   * copyInstance ignores setData's code; once its own checks pass, that call
   * can only fail because an element of src is not finite.
   */
  lemma CopySetDataFailsOnlyOnNonFinite(destDim: nat, s: seq<Elem>)
    requires 1 <= |s|
    requires AllocationSize(|s|) <= AllocationSize(destDim)
    ensures SetDataCode(destDim, |s|, Some(s)) == FirstFailure(s, 0, |s|)
    ensures SetDataCode(destDim, |s|, Some(s)) == Success <==> AllFinite(s)
  {
  }

  // ---------------------------------------------------------------- add / sub

  /**
   * add (minus = false) / sub (minus = true) on two non-null operands, as
   * IVector.cpp does it: None for unequal dimensions, when createVector
   * refuses the copy of op1 (a non-finite element), or when inc/dec on the
   * copy fails; otherwise the combined payload.
   */
  function SumResult(ar: Arith, a: seq<Elem>, b: seq<Elem>, minus: bool): (r: Option<seq<Elem>>)
    requires 1 <= |a|
    ensures r.Some? <==> |a| == |b| && AllFinite(a) && SumCode(ar, a, b, minus) == Success
    ensures r.Some? ==> |b| == |a| && r.value == Combine(ar, a, b, minus)
  {
    if |b| != |a| then None
    else if FirstFailure(a, 0, |a|) != Success then None
    else if SumCode(ar, a, b, minus) != Success then None
    else Some(Combine(ar, a, b, minus))
  }

  /**
   * The older add/sub pre-check: the result at op1's getMaxAbs index, then at
   * op2's. It yields only elemCheck's codes.
   */
  function Precheck(ar: Arith, a: seq<Elem>, b: seq<Elem>, minus: bool): (rc: RC)
    requires 1 <= |a| && |a| == |b|
    ensures rc == Success || rc == InfinityOverflow || rc == NotNumber
    ensures rc == Success <==>
      && IsFinite(Op(ar, a[MaxAbsIndex(ar, a, |a|)], b[MaxAbsIndex(ar, a, |a|)], minus))
      && IsFinite(Op(ar, a[MaxAbsIndex(ar, b, |b|)], b[MaxAbsIndex(ar, b, |b|)], minus))
  {
    var c1 := ElemCheck(Op(ar, a[MaxAbsIndex(ar, a, |a|)], b[MaxAbsIndex(ar, a, |a|)], minus));
    if c1 != Success then c1
    else ElemCheck(Op(ar, a[MaxAbsIndex(ar, b, |b|)], b[MaxAbsIndex(ar, b, |b|)], minus))
  }

  /**
   * add/sub as the older VectorImpl.cpp revision does it: the pre-check, then
   * createVector on op1's payload, then inc/dec on that copy.
   */
  function LegacySumResult(ar: Arith, a: seq<Elem>, b: seq<Elem>, minus: bool): (r: Option<seq<Elem>>)
    requires 1 <= |a|
    ensures r.Some? <==> |a| == |b| && AllFinite(a) && Precheck(ar, a, b, minus) == Success
    ensures r.Some? ==> |r.value| == |a| == |b|
    ensures r.Some? ==> forall i :: 0 <= i < |a| ==> r.value[i] == Op(ar, a[i], b[i], minus)
  {
    if |b| != |a| then None
    else if Precheck(ar, a, b, minus) != Success then None
    else if FirstFailure(a, 0, |a|) != Success then None
    else if SumCode(ar, a, b, minus) != Success then None
    else Some(Combine(ar, a, b, minus))
  }

  /**
   * The older pre-check probes the same two indices that inc/dec probe on the
   * fresh copy of op1, so both revisions of add/sub give the same result.
   */
  lemma RevisionsAgree(ar: Arith, a: seq<Elem>, b: seq<Elem>, minus: bool)
    requires 1 <= |a|
    ensures |a| == |b| ==> Precheck(ar, a, b, minus) == SumCode(ar, a, b, minus)
    ensures LegacySumResult(ar, a, b, minus) == SumResult(ar, a, b, minus)
  {
  }
}
