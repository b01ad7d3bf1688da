/**
 * The static factory functions of IVector.cpp (and VectorImpl::clone, which that
 * file also defines). A handle is a `VectorImpl?`; `null` is nullptr.
 *
 * These functions guard their own log calls, so `logger` (is a logger
 * installed?) may be false; but the VectorImpl members they call (the
 * constructor, getDim, getData, sizeAllocated and elemCheck on a bad element)
 * log unguarded. Each requires clause therefore allows a missing logger
 * exactly on the paths that stop before such a call.
 *
 * `at` is the address the allocator hands out for a new vector.
 */
module Factory {
  import opened Numerics
  import opened VectorMath
  import opened Engine

  /**
   * createVector(n, src): nullptr, before allocating, for n == 0, an absent
   * src or an element that fails elemCheck; otherwise a new vector of
   * dimension n holding src[..n].
   */
  method CreateVector(logger: bool, n: nat, src: Option<seq<Elem>>, at: int) returns (v: VectorImpl?)
    requires src.Some? && 0 < n ==> n <= |src.value|
    requires logger || n == 0 || src.None?
    ensures v == null <==> n == 0 || src.None? || !AllFinite(src.value[..n])
    ensures v != null ==> fresh(v) && fresh(v.data) && v.Valid()
    ensures v != null ==> v.dim == n == v.data.Length && v.addr == at && v.Elems() == src.value[..n]
    ensures v != null ==> forall i :: 0 <= i < n ==> v.GetCord(i, Zero) == (Success, src.value[i])
  {
    if n == 0 || src.None? {
      return null;
    }
    var rc := VectorImpl.CheckElems(src.value, n);
    if rc != Success {
      return null;
    }
    v := new VectorImpl(src.value, n, at);
  }

  /**
   * copyInstance(dest, src): NULLPTR_ERROR, AMOUNT, MEMORY_INTERSECTION in
   * that order, dest unchanged on each; otherwise SUCCESS, with dest taking
   * src's dimension and elements when they are all finite (setData's own
   * failure is ignored and leaves dest as it was).
   */
  method CopyInstance(logger: bool, dest: VectorImpl?, src: VectorImpl?) returns (rc: RC)
    requires logger || dest == null || src == null
    requires dest != null ==> dest.Valid()
    requires src != null ==> src.Valid()
    modifies if dest != null then {dest, dest.data} else {}
    ensures dest == null || src == null ==> rc == NullptrError
    ensures dest != null && src != null ==>
      rc == CopyCode(old(dest.SizeAllocated()), old(src.SizeAllocated()), dest.addr, src.addr)
    ensures dest != null ==> dest.Valid()
    ensures rc == Success && AllFinite(old(src.Elems())) ==>
      && dest.dim == old(src.dim) && dest.Elems() == old(src.Elems())
      && dest.data[dest.dim..] == old(dest.data[..])[dest.dim..]
    ensures (rc != Success || !AllFinite(old(src.Elems()))) && dest != null ==>
      dest.dim == old(dest.dim) && dest.data[..] == old(dest.data[..])
  {
    if dest == null || src == null {
      return NullptrError;
    }
    if dest.SizeAllocated() < src.SizeAllocated() {
      return Amount;
    }
    if Distance(src.addr, dest.addr) < dest.SizeAllocated() {
      return MemoryIntersection;
    }
    CopySetDataFailsOnlyOnNonFinite(dest.dim, src.Elems());
    var ignored := dest.SetData(src.GetDim(), Some(src.Elems()));
    rc := Success;
  }

  /**
   * moveInstance(dest, src): copyInstance; on failure its code, with the
   * caller's handle as it was; on success the source is released and the
   * handle returned is null.
   */
  method MoveInstance(logger: bool, dest: VectorImpl?, src: VectorImpl?) returns (rc: RC, srcAfter: VectorImpl?)
    requires logger || dest == null || src == null
    requires dest != null ==> dest.Valid()
    requires src != null ==> src.Valid()
    modifies if dest != null then {dest, dest.data} else {}
    ensures dest == null || src == null ==> rc == NullptrError
    ensures dest != null && src != null ==>
      rc == CopyCode(old(dest.SizeAllocated()), old(src.SizeAllocated()), dest.addr, src.addr)
    ensures srcAfter == if rc == Success then null else src
    ensures dest != null ==> dest.Valid()
    ensures rc == Success && AllFinite(old(src.Elems())) ==>
      && dest.dim == old(src.dim) && dest.Elems() == old(src.Elems())
      && dest.data[dest.dim..] == old(dest.data[..])[dest.dim..]
    ensures (rc != Success || !AllFinite(old(src.Elems()))) && dest != null ==>
      dest.dim == old(dest.dim) && dest.data[..] == old(dest.data[..])
  {
    rc := CopyInstance(logger, dest, src);
    if rc != Success {
      return rc, src;
    }
    srcAfter := null;
  }

  /**
   * VectorImpl::clone: createVector(dim, getData()). A vector holding a
   * non-finite element (applyFunction does not check) cannot be cloned. The
   * clone's buffer is new, so later writes to either vector leave the other
   * alone.
   */
  method Clone(v: VectorImpl, at: int) returns (c: VectorImpl?)
    requires v.Valid()
    ensures c == null <==> !AllFinite(v.Elems())
    ensures c != null ==> fresh(c) && fresh(c.data) && c.Valid() && c.data != v.data
    ensures c != null ==> c.dim == v.dim && c.Elems() == v.Elems()
  {
    c := CreateVector(true, v.GetDim(), Some(v.Elems()), at);
  }

  /** add (minus = false) and sub (minus = true). */
  method AddOrSub(logger: bool, ar: Arith, op1: VectorImpl?, op2: VectorImpl?, minus: bool, at: int)
    returns (r: VectorImpl?)
    requires logger || op1 == null || op2 == null
    requires op1 != null ==> op1.Valid()
    requires op2 != null ==> op2.Valid()
    ensures op1 == null || op2 == null ==> r == null
    ensures op1 != null && op2 != null ==>
      var expected := SumResult(ar, op1.Elems(), op2.Elems(), minus);
      && (r == null <==> expected.None?)
      && (r != null ==> fresh(r) && fresh(r.data) && r.Valid() && r.Elems() == expected.value)
  {
    if op1 == null || op2 == null {
      return null;
    }
    var n := op1.GetDim();
    if op2.GetDim() != n {
      return null;
    }
    ghost var a, b := op1.Elems(), op2.Elems();
    assert a[..n] == a;
    r := CreateVector(logger, n, Some(op1.Elems()), at);
    if r == null {
      return null;
    }
    assert AllFinite(a) && r.Elems() == a;
    var rc;
    if minus {
      rc := r.Dec(ar, op2);
    } else {
      rc := r.Inc(ar, op2);
    }
    // r's buffer is fresh, so neither operand was touched
    assert op1.Elems() == a && op2.Elems() == b;
    if rc != Success {
      return null;  // the copy is deleted
    }
  }

  /**
   * add: no instance for a null operand, unequal dimensions, a non-finite
   * element in op1 or a failing inc on the copy of op1; otherwise a new vector
   * whose element i is op1[i] + op2[i]. The operands are never modified.
   */
  method Add(logger: bool, ar: Arith, op1: VectorImpl?, op2: VectorImpl?, at: int) returns (r: VectorImpl?)
    requires logger || op1 == null || op2 == null
    requires op1 != null ==> op1.Valid()
    requires op2 != null ==> op2.Valid()
    ensures op1 == null || op2 == null ==> r == null
    ensures op1 != null && op2 != null ==>
      var expected := SumResult(ar, op1.Elems(), op2.Elems(), false);
      && (r == null <==> expected.None?)
      && (r != null ==> fresh(r) && fresh(r.data) && r.Valid() && r.Elems() == expected.value)
  {
    r := AddOrSub(logger, ar, op1, op2, false, at);
  }

  /** sub: as add, with element i of the result op1[i] - op2[i]. */
  method Sub(logger: bool, ar: Arith, op1: VectorImpl?, op2: VectorImpl?, at: int) returns (r: VectorImpl?)
    requires logger || op1 == null || op2 == null
    requires op1 != null ==> op1.Valid()
    requires op2 != null ==> op2.Valid()
    ensures op1 == null || op2 == null ==> r == null
    ensures op1 != null && op2 != null ==>
      var expected := SumResult(ar, op1.Elems(), op2.Elems(), true);
      && (r == null <==> expected.None?)
      && (r != null ==> fresh(r) && fresh(r.data) && r.Valid() && r.Elems() == expected.value)
  {
    r := AddOrSub(logger, ar, op1, op2, true, at);
  }

  /**
   * dot: NaN for a null operand or unequal dimensions; otherwise the
   * left-to-right sum from 0.0 of op1[i] * op2[i].
   */
  method Dot(logger: bool, ar: Arith, op1: VectorImpl?, op2: VectorImpl?) returns (r: Elem)
    requires logger || op1 == null || op2 == null
    requires op1 != null ==> op1.Valid()
    requires op2 != null ==> op2.Valid()
    ensures op1 == null || op2 == null ==> r == NaN
    ensures op1 != null && op2 != null ==>
      r == if op1.dim != op2.dim then NaN else DotSum(ar, op1.Elems(), op2.Elems(), op1.dim)
  {
    if op1 == null || op2 == null {
      return NaN;
    }
    var n := op1.GetDim();
    if op2.GetDim() != n {
      return NaN;
    }
    r := Zero;
    var i := 0;
    while i < n
      invariant 0 <= i <= n
      invariant r == DotSum(ar, op1.Elems(), op2.Elems(), i)
    {
      r := ar.add(r, ar.mul(op1.data[i], op2.data[i]));
      i := i + 1;
    }
  }

  /**
   * equals: false when sub gives no instance; otherwise whether the norm of
   * the difference is at most tol. The temporary difference is discarded.
   */
  method Equals(logger: bool, ar: Arith, op1: VectorImpl?, op2: VectorImpl?, kind: Norm, tol: Elem, at: int)
    returns (eq: bool)
    requires logger || op1 == null || op2 == null
    requires op1 != null ==> op1.Valid()
    requires op2 != null ==> op2.Valid()
    ensures op1 == null || op2 == null ==> !eq
    ensures op1 != null && op2 != null ==>
      eq == match SumResult(ar, op1.Elems(), op2.Elems(), true)
            case None => false
            case Some(d) => |d| >= 1 && ar.le(NormValue(ar, kind, d), tol)
  {
    var diff := Sub(logger, ar, op1, op2, at);
    if diff == null {
      return false;
    }
    var res := diff.Norm(ar, kind);
    eq := ar.le(res, tol);
  }
}
