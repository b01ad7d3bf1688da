/**
 * The vector engine of VectorImpl.cpp: one object per vector, holding its
 * dimension and a buffer whose length is the capacity fixed at creation. The
 * source lays the buffer out right behind the object in one allocation; here it
 * is an array owned by the object, and the object's start address is an
 * abstract integer used only by the overlap test of copyInstance.
 *
 * Every instance method of the source logs through the process-wide logger
 * without a null check, so these methods presume an installed logger; logging
 * itself has no effect on the model.
 */
module Engine {
  import opened Numerics
  import opened VectorMath

  class VectorImpl {
    /** The payload; its length is the capacity, fixed at creation. */
    const data: array<Elem>
    /** The current dimension; setData may lower it. */
    var dim: nat
    /** The start address of the allocation. */
    const addr: int

    ghost predicate Valid()
      reads this
    {
      1 <= dim <= data.Length
    }

    /** getData: the first `dim` elements of the buffer. */
    function Elems(): (s: seq<Elem>)
      reads this, data
      requires Valid()
      ensures |s| == dim
    {
      data[..dim]
    }

    /** The placement-new of createVector: a buffer of n elements copied from src. */
    constructor (src: seq<Elem>, n: nat, at: int)
      requires 1 <= n <= |src|
      ensures Valid() && fresh(data)
      ensures data.Length == n && dim == n && addr == at
      ensures Elems() == src[..n]
    {
      var a := new Elem[n];
      var i := 0;
      while i < n
        invariant 0 <= i <= n
        invariant a[..i] == src[..i]
      {
        a[i] := src[i];
        i := i + 1;
      }
      data := a;
      dim := n;
      addr := at;
      new;
      assert data[..n] == src[..n];
    }

    /** getDim. */
    function GetDim(): (n: nat)
      reads this
      requires Valid()
      ensures 1 <= n <= data.Length
    {
      dim
    }

    /** sizeAllocated: the header plus the current dimension's payload. */
    function SizeAllocated(): (n: nat)
      reads this
      ensures n == AllocationSize(dim)
    {
      HeaderSize + ElemSize * dim
    }

    /**
     * getCord(index, val): the pair (code, val after the call). An index
     * at or past `dim` leaves the caller's `val` as it was.
     */
    function GetCord(index: nat, val: Elem): (r: (RC, Elem))
      reads this, data
      requires Valid()
      ensures r.0 == Success <==> index < dim
      ensures r.0 != Success ==> r == (IndexOutOfBound, val)
      ensures r.0 == Success ==> r.1 == Elems()[index]
    {
      if index >= dim then (IndexOutOfBound, val) else (Success, data[index])
    }

    /** setCord: bounds first, then the value's check; only element `index` changes. */
    method SetCord(index: nat, val: Elem) returns (rc: RC)
      requires Valid()
      modifies data
      ensures rc == (if index < dim then ElemCheck(val) else IndexOutOfBound)
      ensures rc == Success ==> data[..] == old(data[..])[index := val]
      ensures rc != Success ==> data[..] == old(data[..])
      ensures Valid()
      ensures rc == Success ==> GetCord(index, Zero) == (Success, val)
    {
      if index >= dim {
        return IndexOutOfBound;
      }
      rc := ElemCheck(val);
      if rc != Success {
        return;
      }
      data[index] := val;
    }

    /** getMaxAbs over the first n elements of a buffer. */
    static method GetMaxAbs(ar: Arith, a: array<Elem>, n: nat) returns (k: nat)
      requires n <= a.Length
      ensures k == MaxAbsIndex(ar, a[..n], n)
      ensures n >= 1 ==> k < n
    {
      k := 0;
      var i := 0;
      while i < n
        invariant 0 <= i <= n
        invariant k == MaxAbsIndex(ar, a[..n], i)
      {
        if ar.lt(ar.fromIndex(k), Abs(a[i])) {
          k := i;
        }
        i := i + 1;
      }
    }

    /**
     * scale: the multiplier's check, then the check of the product at the
     * getMaxAbs index; only on success is every element multiplied.
     */
    method Scale(ar: Arith, m: Elem) returns (rc: RC)
      requires Valid()
      modifies data
      ensures Valid()
      ensures rc == ScaleCode(ar, old(Elems()), m)
      ensures Elems() == if rc == Success then Scaled(ar, old(Elems()), m) else old(Elems())
      ensures data[dim..] == old(data[dim..])
    {
      rc := ElemCheck(m);
      if rc != Success {
        return;
      }
      var k := GetMaxAbs(ar, data, dim);
      rc := ElemCheck(ar.mul(data[k], m));
      if rc != Success {
        return;
      }
      ghost var before := data[..];
      var i := 0;
      while i < dim
        invariant 0 <= i <= dim
        invariant forall j :: 0 <= j < i ==> data[j] == ar.mul(before[j], m)
        invariant forall j :: i <= j < data.Length ==> data[j] == before[j]
      {
        data[i] := ar.mul(data[i], m);
        i := i + 1;
      }
    }

    /**
     * doSum(this, getData(), op->getData(), minus): element i becomes
     * this[i] + op[i] or this[i] - op[i]. `op` may be this very vector.
     */
    method DoSum(ar: Arith, op: VectorImpl, minus: bool)
      requires Valid() && op.Valid() && op.dim == dim
      modifies data
      ensures Valid()
      ensures Elems() == Combine(ar, old(Elems()), old(op.Elems()), minus)
      ensures data[dim..] == old(data[dim..])
    {
      ghost var before, other := data[..], op.data[..];
      var i := 0;
      while i < dim
        invariant 0 <= i <= dim
        invariant forall j :: 0 <= j < i ==> data[j] == Op(ar, before[j], other[j], minus)
        invariant forall j :: i <= j < data.Length ==> data[j] == before[j]
        invariant forall j :: i <= j < op.data.Length ==> op.data[j] == other[j]
      {
        data[i] := if minus then ar.sub(data[i], op.data[i]) else ar.add(data[i], op.data[i]);
        i := i + 1;
      }
    }

    /** The common body of inc and dec. */
    method Accumulate(ar: Arith, op: VectorImpl?, minus: bool) returns (rc: RC)
      requires Valid() && (op != null ==> op.Valid())
      modifies data
      ensures Valid()
      ensures rc == if op == null then NullptrError else SumCode(ar, old(Elems()), old(op.Elems()), minus)
      ensures rc == Success ==> op != null && Elems() == Combine(ar, old(Elems()), old(op.Elems()), minus)
      ensures rc != Success ==> data[..] == old(data[..])
      ensures data[dim..] == old(data[dim..])
    {
      if op == null {
        return NullptrError;
      }
      if op.dim != dim {
        return MismatchingDimensions;
      }
      var k := GetMaxAbs(ar, data, dim);
      rc := ElemCheck(Op(ar, data[k], op.data[k], minus));
      if rc != Success {
        return;
      }
      k := GetMaxAbs(ar, op.data, op.dim);
      rc := ElemCheck(Op(ar, data[k], op.data[k], minus));
      if rc != Success {
        return;
      }
      DoSum(ar, op, minus);
    }

    /**
     * inc: null operand, unequal dimension, then the two probes; only on
     * success does element i become this[i] + op[i]. A failing call changes
     * neither vector.
     */
    method Inc(ar: Arith, op: VectorImpl?) returns (rc: RC)
      requires Valid() && (op != null ==> op.Valid())
      modifies data
      ensures Valid()
      ensures op == null ==> rc == NullptrError
      ensures op != null ==> rc == SumCode(ar, old(Elems()), old(op.Elems()), false)
      ensures rc == Success ==> op != null && Elems() == Combine(ar, old(Elems()), old(op.Elems()), false)
      ensures rc != Success ==> data[..] == old(data[..])
      ensures data[dim..] == old(data[dim..])
    {
      rc := Accumulate(ar, op, false);
    }

    /** dec: as inc, with element i becoming this[i] - op[i]. */
    method Dec(ar: Arith, op: VectorImpl?) returns (rc: RC)
      requires Valid() && (op != null ==> op.Valid())
      modifies data
      ensures Valid()
      ensures op == null ==> rc == NullptrError
      ensures op != null ==> rc == SumCode(ar, old(Elems()), old(op.Elems()), true)
      ensures rc == Success ==> op != null && Elems() == Combine(ar, old(Elems()), old(op.Elems()), true)
      ensures rc != Success ==> data[..] == old(data[..])
      ensures data[dim..] == old(data[dim..])
    {
      rc := Accumulate(ar, op, true);
    }

    /** doChebyshev. */
    method DoChebyshev(ar: Arith) returns (r: Elem)
      requires Valid()
      ensures r == MaxAbs(ar, Elems(), dim)
    {
      r := Abs(data[0]);
      var i := 0;
      while i < dim
        invariant 0 <= i <= dim
        invariant r == MaxAbs(ar, Elems(), i)
      {
        if ar.lt(r, Abs(data[i])) {
          r := Abs(data[i]);
        }
        i := i + 1;
      }
    }

    /** doFirst. */
    method DoFirst(ar: Arith) returns (r: Elem)
      requires Valid()
      ensures r == SumAbs(ar, Elems(), dim)
    {
      r := Zero;
      var i := 0;
      while i < dim
        invariant 0 <= i <= dim
        invariant r == SumAbs(ar, Elems(), i)
      {
        r := ar.add(r, Abs(data[i]));
        i := i + 1;
      }
    }

    /** doSecond. */
    method DoSecond(ar: Arith) returns (r: Elem)
      requires Valid()
      ensures r == ar.sqrt(SumSquares(ar, Elems(), dim))
    {
      var acc := Zero;
      var i := 0;
      while i < dim
        invariant 0 <= i <= dim
        invariant acc == SumSquares(ar, Elems(), i)
      {
        acc := ar.add(acc, ar.mul(data[i], data[i]));
        i := i + 1;
      }
      r := ar.sqrt(acc);
    }

    /** norm: dispatches on the kind; the sentinel kind yields NaN. Reads only. */
    method Norm(ar: Arith, kind: Norm) returns (r: Elem)
      requires Valid()
      ensures r == NormValue(ar, kind, Elems())
    {
      match kind
      case Chebyshev => r := DoChebyshev(ar);
      case First => r := DoFirst(ar);
      case Second => r := DoSecond(ar);
      case NormAmount => r := NaN;
    }

    /** applyFunction: every element x becomes fun(x), unchecked; always SUCCESS. */
    method ApplyFunction(fun: Elem -> Elem) returns (rc: RC)
      requires Valid()
      modifies data
      ensures Valid() && rc == Success
      ensures |Elems()| == |old(Elems())|
      ensures forall i :: 0 <= i < dim ==> Elems()[i] == fun(old(Elems())[i])
      ensures data[dim..] == old(data[dim..])
    {
      ghost var before := data[..];
      var i := 0;
      while i < dim
        invariant 0 <= i <= dim
        invariant forall j :: 0 <= j < i ==> data[j] == fun(before[j])
        invariant forall j :: i <= j < data.Length ==> data[j] == before[j]
      {
        data[i] := fun(data[i]);
        i := i + 1;
      }
      rc := Success;
    }

    /**
     * foreach: calls `visit` on each element in index order and changes
     * nothing; `calls` lists the arguments of those calls.
     */
    method Foreach(visit: Elem -> ()) returns (rc: RC, calls: seq<Elem>)
      requires Valid()
      ensures rc == Success
      ensures calls == Elems()
    {
      calls := [];
      var i := 0;
      while i < dim
        invariant 0 <= i <= dim
        invariant calls == data[..i]
      {
        var seen := visit(data[i]);
        calls := calls + [data[i]];
        i := i + 1;
      }
      rc := Success;
    }

    /** The element-check loop of createVector and setData over src[..n]. */
    static method CheckElems(src: seq<Elem>, n: nat) returns (rc: RC)
      requires n <= |src|
      ensures rc == FirstFailure(src, 0, n)
    {
      var i := 0;
      while i < n
        invariant 0 <= i <= n
        invariant FirstFailure(src, 0, n) == FirstFailure(src, i, n)
      {
        rc := ElemCheck(src[i]);
        if rc != Success {
          return;
        }
        i := i + 1;
      }
      rc := Success;
    }

    /**
     * setData(n, src): the dimension rule before the null check, then every
     * element is checked before any is written; on success the dimension
     * becomes n (it may shrink) and elements [0, n) are src's.
     */
    method SetData(n: nat, src: Option<seq<Elem>>) returns (rc: RC)
      requires Valid()
      requires src.Some? && 0 < n <= dim ==> n <= |src.value|
      modifies this, data
      ensures Valid()
      ensures rc == SetDataCode(old(dim), n, src)
      ensures rc == Success ==> dim == n && Elems() == src.value[..n]
      ensures rc == Success ==> data[n..] == old(data[n..])
      ensures rc != Success ==> dim == old(dim) && data[..] == old(data[..])
    {
      if n == 0 || dim < n {
        return MismatchingDimensions;
      }
      if src.None? {
        return NullptrError;
      }
      rc := CheckElems(src.value, n);
      if rc != Success {
        return;
      }
      ghost var before := data[..];
      var i := 0;
      while i < n
        invariant 0 <= i <= n
        invariant forall j :: 0 <= j < i ==> data[j] == src.value[j]
        invariant forall j :: i <= j < data.Length ==> data[j] == before[j]
      {
        data[i] := src.value[i];
        i := i + 1;
      }
      dim := n;
    }
  }
}
