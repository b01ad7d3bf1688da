/**
 * The older revision of the static factory functions, still defined in
 * VectorImpl.cpp. They log without null checks (all but createVector, which
 * returns nullptr when no logger is installed), so apart from createVector
 * they presume an installed logger. add and sub run a pre-check of their own
 * before copying op1 and calling inc/dec on the copy.
 */
module Legacy {
  import opened Numerics
  import opened VectorMath
  import opened Engine
  import Factory

  /**
   * createVector: nullptr when no logger is installed; otherwise as the
   * newer revision.
   */
  method CreateVector(logger: bool, n: nat, src: Option<seq<Elem>>, at: int) returns (v: VectorImpl?)
    requires logger && src.Some? && 0 < n ==> n <= |src.value|
    ensures v == null <==> !logger || n == 0 || src.None? || !AllFinite(src.value[..n])
    ensures v != null ==> fresh(v) && fresh(v.data) && v.Valid()
    ensures v != null ==> v.dim == n == v.data.Length && v.addr == at && v.Elems() == src.value[..n]
  {
    if !logger {
      return null;
    }
    if n == 0 || src.None? {
      return null;
    }
    var rc := VectorImpl.CheckElems(src.value, n);
    if rc != Success {
      return null;
    }
    v := new VectorImpl(src.value, n, at);
  }

  /** copyInstance: the newer revision's checks and effect, with a logger installed. */
  method CopyInstance(dest: VectorImpl?, src: VectorImpl?) returns (rc: RC)
    requires dest != null ==> dest.Valid()
    requires src != null ==> src.Valid()
    modifies if dest != null then {dest, dest.data} else {}
    ensures dest == null || src == null ==> rc == NullptrError
    ensures dest != null && src != null ==>
      rc == CopyCode(old(dest.SizeAllocated()), old(src.SizeAllocated()), dest.addr, src.addr)
    ensures dest != null ==> dest.Valid()
    ensures rc == Success && AllFinite(old(src.Elems())) ==>
      && dest.dim == old(src.dim) && dest.Elems() == old(src.Elems())
      && dest.data[dest.dim..] == old(dest.data[..])[dest.dim..]
    ensures (rc != Success || !AllFinite(old(src.Elems()))) && dest != null ==>
      dest.dim == old(dest.dim) && dest.data[..] == old(dest.data[..])
  {
    rc := Factory.CopyInstance(true, dest, src);
  }

  /** The common body of the older add (minus = false) and sub (minus = true). */
  method AddOrSub(ar: Arith, op1: VectorImpl?, op2: VectorImpl?, minus: bool, at: int) returns (r: VectorImpl?)
    requires op1 != null ==> op1.Valid()
    requires op2 != null ==> op2.Valid()
    ensures op1 == null || op2 == null ==> r == null
    ensures op1 != null && op2 != null ==>
      var expected := LegacySumResult(ar, op1.Elems(), op2.Elems(), minus);
      && (r == null <==> expected.None?)
      && (r != null ==> fresh(r) && fresh(r.data) && r.Valid() && r.Elems() == expected.value)
  {
    if op1 == null || op2 == null {
      return null;
    }
    var n := op1.GetDim();
    if op2.GetDim() != n {
      return null;
    }
    ghost var a, b := op1.Elems(), op2.Elems();
    var k := VectorImpl.GetMaxAbs(ar, op1.data, n);
    var rc := ElemCheck(Op(ar, op1.data[k], op2.data[k], minus));
    if rc != Success {
      return null;
    }
    k := VectorImpl.GetMaxAbs(ar, op2.data, n);
    rc := ElemCheck(Op(ar, op1.data[k], op2.data[k], minus));
    if rc != Success {
      return null;
    }
    assert Precheck(ar, a, b, minus) == Success;
    assert a[..n] == a;
    r := CreateVector(true, n, Some(op1.Elems()), at);
    if r == null {
      return null;
    }
    assert AllFinite(a) && r.Elems() == a;
    if minus {
      rc := r.Dec(ar, op2);
    } else {
      rc := r.Inc(ar, op2);
    }
    // r's buffer is fresh, so neither operand was touched
    assert op1.Elems() == a && op2.Elems() == b;
    if rc != Success {
      return null;  // the copy is deleted
    }
  }

  /**
   * The older add: the pre-check, then a copy of op1, then inc on it. It
   * gives the same result as the newer add.
   */
  method Add(ar: Arith, op1: VectorImpl?, op2: VectorImpl?, at: int) returns (r: VectorImpl?)
    requires op1 != null ==> op1.Valid()
    requires op2 != null ==> op2.Valid()
    ensures op1 == null || op2 == null ==> r == null
    ensures op1 != null && op2 != null ==>
      var expected := SumResult(ar, op1.Elems(), op2.Elems(), false);
      && (r == null <==> expected.None?)
      && (r != null ==> fresh(r) && fresh(r.data) && r.Valid() && r.Elems() == expected.value)
  {
    r := AddOrSub(ar, op1, op2, false, at);
    if op1 != null && op2 != null {
      RevisionsAgree(ar, op1.Elems(), op2.Elems(), false);
    }
  }

  /** The older sub: as the older add, with dec; the same result as the newer sub. */
  method Sub(ar: Arith, op1: VectorImpl?, op2: VectorImpl?, at: int) returns (r: VectorImpl?)
    requires op1 != null ==> op1.Valid()
    requires op2 != null ==> op2.Valid()
    ensures op1 == null || op2 == null ==> r == null
    ensures op1 != null && op2 != null ==>
      var expected := SumResult(ar, op1.Elems(), op2.Elems(), true);
      && (r == null <==> expected.None?)
      && (r != null ==> fresh(r) && fresh(r.data) && r.Valid() && r.Elems() == expected.value)
  {
    r := AddOrSub(ar, op1, op2, true, at);
    if op1 != null && op2 != null {
      RevisionsAgree(ar, op1.Elems(), op2.Elems(), true);
    }
  }
}
