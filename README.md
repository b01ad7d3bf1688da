# Vector engine: a Dafny model

This project models the vector engine of a small C++ numeric library. A vector
is one allocation holding a `dim` count and a payload of doubles. Operations
report failure through a return code (RC) or a null instance, never through
exceptions. The model covers the instance methods of `VectorImpl`
(`getCord`, `setCord`, `scale`, `inc`, `dec`, `norm`, `applyFunction`,
`foreach`, `sizeAllocated`, `setData` and their helpers `elemCheck`,
`getMaxAbs`, `doSum`, `doChebyshev`, `doFirst`, `doSecond`). It also covers
both revisions of the static factory functions: the newer ones in IVector.cpp
(`createVector`, `copyInstance`, `moveInstance`, `clone`, `add`, `sub`, `dot`,
`equals`) and the older `createVector`, `copyInstance`, `add` and `sub` still
in VectorImpl.cpp.

What is proved is the control flow:

- which code wins, and in what order the checks run;
- that every failing call leaves the vector, the caller's out-value and the caller's handle unchanged;
- exactly which elements a successful call writes;
- that every index the code reads is in bounds, including the `getMaxAbs` probe used by `scale`, `inc` and `dec`;
- the shrink-only dimension rule of `setData`;
- the size and address checks of `copyInstance`.

## Layout

- `numerics.dfy` (module `Numerics`): elements, return codes, the norm selector.
  - An element is the 64-bit pattern of a double. `IsInf`, `IsNaN` and `Abs` are exact bit tests.
  - `+`, `-`, `*`, `<`, `<=`, `sqrt` and the size_t-to-double conversion stay uninterpreted. They travel as an `Arith` value of function fields, so every result holds for any arithmetic.
- `vector_math.dfy` (module `VectorMath`): each operation's return code and resulting payload as functions on element sequences, with the lemmas about them.
- `engine.dfy` (module `Engine`): class `VectorImpl`.
  - `const data: array<Elem>` is the buffer. Its length is the capacity fixed at creation.
  - `var dim` is the current dimension. `setData` may lower it.
  - `const addr` is the abstract start address of the allocation.
  - Methods write the array in place, and their contracts tie the new state to the functions of `VectorMath`.
- `factory.dfy` (module `Factory`): the functions of IVector.cpp.
- `legacy.dfy` (module `Legacy`): the older static functions of VectorImpl.cpp.

### The logger

The instance methods of VectorImpl.cpp call the process-wide logger without a
null check, so the model assumes one is installed. The IVector.cpp functions
guard their own log calls, so they take a `logger` flag. But the members they
call log unguarded: the constructor, `getDim`, `getData`, `sizeAllocated`, and
`elemCheck` when it rejects an element. Each of these functions therefore
requires a logger except on the paths that return before such a call. For
example, `IVector::createVector` works without a logger only when `dim == 0` or
the data pointer is null. The older `createVector` returns nullptr when no
logger is installed.

### Where the code is looser than a stricter alternative (the model follows the code)

- `setData`: an exact dimension match would be the stricter rule. The code (VectorImpl.cpp:399) accepts any new dimension from 1 up to the current one.
- The overlap test: a true interval-overlap test would reject exactly the intersecting byte ranges. The code (IVector.cpp:47) rejects when the distance between the start addresses is below `dest`'s size.
  - Once the AMOUNT check has passed, every genuine overlap is still rejected (`CopyRejectsEveryOverlap`).
  - Some disjoint pairs are rejected too (`CopyRefusesSomeDisjointRanges`).
- `inc`/`dec`: a temporary buffer with every result element checked would never leave an overflow behind. The code checks only the results at two probe indices, then writes all elements. `SumCheckMissesOtherIndices` exhibits a successful call that leaves an infinity, even when `<` is a strict order.
- `createVector` with `dim == 0` logs NULLPTR_ERROR and returns nullptr, as the code does.
- `getMaxAbs` (VectorImpl.cpp:126) compares each magnitude with the running index rather than with the magnitude at that index. It is modelled as written, and `MaxAbsIndexPicksLastAboveZero` shows it can pick a smaller element. Only its bound (`< dim`) is claimed.

## Model

| member | source | states |
|---|---|---|
| VectorMath.ElemCheck | VectorImpl.cpp:14-24 | INFINITY_OVERFLOW exactly for ±Inf, NOT_NUMBER exactly for NaN, SUCCESS exactly for finite values; no other code |
| VectorMath.FirstFailure | VectorImpl.cpp:408-415 | SUCCESS iff every element in the range is finite; otherwise the elemCheck code of the first non-finite element |
| VectorMath.MaxAbsIndex | VectorImpl.cpp:123-129 | getMaxAbs as written returns 0 for an empty range and an index below `dim` otherwise, so every probe is in bounds |
| VectorMath.MaxAbsIndexPicksLastAboveZero | VectorImpl.cpp:125-127 | with two elements whose magnitudes exceed 0.0, getMaxAbs returns index 1 whatever the magnitudes: it does not find the largest |
| VectorMath.MaxAbs | VectorImpl.cpp:322-329 | doChebyshev's fold from abs(x0); the Chebyshev norm of a finite vector is finite, for any `<` |
| VectorMath.SumAbs | VectorImpl.cpp:331-337 | doFirst's left fold of magnitudes from 0.0; it is 0.0 for a vector of zeros of either sign when 0.0 + 0.0 is 0.0 |
| VectorMath.SumSquares | VectorImpl.cpp:339-345 | doSecond's left fold of squares from 0.0; it is 0.0 for a vector of zeros when a zero squares to 0.0 and 0.0 + 0.0 is 0.0 |
| VectorMath.DotSum | IVector.cpp:140-143 | dot's left fold of products from 0.0; the dot product of a zero vector with a finite one is 0.0 when zero times a finite value is a zero and adding a zero to 0.0 gives 0.0 |
| VectorMath.NormValue | VectorImpl.cpp:347-365 | the AMOUNT kind yields NaN; SECOND is sqrt of the left-to-right sum of squares |
| VectorMath.MaxAbsIsMaximal | VectorImpl.cpp:322-329 | when `<` is irreflexive and transitive, no element's magnitude exceeds the Chebyshev norm |
| VectorMath.MaxAbsAttained | VectorImpl.cpp:322-329 | the Chebyshev norm is the magnitude of some element, for any `<` |
| VectorMath.SumSquaresIsSelfDot | IVector.cpp:140-143 | doSecond's accumulator equals dot's accumulator of the vector with itself |
| VectorMath.SecondNormIsSqrtOfSelfDot | VectorImpl.cpp:339-345 | the SECOND norm is sqrt(dot(v, v)) |
| VectorMath.Scaled | VectorImpl.cpp:144-145 | after a successful scale element i is old[i] * multiplier, dimension unchanged |
| VectorMath.ScaleCode | VectorImpl.cpp:131-143 | scale succeeds iff the multiplier and the product at the getMaxAbs index are finite; a non-finite multiplier's own code wins |
| VectorMath.ScaleByZero | VectorImpl.cpp:131-148 | scale(0.0) on a finite vector succeeds, leaves only zeros and a Chebyshev norm of 0.0, when finite × 0.0 is a signed zero |
| VectorMath.Combine | VectorImpl.cpp:155-160 | after doSum element i is op1[i] + op2[i] (inc) or op1[i] - op2[i] (dec) |
| VectorMath.SumCode | VectorImpl.cpp:162-185 | unequal dims give MISMATCHING_DIMENSIONS; success iff the result at this vector's getMaxAbs index and at op's are both finite |
| VectorMath.SumCheckMissesOtherIndices | VectorImpl.cpp:172-186 | some successful inc, under a strict `<`, leaves a non-finite element at an index neither probe checked |
| VectorMath.SetDataCode | VectorImpl.cpp:398-415 | dim 0 or above the current dim gives MISMATCHING_DIMENSIONS before null data gives NULLPTR_ERROR; success iff 1 <= n <= dim, data present and all finite |
| VectorMath.AllocationSize | VectorImpl.cpp:393-396 | the allocated size is positive (header plus 8 bytes per element) |
| VectorMath.AmountIffFewerElements | IVector.cpp:43-46 | one vector's size is below another's exactly when its dimension is |
| VectorMath.CopyCode | IVector.cpp:43-50 | AMOUNT when dest is smaller; success iff dest is at least as large and the addresses are at least dest's size apart |
| VectorMath.CopyRejectsEveryOverlap | IVector.cpp:43-50 | once AMOUNT has passed, any intersection of the two byte ranges yields MEMORY_INTERSECTION |
| VectorMath.SelfCopyRejected | IVector.cpp:47-50 | copying a vector onto itself yields MEMORY_INTERSECTION |
| VectorMath.CopyRefusesSomeDisjointRanges | IVector.cpp:47-50 | a disjoint pair (24 bytes at 70, 40 bytes at 100) is still refused |
| VectorMath.CopySetDataFailsOnlyOnNonFinite | IVector.cpp:52-55 | after copyInstance's checks, the ignored setData call fails only when a src element is non-finite |
| VectorMath.SumResult | IVector.cpp:74-126 | add/sub yield an instance iff dims match, op1 is all finite and inc/dec's probes pass; its payload is the element-wise sum/difference |
| VectorMath.Precheck | VectorImpl.cpp:233-245 | the older add/sub pre-check yields only elemCheck's codes, and SUCCESS iff the results at op1's and op2's getMaxAbs indices are both finite |
| VectorMath.LegacySumResult | VectorImpl.cpp:222-300 | the older add/sub yield an instance iff dims match, op1 is all finite and the pre-check passes; its element i is op1[i] ± op2[i] |
| VectorMath.RevisionsAgree | VectorImpl.cpp:233-245 | the older pre-check equals inc/dec's check on the copy, so both revisions of add/sub give the same result |
| Engine.VectorImpl.Elems | VectorImpl.cpp:91-94 | getData exposes exactly `dim` elements |
| Engine.VectorImpl.constructor | IVector.cpp:24-34 | a fresh buffer of capacity n holding src[..n], dimension n, at the given address |
| Engine.VectorImpl.GetDim | VectorImpl.cpp:150-153 | the dimension is between 1 and the capacity |
| Engine.VectorImpl.SizeAllocated | VectorImpl.cpp:393-396 | header size plus 8 bytes per current element |
| Engine.VectorImpl.GetCord | VectorImpl.cpp:96-105 | SUCCESS iff index < dim, with element `index`; otherwise INDEX_OUT_OF_BOUND and the caller's value untouched |
| Engine.VectorImpl.SetCord | VectorImpl.cpp:107-121 | bounds before value check; success writes only element `index` (readable back by getCord); any failure changes nothing |
| Engine.VectorImpl.GetMaxAbs | VectorImpl.cpp:123-129 | the loop computes MaxAbsIndex, an index below n for n >= 1 |
| Engine.VectorImpl.Scale | VectorImpl.cpp:131-148 | returns ScaleCode; success multiplies every element, failure leaves the buffer as it was; dim unchanged |
| Engine.VectorImpl.DoSum | VectorImpl.cpp:155-160 | the loop leaves element i as this[i] ± op[i], even when op is this vector; capacity beyond dim untouched |
| Engine.VectorImpl.Accumulate | VectorImpl.cpp:162-190 | null first, then dims, then the two probes; failure leaves the buffer unchanged |
| Engine.VectorImpl.Inc | VectorImpl.cpp:162-190 | NULLPTR_ERROR, else SumCode; success makes element i old[i] + op[i]; failure changes nothing |
| Engine.VectorImpl.Dec | VectorImpl.cpp:192-220 | NULLPTR_ERROR, else SumCode; success makes element i old[i] - op[i]; failure changes nothing |
| Engine.VectorImpl.DoChebyshev | VectorImpl.cpp:322-329 | the loop computes the Chebyshev fold from abs(x0) |
| Engine.VectorImpl.DoFirst | VectorImpl.cpp:331-337 | the loop computes the left-to-right sum of magnitudes from 0.0 |
| Engine.VectorImpl.DoSecond | VectorImpl.cpp:339-345 | the loop computes sqrt of the left-to-right sum of squares |
| Engine.VectorImpl.Norm | VectorImpl.cpp:347-365 | the norm of the selected kind (NaN for AMOUNT), without modifying the vector |
| Engine.VectorImpl.ApplyFunction | VectorImpl.cpp:377-383 | every element x becomes fun(x), no check, always SUCCESS, dim unchanged |
| Engine.VectorImpl.Foreach | VectorImpl.cpp:385-391 | visits exactly the elements in index order, changes nothing, returns SUCCESS |
| Engine.VectorImpl.CheckElems | IVector.cpp:20-22 | the element-check loop returns the first failing element's code, or SUCCESS |
| Engine.VectorImpl.SetData | VectorImpl.cpp:398-422 | returns SetDataCode; success sets dim to n (shrink allowed) and elements [0, n) to the source; failure changes nothing |
| Factory.CreateVector | IVector.cpp:13-35 | no instance iff dim is 0, data absent or an element non-finite; otherwise a fresh vector whose getCord(i) is data[i] |
| Factory.CopyInstance | IVector.cpp:37-56 | NULLPTR_ERROR, AMOUNT, MEMORY_INTERSECTION in order with dest unchanged; SUCCESS otherwise, dest taking src's dim and elements (capacity beyond them untouched) if all finite, else unchanged |
| Factory.MoveInstance | IVector.cpp:58-67 | copyInstance's code and effect on dest; the caller's handle becomes null only on success |
| Factory.Clone | IVector.cpp:69-72 | a fresh vector with the same dim and elements and its own buffer, or none when an element is non-finite |
| Factory.AddOrSub | IVector.cpp:74-126 | a null operand gives none; otherwise the instance exists iff SumResult does, with its payload; operands untouched |
| Factory.Add | IVector.cpp:74-99 | a fresh vector with op1[i] + op2[i], or none on null operand, dim mismatch, non-finite op1 or failed inc |
| Factory.Sub | IVector.cpp:101-126 | a fresh vector with op1[i] - op2[i], or none on null operand, dim mismatch, non-finite op1 or failed dec |
| Factory.Dot | IVector.cpp:128-147 | NaN for a null operand or unequal dims; otherwise the left fold from 0.0 of op1[i] * op2[i] |
| Factory.Equals | IVector.cpp:149-158 | false when sub gives no instance; otherwise norm(op1 - op2) <= tol |
| Legacy.CreateVector | VectorImpl.cpp:31-54 | no instance without a logger, for dim 0, absent data or a non-finite element; otherwise a fresh copy |
| Legacy.CopyInstance | VectorImpl.cpp:56-74 | the same codes and effect on dest as the newer copyInstance |
| Legacy.AddOrSub | VectorImpl.cpp:222-300 | the older pre-check, copy and inc/dec give LegacySumResult |
| Legacy.Add | VectorImpl.cpp:222-260 | the same result as the newer add |
| Legacy.Sub | VectorImpl.cpp:262-300 | the same result as the newer sub |

## Left out

- Logging: LoggerImpl.cpp, LoggerImpl.h and ILogger.cpp write to a file or stream. Log calls have no effect here. `setLogger` (VectorImpl.cpp:7-12) is not modelled. Its effect appears only as the `logger` flag and the requires clauses described above.
- Allocation failure: `new (std::nothrow)` returning nullptr (ALLOCATION_ERROR) cannot happen to a Dafny allocation. Every creation in the model that passes its checks succeeds.
- IEEE-754 arithmetic: rounding, overflow thresholds and NaN propagation are not modelled. Sums, products, comparisons and `sqrt` are uninterpreted. `pow(x, 2)` in `doSecond` is modelled as `x * x`, and `dec`'s `op1[i] + (-1) * op2[i]` as `op1[i] - op2[i]`.
- The add/sub round trip (`sub(add(a, b), b)` close to `a`) and the concrete norm values of a sample vector depend on real arithmetic, so they are not stated.
- Memory layout: placement `new` over a byte buffer, `memcpy` and pointer arithmetic are modelled as an array and a `dim` field. An address is an abstract integer supplied at creation. Nothing ties distinct objects to distinct addresses. `delete` appears only as a handle becoming null or an instance not being returned.
- `getData` returning a raw pointer: readers see a snapshot of the first `dim` elements. `setData` copies from that snapshot, so an overlapping `memcpy` source is not modelled (the overlap check of `copyInstance` excludes it for that caller).
- `sizeof(VectorImpl)` is taken as 16 bytes (`HeaderSize`): an 8-byte vtable pointer plus an 8-byte `dim`, as on a 64-bit target. IVector.h is not part of this model, so the layout is an assumption. Only the concrete addresses in `CopyRefusesSomeDisjointRanges` depend on it; the other lemmas hold for any header size.
- size_t width: dimensions and indices are unbounded naturals, so the `index < 0` test is vacuous and `dim * sizeof(double)` cannot wrap.
- The older `moveInstance`, `clone`, `dot` and `equals` in VectorImpl.cpp (lines 76-89 and 302-375) differ from the IVector.cpp versions only in not guarding the log calls. With a logger installed they are the same code, modelled once by `Factory.MoveInstance`, `Factory.Clone`, `Factory.Dot` and `Factory.Equals`.
- VectorImpl.h declares `doSum` with a different signature (line 15). The model follows the definition at VectorImpl.cpp:155.
- ApplyFunction: `fun` is a pure function of the element. Side effects of the callback, and the order in which it is called, are not captured.
- Foreach: the callback's side effects are not modelled. The call sequence is reported as the list of arguments.
- VectorMath.MaxAbsIsMaximal: stated only for a `<` that is irreflexive and transitive, as `<` on doubles is.
- Engine.VectorImpl.GetMaxAbs: the contract claims only the bound, not that the index has the largest magnitude, because the code does not compute that.
