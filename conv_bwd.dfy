// Backward convolution entry points: the checks on the layer handle, the
// choice between the generic (JIT) path and the per-datatype
// specialisations, and the GEMM kernels each path requests.
//
// The template bodies the entry points include and the kernels they
// dispatch are not part of this model; a Plan records which template
// would run and the kernel requests made for it. Whether the library was
// built with AVX-512 intrinsics is the parameter `avx512`.

module ConvBackward {
  import opened Wrappers

  datatype Datatype = F32 | BF16 | OtherType

  datatype Status = Success | ErrDataNotBound | ErrUnsupportedDatatype | ErrUnsupportedArch

  /** The fields of the layer handle the backward entry points read.
    * `...Bound` is false where the tensor pointer is null. */
  datatype Handle = Handle(
    gradInputBound: bool, gradOutputBound: bool, regFilterBound: bool, scratch1Bound: bool,
    useBwdGeneric: int, datatypeIn: Datatype, datatypeOut: Datatype,
    useFallbackBwdLoops: int, spreadInputBwd: int, avoidAccLoadBwd: int,
    ifmblock: int, ofmblock: int, v: int, bwdOfhRb: int, bwdOfwRb: int, ofw: int,
    blocksifm: int, blocksofm: int, padH: int, padHIn: int, padW: int, padWIn: int)

  /** A column-major GEMM request C(m x n) = A(m x k) * B(k x n) (+ beta C);
    * None stands for a NULL argument, i.e. the dispatcher's default. */
  datatype Gemm = Gemm(m: int, n: int, k: int,
                       lda: Option<int>, ldb: Option<int>, ldc: Option<int>, beta: Option<int>)

  datatype Elem = Float | BFloat16

  datatype NhwcFilter = Rsck | Custom

  /** Which template would run, with the kernels requested for it. */
  datatype Plan =
    | NoKernel
    | BatchReduce(elem: Elem, kernel: Gemm, kernel2: Gemm)
    | Fallback(kernel: Gemm)
    | Nhwc(filter: NhwcFilter, kernel: Gemm)

  datatype Outcome = Outcome(status: Status, plan: Plan)

  predicate AllBound(h: Handle)
  {
    h.gradInputBound && h.gradOutputBound && h.regFilterBound && h.scratch1Bound
  }

  predicate BothF32(h: Handle)
  {
    h.datatypeIn == F32 && h.datatypeOut == F32
  }

  predicate BothBF16(h: Handle)
  {
    h.datatypeIn == BF16 && h.datatypeOut == BF16
  }

  /* ----------------------------------------------------------------------
   * Kernel requests
   * -------------------------------------------------------------------- */

  /** The two batch-reduce kernels of the generic template: an
    * ifmblock x (ofh_rb*ofw_rb) x ofmblock GEMM, and a second one whose row
    * block is one output pixel narrower; they share every other argument.
    * C's columns are v input pixels apart when the input is spread. */
  function BatchReduceKernels(h: Handle, elem: Elem): (p: Plan)
    ensures p.BatchReduce? && p.elem == elem
    ensures p.kernel.m == h.ifmblock && p.kernel.k == h.ofmblock
    ensures p.kernel.n == h.bwdOfhRb * h.bwdOfwRb && p.kernel.n - p.kernel2.n == h.bwdOfhRb
    ensures p.kernel2 == p.kernel.(n := p.kernel2.n)
    ensures p.kernel.lda == Some(h.ifmblock) && p.kernel.ldb == Some(h.ofmblock)
    ensures h.spreadInputBwd == 1 ==> p.kernel.ldc == Some(h.v * h.ifmblock)
    ensures h.spreadInputBwd != 1 ==> p.kernel.ldc == Some(h.ifmblock)
    ensures p.kernel.beta == Some(0) <==> h.avoidAccLoadBwd != 0
    ensures p.kernel.beta == Some(0) || p.kernel.beta == Some(1)
  {
    var ldx := h.ofmblock;
    var ldA := h.ifmblock;
    var ldC := if h.spreadInputBwd == 1 then h.ifmblock * h.v else h.ifmblock;
    var beta := if h.avoidAccLoadBwd != 0 then 0 else 1;
    assert h.bwdOfhRb * (h.bwdOfwRb - 1) == h.bwdOfhRb * h.bwdOfwRb - h.bwdOfhRb;
    BatchReduce(elem,
      Gemm(h.ifmblock, h.bwdOfhRb * h.bwdOfwRb, h.ofmblock, Some(ldA), Some(ldx), Some(ldC), Some(beta)),
      Gemm(h.ifmblock, h.bwdOfhRb * (h.bwdOfwRb - 1), h.ofmblock, Some(ldA), Some(ldx), Some(ldC), Some(beta)))
  }

  /** The fallback loops' plain GEMM: ifmblock x ofw x ofmblock, with C's
    * columns v input pixels apart and every other argument defaulted. */
  function FallbackKernel(h: Handle): (p: Plan)
    ensures p.Fallback?
    ensures p.kernel.m == h.ifmblock && p.kernel.n == h.ofw && p.kernel.k == h.ofmblock
    ensures p.kernel.ldc == Some(h.v * h.ifmblock)
    ensures p.kernel.lda.None? && p.kernel.ldb.None? && p.kernel.beta.None?
  {
    var ldx := h.v * h.ifmblock;
    Fallback(Gemm(h.ifmblock, h.ofw, h.ofmblock, None, None, Some(ldx), None))
  }

  /** NHWC kernels: B's rows are whole pixels (blocksofm*ofmblock apart); C's
    * columns span whole input pixels when the output padding equals the
    * input padding, and one ifm block otherwise. */
  function NhwcKernel(h: Handle, filter: NhwcFilter): (p: Plan)
    ensures p.Nhwc? && p.filter == filter
    ensures p.kernel.m == h.ifmblock && p.kernel.n == h.ofw && p.kernel.k == h.ofmblock
    ensures p.kernel.lda == Some(h.ifmblock) && p.kernel.ldb == Some(h.blocksofm * h.ofmblock)
    ensures h.padH == h.padHIn && h.padW == h.padWIn ==>
              p.kernel.ldc == Some(h.v * h.blocksifm * h.ifmblock)
    ensures !(h.padH == h.padHIn && h.padW == h.padWIn) ==> p.kernel.ldc == Some(h.v * h.ifmblock)
    ensures p.kernel.beta.None?
  {
    var lda := h.ifmblock;
    var ldb := h.blocksofm * h.ofmblock;
    var ldc := if h.padH == h.padHIn && h.padW == h.padWIn
               then h.v * h.blocksifm * h.ifmblock
               else h.v * h.ifmblock;
    Nhwc(filter, Gemm(h.ifmblock, h.ofw, h.ofmblock, Some(lda), Some(ldb), Some(ldc), None))
  }

  /* ----------------------------------------------------------------------
   * Entry points
   * -------------------------------------------------------------------- */

  /** The f32 specialisation: succeeds whenever AVX-512 is available,
    * through the batch-reduce template or the fallback loops. */
  function BwdF32(h: Handle, avx512: bool): (o: Outcome)
    ensures o.status == Success <==> avx512
    ensures !avx512 ==> o == Outcome(ErrUnsupportedArch, NoKernel)
    ensures avx512 ==> (o.plan.Fallback? <==> h.useFallbackBwdLoops != 0)
    ensures o.plan.BatchReduce? ==> o.plan.elem == Float
    ensures avx512 && h.useFallbackBwdLoops == 0 ==> o.plan == BatchReduceKernels(h, Float)
    ensures avx512 && h.useFallbackBwdLoops != 0 ==> o.plan == FallbackKernel(h)
  {
    if !avx512 then Outcome(ErrUnsupportedArch, NoKernel)
    else if h.useFallbackBwdLoops == 0 then Outcome(Success, BatchReduceKernels(h, Float))
    else Outcome(Success, FallbackKernel(h))
  }

  /** The bf16 specialisation: there are no bf16 fallback loops. */
  function BwdBf16(h: Handle, avx512: bool): (o: Outcome)
    ensures o.status == Success <==> avx512 && h.useFallbackBwdLoops == 0
    ensures !avx512 ==> o.status == ErrUnsupportedArch
    ensures avx512 && h.useFallbackBwdLoops != 0 ==> o == Outcome(ErrUnsupportedDatatype, NoKernel)
    ensures o.status == Success ==> o.plan == BatchReduceKernels(h, BFloat16)
  {
    if !avx512 then Outcome(ErrUnsupportedArch, NoKernel)
    else if h.useFallbackBwdLoops == 0 then Outcome(Success, BatchReduceKernels(h, BFloat16))
    else Outcome(ErrUnsupportedDatatype, NoKernel)
  }

  /** Backward convolution for the custom/custom layout. */
  function BwdCustomCustom(h: Handle, avx512: bool): (o: Outcome)
    ensures o.status == ErrDataNotBound <==> !AllBound(h)
    ensures AllBound(h) && !BothF32(h) && !BothBF16(h) ==> o == Outcome(ErrUnsupportedDatatype, NoKernel)
    ensures AllBound(h) && h.useBwdGeneric != 0 ==>
              (o.status == Success <==> BothF32(h) || (BothBF16(h) && h.useFallbackBwdLoops == 0))
    ensures AllBound(h) && h.useBwdGeneric != 0 && BothF32(h) ==>
              o.plan == if h.useFallbackBwdLoops == 0 then BatchReduceKernels(h, Float) else FallbackKernel(h)
    ensures AllBound(h) && h.useBwdGeneric != 0 && BothBF16(h) && h.useFallbackBwdLoops == 0 ==>
              o.plan == BatchReduceKernels(h, BFloat16)
    ensures AllBound(h) && h.useBwdGeneric == 0 && BothF32(h) ==> o == BwdF32(h, avx512)
    ensures AllBound(h) && h.useBwdGeneric == 0 && BothBF16(h) ==> o == BwdBf16(h, avx512)
    ensures o.status != Success ==> o.plan == NoKernel
  {
    if !AllBound(h) then Outcome(ErrDataNotBound, NoKernel)
    else if h.useBwdGeneric != 0 then
      if BothF32(h) then
        if h.useFallbackBwdLoops == 0 then Outcome(Success, BatchReduceKernels(h, Float))
        else Outcome(Success, FallbackKernel(h))
      else if BothBF16(h) then
        if h.useFallbackBwdLoops == 0 then Outcome(Success, BatchReduceKernels(h, BFloat16))
        else Outcome(ErrUnsupportedDatatype, NoKernel)
      else Outcome(ErrUnsupportedDatatype, NoKernel)
    else if BothF32(h) then BwdF32(h, avx512)
    else if BothBF16(h) then BwdBf16(h, avx512)
    else Outcome(ErrUnsupportedDatatype, NoKernel)
  }

  /** Backward convolution for NHWC activations with an RSCK or custom
    * filter; only f32 is supported, and without a generic kernel the call
    * does nothing and succeeds. */
  function BwdNhwc(h: Handle, filter: NhwcFilter): (o: Outcome)
    ensures o.status == ErrDataNotBound <==> !AllBound(h)
    ensures AllBound(h) && h.useBwdGeneric != 0 ==>
              (o.status == Success <==> BothF32(h)) &&
              (o.status != Success ==> o.status == ErrUnsupportedDatatype)
    ensures AllBound(h) && h.useBwdGeneric == 0 ==> o == Outcome(Success, NoKernel)
    ensures AllBound(h) && h.useBwdGeneric != 0 && BothF32(h) ==> o.plan == NhwcKernel(h, filter)
    ensures o.plan.Nhwc? ==> o.plan.filter == filter
  {
    if !AllBound(h) then Outcome(ErrDataNotBound, NoKernel)
    else if h.useBwdGeneric != 0 then
      if BothF32(h) then Outcome(Success, NhwcKernel(h, filter))
      else Outcome(ErrUnsupportedDatatype, NoKernel)
    else Outcome(Success, NoKernel)
  }

  /* ----------------------------------------------------------------------
   * Properties
   * -------------------------------------------------------------------- */

  /** A missing tensor is reported before anything else is looked at: the
    * status then depends on nothing but the bindings. */
  lemma DataNotBoundFirst(h: Handle, h': Handle, avx512: bool, avx512': bool, filter: NhwcFilter)
    requires !AllBound(h) && !AllBound(h')
    ensures BwdCustomCustom(h, avx512) == BwdCustomCustom(h', avx512')
    ensures BwdNhwc(h, filter) == BwdNhwc(h', Rsck) == BwdNhwc(h', Custom)
  {
  }

  /** With AVX-512 available, the specialisations the non-generic path calls
    * make the same decision and request the same kernels as the generic
    * path. Without it, a supported datatype pair is rejected as an
    * unsupported architecture. */
  lemma GenericAndSpecialisedAgree(h: Handle, avx512: bool)
    requires h.useBwdGeneric != 0
    ensures avx512 ==> BwdCustomCustom(h.(useBwdGeneric := 0), avx512) == BwdCustomCustom(h, avx512)
    ensures !avx512 && AllBound(h) && (BothF32(h) || BothBF16(h)) ==>
              BwdCustomCustom(h.(useBwdGeneric := 0), avx512).status == ErrUnsupportedArch
  {
  }

  /** The two NHWC entry points differ only in the filter layout they
    * hand to the template. */
  lemma NhwcVariantsAgree(h: Handle)
    ensures BwdNhwc(h, Rsck).status == BwdNhwc(h, Custom).status
    ensures BwdNhwc(h, Rsck).plan.Nhwc? <==> BwdNhwc(h, Custom).plan.Nhwc?
    ensures BwdNhwc(h, Rsck).plan.Nhwc? ==>
              BwdNhwc(h, Rsck).plan.kernel == BwdNhwc(h, Custom).plan.kernel
  {
  }

  /** Leading dimensions a column-major GEMM accepts: each at least the
    * number of rows of its matrix. */
  predicate LegalLeadingDims(g: Gemm)
  {
    (g.lda.Some? ==> g.lda.value >= g.m)
    && (g.ldb.Some? ==> g.ldb.value >= g.k)
    && (g.ldc.Some? ==> g.ldc.value >= g.m)
  }

  predicate PositiveSizes(h: Handle)
  {
    h.ifmblock > 0 && h.ofmblock > 0 && h.v > 0 && h.blocksifm > 0 && h.blocksofm > 0
  }

  /** Every kernel a successful call requests has legal leading dimensions. */
  lemma KernelsLegal(h: Handle, avx512: bool, filter: NhwcFilter)
    requires PositiveSizes(h)
    ensures var p := BwdCustomCustom(h, avx512).plan;
      (p.BatchReduce? ==> LegalLeadingDims(p.kernel) && LegalLeadingDims(p.kernel2))
      && (p.Fallback? ==> LegalLeadingDims(p.kernel))
    ensures var p := BwdNhwc(h, filter).plan;
      p.Nhwc? ==> LegalLeadingDims(p.kernel)
  {
    MulAtLeast(h.v, h.ifmblock);
    MulAtLeast(h.ifmblock, h.v);
    MulAtLeast(h.blocksofm, h.ofmblock);
    MulAtLeast(h.v * h.blocksifm, h.ifmblock);
    MulAtLeast(h.v, h.blocksifm);
  }

  lemma MulAtLeast(a: int, b: int)
    requires a >= 1 && b >= 1
    ensures a * b >= b
  {
    assert a * b == (a - 1) * b + b;
  }
}
