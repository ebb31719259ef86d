/*
 * Matrix-copy and out-of-place transpose front end (libxsmm_matcopy_omp,
 * libxsmm_otrans_omp and their Fortran 77 wrappers).
 *
 * The front end validates the call, decides between doing nothing, a copy,
 * a zero-fill or a transpose, computes the tile shape (tm, tn) and decides
 * whether the work is split over threads.  The kernels themselves (JIT or
 * not) and the threads are not part of this model: an outcome only names
 * the kernel and the schedule chosen.
 */
module XCopy {

  import opened Wrappers

  /** A pointer argument; 0 stands for NULL. */
  type Ptr = nat
  const NULL: Ptr := 0

  /** 2^32: unsigned int arithmetic wraps modulo this. */
  const U32_MODULUS: nat := 0x1_0000_0000

  function Wrap32(x: nat): (r: nat)
    ensures r < U32_MODULUS
    ensures x < U32_MODULUS ==> r == x
  {
    x % U32_MODULUS
  }

  /** The arguments of one call; m, n, ldi, ldo are signed (libxsmm_blasint). */
  datatype Call = Call(outp: Ptr, inp: Ptr, typesize: nat, m: int, n: int, ldi: int, ldo: int)

  /**
   * The library's tuning state read by the front end: the byte budget of a
   * tile and the already-scaled tile width (the float product
   * nscale * tm is taken as given), the TILE_MIN constant of the header and
   * whether the library was built with OpenMP.
   */
  datatype Tuning = Tuning(mbytes: nat, tnScaled: nat, tileMin: nat, openmp: bool)

  datatype Kernel = CopyKernel | ZeroKernel | TransposeKernel

  datatype Schedule = Sequential | Parallel(tm: nat, tn: nat)

  /** What one call does. */
  datatype Outcome =
    | Rejected                            // validation failed: nothing is written
    | NoOp                                // valid 0 x 0 call: nothing is written
    | Run(kernel: Kernel, schedule: Schedule)
    | InPlaceTranspose                    // otrans with out == in and ldi == ldo
    | AliasRejected                       // otrans with out == in and ldi != ldo

  /** The diagnostics, in the order in which they are tried. */
  datatype Diagnostic = NullPointer | SameBuffer | BadTypesize | LeadingDimTooSmall | NegativeExtent

  // ---------------------------------------------------------------------
  // Validation
  // ---------------------------------------------------------------------

  predicate TypesizeOk(typesize: nat) {
    0 < typesize < 256
  }

  /** The condition under which libxsmm_matcopy_omp proceeds. */
  predicate MatcopyValid(c: Call): (b: bool)
    ensures b ==> TypesizeOk(c.typesize) && c.outp != c.inp
    ensures b && (c.m != 0 || c.n != 0) ==> c.outp != NULL && 0 < c.m && 0 < c.n
  {
    TypesizeOk(c.typesize) && c.m <= c.ldi && c.m <= c.ldo && c.outp != c.inp &&
    ((c.outp != NULL && 0 < c.m && 0 < c.n) || (c.m == 0 && c.n == 0))
  }

  /** The condition under which libxsmm_otrans_omp proceeds. */
  predicate OtransValid(c: Call): (b: bool)
    ensures b ==> TypesizeOk(c.typesize)
    ensures b && (c.m != 0 || c.n != 0) ==> c.outp != NULL && c.inp != NULL && 0 < c.m && 0 < c.n
  {
    TypesizeOk(c.typesize) && c.m <= c.ldi && c.n <= c.ldo &&
    ((c.outp != NULL && c.inp != NULL && 0 < c.m && 0 < c.n) || (c.m == 0 && c.n == 0))
  }

  /** A valid matcopy call either has no extent at all or a full, positive one. */
  lemma MatcopyValidShape(c: Call)
    requires MatcopyValid(c)
    ensures c.m >= 0 && c.n >= 0 && (c.m == 0 <==> c.n == 0)
    ensures c.m > 0 ==> c.outp != NULL && c.m <= c.ldi && c.m <= c.ldo
  {
  }

  // ---------------------------------------------------------------------
  // Diagnostics on rejection
  // ---------------------------------------------------------------------

  /** The message libxsmm_matcopy_omp prints for a rejected call (if any). */
  function MatcopyDiagnostic(c: Call): (d: Option<Diagnostic>)
    ensures d == Some(NullPointer) ==> c.outp == NULL
    ensures d == Some(SameBuffer) ==> c.outp != NULL && c.outp == c.inp
    ensures d == Some(BadTypesize) ==> c.outp != NULL && c.outp != c.inp && !TypesizeOk(c.typesize)
    ensures d == Some(LeadingDimTooSmall) ==>
              c.outp != NULL && c.outp != c.inp && TypesizeOk(c.typesize) && (c.ldi < c.m || c.ldo < c.m)
    ensures d == Some(NegativeExtent) ==>
              c.outp != NULL && c.outp != c.inp && TypesizeOk(c.typesize) && c.m <= c.ldi && c.m <= c.ldo &&
              (c.m < 0 || c.n < 0)
  {
    if c.outp == NULL then Some(NullPointer)
    else if c.outp == c.inp then Some(SameBuffer)
    else if !TypesizeOk(c.typesize) then Some(BadTypesize)
    else if c.ldi < c.m || c.ldo < c.m then Some(LeadingDimTooSmall)
    else if c.m < 0 || c.n < 0 then Some(NegativeExtent)
    else None
  }

  /** The message libxsmm_otrans_omp prints for a rejected call (if any). */
  function OtransDiagnostic(c: Call): (d: Option<Diagnostic>)
    ensures d == Some(NullPointer) ==> c.outp == NULL || c.inp == NULL
    ensures d == Some(SameBuffer) ==> c.outp != NULL && c.inp != NULL && c.outp == c.inp
    ensures d == Some(BadTypesize) ==> c.outp != NULL && c.inp != NULL && c.outp != c.inp && !TypesizeOk(c.typesize)
    ensures d == Some(LeadingDimTooSmall) ==>
              c.outp != NULL && c.inp != NULL && c.outp != c.inp && TypesizeOk(c.typesize) &&
              (c.ldi < c.m || c.ldo < c.n)
    ensures d == Some(NegativeExtent) ==>
              c.outp != NULL && c.inp != NULL && c.outp != c.inp && TypesizeOk(c.typesize) &&
              c.m <= c.ldi && c.n <= c.ldo && (c.m < 0 || c.n < 0)
  {
    if c.outp == NULL || c.inp == NULL then Some(NullPointer)
    else if c.outp == c.inp then Some(SameBuffer)
    else if !TypesizeOk(c.typesize) then Some(BadTypesize)
    else if c.ldi < c.m || c.ldo < c.n then Some(LeadingDimTooSmall)
    else if c.m < 0 || c.n < 0 then Some(NegativeExtent)
    else None
  }

  /**
   * A rejected matcopy call goes without a message exactly when every
   * individual check passes and only one of the two extents is zero.
   */
  lemma MatcopySilentRejection(c: Call)
    requires !MatcopyValid(c)
    ensures MatcopyDiagnostic(c) == None <==>
              c.outp != NULL && c.outp != c.inp && TypesizeOk(c.typesize) &&
              c.m <= c.ldi && c.m <= c.ldo && c.m >= 0 && c.n >= 0 && ((c.m == 0) != (c.n == 0))
  {
  }

  /** The same for otrans (with the otrans leading-dimension rule n <= ldo). */
  lemma OtransSilentRejection(c: Call)
    requires !OtransValid(c)
    ensures OtransDiagnostic(c) == None <==>
              c.outp != NULL && c.inp != NULL && c.outp != c.inp && TypesizeOk(c.typesize) &&
              c.m <= c.ldi && c.n <= c.ldo && c.m >= 0 && c.n >= 0 && ((c.m == 0) != (c.n == 0))
  {
  }

  /**
   * otrans does not reject out == in, yet its rejection message tests
   * out == in before the type size: a call rejected only for its type size
   * is reported as an aliasing error when out == in.
   */
  lemma OtransMessageNamesAliasForTypesize()
    ensures var c := Call(8, 8, 0, 2, 2, 2, 2);
            !OtransValid(c) && TypesizeOk(c.typesize) == false && OtransDiagnostic(c) == Some(SameBuffer)
  {
  }

  // ---------------------------------------------------------------------
  // Tile shape and the multi-threading decision
  // ---------------------------------------------------------------------

  /** LIBXSMM_UPDIV: the rounded-up quotient. */
  function UpDiv(x: nat, d: nat): (q: nat)
    requires d > 0
    ensures q * d >= x
    ensures q == 0 || (q - 1) * d < x
  {
    (x + (d - 1)) / d
  }

  /**
   * The tile shape: tm = ceil(mbytes / typesize), replaced by m when zero;
   * tn = the scaled width, replaced by min(TILE_MIN, n) when zero; and when
   * a tile would exceed the byte budget, tm is lowered to what fits, but not
   * below TILE_MIN.
   */
  function Tiles(mbytes: nat, tnScaled: nat, tileMin: nat, typesize: nat, m: nat, n: nat): (t: (nat, nat))
    requires 0 < typesize && 0 < tileMin && 0 < m && 0 < n
    ensures 0 < t.0 && 0 < t.1
    ensures t.1 == if tnScaled != 0 then tnScaled else if tileMin < n then tileMin else n
    ensures mbytes != 0 ==> t.0 * t.1 * typesize <= mbytes || t.0 == tileMin
    ensures mbytes == 0 ==> t.0 == m
    ensures mbytes != 0 && UpDiv(mbytes, typesize) * t.1 * typesize <= mbytes ==> t.0 == UpDiv(mbytes, typesize)
  {
    var tm0 := UpDiv(mbytes, typesize);
    var tm1 := if tm0 == 0 then m else tm0;
    var tn := if tnScaled != 0 then tnScaled else if tileMin < n then tileMin else n;
    UpDivZero(mbytes, typesize);
    if mbytes != 0 && mbytes < tm1 * tn * typesize then
      var q := mbytes / (tn * typesize);
      DivFits(mbytes, q, tn, typesize);
      (if q < tileMin then tileMin else q, tn)
    else
      (tm1, tn)
  }

  lemma UpDivZero(x: nat, d: nat)
    requires d > 0
    ensures UpDiv(x, d) == 0 <==> x == 0
  {
    if x == 0 {
      assert (d - 1) / d == 0;
    }
  }

  /** The lowered tm fits: (mbytes / (tn * typesize)) * tn * typesize <= mbytes. */
  lemma DivFits(x: nat, q: nat, tn: nat, typesize: nat)
    requires tn > 0 && typesize > 0 && q == x / (tn * typesize)
    ensures q * tn * typesize <= x
  {
    assert q * tn * typesize == q * (tn * typesize);
  }

  /** LIBXSMM_MCOPY_MT: the product m * n is taken in 32-bit unsigned arithmetic. */
  predicate McopyMt(tm: nat, tn: nat, m: nat, n: nat): (b: bool)
    ensures b ==> tm <= m && tn <= n && 0 < m && 0 < n
  {
    tm <= m && tn <= n && 64 * 64 <= Wrap32(m * n)
  }

  /** Below 2^32 elements the threshold reads as intended. */
  lemma McopyMtThreshold(tm: nat, tn: nat, m: nat, n: nat)
    requires m * n < U32_MODULUS
    ensures McopyMt(tm, tn, m, n) <==> tm <= m && tn <= n && 4096 <= m * n
  {
  }

  /** With 65536 x 65536 elements the product wraps to 0 and the matrix counts as small. */
  lemma McopyMtWraps()
    ensures !McopyMt(1, 1, 65536, 65536)
  {
    assert 65536 * 65536 == U32_MODULUS;
  }

  // ---------------------------------------------------------------------
  // What a call does
  // ---------------------------------------------------------------------

  /** The decision libxsmm_matcopy_omp takes (without the diagnostic side effect). */
  function Matcopy(copyTuning: Tuning, zeroTuning: Tuning, c: Call): (o: Outcome)
    requires 0 < copyTuning.tileMin && 0 < zeroTuning.tileMin
    ensures o == Rejected <==> !MatcopyValid(c)
    ensures o == NoOp <==> MatcopyValid(c) && c.m == 0 && c.n == 0
    ensures o.Run? ==> o.kernel == (if c.inp != NULL then CopyKernel else ZeroKernel)
    ensures o.Run? && o.schedule.Parallel? ==>
              0 < o.schedule.tm <= c.m && 0 < o.schedule.tn <= c.n && 64 * 64 <= Wrap32(c.m * c.n)
    ensures o != InPlaceTranspose && o != AliasRejected
  {
    if !MatcopyValid(c) then Rejected
    else if c.m == 0 || c.n == 0 then NoOp
    else
      var kernel := if c.inp != NULL then CopyKernel else ZeroKernel;
      var tuning := if c.inp != NULL then copyTuning else zeroTuning;
      if !tuning.openmp then Run(kernel, Sequential)
      else
        var t := Tiles(tuning.mbytes, tuning.tnScaled, tuning.tileMin, c.typesize, c.m, c.n);
        if McopyMt(t.0, t.1, c.m, c.n) then Run(kernel, Parallel(t.0, t.1)) else Run(kernel, Sequential)
  }

  /** The decision libxsmm_otrans_omp takes (without the diagnostic side effect). */
  function Otrans(tuning: Tuning, c: Call): (o: Outcome)
    requires 0 < tuning.tileMin
    ensures o == Rejected <==> !OtransValid(c)
    ensures o == NoOp <==> OtransValid(c) && c.m == 0 && c.n == 0
    ensures o == InPlaceTranspose <==> OtransValid(c) && 0 < c.m && c.outp == c.inp && c.ldi == c.ldo
    ensures o == AliasRejected <==> OtransValid(c) && 0 < c.m && c.outp == c.inp && c.ldi != c.ldo
    ensures o.Run? ==> o.kernel == TransposeKernel && c.outp != c.inp
    ensures o.Run? && o.schedule.Parallel? ==> 0 < o.schedule.tm <= c.m && 0 < o.schedule.tn <= c.n
  {
    if !OtransValid(c) then Rejected
    else if c.m == 0 || c.n == 0 then NoOp
    else if c.outp == c.inp then
      if c.ldi == c.ldo then InPlaceTranspose else AliasRejected
    else if !tuning.openmp then Run(TransposeKernel, Sequential)
    else
      var t := Tiles(tuning.mbytes, tuning.tnScaled, tuning.tileMin, c.typesize, c.m, c.n);
      if t.0 <= c.m && t.1 <= c.n then Run(TransposeKernel, Parallel(t.0, t.1))
      else Run(TransposeKernel, Sequential)
  }

  /**
   * Unlike matcopy, otrans has no size threshold: a small transpose whose
   * default tile fits is split over threads, while the same-shaped copy is not.
   */
  lemma OtransHasNoSizeThreshold()
    ensures var t := Tuning(0, 0, 1, true);
            var c := Call(16, 32, 4, 2, 2, 2, 2);
            Otrans(t, c) == Run(TransposeKernel, Parallel(2, 1)) &&
            Matcopy(t, t, c) == Run(CopyKernel, Sequential)
  {
  }

  // ---------------------------------------------------------------------
  // Fortran 77 wrappers
  // ---------------------------------------------------------------------

  /**
   * The arguments the Fortran wrappers forward: a missing n defaults to m,
   * a missing ldi to m, and a missing ldo to the effective ldi.
   */
  function FortranCall(outp: Ptr, inp: Ptr, typesize: int, m: int,
                       n: Option<int>, ldi: Option<int>, ldo: Option<int>): (c: Call)
    requires 0 < typesize
    ensures c.typesize == typesize && c.m == m
    ensures c.n == n.GetOr(m) && c.ldi == ldi.GetOr(m) && c.ldo == ldo.GetOr(c.ldi)
  {
    var ldx := if ldi.Some? then ldi.value else m;
    Call(outp, inp, typesize, m, if n.Some? then n.value else m, ldx, if ldo.Some? then ldo.value else ldx)
  }

  /**
   * With every optional argument omitted, the leading-dimension checks of
   * both routines pass, so only the pointers, the type size and the sign of
   * m decide.
   */
  lemma FortranDefaultsPassLeadingDims(outp: Ptr, inp: Ptr, typesize: int, m: int)
    requires 0 < typesize
    ensures var c := FortranCall(outp, inp, typesize, m, None, None, None);
            (MatcopyValid(c) <==> typesize < 256 && outp != inp && ((outp != NULL && 0 < m) || m == 0)) &&
            (OtransValid(c) <==> typesize < 256 && ((outp != NULL && inp != NULL && 0 < m) || m == 0))
  {
  }

  // ---------------------------------------------------------------------
  // The one-shot diagnostics (the static error_once counters)
  // ---------------------------------------------------------------------

  /**
   * The process-wide state the two routines touch besides their buffers:
   * the verbosity and each routine's static error_once counter.  A counter
   * is incremented on every failing call while verbosity is on, and a
   * message is printed only by the increment that makes it 1.
   */
  class XCopyDiagnostics {
    const verbosity: int
    var matcopyErrorOnce: nat
    var otransErrorOnce: nat

    constructor (verbosity: int)
      ensures this.verbosity == verbosity && matcopyErrorOnce == 0 && otransErrorOnce == 0
    {
      this.verbosity := verbosity;
      matcopyErrorOnce, otransErrorOnce := 0, 0;
    }

    method MatcopyOmp(copyTuning: Tuning, zeroTuning: Tuning, c: Call) returns (o: Outcome, message: Option<Diagnostic>)
      requires 0 < copyTuning.tileMin && 0 < zeroTuning.tileMin
      modifies this`matcopyErrorOnce
      ensures o == Matcopy(copyTuning, zeroTuning, c)
      ensures matcopyErrorOnce == old(matcopyErrorOnce) + (if o == Rejected && verbosity != 0 then 1 else 0)
      ensures message == if o == Rejected && verbosity != 0 && old(matcopyErrorOnce) == 0
                         then MatcopyDiagnostic(c) else None
    {
      o := Matcopy(copyTuning, zeroTuning, c);
      message := None;
      if o == Rejected && verbosity != 0 {
        matcopyErrorOnce := matcopyErrorOnce + 1;
        if matcopyErrorOnce == 1 {
          message := MatcopyDiagnostic(c);
        }
      }
    }

    method OtransOmp(tuning: Tuning, c: Call) returns (o: Outcome, message: Option<Diagnostic>)
      requires 0 < tuning.tileMin
      modifies this`otransErrorOnce
      ensures o == Otrans(tuning, c)
      ensures otransErrorOnce == old(otransErrorOnce) +
                (if (o == Rejected || o == AliasRejected) && verbosity != 0 then 1 else 0)
      ensures message == if (o == Rejected || o == AliasRejected) && verbosity != 0 && old(otransErrorOnce) == 0
                         then (if o == Rejected then OtransDiagnostic(c) else Some(SameBuffer)) else None
    {
      o := Otrans(tuning, c);
      message := None;
      if (o == Rejected || o == AliasRejected) && verbosity != 0 {
        otransErrorOnce := otransErrorOnce + 1;
        if otransErrorOnce == 1 {
          message := if o == Rejected then OtransDiagnostic(c) else Some(SameBuffer);
        }
      }
    }

    /** The Fortran entry point of matcopy: defaults, then the C routine. */
    method FortranMatcopyOmp(copyTuning: Tuning, zeroTuning: Tuning, outp: Ptr, inp: Ptr, typesize: int, m: int,
                             n: Option<int>, ldi: Option<int>, ldo: Option<int>)
      returns (o: Outcome, message: Option<Diagnostic>)
      requires 0 < typesize
      requires 0 < copyTuning.tileMin && 0 < zeroTuning.tileMin
      modifies this`matcopyErrorOnce
      ensures o == Matcopy(copyTuning, zeroTuning, FortranCall(outp, inp, typesize, m, n, ldi, ldo))
      ensures matcopyErrorOnce == old(matcopyErrorOnce) + (if o == Rejected && verbosity != 0 then 1 else 0)
      ensures message == if o == Rejected && verbosity != 0 && old(matcopyErrorOnce) == 0
                         then MatcopyDiagnostic(FortranCall(outp, inp, typesize, m, n, ldi, ldo)) else None
    {
      o, message := MatcopyOmp(copyTuning, zeroTuning, FortranCall(outp, inp, typesize, m, n, ldi, ldo));
    }

    /** The Fortran entry point of otrans: defaults, then the C routine. */
    method FortranOtransOmp(tuning: Tuning, outp: Ptr, inp: Ptr, typesize: int, m: int,
                            n: Option<int>, ldi: Option<int>, ldo: Option<int>)
      returns (o: Outcome, message: Option<Diagnostic>)
      requires 0 < typesize && 0 < tuning.tileMin
      modifies this`otransErrorOnce
      ensures o == Otrans(tuning, FortranCall(outp, inp, typesize, m, n, ldi, ldo))
      ensures otransErrorOnce == old(otransErrorOnce) +
                (if (o == Rejected || o == AliasRejected) && verbosity != 0 then 1 else 0)
      ensures message == if (o == Rejected || o == AliasRejected) && verbosity != 0 && old(otransErrorOnce) == 0
                         then (if o == Rejected then OtransDiagnostic(FortranCall(outp, inp, typesize, m, n, ldi, ldo))
                               else Some(SameBuffer))
                         else None
    {
      o, message := OtransOmp(tuning, FortranCall(outp, inp, typesize, m, n, ldi, ldo));
    }
  }

  /**
   * A silent rejection still uses up the one-shot counter: after a rejected
   * 1 x 0 copy, a NULL output is no longer reported.
   */
  method SilentRejectionConsumesMessage() returns (first: Option<Diagnostic>, second: Option<Diagnostic>)
    ensures first == None && second == None
  {
    var t := Tuning(0, 0, 1, false);
    var d := new XCopyDiagnostics(1);
    var o;
    o, first := d.MatcopyOmp(t, t, Call(16, 32, 4, 1, 0, 1, 1));
    o, second := d.MatcopyOmp(t, t, Call(NULL, 32, 4, 1, 1, 1, 1));
  }
}
