// Constants and label trackers shared by the x86 code generators:
// general-purpose register numbers, the "undefined" sentinels, the error
// codes, and the loop and jump label trackers.
//
// The tracker structures are fixed 512-entry arrays with a count. Only
// their layout and their reset functions are declared here; the
// operations on them follow the generator's design: loop labels form a
// stack that is popped in strict nesting order, a jump label collects the
// sites that jump to it until it is defined, and misuse is reported with
// the EXCEED_JMPLBL, NO_JMPLBL_AVAIL and JMPLBL_USED codes.

module GeneratorCommon {
  import opened Wrappers

  /* ----------------------------------------------------------------------
   * Registers and sentinels
   * -------------------------------------------------------------------- */

  datatype GpReg = RAX | RCX | RDX | RBX | RSP | RBP | RSI | RDI
                 | R8 | R9 | R10 | R11 | R12 | R13 | R14 | R15

  const GpRegUndef: nat := 127
  /** As the third operand of a vector instruction, selects the SSE form. */
  const VecRegUndef: nat := 255
  const MaskRegUndef: nat := 255
  /** Mask register k1. */
  const Avx512Mask: nat := 1
  const ImmUndef: nat := 1024
  const InstrUndef: nat := 9999
  /** VMOVAPD, the lowest instruction number. */
  const FirstInstr: nat := 10000

  /** The number that names a general-purpose register in the encoder. */
  function GpRegNumber(r: GpReg): (n: nat)
    ensures n < 16
  {
    match r
    case RAX => 0  case RCX => 1  case RDX => 2  case RBX => 3
    case RSP => 4  case RBP => 5  case RSI => 6  case RDI => 7
    case R8 => 8   case R9 => 9   case R10 => 10 case R11 => 11
    case R12 => 12 case R13 => 13 case R14 => 14 case R15 => 15
  }

  /** The register a number names, if any. */
  function GpRegOf(n: int): (r: Option<GpReg>)
    ensures r.Some? <==> 0 <= n < 16
    ensures r.Some? ==> GpRegNumber(r.value) == n
  {
    match n
    case 0 => Some(RAX)  case 1 => Some(RCX)  case 2 => Some(RDX)  case 3 => Some(RBX)
    case 4 => Some(RSP)  case 5 => Some(RBP)  case 6 => Some(RSI)  case 7 => Some(RDI)
    case 8 => Some(R8)   case 9 => Some(R9)   case 10 => Some(R10) case 11 => Some(R11)
    case 12 => Some(R12) case 13 => Some(R13) case 14 => Some(R14) case 15 => Some(R15)
    case _ => None
  }

  /** Register numbers are distinct, lie in 0..15, and no register number
    * is one of the "undefined" sentinels. */
  lemma GpRegNumbering(a: GpReg, b: GpReg)
    ensures GpRegOf(GpRegNumber(a)) == Some(a)
    ensures GpRegNumber(a) == GpRegNumber(b) ==> a == b
    ensures GpRegOf(GpRegUndef) == None
    ensures GpRegNumber(a) != GpRegUndef && GpRegNumber(a) != VecRegUndef
    ensures InstrUndef < FirstInstr
  {
  }

  /* ----------------------------------------------------------------------
   * Error codes
   * -------------------------------------------------------------------- */

  /** Error kinds of the code generator, one per LIBXSMM_ERR_* code. */
  datatype ErrorKind =
    | ErrGeneral
    | ErrAlloc
    | ErrBufferTooSmall
    | ErrAppendStr
    | ErrArchPrec
    | ErrArch
    | ErrUnsupArch
    | ErrLda
    | ErrLdb
    | ErrLdc
    | ErrSpgemmGen
    | ErrCscInput
    | ErrCscReadLen
    | ErrCscReadDesc
    | ErrCscReadElems
    | ErrCscLen
    | ErrNBlock
    | ErrMBlock
    | ErrKBlock
    | ErrRegBlock
    | ErrNoAvx512Bcast
    | ErrNoAvx512Qfma
    | ErrNoIndexScaleAddr
    | ErrUnsupportedJump
    | ErrNoJmplblAvail
    | ErrExceedJmplbl
    | ErrCscAllocData
    | ErrCsrAllocData
    | ErrCsrInput
    | ErrCsrReadLen
    | ErrCsrReadDesc
    | ErrCsrReadElems
    | ErrCsrLen
    | ErrUnsupDatatype
    | ErrUnsupDtFormat
    | ErrInvalidGemmConfig
    | ErrUniqueVal
    | ErrVecRegMustBeUndef
    | ErrJmplblUsed
    | ErrTransB
    | ErrLdbTrans
    | ErrVnniA
    | ErrVnniB
    | ErrNoAvx512vl

  const FirstErrorCode: nat := 90000
  const LastErrorCode: nat := 90043

  /** The numeric code an error is reported with. */
  function Code(e: ErrorKind): (c: nat)
    ensures FirstErrorCode <= c <= LastErrorCode
  {
    match e
    case ErrGeneral => 90000
    case ErrAlloc => 90001
    case ErrBufferTooSmall => 90002
    case ErrAppendStr => 90003
    case ErrArchPrec => 90004
    case ErrArch => 90005
    case ErrUnsupArch => 90006
    case ErrLda => 90007
    case ErrLdb => 90008
    case ErrLdc => 90009
    case ErrSpgemmGen => 90010
    case ErrCscInput => 90011
    case ErrCscReadLen => 90012
    case ErrCscReadDesc => 90013
    case ErrCscReadElems => 90014
    case ErrCscLen => 90015
    case ErrNBlock => 90016
    case ErrMBlock => 90017
    case ErrKBlock => 90018
    case ErrRegBlock => 90019
    case ErrNoAvx512Bcast => 90020
    case ErrNoAvx512Qfma => 90021
    case ErrNoIndexScaleAddr => 90022
    case ErrUnsupportedJump => 90023
    case ErrNoJmplblAvail => 90024
    case ErrExceedJmplbl => 90025
    case ErrCscAllocData => 90026
    case ErrCsrAllocData => 90027
    case ErrCsrInput => 90028
    case ErrCsrReadLen => 90029
    case ErrCsrReadDesc => 90030
    case ErrCsrReadElems => 90031
    case ErrCsrLen => 90032
    case ErrUnsupDatatype => 90033
    case ErrUnsupDtFormat => 90034
    case ErrInvalidGemmConfig => 90035
    case ErrUniqueVal => 90036
    case ErrVecRegMustBeUndef => 90037
    case ErrJmplblUsed => 90038
    case ErrTransB => 90039
    case ErrLdbTrans => 90040
    case ErrVnniA => 90041
    case ErrVnniB => 90042
    case ErrNoAvx512vl => 90043
  }

  /** The error a code stands for; codes outside the range stand for none. */
  function ErrorOf(c: int): (r: Option<ErrorKind>)
    ensures r.Some? <==> FirstErrorCode <= c <= LastErrorCode
    ensures r.Some? ==> Code(r.value) == c
  {
    if c < 90006 then ErrorOfRange0(c)
    else if c < 90012 then ErrorOfRange1(c)
    else if c < 90018 then ErrorOfRange2(c)
    else if c < 90024 then ErrorOfRange3(c)
    else if c < 90029 then ErrorOfRange4(c)
    else if c < 90034 then ErrorOfRange5(c)
    else if c < 90039 then ErrorOfRange6(c)
    else ErrorOfRange7(c)
  }

  function ErrorOfRange0(c: int): (r: Option<ErrorKind>)
    ensures r.Some? <==> 90000 <= c <= 90005
    ensures r.Some? ==> Code(r.value) == c
  {
    match c
    case 90000 => Some(ErrGeneral)
    case 90001 => Some(ErrAlloc)
    case 90002 => Some(ErrBufferTooSmall)
    case 90003 => Some(ErrAppendStr)
    case 90004 => Some(ErrArchPrec)
    case 90005 => Some(ErrArch)
    case _ => None
  }

  function ErrorOfRange1(c: int): (r: Option<ErrorKind>)
    ensures r.Some? <==> 90006 <= c <= 90011
    ensures r.Some? ==> Code(r.value) == c
  {
    match c
    case 90006 => Some(ErrUnsupArch)
    case 90007 => Some(ErrLda)
    case 90008 => Some(ErrLdb)
    case 90009 => Some(ErrLdc)
    case 90010 => Some(ErrSpgemmGen)
    case 90011 => Some(ErrCscInput)
    case _ => None
  }

  function ErrorOfRange2(c: int): (r: Option<ErrorKind>)
    ensures r.Some? <==> 90012 <= c <= 90017
    ensures r.Some? ==> Code(r.value) == c
  {
    match c
    case 90012 => Some(ErrCscReadLen)
    case 90013 => Some(ErrCscReadDesc)
    case 90014 => Some(ErrCscReadElems)
    case 90015 => Some(ErrCscLen)
    case 90016 => Some(ErrNBlock)
    case 90017 => Some(ErrMBlock)
    case _ => None
  }

  function ErrorOfRange3(c: int): (r: Option<ErrorKind>)
    ensures r.Some? <==> 90018 <= c <= 90023
    ensures r.Some? ==> Code(r.value) == c
  {
    match c
    case 90018 => Some(ErrKBlock)
    case 90019 => Some(ErrRegBlock)
    case 90020 => Some(ErrNoAvx512Bcast)
    case 90021 => Some(ErrNoAvx512Qfma)
    case 90022 => Some(ErrNoIndexScaleAddr)
    case 90023 => Some(ErrUnsupportedJump)
    case _ => None
  }

  function ErrorOfRange4(c: int): (r: Option<ErrorKind>)
    ensures r.Some? <==> 90024 <= c <= 90028
    ensures r.Some? ==> Code(r.value) == c
  {
    match c
    case 90024 => Some(ErrNoJmplblAvail)
    case 90025 => Some(ErrExceedJmplbl)
    case 90026 => Some(ErrCscAllocData)
    case 90027 => Some(ErrCsrAllocData)
    case 90028 => Some(ErrCsrInput)
    case _ => None
  }

  function ErrorOfRange5(c: int): (r: Option<ErrorKind>)
    ensures r.Some? <==> 90029 <= c <= 90033
    ensures r.Some? ==> Code(r.value) == c
  {
    match c
    case 90029 => Some(ErrCsrReadLen)
    case 90030 => Some(ErrCsrReadDesc)
    case 90031 => Some(ErrCsrReadElems)
    case 90032 => Some(ErrCsrLen)
    case 90033 => Some(ErrUnsupDatatype)
    case _ => None
  }

  function ErrorOfRange6(c: int): (r: Option<ErrorKind>)
    ensures r.Some? <==> 90034 <= c <= 90038
    ensures r.Some? ==> Code(r.value) == c
  {
    match c
    case 90034 => Some(ErrUnsupDtFormat)
    case 90035 => Some(ErrInvalidGemmConfig)
    case 90036 => Some(ErrUniqueVal)
    case 90037 => Some(ErrVecRegMustBeUndef)
    case 90038 => Some(ErrJmplblUsed)
    case _ => None
  }

  function ErrorOfRange7(c: int): (r: Option<ErrorKind>)
    ensures r.Some? <==> 90039 <= c <= 90043
    ensures r.Some? ==> Code(r.value) == c
  {
    match c
    case 90039 => Some(ErrTransB)
    case 90040 => Some(ErrLdbTrans)
    case 90041 => Some(ErrVnniA)
    case 90042 => Some(ErrVnniB)
    case 90043 => Some(ErrNoAvx512vl)
    case _ => None
  }

  /** Every kind is read back from its code. */
  lemma CodeRoundTrip(e: ErrorKind)
    ensures ErrorOf(Code(e)) == Some(e)
  {
    match e
    case ErrGeneral =>
    case ErrAlloc =>
    case ErrBufferTooSmall =>
    case ErrAppendStr =>
    case ErrArchPrec =>
    case ErrArch =>
    case ErrUnsupArch =>
    case ErrLda =>
    case ErrLdb =>
    case ErrLdc =>
    case ErrSpgemmGen =>
    case ErrCscInput =>
    case ErrCscReadLen =>
    case ErrCscReadDesc =>
    case ErrCscReadElems =>
    case ErrCscLen =>
    case ErrNBlock =>
    case ErrMBlock =>
    case ErrKBlock =>
    case ErrRegBlock =>
    case ErrNoAvx512Bcast =>
    case ErrNoAvx512Qfma =>
    case ErrNoIndexScaleAddr =>
    case ErrUnsupportedJump =>
    case ErrNoJmplblAvail =>
    case ErrExceedJmplbl =>
    case ErrCscAllocData =>
    case ErrCsrAllocData =>
    case ErrCsrInput =>
    case ErrCsrReadLen =>
    case ErrCsrReadDesc =>
    case ErrCsrReadElems =>
    case ErrCsrLen =>
    case ErrUnsupDatatype =>
    case ErrUnsupDtFormat =>
    case ErrInvalidGemmConfig =>
    case ErrUniqueVal =>
    case ErrVecRegMustBeUndef =>
    case ErrJmplblUsed =>
    case ErrTransB =>
    case ErrLdbTrans =>
    case ErrVnniA =>
    case ErrVnniB =>
    case ErrNoAvx512vl =>
  }

  /** Codes and kinds correspond one to one. */
  lemma CodeInjective(e: ErrorKind, e': ErrorKind)
    ensures Code(e) == Code(e') ==> e == e'
  {
    CodeRoundTrip(e);
    CodeRoundTrip(e');
  }

  /* ----------------------------------------------------------------------
   * Loop label tracker
   * -------------------------------------------------------------------- */

  /** Entries in each tracker array. */
  const TrackerCapacity: nat := 512

  /** Registering the start of a loop: the open labels after the call and
    * the error, if any. A full tracker is left as it was. */
  function PushLoopLabel(open: seq<nat>, address: nat): (r: (seq<nat>, Option<ErrorKind>))
    ensures |open| < TrackerCapacity ==> r == (open + [address], None)
    ensures |open| >= TrackerCapacity ==> r == (open, Some(ErrExceedJmplbl))
  {
    if |open| < TrackerCapacity then (open + [address], None)
    else (open, Some(ErrExceedJmplbl))
  }

  /** Jumping back to the innermost open loop: the open labels after the
    * call and the target address, or the error when no loop is open. */
  function PopLoopLabel(open: seq<nat>): (r: (seq<nat>, Result<nat, ErrorKind>))
    ensures |open| > 0 ==> r == (open[..|open| - 1], Ok(open[|open| - 1]))
    ensures |open| == 0 ==> r == (open, Err(ErrNoJmplblAvail))
  {
    if |open| > 0 then (open[..|open| - 1], Ok(open[|open| - 1]))
    else (open, Err(ErrNoJmplblAvail))
  }

  /** Popping right after a push gives back the pushed label and the
    * labels open before it. */
  lemma PushPop(open: seq<nat>, address: nat)
    requires |open| < TrackerCapacity
    ensures PopLoopLabel(PushLoopLabel(open, address).0) == (open, Ok(address))
  {
    assert (open + [address])[..|open|] == open;
  }

  class LoopLabelTracker {
    var labelAddress: array<nat>
    var labelCount: nat

    ghost predicate Valid()
      reads this
    {
      labelAddress.Length == TrackerCapacity && labelCount <= TrackerCapacity
    }

    /** The open loop labels, outermost first. */
    ghost function Open(): seq<nat>
      requires Valid()
      reads this, labelAddress
    {
      labelAddress[..labelCount]
    }

    constructor ()
      ensures Valid() && Open() == []
    {
      labelAddress := new nat[TrackerCapacity](_ => 0);
      labelCount := 0;
    }

    /** Clears the tracker at the start of a generation call. */
    method Reset()
      requires Valid()
      modifies this, labelAddress
      ensures Valid() && Open() == [] && labelAddress == old(labelAddress)
      ensures forall i :: 0 <= i < labelAddress.Length ==> labelAddress[i] == 0
    {
      var i := 0;
      while i < labelAddress.Length
        invariant labelAddress == old(labelAddress) && Valid()
        invariant 0 <= i <= labelAddress.Length
        invariant forall j :: 0 <= j < i ==> labelAddress[j] == 0
      {
        labelAddress[i] := 0;
        i := i + 1;
      }
      labelCount := 0;
    }

    method RegisterLoopLabel(address: nat) returns (err: Option<ErrorKind>)
      requires Valid()
      modifies this, labelAddress
      ensures Valid() && labelAddress == old(labelAddress)
      ensures (Open(), err) == PushLoopLabel(old(Open()), address)
    {
      if labelCount < TrackerCapacity {
        ghost var before := labelAddress[..labelCount];
        labelAddress[labelCount] := address;
        labelCount := labelCount + 1;
        assert Open() == before + [address];
        err := None;
      } else {
        err := Some(ErrExceedJmplbl);
      }
    }

    method JumpBackToLoopLabel() returns (target: Result<nat, ErrorKind>)
      requires Valid()
      modifies this
      ensures Valid() && labelAddress == old(labelAddress) && unchanged(labelAddress)
      ensures (Open(), target) == PopLoopLabel(old(Open()))
    {
      if labelCount > 0 {
        ghost var before := Open();
        labelCount := labelCount - 1;
        assert Open() == before[..labelCount];
        target := Ok(labelAddress[labelCount]);
      } else {
        target := Err(ErrNoJmplblAvail);
      }
    }
  }

  /* Loop labels over a whole generation call: the generator registers a
   * label at the head of each loop and jumps back to it at the loop's end. */

  datatype LoopEvent = LoopHead(address: nat) | LoopEnd

  /** Open labels, jump-back targets so far, and the last error. */
  datatype LoopTrace = LoopTrace(open: seq<nat>, targets: seq<nat>, error: Option<ErrorKind>)

  function StepLoop(t: LoopTrace, e: LoopEvent): LoopTrace
  {
    match e
    case LoopHead(a) =>
      var (open, err) := PushLoopLabel(t.open, a);
      if err.Some? then t.(error := err) else t.(open := open)
    case LoopEnd =>
      var (open, target) := PopLoopLabel(t.open);
      if target.Err? then t.(error := Some(target.error))
      else LoopTrace(open, t.targets + [target.value], t.error)
  }

  function RunLoops(t: LoopTrace, es: seq<LoopEvent>): LoopTrace
  {
    if es == [] then t else StepLoop(RunLoops(t, es[..|es| - 1]), es[|es| - 1])
  }

  /** Loop heads minus loop ends: the nesting depth after es. */
  function Depth(es: seq<LoopEvent>): int
  {
    if es == [] then 0
    else Depth(es[..|es| - 1]) + (if es[|es| - 1].LoopHead? then 1 else -1)
  }

  /** es never closes a loop it did not open and nests at most `room` deep. */
  ghost predicate NestsWithin(es: seq<LoopEvent>, room: int)
  {
    forall k :: 0 <= k <= |es| ==> 0 <= Depth(es[..k]) <= room
  }

  lemma {:induction false} RunLoopsAppend(t: LoopTrace, xs: seq<LoopEvent>, ys: seq<LoopEvent>)
    ensures RunLoops(t, xs + ys) == RunLoops(RunLoops(t, xs), ys)
    decreases |ys|
  {
    if ys == [] {
      assert xs + ys == xs;
    } else {
      assert (xs + ys)[..|xs + ys| - 1] == xs + ys[..|ys| - 1];
      RunLoopsAppend(t, xs, ys[..|ys| - 1]);
    }
  }

  /** A run that nests within the room left above the labels already open
    * keeps those labels, ends Depth(es) deeper, and raises no error. */
  lemma {:induction false} RunLoopsKeepsOuter(t: LoopTrace, es: seq<LoopEvent>)
    requires t.error.None?
    requires NestsWithin(es, TrackerCapacity - |t.open|)
    ensures var r := RunLoops(t, es);
      r.error.None? && |t.open| <= |r.open| == |t.open| + Depth(es) && r.open[..|t.open|] == t.open
    decreases |es|
  {
    if es != [] {
      var init := es[..|es| - 1];
      forall k | 0 <= k <= |init|
        ensures 0 <= Depth(init[..k]) <= TrackerCapacity - |t.open|
      {
        assert init[..k] == es[..k];
      }
      RunLoopsKeepsOuter(t, init);
      assert es[..|es|] == es;
      var r := RunLoops(t, init);
      if es[|es| - 1].LoopEnd? {
        assert r.open[..|r.open| - 1][..|t.open|] == r.open[..|t.open|];
      } else {
        assert (r.open + [es[|es| - 1].address])[..|t.open|] == r.open[..|t.open|];
      }
    }
  }

  /** Loops nest strictly: the end of a loop whose body is balanced jumps
    * back to that loop's own head, and leaves the enclosing loops open. */
  lemma LoopsNest(t: LoopTrace, address: nat, body: seq<LoopEvent>)
    requires t.error.None? && |t.open| < TrackerCapacity
    requires Depth(body) == 0 && NestsWithin(body, TrackerCapacity - |t.open| - 1)
    ensures var r := RunLoops(t, [LoopHead(address)] + body + [LoopEnd]);
      r.error.None? && r.open == t.open && r.targets[|r.targets| - 1] == address
  {
    var head := [LoopHead(address)];
    assert RunLoops(t, head) == StepLoop(RunLoops(t, []), LoopHead(address));
    var t1 := RunLoops(t, head);
    assert t1.open == t.open + [address];
    RunLoopsAppend(t, head, body);
    RunLoopsKeepsOuter(t1, body);
    var t2 := RunLoops(t1, body);
    assert t2.open == t1.open;
    RunLoopsAppend(t, head + body, [LoopEnd]);
    assert RunLoops(t2, [LoopEnd]) == StepLoop(RunLoops(t2, []), LoopEnd);
    assert (t.open + [address])[..|t.open|] == t.open;
  }

  /* ----------------------------------------------------------------------
   * Jump label tracker
   * -------------------------------------------------------------------- */

  /** A jump waiting for its label: the jump instruction and where it sits. */
  datatype JumpSource = JumpSource(instrType: nat, instrAddr: nat)

  /** One jump label: its code address, 0 while it is not defined, and the
    * jumps recorded against it since. */
  datatype JumpLabel = JumpLabel(address: nat, sources: seq<JumpSource>)

  /** A jump to a label: a defined label gives its address at once; an
    * undefined one records the jump, up to TrackerCapacity of them. */
  function ReferenceLabel(lbl: JumpLabel, src: JumpSource): (r: (JumpLabel, Result<Option<nat>, ErrorKind>))
    ensures lbl.address != 0 ==> r == (lbl, Ok(Some(lbl.address)))
    ensures lbl.address == 0 && |lbl.sources| < TrackerCapacity ==>
              r == (lbl.(sources := lbl.sources + [src]), Ok(None))
    ensures lbl.address == 0 && |lbl.sources| >= TrackerCapacity ==> r == (lbl, Err(ErrExceedJmplbl))
  {
    if lbl.address != 0 then (lbl, Ok(Some(lbl.address)))
    else if |lbl.sources| < TrackerCapacity then (lbl.(sources := lbl.sources + [src]), Ok(None))
    else (lbl, Err(ErrExceedJmplbl))
  }

  /** Defining a label at an address: the jumps recorded so far are handed
    * back to be patched and forgotten; a label is defined only once. */
  function DefineLabel(lbl: JumpLabel, address: nat): (r: (JumpLabel, Result<seq<JumpSource>, ErrorKind>))
    ensures lbl.address == 0 ==> r == (JumpLabel(address, []), Ok(lbl.sources))
    ensures lbl.address != 0 ==> r == (lbl, Err(ErrJmplblUsed))
  {
    if lbl.address == 0 then (JumpLabel(address, []), Ok(lbl.sources))
    else (lbl, Err(ErrJmplblUsed))
  }

  /** The label after a series of jumps to it, and whether each was accepted. */
  function ReferenceAll(lbl: JumpLabel, srcs: seq<JumpSource>): JumpLabel
  {
    if srcs == [] then lbl
    else ReferenceLabel(ReferenceAll(lbl, srcs[..|srcs| - 1]), srcs[|srcs| - 1]).0
  }

  /** Forward jumps are all patched: jumps made to an undefined label, as
    * long as they fit, are exactly the ones its definition hands back, in
    * the order they were made. */
  lemma {:induction false} ForwardJumpsPatched(lbl: JumpLabel, srcs: seq<JumpSource>, address: nat)
    requires lbl.address == 0 && |lbl.sources| + |srcs| <= TrackerCapacity
    ensures ReferenceAll(lbl, srcs) == lbl.(sources := lbl.sources + srcs)
    ensures DefineLabel(ReferenceAll(lbl, srcs), address) == (JumpLabel(address, []), Ok(lbl.sources + srcs))
    decreases |srcs|
  {
    if srcs == [] {
      assert lbl.sources + srcs == lbl.sources;
    } else {
      var init := srcs[..|srcs| - 1];
      ForwardJumpsPatched(lbl, init, address);
      assert lbl.sources + init + [srcs[|srcs| - 1]] == lbl.sources + srcs;
    }
  }

  /** Once defined at a non-zero address, a label resolves every later jump
    * to that address and refuses a second definition. */
  lemma DefinedLabelResolves(lbl: JumpLabel, address: nat, src: JumpSource, again: nat)
    requires lbl.address == 0 && address != 0
    ensures var defined := DefineLabel(lbl, address).0;
      ReferenceLabel(defined, src) == (defined, Ok(Some(address)))
      && DefineLabel(defined, again) == (defined, Err(ErrJmplblUsed))
  {
  }

  class JumpLabelTracker {
    var labelAddress: array<nat>
    var instrType: array2<nat>
    var instrAddr: array2<nat>
    var refCount: array<nat>

    ghost predicate Valid()
      reads this, refCount
    {
      labelAddress.Length == TrackerCapacity && refCount.Length == TrackerCapacity
      && instrType.Length0 == TrackerCapacity && instrType.Length1 == TrackerCapacity
      && instrAddr.Length0 == TrackerCapacity && instrAddr.Length1 == TrackerCapacity
      && labelAddress != refCount && instrType != instrAddr
      && forall l :: 0 <= l < TrackerCapacity ==> refCount[l] <= TrackerCapacity
    }

    /** Label l as the arrays hold it. */
    ghost function Label(l: int): JumpLabel
      requires Valid() && 0 <= l < TrackerCapacity
      reads this, labelAddress, instrType, instrAddr, refCount
    {
      var types, addrs, n := instrType, instrAddr, refCount[l];
      JumpLabel(labelAddress[l],
                seq(n, k requires 0 <= k < n reads types, addrs => JumpSource(types[l, k], addrs[l, k])))
    }

    constructor ()
      ensures Valid()
      ensures forall l :: 0 <= l < TrackerCapacity ==> Label(l) == JumpLabel(0, [])
    {
      labelAddress := new nat[TrackerCapacity](_ => 0);
      refCount := new nat[TrackerCapacity](_ => 0);
      instrType := new nat[TrackerCapacity, TrackerCapacity]((_, _) => 0);
      instrAddr := new nat[TrackerCapacity, TrackerCapacity]((_, _) => 0);
    }

    /** Clears every label at the start of a generation call. */
    method Reset()
      requires Valid()
      modifies labelAddress, refCount
      ensures Valid()
      ensures forall l :: 0 <= l < TrackerCapacity ==> Label(l) == JumpLabel(0, [])
    {
      var i := 0;
      while i < TrackerCapacity
        invariant 0 <= i <= TrackerCapacity && Valid()
        invariant forall l :: 0 <= l < i ==> labelAddress[l] == 0 && refCount[l] == 0
      {
        labelAddress[i] := 0;
        refCount[i] := 0;
        i := i + 1;
      }
    }

    /** A jump from instruction `src` to label l. */
    method JumpToLabel(l: nat, src: JumpSource) returns (r: Result<Option<nat>, ErrorKind>)
      requires Valid()
      modifies instrType, instrAddr, refCount
      ensures Valid()
      ensures l >= TrackerCapacity ==> r == Err(ErrExceedJmplbl)
      ensures l < TrackerCapacity ==> (Label(l), r) == ReferenceLabel(old(Label(l)), src)
      ensures forall l' :: 0 <= l' < TrackerCapacity && l' != l ==> Label(l') == old(Label(l'))
    {
      if l >= TrackerCapacity {
        return Err(ErrExceedJmplbl);
      }
      if labelAddress[l] != 0 {
        return Ok(Some(labelAddress[l]));
      }
      var k := refCount[l];
      if k >= TrackerCapacity {
        return Err(ErrExceedJmplbl);
      }
      ghost var before := Label(l);
      instrType[l, k] := src.instrType;
      instrAddr[l, k] := src.instrAddr;
      refCount[l] := k + 1;
      assert Label(l).sources == before.sources + [src];
      r := Ok(None);
    }

    /** Defines label l at `address`; returns the jumps to patch. */
    method RegisterJumpLabel(l: nat, address: nat) returns (r: Result<seq<JumpSource>, ErrorKind>)
      requires Valid()
      modifies labelAddress, refCount
      ensures Valid()
      ensures l >= TrackerCapacity ==> r == Err(ErrExceedJmplbl)
      ensures l < TrackerCapacity ==> (Label(l), r) == DefineLabel(old(Label(l)), address)
      ensures forall l' :: 0 <= l' < TrackerCapacity && l' != l ==> Label(l') == old(Label(l'))
    {
      if l >= TrackerCapacity {
        return Err(ErrExceedJmplbl);
      }
      if labelAddress[l] != 0 {
        return Err(ErrJmplblUsed);
      }
      var pending: seq<JumpSource> := [];
      var k := 0;
      while k < refCount[l]
        invariant 0 <= k <= refCount[l]
        invariant pending == Label(l).sources[..k]
      {
        pending := pending + [JumpSource(instrType[l, k], instrAddr[l, k])];
        k := k + 1;
      }
      assert pending == Label(l).sources;
      r := Ok(pending);
      labelAddress[l] := address;
      refCount[l] := 0;
      assert Label(l) == JumpLabel(address, []);
    }
  }
}
