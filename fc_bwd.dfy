// Backward pass of the blocked fully-connected layer (NCNC activations,
// KCCK filter): the per-thread work split, the weight transpose into the
// scratch buffer, and the preparation of the batch-reduce arguments.
//
// All sizes are non-negative, so C's truncating `/` and `%` agree with
// Dafny's Euclidean ones here.

module FcBackward {
  import opened Arith

  /* ----------------------------------------------------------------------
   * Block counts
   * -------------------------------------------------------------------- */

  datatype Blocking = Blocking(nBlocksIFm: nat, nBlocksOFm: nat, nBlocksMB: nat)

  /** Whole blocks of the channel, filter and minibatch dimensions. */
  function BlockCounts(C: nat, K: nat, N: nat, bc: nat, bk: nat, bn: nat): (r: Blocking)
    requires bc > 0 && bk > 0 && bn > 0
    ensures r.nBlocksIFm * bc <= C < (r.nBlocksIFm + 1) * bc
    ensures r.nBlocksOFm * bk <= K < (r.nBlocksOFm + 1) * bk
    ensures r.nBlocksMB * bn <= N < (r.nBlocksMB + 1) * bn
  {
    var nIFm, nOFm, nMB := C / bc, K / bk, N / bn;
    FloorDiv(C, bc);
    FloorDiv(K, bk);
    FloorDiv(N, bn);
    Blocking(nIFm, nOFm, nMB)
  }

  /* ----------------------------------------------------------------------
   * Work split among threads
   * -------------------------------------------------------------------- */

  /** ceil(work / threads), written with a remainder test as the template does. */
  function ChunkSize(work: nat, threads: nat): (r: nat)
    requires threads > 0
    ensures (r - 1) * threads < work <= r * threads
  {
    var q := work / threads;
    assert work == q * threads + work % threads;
    assert (q + 1) * threads == q * threads + threads;
    assert (q - 1) * threads == q * threads - threads;
    if work % threads == 0 then q else q + 1
  }

  datatype Range = Range(begin: nat, end: nat)

  /** The half-open index range [begin, end) that logical thread `ltid` owns. */
  function ThreadRange(ltid: nat, chunk: nat, work: nat): (r: Range)
    ensures r.begin <= r.end <= work
    ensures r.end - r.begin <= chunk
  {
    assert (ltid + 1) * chunk == ltid * chunk + chunk;
    Range(if ltid * chunk < work then ltid * chunk else work,
          if (ltid + 1) * chunk < work then (ltid + 1) * chunk else work)
  }

  /** The ranges of threads 0 .. threads-1 start at 0, follow one another
    * without gap and end at `work`. */
  lemma RangesConsecutive(work: nat, threads: nat, t: nat)
    requires threads > 0 && t < threads
    ensures ThreadRange(0, ChunkSize(work, threads), work).begin == 0
    ensures ThreadRange(t, ChunkSize(work, threads), work).end
         == ThreadRange(t + 1, ChunkSize(work, threads), work).begin
    ensures ThreadRange(threads - 1, ChunkSize(work, threads), work).end == work
    ensures ThreadRange(threads, ChunkSize(work, threads), work).begin == work
  {
    var chunk := ChunkSize(work, threads);
    assert (threads - 1 + 1) * chunk == chunk * threads;
  }

  /** Ranges of distinct threads do not overlap. */
  lemma RangesDisjoint(work: nat, chunk: nat, t1: nat, t2: nat)
    requires t1 < t2
    ensures ThreadRange(t1, chunk, work).end <= ThreadRange(t2, chunk, work).begin
  {
    MulMonotone(t1 + 1, t2, chunk);
  }

  /** Thread ltid's range contains work item w. */
  predicate Owns(ltid: nat, chunk: nat, work: nat, w: nat)
  {
    ThreadRange(ltid, chunk, work).begin <= w < ThreadRange(ltid, chunk, work).end
  }

  /** Every work item w < work is owned by exactly one thread, w / chunk. */
  lemma RangesCover(work: nat, threads: nat, w: nat)
    requires threads > 0 && w < work
    ensures var chunk := ChunkSize(work, threads);
      chunk > 0 && w / chunk < threads
      && ThreadRange(w / chunk, chunk, work).begin <= w < ThreadRange(w / chunk, chunk, work).end
    ensures forall t: nat :: t < threads && Owns(t, ChunkSize(work, threads), work, w) ==>
              t == w / ChunkSize(work, threads)
  {
    var chunk := ChunkSize(work, threads);
    var t := w / chunk;
    FloorDiv(w, chunk);
    if t >= threads {
      MulMonotone(threads, t, chunk);
      assert false;
    }
    assert (t + 1) * chunk == t * chunk + chunk;
    forall t': nat | t' < threads && Owns(t', chunk, work, w)
      ensures t' == t
    {
      if t' < t {
        RangesDisjoint(work, chunk, t', t);
      } else if t < t' {
        RangesDisjoint(work, chunk, t, t');
      }
    }
  }

  /* ----------------------------------------------------------------------
   * Flat index to block coordinates
   * -------------------------------------------------------------------- */

  /** `(i / n, i % n)`: the outer and inner block of flat work item i. */
  function Split(i: nat, n: nat): (r: (nat, nat))
    requires n > 0
    ensures r.1 < n && r.0 * n + r.1 == i
  {
    (i / n, i % n)
  }

  /** Split maps [0, m*n) onto the grid [0, m) x [0, n) ... */
  lemma SplitInGrid(i: nat, m: nat, n: nat)
    requires n > 0 && i < m * n
    ensures Split(i, n).0 < m
  {
    DivBelow(i, m, n);
  }

  /** ... and every grid point is reached, from exactly one flat index. */
  lemma SplitOfJoin(a: nat, b: nat, m: nat, n: nat)
    requires a < m && b < n
    ensures a * n + b < m * n
    ensures Split(a * n + b, n) == (a, b)
  {
    JoinBelow(a, b, m, n);
    DivModOfJoin(a, b, n);
  }

  /* ----------------------------------------------------------------------
   * Weight transpose
   * -------------------------------------------------------------------- */

  /** filter is (nBlocksOFm, nBlocksIFm, bc, bk); filterTr is
    * (nBlocksIFm, nBlocksOFm, bk, bc). */
  predicate Shapes<T>(filter: array4<T>, filterTr: array4<T>)
  {
    filterTr.Length0 == filter.Length1 && filterTr.Length1 == filter.Length0
    && filterTr.Length2 == filter.Length3 && filterTr.Length3 == filter.Length2
  }

  /** Block (ofm1, ifm1) of the filter has been written, transposed, to
    * block (ifm1, ofm1) of filterTr. */
  ghost predicate BlockDone<T>(filter: array4<T>, filterTr: array4<T>, ofm1: int, ifm1: int)
    requires Shapes(filter, filterTr)
    requires 0 <= ofm1 < filter.Length0 && 0 <= ifm1 < filter.Length1
    reads filter, filterTr
  {
    forall ofm2, ifm2 :: 0 <= ofm2 < filter.Length3 && 0 <= ifm2 < filter.Length2 ==>
      filterTr[ifm1, ofm1, ofm2, ifm2] == filter[ofm1, ifm1, ifm2, ofm2]
  }

  /** [i, o, x, y] is a valid index of a. */
  predicate In4<T>(a: array4<T>, i: int, o: int, x: int, y: int)
  {
    0 <= i < a.Length0 && 0 <= o < a.Length1 && 0 <= x < a.Length2 && 0 <= y < a.Length3
  }

  /** Transposes one block: the two inner loops of the transpose. */
  method TransposeBlock<T>(filter: array4<T>, filterTr: array4<T>, ofm1: nat, ifm1: nat)
    requires filter != filterTr && Shapes(filter, filterTr)
    requires ofm1 < filter.Length0 && ifm1 < filter.Length1
    modifies filterTr
    ensures BlockDone(filter, filterTr, ofm1, ifm1)
    ensures forall i, o, x, y :: In4(filterTr, i, o, x, y) && (i, o) != (ifm1, ofm1) ==>
              filterTr[i, o, x, y] == old(filterTr[i, o, x, y])
  {
    var bk := filter.Length3;
    var bc := filter.Length2;
    var ofm2 := 0;
    while ofm2 < bk
      invariant 0 <= ofm2 <= bk
      invariant forall o2, i2 :: 0 <= o2 < ofm2 && 0 <= i2 < bc ==>
                  filterTr[ifm1, ofm1, o2, i2] == filter[ofm1, ifm1, i2, o2]
      invariant forall i, o, x, y :: In4(filterTr, i, o, x, y) && (i, o) != (ifm1, ofm1) ==>
                  filterTr[i, o, x, y] == old(filterTr[i, o, x, y])
    {
      var ifm2 := 0;
      while ifm2 < bc
        invariant 0 <= ifm2 <= bc
        invariant forall o2, i2 :: 0 <= o2 < ofm2 && 0 <= i2 < bc ==>
                    filterTr[ifm1, ofm1, o2, i2] == filter[ofm1, ifm1, i2, o2]
        invariant forall i2 :: 0 <= i2 < ifm2 ==>
                    filterTr[ifm1, ofm1, ofm2, i2] == filter[ofm1, ifm1, i2, ofm2]
        invariant forall i, o, x, y :: In4(filterTr, i, o, x, y) && (i, o) != (ifm1, ofm1) ==>
                    filterTr[i, o, x, y] == old(filterTr[i, o, x, y])
      {
        filterTr[ifm1, ofm1, ofm2, ifm2] := filter[ofm1, ifm1, ifm2, ofm2];
        ifm2 := ifm2 + 1;
      }
      ofm2 := ofm2 + 1;
    }
  }

  /** Flat transpose work item of filter block (ofm1, ifm1). */
  function BlockIndex<T>(filter: array4<T>, ofm1: nat, ifm1: nat): nat
  {
    ofm1 * filter.Length1 + ifm1
  }

  /** One thread's share of the transpose: every block whose flat index
    * ofm1 * nBlocksIFm + ifm1 lies in [begin, end) is transposed, the
    * other blocks of filterTr keep their contents. */
  method TransposeRange<T>(filter: array4<T>, filterTr: array4<T>, begin: nat, end: nat)
    requires filter != filterTr && Shapes(filter, filterTr) && filter.Length1 > 0
    requires begin <= end <= filter.Length0 * filter.Length1
    modifies filterTr
    ensures forall o: nat, f: nat ::
              o < filter.Length0 && f < filter.Length1 && begin <= BlockIndex(filter, o, f) < end ==>
                BlockDone(filter, filterTr, o, f)
    ensures forall f: nat, o: nat, x, y ::
              In4(filterTr, f, o, x, y) && !(begin <= BlockIndex(filter, o, f) < end) ==>
                filterTr[f, o, x, y] == old(filterTr[f, o, x, y])
  {
    var nIFm := filter.Length1;
    var idx := begin;
    while idx < end
      invariant begin <= idx <= end
      invariant forall o: nat, f: nat ::
                  o < filter.Length0 && f < nIFm && begin <= BlockIndex(filter, o, f) < idx ==>
                    BlockDone(filter, filterTr, o, f)
      invariant forall f: nat, o: nat, x, y ::
                  In4(filterTr, f, o, x, y) && !(begin <= BlockIndex(filter, o, f) < idx) ==>
                    filterTr[f, o, x, y] == old(filterTr[f, o, x, y])
    {
      var (ofm1, ifm1) := Split(idx, nIFm);
      SplitInGrid(idx, filter.Length0, nIFm);
      label L:
      TransposeBlock(filter, filterTr, ofm1, ifm1);
      forall o: nat, f: nat | o < filter.Length0 && f < nIFm && begin <= BlockIndex(filter, o, f) < idx + 1
        ensures BlockDone(filter, filterTr, o, f)
      {
        if (f, o) != (ifm1, ofm1) {
          SplitOfJoin(o, f, filter.Length0, nIFm);
          forall o2, i2 | 0 <= o2 < filter.Length3 && 0 <= i2 < filter.Length2
            ensures filterTr[f, o, o2, i2] == filter[o, f, i2, o2]
          {
            assert old@L(filterTr[f, o, o2, i2]) == filter[o, f, i2, o2];
          }
        }
      }
      idx := idx + 1;
    }
  }

  /** All threads' shares in turn: the whole filter transposed. */
  method TransposeAll<T>(filter: array4<T>, filterTr: array4<T>, threads: nat)
    requires filter != filterTr && Shapes(filter, filterTr) && filter.Length1 > 0
    requires threads > 0
    modifies filterTr
    ensures unchanged(filter)
    ensures forall f, o, x, y :: In4(filterTr, f, o, x, y) ==>
              filterTr[f, o, x, y] == filter[o, f, y, x]
  {
    var work := filter.Length0 * filter.Length1;
    var chunk := ChunkSize(work, threads);
    var t := 0;
    while t < threads
      invariant 0 <= t <= threads
      invariant forall o: nat, f: nat ::
                  o < filter.Length0 && f < filter.Length1 && BlockIndex(filter, o, f) < ThreadRange(t, chunk, work).begin ==>
                    BlockDone(filter, filterTr, o, f)
    {
      var r := ThreadRange(t, chunk, work);
      label L:
      TransposeRange(filter, filterTr, r.begin, r.end);
      RangesConsecutive(work, threads, t);
      forall o: nat, f: nat | o < filter.Length0 && f < filter.Length1 &&
          BlockIndex(filter, o, f) < ThreadRange(t + 1, chunk, work).begin
        ensures BlockDone(filter, filterTr, o, f)
      {
        if BlockIndex(filter, o, f) < r.begin {
          forall o2, i2 | 0 <= o2 < filter.Length3 && 0 <= i2 < filter.Length2
            ensures filterTr[f, o, o2, i2] == filter[o, f, i2, o2]
          {
            assert old@L(filterTr[f, o, o2, i2]) == filter[o, f, i2, o2];
          }
        }
      }
      t := t + 1;
    }
    RangesConsecutive(work, threads, 0);
    forall f, o, x, y | In4(filterTr, f, o, x, y)
      ensures filterTr[f, o, x, y] == filter[o, f, y, x]
    {
      SplitOfJoin(o, f, filter.Length0, filter.Length1);
      assert BlockDone(filter, filterTr, o, f);
    }
  }

  /* ----------------------------------------------------------------------
   * Batch-reduce arguments
   * -------------------------------------------------------------------- */

  /** Element offset of [i0][i1][i2][i3] in a row-major 4-dimensional array
    * whose inner extents are d1, d2, d3; an in-range last index is recovered
    * by the remainder, and the quotient is the offset of the row it sits in. */
  function Vla4(i0: nat, i1: nat, i2: nat, i3: nat, d1: nat, d2: nat, d3: nat): (r: nat)
    ensures i3 < d3 ==> r % d3 == i3 && r / d3 == (i0 * d1 + i1) * d2 + i2
  {
    if i3 < d3 then
      DivModOfJoin((i0 * d1 + i1) * d2 + i2, i3, d3);
      ((i0 * d1 + i1) * d2 + i2) * d3 + i3
    else
      ((i0 * d1 + i1) * d2 + i2) * d3 + i3
  }

  /** An in-range index lands inside the array, and the element [i0][i1][i2][i3]
    * sits at offset i2*d3 + i3 from the start [i0][i1][0][0] of its block. */
  lemma Vla4Block(i0: nat, i1: nat, i2: nat, i3: nat, d0: nat, d1: nat, d2: nat, d3: nat)
    requires i0 < d0 && i1 < d1 && i2 < d2 && i3 < d3
    ensures Vla4(i0, i1, i2, i3, d1, d2, d3) == Vla4(i0, i1, 0, 0, d1, d2, d3) + i2 * d3 + i3
    ensures Vla4(i0, i1, i2, i3, d1, d2, d3) < d0 * d1 * d2 * d3
  {
    SplitOfJoin(i0, i1, d0, d1);
    SplitOfJoin(i0 * d1 + i1, i2, d0 * d1, d2);
    SplitOfJoin((i0 * d1 + i1) * d2 + i2, i3, d0 * d1 * d2, d3);
    assert (i0 * d1 + i1) * d2 * d3 + i2 * d3 == ((i0 * d1 + i1) * d2 + i2) * d3;
  }

  /** a*n + b with b < n determines a and b. */
  lemma JoinInjective(a: nat, b: nat, a': nat, b': nat, n: nat)
    requires b < n && b' < n && a * n + b == a' * n + b'
    ensures a == a' && b == b'
  {
    DivModOfJoin(a, b, n);
    DivModOfJoin(a', b', n);
  }

  /** Distinct in-range indices have distinct offsets. */
  lemma Vla4Injective(a0: nat, a1: nat, a2: nat, a3: nat, b0: nat, b1: nat, b2: nat, b3: nat,
                      d0: nat, d1: nat, d2: nat, d3: nat)
    requires a0 < d0 && a1 < d1 && a2 < d2 && a3 < d3
    requires b0 < d0 && b1 < d1 && b2 < d2 && b3 < d3
    requires Vla4(a0, a1, a2, a3, d1, d2, d3) == Vla4(b0, b1, b2, b3, d1, d2, d3)
    ensures a0 == b0 && a1 == b1 && a2 == b2 && a3 == b3
  {
    var a01, b01 := a0 * d1 + a1, b0 * d1 + b1;
    var a012, b012 := a01 * d2 + a2, b01 * d2 + b2;
    JoinInjective(a012, a3, b012, b3, d3);
    JoinInjective(a01, a2, b01, b2, d2);
    JoinInjective(a0, a1, b0, b1, d1);
  }

  /** Capacity of the template's A_array and B_array. */
  const BatchCapacity: nat := 1024

  /** Fills the pointer arrays for work item (mb1, ifm1): A_array[ofm1] is the
    * start of block (ifm1, ofm1) of filter_tr, B_array[ofm1] the start of block
    * (mb1, ofm1) of doutput, both as element offsets. */
  method PrepareBatchReduce(aArray: array<nat>, bArray: array<nat>, mb1: nat, ifm1: nat,
                            nBlocksOFm: nat, bn: nat, bk: nat, bc: nat)
    returns (blocks: nat)
    requires aArray != bArray
    requires aArray.Length == BatchCapacity && bArray.Length == BatchCapacity
    requires nBlocksOFm <= BatchCapacity
    modifies aArray, bArray
    ensures blocks == nBlocksOFm
    ensures forall o :: 0 <= o < nBlocksOFm ==>
      aArray[o] == Vla4(ifm1, o, 0, 0, nBlocksOFm, bk, bc)
      && bArray[o] == Vla4(mb1, o, 0, 0, nBlocksOFm, bn, bk)
    ensures aArray[nBlocksOFm..] == old(aArray[nBlocksOFm..])
    ensures bArray[nBlocksOFm..] == old(bArray[nBlocksOFm..])
  {
    blocks := nBlocksOFm;
    var ofm1 := 0;
    while ofm1 < nBlocksOFm
      invariant 0 <= ofm1 <= nBlocksOFm
      invariant forall o :: 0 <= o < ofm1 ==>
        aArray[o] == Vla4(ifm1, o, 0, 0, nBlocksOFm, bk, bc)
        && bArray[o] == Vla4(mb1, o, 0, 0, nBlocksOFm, bn, bk)
      invariant aArray[nBlocksOFm..] == old(aArray[nBlocksOFm..])
      invariant bArray[nBlocksOFm..] == old(bArray[nBlocksOFm..])
    {
      aArray[ofm1] := Vla4(ifm1, ofm1, 0, 0, nBlocksOFm, bk, bc);
      bArray[ofm1] := Vla4(mb1, ofm1, 0, 0, nBlocksOFm, bn, bk);
      ofm1 := ofm1 + 1;
    }
  }

  /** The blocks A_array addresses are the bk x bc blocks of filter_tr laid
    * end to end: block ofm1 + 1 starts where block ofm1 ends, and the last
    * one ends inside filter_tr. */
  lemma BatchBlocksContiguous(ifm1: nat, ofm1: nat, nBlocksIFm: nat, nBlocksOFm: nat, bk: nat, bc: nat)
    requires ifm1 < nBlocksIFm && ofm1 < nBlocksOFm && bk > 0 && bc > 0
    ensures Vla4(ifm1, ofm1, 0, 0, nBlocksOFm, bk, bc) + bk * bc
         == Vla4(ifm1, ofm1 + 1, 0, 0, nBlocksOFm, bk, bc)
    ensures Vla4(ifm1, ofm1, 0, 0, nBlocksOFm, bk, bc) + bk * bc
         <= nBlocksIFm * nBlocksOFm * bk * bc
  {
    var start := Vla4(ifm1, ofm1, 0, 0, nBlocksOFm, bk, bc);
    assert start == (ifm1 * nBlocksOFm + ofm1) * (bk * bc);
    assert Vla4(ifm1, ofm1 + 1, 0, 0, nBlocksOFm, bk, bc)
        == (ifm1 * nBlocksOFm + ofm1) * (bk * bc) + bk * bc;
    Vla4Block(ifm1, ofm1, bk - 1, bc - 1, nBlocksIFm, nBlocksOFm, bk, bc);
    assert (bk - 1) * bc + (bc - 1) + 1 == bk * bc;
  }

  /** The arguments of one batch-reduce call: the A and B block offsets and
    * the offset of the dinput block it accumulates into. */
  datatype ReduceCall = ReduceCall(a: seq<nat>, b: seq<nat>, c: nat, blocks: nat)

  /** The call the compute loop makes for flat work item i = mb1*nBlocksIFm + ifm1. */
  function ExpectedCall(i: nat, nBlocksIFm: nat, nBlocksOFm: nat, bn: nat, bk: nat, bc: nat): ReduceCall
    requires nBlocksIFm > 0
  {
    var (mb1, ifm1) := Split(i, nBlocksIFm);
    ReduceCall(seq(nBlocksOFm, o requires 0 <= o => Vla4(ifm1, o, 0, 0, nBlocksOFm, bk, bc)),
               seq(nBlocksOFm, o requires 0 <= o => Vla4(mb1, o, 0, 0, nBlocksOFm, bn, bk)),
               Vla4(mb1, ifm1, 0, 0, nBlocksIFm, bn, bc),
               nBlocksOFm)
  }

  /** One thread's compute loop over [begin, end): the batch-reduce calls it
    * makes, in order, with A_array/B_array reused between calls. */
  method ComputeRange(begin: nat, end: nat, nBlocksIFm: nat, nBlocksOFm: nat,
                      bn: nat, bk: nat, bc: nat)
    returns (calls: seq<ReduceCall>)
    requires nBlocksIFm > 0 && nBlocksOFm <= BatchCapacity && begin <= end
    ensures |calls| == end - begin
    ensures forall k :: 0 <= k < |calls| ==>
      calls[k] == ExpectedCall(begin + k, nBlocksIFm, nBlocksOFm, bn, bk, bc)
  {
    var aArray := new nat[BatchCapacity];
    var bArray := new nat[BatchCapacity];
    calls := [];
    var idx := begin;
    while idx < end
      invariant begin <= idx <= end
      invariant |calls| == idx - begin
      invariant forall k :: 0 <= k < |calls| ==>
        calls[k] == ExpectedCall(begin + k, nBlocksIFm, nBlocksOFm, bn, bk, bc)
    {
      var (mb1, ifm1) := Split(idx, nBlocksIFm);
      var blocks := PrepareBatchReduce(aArray, bArray, mb1, ifm1, nBlocksOFm, bn, bk, bc);
      var call := ReduceCall(aArray[..nBlocksOFm], bArray[..nBlocksOFm],
                             Vla4(mb1, ifm1, 0, 0, nBlocksIFm, bn, bc), blocks);
      assert call == ExpectedCall(idx, nBlocksIFm, nBlocksOFm, bn, bk, bc);
      calls := calls + [call];
      idx := idx + 1;
    }
  }

  /** Across all threads, every dinput block (mb1, ifm1) is the target of
    * exactly one batch-reduce call: the one of work item mb1*nBlocksIFm + ifm1,
    * made by thread (mb1*nBlocksIFm + ifm1) / chunk. */
  lemma EachOutputBlockOnce(mb1: nat, ifm1: nat, nBlocksMB: nat, nBlocksIFm: nat,
                            nBlocksOFm: nat, bn: nat, bk: nat, bc: nat, threads: nat)
    requires mb1 < nBlocksMB && ifm1 < nBlocksIFm && threads > 0 && bn > 0 && bc > 0
    ensures var work := nBlocksIFm * nBlocksMB;
      var chunk := ChunkSize(work, threads);
      var i := mb1 * nBlocksIFm + ifm1;
      var r := ThreadRange(i / chunk, chunk, work);
      i < work && i / chunk < threads && r.begin <= i < r.end
      && ExpectedCall(i, nBlocksIFm, nBlocksOFm, bn, bk, bc).c
         == Vla4(mb1, ifm1, 0, 0, nBlocksIFm, bn, bc)
    ensures forall j: nat ::
              j < nBlocksIFm * nBlocksMB && ExpectedCall(j, nBlocksIFm, nBlocksOFm, bn, bk, bc).c == Vla4(mb1, ifm1, 0, 0, nBlocksIFm, bn, bc) ==>
                j == mb1 * nBlocksIFm + ifm1
  {
    var work := nBlocksIFm * nBlocksMB;
    var i := mb1 * nBlocksIFm + ifm1;
    assert nBlocksMB * nBlocksIFm == work;
    SplitOfJoin(mb1, ifm1, nBlocksMB, nBlocksIFm);
    RangesCover(work, threads, i);
    forall j: nat | j < work
      && ExpectedCall(j, nBlocksIFm, nBlocksOFm, bn, bk, bc).c
         == Vla4(mb1, ifm1, 0, 0, nBlocksIFm, bn, bc)
      ensures j == i
    {
      var (m, f) := Split(j, nBlocksIFm);
      SplitInGrid(j, nBlocksMB, nBlocksIFm);
      Vla4Injective(m, f, 0, 0, mb1, ifm1, 0, 0, nBlocksMB, nBlocksIFm, bn, bc);
    }
  }
}
