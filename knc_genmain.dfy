// The generator script for the KNC small-matrix dispatch interface: it
// reads the M, N and K dimensions from its command line, emits a table of
// specialised kernels dc_smm_dnn_{m}_{n}_{k}, a lookup function that finds
// a kernel with three binary searches, and a wrapper that falls back to a
// CBLAS dgemm when there is no kernel.
//
// The emitted C is modelled by what it computes: the table as a sequence,
// the lookup as a function over it, bsearch as the C library's bisection.

module KncGenmain {
  import opened Wrappers
  import opened Arith

  /* ----------------------------------------------------------------------
   * Command line
   * -------------------------------------------------------------------- */

  /** Python's treatment of a slice bound: a negative bound counts from the
    * end, and bounds are clamped to [0, len]. */
  function SliceBound(i: int, len: nat): (b: nat)
    ensures b <= len
    ensures 0 <= i <= len ==> b == i
    ensures i < 0 ==> b == if len + i < 0 then 0 else len + i
  {
    if i < 0 then (if len + i < 0 then 0 else len + i)
    else if i > len then len
    else i
  }

  /** s[i:j] in Python. */
  function PySlice<T>(s: seq<T>, i: int, j: int): (r: seq<T>)
    ensures 0 <= i <= j <= |s| ==> r == s[i..j]
    ensures |r| <= |s|
  {
    var a, b := SliceBound(i, |s|), SliceBound(j, |s|);
    if a < b then s[a..b] else []
  }

  /** The raw dimension lists and the RowMajor flag. */
  datatype RawArgs = RawArgs(m: seq<int>, n: seq<int>, k: seq<int>, rowMajor: int)

  /** Splits the command line. argv holds the arguments as int() converts
    * them; argv[0], the script name, is never read. argv[1] and argv[2]
    * count the M and N dimensions, argv[3] is the RowMajor flag, and
    * every value after the M and N dimensions is a K dimension. */
  function SplitArgv(argv: seq<int>): (r: Result<RawArgs, string>)
    ensures r.Err? <==> |argv| < 4
    ensures r.Ok? ==> r.value.rowMajor == argv[3]
  {
    if |argv| < 4 then Err("IndexError: list index out of range")
    else
      var cm, cn := argv[1], argv[2];
      Ok(RawArgs(PySlice(argv, 4, 4 + cm),
                 PySlice(argv, 4 + cm, 4 + cm + cn),
                 PySlice(argv, 4 + cm + cn, |argv|),
                 argv[3]))
  }

  /** With counts that fit the command line, the three lists are argv[4:]
    * cut into consecutive pieces of argv[1] and argv[2] values and the rest. */
  lemma ArgvPartition(argv: seq<int>)
    requires |argv| >= 4 && argv[1] >= 0 && argv[2] >= 0 && 4 + argv[1] + argv[2] <= |argv|
    ensures var r := SplitArgv(argv).value;
      |r.m| == argv[1] && |r.n| == argv[2] && r.m + r.n + r.k == argv[4..]
  {
    var r := SplitArgv(argv).value;
    var a, b := 4 + argv[1], 4 + argv[1] + argv[2];
    assert r.m + r.n + r.k == argv[4..a] + argv[a..b] + argv[b..];
    assert argv[4..] == argv[4..a] + argv[a..b] + argv[b..];
  }

  /* ----------------------------------------------------------------------
   * Dimension lists
   * -------------------------------------------------------------------- */

  predicate StrictlySorted(s: seq<int>)
  {
    forall i, j :: 0 <= i < j < |s| ==> s[i] < s[j]
  }

  lemma ConsSorted(x: int, rest: seq<int>)
    requires StrictlySorted(rest) && forall y :: y in rest ==> x < y
    ensures StrictlySorted([x] + rest)
  {
    var r := [x] + rest;
    forall i, j | 0 <= i < j < |r| ensures r[i] < r[j] {
      assert r[j] == rest[j - 1];
      if i > 0 {
        assert r[i] == rest[i - 1];
      } else {
        assert rest[j - 1] in rest;
      }
    }
  }

  /** Adds x to a strictly increasing list unless it is already there. */
  function InsertUnique(s: seq<int>, x: int): (r: seq<int>)
    requires StrictlySorted(s)
    ensures StrictlySorted(r)
    ensures forall y :: y in r <==> y in s || y == x
  {
    if s == [] then [x]
    else if x < s[0] then ConsSorted(x, s); [x] + s
    else if x == s[0] then s
    else
      var rest := InsertUnique(s[1..], x);
      assert forall y :: y in rest ==> s[0] < y by {
        forall y | y in s[1..] ensures s[0] < y {
          var i :| 0 <= i < |s[1..]| && s[1..][i] == y;
          assert s[i + 1] == y;
        }
      }
      ConsSorted(s[0], rest);
      [s[0]] + rest
  }

  /** load_dims as intended: the distinct values, in increasing order. */
  function LoadDims(xs: seq<int>): (r: seq<int>)
    ensures StrictlySorted(r)
    ensures forall y :: y in r <==> y in xs
  {
    if xs == [] then []
    else
      assert xs == xs[..|xs| - 1] + [xs[|xs| - 1]];
      InsertUnique(LoadDims(xs[..|xs| - 1]), xs[|xs| - 1])
  }

  /* load_dims as written sorts the values and then passes them through a
   * set, whose iteration order is the interpreter's. CPython keeps a set of
   * up to four elements in an 8-slot hash table and iterates it slot by
   * slot; a small non-negative integer hashes to itself, so without
   * collisions its slot is its value mod 8. */

  /** The values of s whose slot is `slot`, in the order of s. */
  function InSlot(s: seq<int>, slot: nat): (r: seq<int>)
    ensures forall y :: y in r <==> y in s && y % 8 == slot
  {
    if s == [] then []
    else (if s[0] % 8 == slot then [s[0]] else []) + InSlot(s[1..], slot)
  }

  /** The values of s whose slot is at least `slot`, slot by slot. */
  function FromSlot(s: seq<int>, slot: nat): (r: seq<int>)
    ensures forall y :: y in r <==> y in s && slot <= y % 8
    decreases 8 - slot
  {
    if slot >= 8 then [] else InSlot(s, slot) + FromSlot(s, slot + 1)
  }

  /** The inputs on which the slot order above is CPython's: at most four
    * distinct non-negative values, no two in the same slot. */
  predicate SmallTable(xs: seq<int>)
  {
    var d := LoadDims(xs);
    |d| <= 4 && (forall i :: 0 <= i < |d| ==> d[i] >= 0)
    && forall i, j :: 0 <= i < j < |d| ==> d[i] % 8 != d[j] % 8
  }

  /** load_dims as written: still the distinct values, but in set order. */
  function LoadDimsAsWritten(xs: seq<int>): (r: seq<int>)
    requires SmallTable(xs)
    ensures forall y :: y in r <==> y in xs
  {
    FromSlot(LoadDims(xs), 0)
  }

  /* ----------------------------------------------------------------------
   * bsearch and the kernel table
   * -------------------------------------------------------------------- */

  /** The C library's bsearch over a[lo..hi) with compareints: bisect,
    * go left when the key is smaller than the middle element. */
  function BSearchIn(a: seq<int>, key: int, lo: nat, hi: nat): (r: Option<nat>)
    requires lo <= hi <= |a|
    ensures r.Some? ==> lo <= r.value < hi && a[r.value] == key
    decreases hi - lo
  {
    if lo >= hi then None
    else
      var mid := (lo + hi) / 2;
      if key < a[mid] then BSearchIn(a, key, lo, mid)
      else if key > a[mid] then BSearchIn(a, key, mid + 1, hi)
      else Some(mid)
  }

  function BSearch(a: seq<int>, key: int): (r: Option<nat>)
    ensures r.Some? ==> r.value < |a| && a[r.value] == key
  {
    BSearchIn(a, key, 0, |a|)
  }

  /** Whether a[lo..hi) holds key. */
  predicate HoldsIn(a: seq<int>, key: int, lo: nat, hi: nat)
    requires lo <= hi <= |a|
  {
    exists i :: lo <= i < hi && a[i] == key
  }

  /** On a strictly increasing array bsearch finds every element it holds. */
  lemma {:induction false} BSearchInComplete(a: seq<int>, key: int, lo: nat, hi: nat)
    requires lo <= hi <= |a| && StrictlySorted(a)
    ensures BSearchIn(a, key, lo, hi).Some? <==> HoldsIn(a, key, lo, hi)
    decreases hi - lo
  {
    if lo < hi {
      var mid := (lo + hi) / 2;
      if key < a[mid] {
        BSearchInComplete(a, key, lo, mid);
        if HoldsIn(a, key, lo, hi) {
          var i :| lo <= i < hi && a[i] == key;
          assert i < mid;
        }
      } else if key > a[mid] {
        BSearchInComplete(a, key, mid + 1, hi);
        if HoldsIn(a, key, lo, hi) {
          var i :| lo <= i < hi && a[i] == key;
          assert mid < i;
        }
      }
    }
  }

  lemma BSearchFinds(a: seq<int>, key: int)
    requires StrictlySorted(a)
    ensures BSearch(a, key).Some? <==> key in a
  {
    BSearchInComplete(a, key, 0, |a|);
    if key in a {
      var i :| 0 <= i < |a| && a[i] == key;
      assert HoldsIn(a, key, 0, |a|);
    }
  }

  /** The kernel dc_smm_dnn_{m}_{n}_{k}. */
  datatype Kernel = Kernel(m: int, n: int, k: int)

  /** Position of kernel (i, j, k) in the emitted table. */
  function Flat(i: nat, j: nat, k: nat, nn: nat, nk: nat): nat
  {
    nk * (i * nn + j) + k
  }

  lemma FlatSplit(i: nat, j: nat, k: nat, nm: nat, nn: nat, nk: nat)
    requires i < nm && j < nn && k < nk
    ensures Flat(i, j, k, nn, nk) < nm * nn * nk
    ensures Flat(i, j, k, nn, nk) / nk == i * nn + j && Flat(i, j, k, nn, nk) % nk == k
    ensures (i * nn + j) / nn == i && (i * nn + j) % nn == j
  {
    JoinBelow(i, j, nm, nn);
    JoinBelow(i * nn + j, k, nm * nn, nk);
    assert nk * (i * nn + j) == (i * nn + j) * nk;
    DivModOfJoin(i * nn + j, k, nk);
    DivModOfJoin(i, j, nn);
  }

  /** Entry t of the table for dims (dm, dn, dk). */
  function Entry(dm: seq<int>, dn: seq<int>, dk: seq<int>, t: nat): Kernel
    requires t < |dm| * |dn| * |dk|
  {
    if |dn| == 0 || |dk| == 0 then assert false; Kernel(0, 0, 0)
    else
      DivBelow(t, |dm| * |dn|, |dk|);
      DivBelow(t / |dk|, |dm|, |dn|);
      Kernel(dm[(t / |dk|) / |dn|], dn[(t / |dk|) % |dn|], dk[t % |dk|])
  }

  /** Entry (i, j, k) sits at Flat(i, j, k) and holds dc_smm_dnn_{m_i}_{n_j}_{k_k}. */
  lemma EntryAt(dm: seq<int>, dn: seq<int>, dk: seq<int>, i: nat, j: nat, k: nat)
    requires i < |dm| && j < |dn| && k < |dk|
    ensures Flat(i, j, k, |dn|, |dk|) < |dm| * |dn| * |dk|
    ensures Entry(dm, dn, dk, Flat(i, j, k, |dn|, |dk|)) == Kernel(dm[i], dn[j], dk[k])
  {
    FlatSplit(i, j, k, |dm|, |dn|, |dk|);
  }

  /** The positions the loops visit follow one another. */
  lemma FlatSteps(i: nat, j: nat, nm: nat, nn: nat, nk: nat)
    ensures Flat(i, j, nk, nn, nk) == Flat(i, j + 1, 0, nn, nk)
    ensures Flat(i, nn, 0, nn, nk) == Flat(i + 1, 0, 0, nn, nk)
    ensures Flat(nm, 0, 0, nn, nk) == nm * nn * nk
  {
    assert nk * (i * nn + j) + nk == nk * (i * nn + j + 1);
    assert i * nn + nn == (i + 1) * nn;
    assert nk * (nm * nn) == nm * nn * nk;
  }

  /** A table as the script emits it for dims (dm, dn, dk). */
  ghost predicate IsTable(dm: seq<int>, dn: seq<int>, dk: seq<int>, table: seq<Kernel>)
  {
    |table| == |dm| * |dn| * |dk| && TablePrefix(dm, dn, dk, table)
  }

  /** The first |table| entries of that table. */
  ghost predicate TablePrefix(dm: seq<int>, dn: seq<int>, dk: seq<int>, table: seq<Kernel>)
  {
    |table| <= |dm| * |dn| * |dk|
    && forall t :: 0 <= t < |table| ==> table[t] == Entry(dm, dn, dk, t)
  }

  /** Printing kernel (i, j, k) at position Flat(i, j, k) extends the prefix. */
  lemma AppendEntry(dm: seq<int>, dn: seq<int>, dk: seq<int>, table: seq<Kernel>, i: nat, j: nat, k: nat)
    requires i < |dm| && j < |dn| && k < |dk|
    requires TablePrefix(dm, dn, dk, table) && |table| == Flat(i, j, k, |dn|, |dk|)
    ensures TablePrefix(dm, dn, dk, table + [Kernel(dm[i], dn[j], dk[k])])
  {
    EntryAt(dm, dn, dk, i, j, k);
  }

  /** The loops that print the function table: m outer, n middle, k inner. */
  method EmitTable(dm: seq<int>, dn: seq<int>, dk: seq<int>) returns (table: seq<Kernel>)
    ensures IsTable(dm, dn, dk, table)
    ensures forall i, j, k :: 0 <= i < |dm| && 0 <= j < |dn| && 0 <= k < |dk| ==>
              Flat(i, j, k, |dn|, |dk|) < |table| &&
              table[Flat(i, j, k, |dn|, |dk|)] == Kernel(dm[i], dn[j], dk[k])
  {
    var nm, nn, nk := |dm|, |dn|, |dk|;
    table := [];
    var i := 0;
    while i < nm
      invariant 0 <= i <= nm
      invariant |table| == Flat(i, 0, 0, nn, nk) && TablePrefix(dm, dn, dk, table)
    {
      var j := 0;
      while j < nn
        invariant 0 <= j <= nn
        invariant |table| == Flat(i, j, 0, nn, nk) && TablePrefix(dm, dn, dk, table)
      {
        var k := 0;
        while k < nk
          invariant 0 <= k <= nk
          invariant |table| == Flat(i, j, k, nn, nk) && TablePrefix(dm, dn, dk, table)
        {
          AppendEntry(dm, dn, dk, table, i, j, k);
          table := table + [Kernel(dm[i], dn[j], dk[k])];
          k := k + 1;
        }
        FlatSteps(i, j, nm, nn, nk);
        j := j + 1;
      }
      FlatSteps(i, j, nm, nn, nk);
      i := i + 1;
    }
    FlatSteps(i, 0, nm, nn, nk);
    forall i, j, k | 0 <= i < nm && 0 <= j < nn && 0 <= k < nk
      ensures Flat(i, j, k, nn, nk) < |table| && table[Flat(i, j, k, nn, nk)] == Kernel(dm[i], dn[j], dk[k])
    {
      EntryAt(dm, dn, dk, i, j, k);
    }
  }

  /* ----------------------------------------------------------------------
   * The emitted lookup and wrapper
   * -------------------------------------------------------------------- */

  /** dc_smm_dnn_function with the NULL result of bsearch detected: the
    * kernel for (M, N, K), or none. */
  function Lookup(dm: seq<int>, dn: seq<int>, dk: seq<int>, table: seq<Kernel>,
                  M: int, N: int, K: int): (r: Option<Kernel>)
    requires |table| == |dm| * |dn| * |dk|
    ensures r.Some? ==> M in dm && N in dn && K in dk && r.value in table
  {
    match (BSearch(dm, M), BSearch(dn, N), BSearch(dk, K))
    case (Some(i), Some(j), Some(k)) =>
      FlatSplit(i, j, k, |dm|, |dn|, |dk|);
      Some(table[Flat(i, j, k, |dn|, |dk|)])
    case _ => None
  }

  /** The lookup finds the kernel for exactly the generated dimensions. */
  lemma LookupCorrect(dm: seq<int>, dn: seq<int>, dk: seq<int>, table: seq<Kernel>,
                      M: int, N: int, K: int)
    requires StrictlySorted(dm) && StrictlySorted(dn) && StrictlySorted(dk)
    requires IsTable(dm, dn, dk, table)
    ensures Lookup(dm, dn, dk, table, M, N, K)
         == if M in dm && N in dn && K in dk then Some(Kernel(M, N, K)) else None
  {
    BSearchFinds(dm, M);
    BSearchFinds(dn, N);
    BSearchFinds(dk, K);
    if M in dm && N in dn && K in dk {
      var i, j, k := BSearch(dm, M).value, BSearch(dn, N).value, BSearch(dk, K).value;
      FlatSplit(i, j, k, |dm|, |dn|, |dk|);
      assert table[Flat(i, j, k, |dn|, |dk|)] == Entry(dm, dn, dk, Flat(i, j, k, |dn|, |dk|));
    }
  }

  /** What dc_smm_dnn_function as emitted does. */
  datatype LookupResult = Found(kernel: Kernel) | NotFound | OutOfBounds(index: int)

  /** The index the emitted code takes from bsearch: the position of the
    * match, or `(int*)NULL - index_x`, which it treats as an int like any
    * other. `nullIndex` is that difference after its conversion to int; it
    * depends on where the array sits, so each array has its own. */
  function FoundIndex(a: seq<int>, key: int, nullIndex: int): int
  {
    match BSearch(a, key)
    case Some(i) => i
    case None => nullIndex
  }

  /** dc_smm_dnn_function as emitted: each index is only checked against
    * its upper bound before the table is indexed. */
  function LookupAsWritten(dm: seq<int>, dn: seq<int>, dk: seq<int>, table: seq<Kernel>,
                           M: int, N: int, K: int, nullM: int, nullN: int, nullK: int): (r: LookupResult)
    ensures r.Found? ==> r.kernel in table
  {
    var m := FoundIndex(dm, M, nullM);
    var n := FoundIndex(dn, N, nullN);
    var k := FoundIndex(dk, K, nullK);
    if m < |dm| && n < |dn| && k < |dk| then
      var t := |dk| * (m * |dn| + n) + k;
      if 0 <= t < |table| then Found(table[t]) else OutOfBounds(t)
    else NotFound
  }

  /** Off the defect the emitted lookup agrees with the corrected one: when
    * all three dimensions were generated, it returns their kernel. */
  lemma LookupAsWrittenAgrees(dm: seq<int>, dn: seq<int>, dk: seq<int>, table: seq<Kernel>,
                              M: int, N: int, K: int, nullM: int, nullN: int, nullK: int)
    requires StrictlySorted(dm) && StrictlySorted(dn) && StrictlySorted(dk)
    requires IsTable(dm, dn, dk, table)
    requires M in dm && N in dn && K in dk
    ensures LookupAsWritten(dm, dn, dk, table, M, N, K, nullM, nullN, nullK) == Found(Kernel(M, N, K))
    ensures Lookup(dm, dn, dk, table, M, N, K) == Some(Kernel(M, N, K))
  {
    LookupCorrect(dm, dn, dk, table, M, N, K);
    BSearchFinds(dm, M);
    BSearchFinds(dn, N);
    BSearchFinds(dk, K);
    var i, j, k := BSearch(dm, M).value, BSearch(dn, N).value, BSearch(dk, K).value;
    FlatSplit(i, j, k, |dm|, |dn|, |dk|);
    assert table[Flat(i, j, k, |dn|, |dk|)] == Entry(dm, dn, dk, Flat(i, j, k, |dn|, |dk|));
  }

  /** When NULL minus the M array comes out negative, it passes the `< nm`
    * test, and a missing M is not reported as missing. */
  lemma MissingDimNotDetected(dm: seq<int>, dn: seq<int>, dk: seq<int>, table: seq<Kernel>,
                              M: int, N: int, K: int, nullM: int, nullN: int, nullK: int)
    requires StrictlySorted(dm) && StrictlySorted(dn) && StrictlySorted(dk)
    requires IsTable(dm, dn, dk, table)
    requires nullM < 0 && M !in dm && N in dn && K in dk
    ensures !LookupAsWritten(dm, dn, dk, table, M, N, K, nullM, nullN, nullK).NotFound?
    ensures Lookup(dm, dn, dk, table, M, N, K) == None
  {
    BSearchFinds(dm, M);
    BSearchFinds(dn, N);
    BSearchFinds(dk, K);
    LookupCorrect(dm, dn, dk, table, M, N, K);
  }

  /** One generated kernel, M = 2 asked for: whatever negative value
    * NULL minus index_m takes, the emitted code indexes the table with it
    * instead of falling back. */
  lemma MissingDimReadsOutOfBounds(nullM: int, nullN: int, nullK: int)
    requires nullM < 0
    ensures LookupAsWritten([1], [1], [1], [Kernel(1, 1, 1)], 2, 1, 1, nullM, nullN, nullK) == OutOfBounds(nullM)
    ensures Lookup([1], [1], [1], [Kernel(1, 1, 1)], 2, 1, 1) == None
  {
    assert BSearch([1], 2) == None;
    assert BSearch([1], 1) == Some(0);
  }

  lemma LoadDimsOneEight()
    ensures LoadDims([1, 8]) == [1, 8]
  {
    assert [1, 8][..1] == [1];
    assert [1][..0] == [];
    assert LoadDims([1]) == [1];
  }

  lemma SlotOrderOneEight()
    ensures FromSlot([1, 8], 0) == [8, 1]
  {
    var d := [1, 8];
    assert d[1..] == [8];
    assert InSlot(d, 0) == [8] by {
      assert InSlot([8], 0) == [8] + InSlot([], 0);
    }
    assert InSlot(d, 1) == [1] by {
      assert InSlot([8], 1) == InSlot([], 1);
    }
    assert FromSlot(d, 2) == [];
  }

  lemma OneEightSmall()
    ensures SmallTable([1, 8])
  {
    LoadDimsOneEight();
  }

  /** The two dimension values 1 and 8 share no slot, and the set yields 8
    * first: the emitted array is not sorted and bsearch misses 8. */
  lemma SetOrderBreaksSearch()
    ensures SmallTable([1, 8])
    ensures LoadDimsAsWritten([1, 8]) == [8, 1] && !StrictlySorted([8, 1])
    ensures 8 in LoadDimsAsWritten([1, 8]) && BSearch([8, 1], 8) == None
    ensures LoadDims([1, 8]) == [1, 8] && BSearch(LoadDims([1, 8]), 8) == Some(1)
  {
    OneEightSmall();
    LoadDimsOneEight();
    SlotOrderOneEight();
    assert [8, 1][0] > [8, 1][1];
    assert BSearchIn([8, 1], 8, 2, 2) == None;
    assert BSearchIn([1, 8], 8, 0, 2) == Some(1);
  }

  /** Storage order of the CBLAS fallback. */
  datatype Order = RowMajor | ColMajor

  /** A call of cblas_dgemm with no transposes, alpha = beta = 1. */
  datatype Gemm = Gemm(order: Order, m: int, n: int, k: int, lda: int, ldb: int, ldc: int)

  /** Leading dimensions CBLAS accepts for C(m x n) += A(m x k) * B(k x n):
    * at least the row length in row-major order, the column length in
    * column-major order. */
  predicate LegalGemm(g: Gemm)
  {
    match g.order
    case RowMajor => g.lda >= g.k && g.ldb >= g.n && g.ldc >= g.n
    case ColMajor => g.lda >= g.m && g.ldb >= g.k && g.ldc >= g.m
  }

  function OrderOf(rowMajor: int): Order
  {
    if rowMajor != 0 then RowMajor else ColMajor
  }

  /** The fallback as emitted: the row-major leading dimensions K, N, N in
    * either order. */
  function FallbackAsWritten(rowMajor: int, M: int, N: int, K: int): (g: Gemm)
    ensures g.order == OrderOf(rowMajor) && g.m == M && g.n == N && g.k == K
  {
    Gemm(OrderOf(rowMajor), M, N, K, K, N, N)
  }

  /** The fallback with the leading dimensions of the chosen order. */
  function Fallback(rowMajor: int, M: int, N: int, K: int): (g: Gemm)
    ensures g.order == OrderOf(rowMajor) && g.m == M && g.n == N && g.k == K
    ensures g.order == RowMajor ==> g == FallbackAsWritten(rowMajor, M, N, K)
    ensures LegalGemm(g)
  {
    match OrderOf(rowMajor)
    case RowMajor => Gemm(RowMajor, M, N, K, K, N, N)
    case ColMajor => Gemm(ColMajor, M, N, K, M, K, M)
  }

  /** A 4 x 1 result from a 4 x 1 by 1 x 1 product in column-major order:
    * the emitted call passes lda = 1 for a 4-row A. */
  lemma ColMajorFallbackIllegal()
    ensures !LegalGemm(FallbackAsWritten(0, 4, 1, 1))
    ensures LegalGemm(Fallback(0, 4, 1, 1))
  {
  }

  /** What xsmm_dnn does for (M, N, K). */
  datatype Call = RunKernel(kernel: Kernel) | Blas(gemm: Gemm)

  /** The generated interface: sorted dimension lists, the kernel table and
    * the RowMajor flag. */
  datatype Interface = Interface(dm: seq<int>, dn: seq<int>, dk: seq<int>,
                                 table: seq<Kernel>, rowMajor: int)

  ghost predicate ValidInterface(x: Interface)
  {
    StrictlySorted(x.dm) && StrictlySorted(x.dn) && StrictlySorted(x.dk)
    && IsTable(x.dm, x.dn, x.dk, x.table)
  }

  function XsmmDnn(x: Interface, M: int, N: int, K: int): (r: Call)
    requires |x.table| == |x.dm| * |x.dn| * |x.dk|
    ensures r.RunKernel? ==> r.kernel in x.table && M in x.dm && N in x.dn && K in x.dk
    ensures r.Blas? ==> r.gemm.m == M && r.gemm.n == N && r.gemm.k == K && LegalGemm(r.gemm)
  {
    match Lookup(x.dm, x.dn, x.dk, x.table, M, N, K)
    case Some(kernel) => RunKernel(kernel)
    case None => Blas(Fallback(x.rowMajor, M, N, K))
  }

  /** The script end to end: the command line in, the interface out. */
  method GenerateInterface(argv: seq<int>) returns (r: Result<Interface, string>)
    ensures r.Err? <==> |argv| < 4
    ensures r.Ok? ==> ValidInterface(r.value)
    ensures r.Ok? ==> var raw := SplitArgv(argv).value;
      r.value.rowMajor == argv[3]
      && (forall y :: y in r.value.dm <==> y in raw.m)
      && (forall y :: y in r.value.dn <==> y in raw.n)
      && (forall y :: y in r.value.dk <==> y in raw.k)
  {
    var raw := SplitArgv(argv);
    if raw.Err? {
      return Err(raw.error);
    }
    var dm := LoadDims(raw.value.m);
    var dn := LoadDims(raw.value.n);
    var dk := LoadDims(raw.value.k);
    var table := EmitTable(dm, dn, dk);
    r := Ok(Interface(dm, dn, dk, table, raw.value.rowMajor));
  }

  /** xsmm_dnn runs the generated kernel for exactly the generated
    * dimensions and falls back to dgemm in the chosen order otherwise. */
  lemma DispatchCorrect(x: Interface, M: int, N: int, K: int)
    requires ValidInterface(x)
    ensures M in x.dm && N in x.dn && K in x.dk ==> XsmmDnn(x, M, N, K) == RunKernel(Kernel(M, N, K))
    ensures !(M in x.dm && N in x.dn && K in x.dk) ==>
              XsmmDnn(x, M, N, K) == Blas(Fallback(x.rowMajor, M, N, K))
  {
    LookupCorrect(x.dm, x.dn, x.dk, x.table, M, N, K);
  }
}
