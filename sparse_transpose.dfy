/*
 * The sparse "transpose" of the embedding-bag sample (sparse_adagrad.cpp):
 * per-sample index lists in CSR form (offsets, indices) are regrouped into
 * one group per distinct index (mb_offsets, mb_indices, wt_indices), plus
 * the generator of the random CSR input and init_zero.
 */
module SparseTranspose {

  /** One element of tmpBuf: (first, second) = (embedding index, sample row). */
  datatype Entry = Entry(index: int, row: int)

  // ---------------------------------------------------------------------
  // CSR input and the gathered pairs
  // ---------------------------------------------------------------------

  /** offsets has N + 1 entries, starts at 0, never decreases and ends at NS = |indices|. */
  predicate WellFormed(offsets: seq<int>, indices: seq<int>) {
    |offsets| >= 1 && offsets[0] == 0 && offsets[|offsets| - 1] == |indices| &&
    forall i, j :: 0 <= i <= j < |offsets| ==> offsets[i] <= offsets[j]
  }

  /** The index list of sample i. */
  function SampleIndices(offsets: seq<int>, indices: seq<int>, i: nat): seq<int>
    requires WellFormed(offsets, indices) && i + 1 < |offsets|
  {
    indices[offsets[i]..offsets[i + 1]]
  }

  /** Every element of s, paired with the sample row. */
  function Tag(s: seq<int>, row: int): (r: seq<Entry>)
    ensures |r| == |s|
  {
    seq(|s|, k requires 0 <= k < |s| => Entry(s[k], row))
  }

  /** The pairs the first loop of sparse_transpose writes for samples 0 .. i-1. */
  function GatherUpTo(offsets: seq<int>, indices: seq<int>, i: nat): (r: seq<Entry>)
    requires WellFormed(offsets, indices) && i < |offsets|
    ensures |r| == offsets[i]
  {
    if i == 0 then [] else GatherUpTo(offsets, indices, i - 1) + Tag(SampleIndices(offsets, indices, i - 1), i - 1)
  }

  /** The whole of tmpBuf before sorting. */
  function Gathered(offsets: seq<int>, indices: seq<int>): (r: seq<Entry>)
    requires WellFormed(offsets, indices)
    ensures |r| == |indices|
  {
    GatherUpTo(offsets, indices, |offsets| - 1)
  }

  /** Position j of tmpBuf holds indices[j] and the sample whose segment contains j. */
  lemma {:induction false} GatheredAt(offsets: seq<int>, indices: seq<int>, i: nat, j: int)
    requires WellFormed(offsets, indices) && i + 1 < |offsets| && offsets[i] <= j < offsets[i + 1]
    ensures Gathered(offsets, indices)[j] == Entry(indices[j], i)
  {
    GatherUpToAt(offsets, indices, |offsets| - 1, i, j);
  }

  lemma {:induction false} GatherUpToAt(offsets: seq<int>, indices: seq<int>, n: nat, i: nat, j: int)
    requires WellFormed(offsets, indices) && n < |offsets| && i < n && offsets[i] <= j < offsets[i + 1]
    ensures GatherUpTo(offsets, indices, n)[j] == Entry(indices[j], i)
  {
    if i == n - 1 {
    } else {
      GatherUpToAt(offsets, indices, n - 1, i, j);
    }
  }

  /**
   * The number of times the pair (w, r) occurs in tmpBuf is the number of
   * times w occurs in the index list of sample r.
   */
  lemma {:induction false} GatheredCount(offsets: seq<int>, indices: seq<int>, w: int, r: int)
    requires WellFormed(offsets, indices)
    ensures multiset(Gathered(offsets, indices))[Entry(w, r)] ==
            if 0 <= r < |offsets| - 1 then multiset(SampleIndices(offsets, indices, r))[w] else 0
  {
    GatherUpToCount(offsets, indices, |offsets| - 1, w, r);
  }

  lemma {:induction false} GatherUpToCount(offsets: seq<int>, indices: seq<int>, n: nat, w: int, r: int)
    requires WellFormed(offsets, indices) && n < |offsets|
    ensures multiset(GatherUpTo(offsets, indices, n))[Entry(w, r)] ==
            if 0 <= r < n then multiset(SampleIndices(offsets, indices, r))[w] else 0
  {
    if n > 0 {
      var prev, seg := GatherUpTo(offsets, indices, n - 1), SampleIndices(offsets, indices, n - 1);
      assert multiset(GatherUpTo(offsets, indices, n)) == multiset(prev) + multiset(Tag(seg, n - 1));
      GatherUpToCount(offsets, indices, n - 1, w, r);
      TagCount(seg, n - 1, w, r);
    }
  }

  lemma {:induction false} TagCount(s: seq<int>, row: int, w: int, r: int)
    ensures multiset(Tag(s, row))[Entry(w, r)] == if r == row then multiset(s)[w] else 0
  {
    if s != [] {
      var init := s[..|s| - 1];
      assert s == init + [s[|s| - 1]];
      assert Tag(s, row) == Tag(init, row) + [Entry(s[|s| - 1], row)];
      TagCount(init, row, w, r);
    }
  }

  /** The nested loop of sparse_transpose that fills tmpBuf. */
  method Gather(offsets: seq<int>, indices: seq<int>) returns (tmp: seq<Entry>)
    requires WellFormed(offsets, indices)
    ensures tmp == Gathered(offsets, indices)
  {
    var buf := new Entry[|indices|](_ => Entry(0, 0));
    for i := 0 to |offsets| - 1
      invariant buf[..offsets[i]] == GatherUpTo(offsets, indices, i)
    {
      ghost var done := GatherUpTo(offsets, indices, i);
      ghost var seg := Tag(SampleIndices(offsets, indices, i), i);
      for j := offsets[i] to offsets[i + 1]
        invariant buf[..j] == done + seg[..j - offsets[i]]
      {
        buf[j] := Entry(indices[j], i);
        assert buf[..j + 1] == buf[..j] + [buf[j]];
        assert seg[..j + 1 - offsets[i]] == seg[..j - offsets[i]] + [seg[j - offsets[i]]];
      }
      assert seg[..offsets[i + 1] - offsets[i]] == seg;
    }
    assert buf[..] == buf[..offsets[|offsets| - 1]];
    tmp := buf[..];
  }

  // ---------------------------------------------------------------------
  // Grouping the sorted pairs
  // ---------------------------------------------------------------------

  /** The order __gnu_parallel::sort establishes: ascending by index, rows in any order. */
  predicate SortedByIndex(s: seq<Entry>) {
    forall i, j :: 0 <= i < j < |s| ==> s[i].index <= s[j].index
  }

  /** The number of positions 1 <= l < i where the index differs from its predecessor. */
  function Changes(s: seq<Entry>, i: nat): nat
    requires i <= |s|
  {
    if i <= 1 then 0 else Changes(s, i - 1) + (if s[i - 1].index != s[i - 2].index then 1 else 0)
  }

  lemma {:induction false} ChangesMonotone(s: seq<Entry>, i: nat, j: nat)
    requires i <= j <= |s|
    ensures Changes(s, i) <= Changes(s, j)
  {
    if i < j {
      ChangesMonotone(s, i, j - 1);
    }
  }

  /**
   * U groups over buf: mbOffsets climbs strictly from 0 to |buf|, wtIndices
   * climbs strictly, and every pair of group v carries index wtIndices[v].
   */
  predicate Groups(buf: seq<Entry>, U: nat, mbOffsets: seq<int>, wtIndices: seq<int>) {
    |mbOffsets| == U + 1 && |wtIndices| == U && mbOffsets[0] == 0 && mbOffsets[U] == |buf| &&
    (forall v, v' :: 0 <= v < v' <= U ==> mbOffsets[v] < mbOffsets[v']) &&
    (forall v, v' :: 0 <= v < v' < U ==> wtIndices[v] < wtIndices[v']) &&
    (forall v, l :: 0 <= v < U && mbOffsets[v] <= l < mbOffsets[v + 1] && 0 <= l < |buf| ==> buf[l].index == wtIndices[v])
  }

  /** State of the filling loop after i pairs: the groups so far, the last one still open. */
  predicate Filled(buf: seq<Entry>, i: nat, offs: seq<int>, wt: seq<int>)
    requires i <= |buf|
  {
    |offs| == |wt| >= 1 && offs[0] == 0 && offs[|offs| - 1] < i &&
    (forall v, v' :: 0 <= v < v' < |offs| ==> offs[v] < offs[v']) &&
    (forall v, v' :: 0 <= v < v' < |wt| ==> wt[v] < wt[v']) &&
    (forall v, l :: 0 <= v < |offs| - 1 && offs[v] <= l < offs[v + 1] && 0 <= l < i ==> buf[l].index == wt[v]) &&
    (forall l :: offs[|offs| - 1] <= l < i && 0 <= l ==> buf[l].index == wt[|wt| - 1])
  }

  lemma FilledSame(buf: seq<Entry>, i: nat, offs: seq<int>, wt: seq<int>)
    requires 1 <= i < |buf| && Filled(buf, i, offs, wt) && buf[i].index == buf[i - 1].index
    ensures Filled(buf, i + 1, offs, wt)
  {
    assert buf[i - 1].index == wt[|wt| - 1];
  }

  lemma FilledNew(buf: seq<Entry>, i: nat, offs: seq<int>, wt: seq<int>)
    requires SortedByIndex(buf) && 1 <= i < |buf| && Filled(buf, i, offs, wt) && buf[i].index != buf[i - 1].index
    ensures Filled(buf, i + 1, offs + [i], wt + [buf[i].index])
  {
    assert buf[i - 1].index == wt[|wt| - 1];
    var offs', wt' := offs + [i], wt + [buf[i].index];
    forall v, l | 0 <= v < |offs'| - 1 && offs'[v] <= l < offs'[v + 1] && 0 <= l < i + 1
      ensures buf[l].index == wt'[v]
    {
      if v == |offs| - 1 {
        assert buf[l].index == wt[|wt| - 1];
      }
    }
  }

  lemma FilledDone(buf: seq<Entry>, offs: seq<int>, wt: seq<int>)
    requires Filled(buf, |buf|, offs, wt)
    ensures Groups(buf, |wt|, offs + [|buf|], wt)
  {
    var offs' := offs + [|buf|];
    forall v, l | 0 <= v < |wt| && offs'[v] <= l < offs'[v + 1] && 0 <= l < |buf|
      ensures buf[l].index == wt[v]
    {
      if v == |wt| - 1 {
        assert buf[l].index == wt[|wt| - 1];
      }
    }
  }

  /** The counting loop of sparse_transpose: one group, plus one per index change. */
  method CountGroups(buf: seq<Entry>) returns (U: nat)
    requires |buf| >= 1
    ensures U == 1 + Changes(buf, |buf|)
  {
    U := 1;
    for i := 1 to |buf|
      invariant U == 1 + Changes(buf, i)
    {
      if buf[i].index != buf[i - 1].index {
        U := U + 1;
      }
    }
  }

  /** The start of each group among the first i sorted pairs: 0 and every index change. */
  function Starts(buf: seq<Entry>, i: nat): (r: seq<int>)
    requires i <= |buf|
    ensures |r| == if i == 0 then 0 else 1 + Changes(buf, i)
  {
    if i == 0 then []
    else Starts(buf, i - 1) + (if i == 1 || buf[i - 1].index != buf[i - 2].index then [i - 1] else [])
  }

  /** The index of each group among the first i sorted pairs. */
  function Keys(buf: seq<Entry>, i: nat): (r: seq<int>)
    requires i <= |buf|
    ensures |r| == if i == 0 then 0 else 1 + Changes(buf, i)
  {
    if i == 0 then []
    else Keys(buf, i - 1) + (if i == 1 || buf[i - 1].index != buf[i - 2].index then [buf[i - 1].index] else [])
  }

  /** One step of the filling loop, whichever way pair i goes. */
  lemma FilledStep(buf: seq<Entry>, i: nat, offs: seq<int>, wt: seq<int>, offs': seq<int>, wt': seq<int>)
    requires SortedByIndex(buf) && 1 <= i < |buf| && Filled(buf, i, offs, wt)
    requires buf[i].index != buf[i - 1].index ==> offs' == offs + [i] && wt' == wt + [buf[i].index]
    requires buf[i].index == buf[i - 1].index ==> offs' == offs && wt' == wt
    ensures Filled(buf, i + 1, offs', wt')
  {
    if buf[i].index != buf[i - 1].index {
      FilledNew(buf, i, offs, wt);
    } else {
      FilledSame(buf, i, offs, wt);
    }
  }

  /** Starts and Keys describe the groups of the first i pairs, the last one still open. */
  lemma {:induction false} StartsFilled(buf: seq<Entry>, i: nat)
    requires SortedByIndex(buf) && 1 <= i <= |buf|
    ensures Filled(buf, i, Starts(buf, i), Keys(buf, i))
  {
    if i > 1 {
      StartsFilled(buf, i - 1);
      FilledStep(buf, i - 1, Starts(buf, i - 1), Keys(buf, i - 1), Starts(buf, i), Keys(buf, i));
    } else {
      assert Starts(buf, 1) == [0] && Keys(buf, 1) == [buf[0].index];
    }
  }

  /** Sorted pairs split into U = 1 + Changes groups as Starts and Keys say. */
  lemma SortedGroups(buf: seq<Entry>)
    requires SortedByIndex(buf) && |buf| >= 1
    ensures Groups(buf, 1 + Changes(buf, |buf|), Starts(buf, |buf|) + [|buf|], Keys(buf, |buf|))
  {
    StartsFilled(buf, |buf|);
    FilledDone(buf, Starts(buf, |buf|), Keys(buf, |buf|));
  }

  /**
   * The counting loop and the filling loop of sparse_transpose.  U is 1 plus
   * the number of index changes; mbOffsets holds the start of each run of
   * equal indices and then NS, wtIndices the index of each run, and
   * mbIndices the rows in order.  On sorted pairs the runs are the groups
   * (SortedGroups).
   */
  method GroupSorted(buf: seq<Entry>) returns (U: nat, mbOffsets: seq<int>, mbIndices: seq<int>, wtIndices: seq<int>)
    requires |buf| >= 1
    ensures U == 1 + Changes(buf, |buf|) == |wtIndices| == |mbOffsets| - 1
    ensures mbOffsets == Starts(buf, |buf|) + [|buf|] && wtIndices == Keys(buf, |buf|) && mbIndices == Rows(buf)
  {
    var NS := |buf|;
    U := CountGroups(buf);
    var offs, idx, wt := [0], [buf[0].row], [buf[0].index];
    var u := 0;
    for i := 1 to NS
      invariant u == Changes(buf, i) && |offs| == u + 1
      invariant offs == Starts(buf, i) && wt == Keys(buf, i)
      invariant idx == Rows(buf)[..i]
    {
      idx := idx + [buf[i].row];
      if buf[i].index != buf[i - 1].index {
        u := u + 1;
        wt := wt + [buf[i].index];
        offs := offs + [i];
      }
    }
    assert u + 1 == U;
    U, mbOffsets, mbIndices, wtIndices := U, offs + [NS], idx, wt;
  }

  /** Every pair lies in some group, so its index is one of wtIndices. */
  lemma GroupsCover(buf: seq<Entry>, U: nat, mbOffsets: seq<int>, wtIndices: seq<int>, l: int)
    requires Groups(buf, U, mbOffsets, wtIndices) && 0 <= l < |buf|
    ensures buf[l].index in wtIndices
  {
    assert WellFormed(mbOffsets, Rows(buf));
    var v := SampleOf(mbOffsets, Rows(buf), l);
    assert buf[l].index == wtIndices[v];
  }

  /**
   * Within the sorted pairs, position l carries index wtIndices[u] exactly
   * when l lies in group u.
   */
  lemma GroupExact(buf: seq<Entry>, U: nat, mbOffsets: seq<int>, wtIndices: seq<int>, u: nat, l: int)
    requires SortedByIndex(buf) && Groups(buf, U, mbOffsets, wtIndices) && u < U && 0 <= l < |buf|
    ensures buf[l].index == wtIndices[u] <==> mbOffsets[u] <= l < mbOffsets[u + 1]
  {
    if l < mbOffsets[u] {
      var p := mbOffsets[u] - 1;
      assert mbOffsets[u - 1] < mbOffsets[u];
      assert buf[p].index == wtIndices[u - 1];
      assert wtIndices[u - 1] < wtIndices[u];
    } else if mbOffsets[u + 1] <= l {
      var p := mbOffsets[u + 1];
      assert u + 1 < U;
      assert mbOffsets[u + 1] < mbOffsets[u + 2];
      assert buf[p].index == wtIndices[u + 1];
      assert wtIndices[u] < wtIndices[u + 1];
    }
  }

  /** The rows of a run of pairs. */
  function Rows(s: seq<Entry>): (r: seq<int>)
    ensures |r| == |s|
  {
    seq(|s|, k requires 0 <= k < |s| => s[k].row)
  }

  lemma {:induction false} RowsCount(s: seq<Entry>, w: int, r: int)
    requires forall k :: 0 <= k < |s| ==> s[k].index == w
    ensures multiset(Rows(s))[r] == multiset(s)[Entry(w, r)]
  {
    if s != [] {
      var init := s[..|s| - 1];
      assert s == init + [s[|s| - 1]];
      assert Rows(s) == Rows(init) + [s[|s| - 1].row];
      RowsCount(init, w, r);
    }
  }

  /** A run with no pair of index w contributes nothing to the count of (w, r). */
  lemma AbsentCount(s: seq<Entry>, w: int, r: int)
    requires forall k :: 0 <= k < |s| ==> s[k].index != w
    ensures multiset(s)[Entry(w, r)] == 0
  {
    assert Entry(w, r) !in s;
  }

  /** Group u's bounds lie inside the buffer. */
  lemma GroupBounds(buf: seq<Entry>, U: nat, mbOffsets: seq<int>, wtIndices: seq<int>, u: nat)
    requires Groups(buf, U, mbOffsets, wtIndices) && u < U
    ensures 0 <= mbOffsets[u] <= mbOffsets[u + 1] <= |buf|
  {
    if u > 0 { assert mbOffsets[0] < mbOffsets[u]; }
    if u + 1 < U { assert mbOffsets[u + 1] < mbOffsets[U]; }
  }

  /** No pair before or after group u carries its index. */
  lemma OutsideGroupAbsent(buf: seq<Entry>, U: nat, mbOffsets: seq<int>, wtIndices: seq<int>, u: nat, r: int)
    requires SortedByIndex(buf) && Groups(buf, U, mbOffsets, wtIndices) && u < U
    requires 0 <= mbOffsets[u] <= mbOffsets[u + 1] <= |buf|
    ensures multiset(buf[..mbOffsets[u]])[Entry(wtIndices[u], r)] == 0
    ensures multiset(buf[mbOffsets[u + 1]..])[Entry(wtIndices[u], r)] == 0
  {
    var w := wtIndices[u];
    var lo, hi := mbOffsets[u], mbOffsets[u + 1];
    forall k | 0 <= k < lo ensures buf[..lo][k].index != w {
      GroupExact(buf, U, mbOffsets, wtIndices, u, k);
    }
    forall k | 0 <= k < |buf| - hi ensures buf[hi..][k].index != w {
      GroupExact(buf, U, mbOffsets, wtIndices, u, hi + k);
    }
    AbsentCount(buf[..lo], w, r);
    AbsentCount(buf[hi..], w, r);
  }

  /** The rows of group u count each r as often as the sorted pairs hold (wtIndices[u], r). */
  lemma GroupCount(buf: seq<Entry>, U: nat, mbOffsets: seq<int>, wtIndices: seq<int>, u: nat, r: int)
    requires SortedByIndex(buf) && Groups(buf, U, mbOffsets, wtIndices) && u < U
    ensures 0 <= mbOffsets[u] <= mbOffsets[u + 1] <= |buf|
    ensures multiset(Rows(buf[mbOffsets[u]..mbOffsets[u + 1]]))[r] == multiset(buf)[Entry(wtIndices[u], r)]
  {
    GroupBounds(buf, U, mbOffsets, wtIndices, u);
    var lo, hi := mbOffsets[u], mbOffsets[u + 1];
    OutsideGroupAbsent(buf, U, mbOffsets, wtIndices, u, r);
    assert buf == buf[..lo] + buf[lo..hi] + buf[hi..];
    RowsCount(buf[lo..hi], wtIndices[u], r);
  }

  /**
   * Group u lists sample r exactly as often as wtIndices[u] occurs in the
   * index list of sample r, for any sorted permutation of the gathered pairs.
   */
  lemma GroupIsSampleRows(offsets: seq<int>, indices: seq<int>, buf: seq<Entry>,
                          U: nat, mbOffsets: seq<int>, mbIndices: seq<int>, wtIndices: seq<int>, u: nat, r: int)
    requires WellFormed(offsets, indices)
    requires multiset(buf) == multiset(Gathered(offsets, indices)) && SortedByIndex(buf)
    requires Groups(buf, U, mbOffsets, wtIndices) && u < U
    requires |mbIndices| == |buf| && forall l :: 0 <= l < |buf| ==> mbIndices[l] == buf[l].row
    ensures 0 <= mbOffsets[u] <= mbOffsets[u + 1] <= |mbIndices|
    ensures multiset(mbIndices[mbOffsets[u]..mbOffsets[u + 1]])[r] ==
            if 0 <= r < |offsets| - 1 then multiset(SampleIndices(offsets, indices, r))[wtIndices[u]] else 0
  {
    GroupCount(buf, U, mbOffsets, wtIndices, u, r);
    assert mbIndices[mbOffsets[u]..mbOffsets[u + 1]] == Rows(buf[mbOffsets[u]..mbOffsets[u + 1]]);
    GatheredCount(offsets, indices, wtIndices[u], r);
  }

  /** A strictly increasing sequence has as many distinct elements as entries. */
  lemma {:induction false} StrictlyIncreasingCard(s: seq<int>)
    requires forall v, v' :: 0 <= v < v' < |s| ==> s[v] < s[v']
    ensures |set x | x in s| == |s|
  {
    if s != [] {
      var init := s[..|s| - 1];
      StrictlyIncreasingCard(init);
      assert (set x | x in s) == (set x | x in init) + {s[|s| - 1]};
      assert s[|s| - 1] !in (set x | x in init);
    }
  }

  /**
   * wtIndices holds exactly the distinct values of indices, so U is their
   * number.
   */
  lemma DistinctIndices(offsets: seq<int>, indices: seq<int>, buf: seq<Entry>,
                        U: nat, mbOffsets: seq<int>, wtIndices: seq<int>)
    requires WellFormed(offsets, indices)
    requires multiset(buf) == multiset(Gathered(offsets, indices))
    requires Groups(buf, U, mbOffsets, wtIndices)
    ensures (set x | x in wtIndices) == (set x | x in indices)
    ensures U == |set x | x in indices|
  {
    var g := Gathered(offsets, indices);
    forall x | x in wtIndices ensures x in indices {
      var v :| 0 <= v < U && wtIndices[v] == x;
      var l := mbOffsets[v];
      if v > 0 { assert mbOffsets[0] < mbOffsets[v]; }
      if v + 1 < U { assert mbOffsets[v + 1] < mbOffsets[U]; }
      assert mbOffsets[v] < mbOffsets[v + 1];
      assert buf[l].index == x;
      assert buf[l] in multiset(g);
      var j :| 0 <= j < |g| && g[j] == buf[l];
      var i := SampleOf(offsets, indices, j);
      GatheredAt(offsets, indices, i, j);
    }
    forall x | x in indices ensures x in wtIndices {
      var j :| 0 <= j < |indices| && indices[j] == x;
      var i := SampleOf(offsets, indices, j);
      GatheredAt(offsets, indices, i, j);
      assert g[j] in multiset(buf);
      var l :| 0 <= l < |buf| && buf[l] == g[j];
      GroupsCover(buf, U, mbOffsets, wtIndices, l);
    }
    StrictlyIncreasingCard(wtIndices);
  }

  /** The sample whose segment holds position j. */
  function SampleOf(offsets: seq<int>, indices: seq<int>, j: int): (i: nat)
    requires WellFormed(offsets, indices) && 0 <= j < |indices|
    ensures i + 1 < |offsets| && offsets[i] <= j < offsets[i + 1]
  {
    SampleFrom(offsets, indices, j, |offsets| - 2)
  }

  function SampleFrom(offsets: seq<int>, indices: seq<int>, j: int, i: nat): (r: nat)
    requires WellFormed(offsets, indices) && i < |offsets| - 1 && 0 <= j < offsets[i + 1]
    ensures r <= i && offsets[r] <= j < offsets[r + 1]
  {
    if offsets[i] <= j then i
    else SampleFrom(offsets, indices, j, i - 1)
  }

  /**
   * What sparse_transpose produces from (offsets, indices): one group per
   * distinct index, in ascending order of index, and group u lists each
   * sample r exactly as often as r's index list holds wtIndices[u].
   */
  predicate Transposed(offsets: seq<int>, indices: seq<int>, U: int, mbOffsets: seq<int>, mbIndices: seq<int>, wtIndices: seq<int>)
    requires WellFormed(offsets, indices)
  {
    U == |set x | x in indices| &&
    |mbOffsets| == U + 1 && |wtIndices| == U && |mbIndices| == |indices| &&
    mbOffsets[0] == 0 && mbOffsets[U] == |indices| &&
    (forall v, v' :: 0 <= v < v' <= U ==> mbOffsets[v] < mbOffsets[v']) &&
    (forall v, v' :: 0 <= v < v' < U ==> wtIndices[v] < wtIndices[v']) &&
    (set x | x in wtIndices) == (set x | x in indices) &&
    (forall l :: 0 <= l < |mbIndices| ==> 0 <= mbIndices[l] < |offsets| - 1) &&
    forall u, r :: 0 <= u < U && 0 <= r < |offsets| - 1 ==>
      multiset(mbIndices[mbOffsets[u]..mbOffsets[u + 1]])[r] == multiset(SampleIndices(offsets, indices, r))[wtIndices[u]]
  }

  /**
   * Grouping any sorted permutation of the gathered pairs yields the
   * transpose of the CSR input.
   */
  lemma TransposeCorrect(offsets: seq<int>, indices: seq<int>, sorted: seq<Entry>)
    requires WellFormed(offsets, indices) && |indices| >= 1
    requires multiset(sorted) == multiset(Gathered(offsets, indices)) && SortedByIndex(sorted)
    ensures |sorted| == |indices|
    ensures Transposed(offsets, indices, 1 + Changes(sorted, |sorted|), Starts(sorted, |sorted|) + [|sorted|],
                       Rows(sorted), Keys(sorted, |sorted|))
  {
    assert |sorted| == |multiset(sorted)| == |Gathered(offsets, indices)|;
    var U, mo, mi, wi := 1 + Changes(sorted, |sorted|), Starts(sorted, |sorted|) + [|sorted|], Rows(sorted), Keys(sorted, |sorted|);
    SortedGroups(sorted);
    GroupsTransposed(offsets, indices, sorted, U, mo, mi, wi);
  }

  /** Groups of a sorted permutation of the gathered pairs form the transpose. */
  lemma GroupsTransposed(offsets: seq<int>, indices: seq<int>, buf: seq<Entry>,
                         U: nat, mbOffsets: seq<int>, mbIndices: seq<int>, wtIndices: seq<int>)
    requires WellFormed(offsets, indices) && |buf| == |indices|
    requires multiset(buf) == multiset(Gathered(offsets, indices)) && SortedByIndex(buf)
    requires Groups(buf, U, mbOffsets, wtIndices) && mbIndices == Rows(buf)
    ensures Transposed(offsets, indices, U, mbOffsets, mbIndices, wtIndices)
  {
    DistinctIndices(offsets, indices, buf, U, mbOffsets, wtIndices);
    RowsInRange(offsets, indices, buf);
    AllGroupsAreSampleRows(offsets, indices, buf, U, mbOffsets, mbIndices, wtIndices);
  }

  /** Every pair of a permutation of the gathered pairs names a sample in [0, N). */
  lemma RowsInRange(offsets: seq<int>, indices: seq<int>, buf: seq<Entry>)
    requires WellFormed(offsets, indices)
    requires multiset(buf) == multiset(Gathered(offsets, indices))
    ensures forall l :: 0 <= l < |Rows(buf)| ==> 0 <= Rows(buf)[l] < |offsets| - 1
  {
    var g := Gathered(offsets, indices);
    forall l | 0 <= l < |Rows(buf)|
      ensures 0 <= Rows(buf)[l] < |offsets| - 1
    {
      assert buf[l] in multiset(g);
      var j :| 0 <= j < |g| && g[j] == buf[l];
      GatheredAt(offsets, indices, SampleOf(offsets, indices, j), j);
    }
  }

  lemma AllGroupsAreSampleRows(offsets: seq<int>, indices: seq<int>, buf: seq<Entry>,
                               U: nat, mbOffsets: seq<int>, mbIndices: seq<int>, wtIndices: seq<int>)
    requires WellFormed(offsets, indices)
    requires multiset(buf) == multiset(Gathered(offsets, indices)) && SortedByIndex(buf)
    requires Groups(buf, U, mbOffsets, wtIndices) && mbIndices == Rows(buf)
    ensures forall v, r :: 0 <= v < U && 0 <= r < |offsets| - 1 ==>
              multiset(mbIndices[mbOffsets[v]..mbOffsets[v + 1]])[r] == multiset(SampleIndices(offsets, indices, r))[wtIndices[v]]
  {
    forall v, r | 0 <= v < U && 0 <= r < |offsets| - 1
      ensures multiset(mbIndices[mbOffsets[v]..mbOffsets[v + 1]])[r] == multiset(SampleIndices(offsets, indices, r))[wtIndices[v]]
    {
      GroupIsSampleRows(offsets, indices, buf, U, mbOffsets, mbIndices, wtIndices, v, r);
    }
  }

  // ---------------------------------------------------------------------
  // The sort stand-in
  // ---------------------------------------------------------------------

  /** Insertion by key; stands for the library sorts, whose only promise used here is their result. */
  function Insert<T>(x: T, s: seq<T>, key: T -> int): (r: seq<T>)
    ensures multiset(r) == multiset(s) + multiset{x}
    ensures |r| == |s| + 1
  {
    if s == [] || key(x) <= key(s[0]) then [x] + s
    else
      assert s == [s[0]] + s[1..];
      [s[0]] + Insert(x, s[1..], key)
  }

  predicate SortedBy<T>(s: seq<T>, key: T -> int) {
    forall i, j :: 0 <= i < j < |s| ==> key(s[i]) <= key(s[j])
  }

  lemma {:induction false} InsertSorted<T>(x: T, s: seq<T>, key: T -> int)
    requires SortedBy(s, key)
    ensures SortedBy(Insert(x, s, key), key)
    ensures forall y :: y in Insert(x, s, key) ==> y == x || y in s
  {
    if s != [] && key(s[0]) < key(x) {
      InsertSorted(x, s[1..], key);
      var r := Insert(x, s[1..], key);
      forall y | y in r ensures key(s[0]) <= key(y) {
        if y != x { assert y in s[1..]; }
      }
    }
  }

  function SortBy<T>(s: seq<T>, key: T -> int): (r: seq<T>)
    ensures multiset(r) == multiset(s)
    ensures |r| == |s|
  {
    if s == [] then [] else
      assert s == [s[0]] + s[1..];
      Insert(s[0], SortBy(s[1..], key), key)
  }

  lemma {:induction false} SortBySorted<T>(s: seq<T>, key: T -> int)
    ensures SortedBy(SortBy(s, key), key)
  {
    if s != [] {
      SortBySorted(s[1..], key);
      InsertSorted(s[0], SortBy(s[1..], key), key);
    }
  }

  function EntryIndex(e: Entry): int { e.index }

  function Identity(x: int): int { x }

  // ---------------------------------------------------------------------
  // Random input generation
  // ---------------------------------------------------------------------

  /** Segment length for one raw draw (int)(randval * P): zero becomes one. */
  function SegmentLength(cp: int): int {
    if cp == 0 then 1 else cp
  }

  /** The running sums NS the offsets loop writes. */
  function OffsetsOf(cpDraws: seq<nat>): (r: seq<int>)
    ensures |r| == |cpDraws| + 1 && r[0] == 0
  {
    if cpDraws == [] then [0]
    else
      var prev := OffsetsOf(cpDraws[..|cpDraws| - 1]);
      prev + [prev[|prev| - 1] + SegmentLength(cpDraws[|cpDraws| - 1])]
  }

  /**
   * The offsets loop of allocate_buffers_and_generte_rnd_input: offsets[0]
   * is 0, every segment is at least one long, and the last offset is NS.
   */
  method GenerateOffsets(cpDraws: seq<nat>) returns (offsets: seq<int>, NS: int)
    ensures offsets == OffsetsOf(cpDraws)
    ensures |offsets| == |cpDraws| + 1 && offsets[0] == 0 && offsets[|cpDraws|] == NS
    ensures forall i :: 0 <= i < |cpDraws| ==> offsets[i + 1] - offsets[i] == SegmentLength(cpDraws[i]) >= 1
  {
    var N := |cpDraws|;
    var a := new int[N + 1];
    a[0] := 0;
    NS := 0;
    for i := 1 to N + 1
      invariant a[..i] == OffsetsOf(cpDraws[..i - 1])
      invariant NS == a[i - 1]
    {
      var cp := cpDraws[i - 1];
      if cp == 0 {
        cp := 1;
      }
      NS := NS + cp;
      a[i] := NS;
      assert cpDraws[..i][..i - 1] == cpDraws[..i - 1];
      assert a[..i + 1] == a[..i] + [a[i]];
    }
    assert cpDraws[..N] == cpDraws;
    offsets := a[..];
    assert offsets == a[..N + 1];
    OffsetsSteps(cpDraws);
  }

  lemma {:induction false} OffsetsSteps(cpDraws: seq<nat>)
    ensures forall i :: 0 <= i < |cpDraws| ==>
              OffsetsOf(cpDraws)[i + 1] - OffsetsOf(cpDraws)[i] == SegmentLength(cpDraws[i])
  {
    if cpDraws != [] {
      var init := cpDraws[..|cpDraws| - 1];
      OffsetsSteps(init);
      assert forall i :: 0 <= i < |init| ==> init[i] == cpDraws[i];
    }
  }

  /** Generated offsets are strictly increasing, hence well-formed CSR offsets with NS >= N. */
  lemma {:induction false} OffsetsStrictlyIncreasing(cpDraws: seq<nat>)
    ensures forall i, j :: 0 <= i < j < |OffsetsOf(cpDraws)| ==> OffsetsOf(cpDraws)[i] < OffsetsOf(cpDraws)[j]
    ensures OffsetsOf(cpDraws)[|cpDraws|] >= |cpDraws|
  {
    if cpDraws != [] {
      OffsetsStrictlyIncreasing(cpDraws[..|cpDraws| - 1]);
    }
  }

  /** The clamp of a raw draw (ITyp)(randval * M): the value M becomes M - 1. */
  function ClampIndex(raw: int, M: int): (r: int)
    ensures 1 <= M && 0 <= raw <= M ==> 0 <= r < M
    ensures raw != M ==> r == raw
  {
    if raw == M then raw - 1 else raw
  }

  /** The clamped draws of sample n, before sorting. */
  function SegmentClamped(offsets: seq<int>, draws: seq<int>, n: nat, M: int): (r: seq<int>)
    requires WellFormed(offsets, draws) && n + 1 < |offsets|
    ensures |r| == offsets[n + 1] - offsets[n]
  {
    seq(offsets[n + 1] - offsets[n], k requires 0 <= k < offsets[n + 1] - offsets[n] =>
      ClampIndex(draws[offsets[n] + k], M))
  }

  /** Sample n's clamped draws once std::sort has ordered them. */
  function SortedSegment(offsets: seq<int>, draws: seq<int>, n: nat, M: int): (r: seq<int>)
    requires WellFormed(offsets, draws) && n + 1 < |offsets|
    ensures |r| == offsets[n + 1] - offsets[n]
  {
    SortBy(SegmentClamped(offsets, draws, n, M), Identity)
  }

  /** The indices buffer once samples 0 .. n-1 are clamped and sorted. */
  function SortedSegments(offsets: seq<int>, draws: seq<int>, M: int, n: nat): (r: seq<int>)
    requires WellFormed(offsets, draws) && n < |offsets|
    ensures |r| == offsets[n]
  {
    if n == 0 then [] else SortedSegments(offsets, draws, M, n - 1) + SortedSegment(offsets, draws, n - 1, M)
  }

  lemma {:induction false} SortedSegmentsAt(offsets: seq<int>, draws: seq<int>, M: int, m: nat, n: nat)
    requires WellFormed(offsets, draws) && m < |offsets| && n < m
    ensures SortedSegments(offsets, draws, M, m)[offsets[n]..offsets[n + 1]] == SortedSegment(offsets, draws, n, M)
  {
    var s := SortedSegments(offsets, draws, M, m);
    var prev := SortedSegments(offsets, draws, M, m - 1);
    var seg := SortedSegment(offsets, draws, m - 1, M);
    assert s == prev + seg;
    if n == m - 1 {
      SliceRight(prev, seg);
      assert s[offsets[n]..offsets[n + 1]] == seg;
    } else {
      SortedSegmentsAt(offsets, draws, M, m - 1, n);
      assert offsets[n + 1] <= offsets[m - 1];
      SliceLeft(prev, seg, offsets[n], offsets[n + 1]);
      assert s[offsets[n]..offsets[n + 1]] == prev[offsets[n]..offsets[n + 1]];
    }
  }

  lemma SliceLeft<T>(a: seq<T>, b: seq<T>, i: int, j: int)
    requires 0 <= i <= j <= |a|
    ensures (a + b)[i..j] == a[i..j]
  {
  }

  lemma SliceRight<T>(a: seq<T>, b: seq<T>)
    ensures (a + b)[|a|..] == b
  {
  }

  lemma SortedSegmentsStep(offsets: seq<int>, draws: seq<int>, M: int, n: nat, done: seq<int>, sorted: seq<int>)
    requires WellFormed(offsets, draws) && n + 1 < |offsets|
    requires done == SortedSegments(offsets, draws, M, n)
    requires sorted == SortBy(SegmentClamped(offsets, draws, n, M), Identity)
    ensures done + sorted == SortedSegments(offsets, draws, M, n + 1)
  {
  }

  /** Every element of s lies in [0, M). */
  predicate InIndexRange(s: seq<int>, M: int)
  {
    forall k :: 0 <= k < |s| ==> 0 <= s[k] < M
  }

  /** Clamping puts every draw of a segment in [0, M). */
  lemma SegmentClampedBounds(offsets: seq<int>, draws: seq<int>, n: nat, M: int)
    requires WellFormed(offsets, draws) && n + 1 < |offsets|
    requires forall k :: 0 <= k < |draws| ==> 0 <= draws[k] <= M
    requires M >= 1
    ensures InIndexRange(SegmentClamped(offsets, draws, n, M), M)
  {
    var seg := SegmentClamped(offsets, draws, n, M);
    forall k | 0 <= k < |seg| ensures 0 <= seg[k] < M {
      assert seg[k] == ClampIndex(draws[offsets[n] + k], M);
    }
  }

  lemma InIndexRangeAppend(a: seq<int>, b: seq<int>, M: int)
    requires InIndexRange(a, M) && InIndexRange(b, M)
    ensures InIndexRange(a + b, M)
  {
    forall k | 0 <= k < |a + b| ensures 0 <= (a + b)[k] < M {
      if k >= |a| {
        assert (a + b)[k] == b[k - |a|];
      }
    }
  }

  /** Every clamped draw lies in [0, M), and sorting keeps it there. */
  lemma {:induction false} SortedSegmentsBounds(offsets: seq<int>, draws: seq<int>, M: int, m: nat)
    requires WellFormed(offsets, draws) && m < |offsets|
    requires forall k :: 0 <= k < |draws| ==> 0 <= draws[k] <= M
    requires M >= 1
    ensures InIndexRange(SortedSegments(offsets, draws, M, m), M)
  {
    if m > 0 {
      SortedSegmentsBounds(offsets, draws, M, m - 1);
      var seg := SegmentClamped(offsets, draws, m - 1, M);
      SegmentClampedBounds(offsets, draws, m - 1, M);
      SortByKeepsBounds(seg, M);
      InIndexRangeAppend(SortedSegments(offsets, draws, M, m - 1), SortBy(seg, Identity), M);
    }
  }

  /** The finished buffer: every index in [0, M), every sample's slice its sorted, clamped draws. */
  lemma AllSegmentsSorted(offsets: seq<int>, draws: seq<int>, M: int)
    requires WellFormed(offsets, draws)
    requires M >= 1 && forall k :: 0 <= k < |draws| ==> 0 <= draws[k] <= M
    ensures var all := SortedSegments(offsets, draws, M, |offsets| - 1);
      |all| == |draws| && WellFormed(offsets, all) &&
      (forall k :: 0 <= k < |all| ==> 0 <= all[k] < M) &&
      forall n :: 0 <= n < |offsets| - 1 ==> SampleIndices(offsets, all, n) == SortedSegment(offsets, draws, n, M)
  {
    var all := SortedSegments(offsets, draws, M, |offsets| - 1);
    forall n | 0 <= n < |offsets| - 1
      ensures SampleIndices(offsets, all, n) == SortedSegment(offsets, draws, n, M)
    {
      SortedSegmentsAt(offsets, draws, M, |offsets| - 1, n);
    }
    SortedSegmentsBounds(offsets, draws, M, |offsets| - 1);
  }

  /**
   * The index loop: each position gets its clamped draw, and each sample's
   * segment is then sorted (std::sort, stood in for by SortBy).
   */
  method GenerateIndices(offsets: seq<int>, M: int, draws: seq<int>) returns (indices: seq<int>)
    requires WellFormed(offsets, draws)
    requires M >= 1 && forall k :: 0 <= k < |draws| ==> 0 <= draws[k] <= M
    ensures |indices| == |draws| && WellFormed(offsets, indices)
    ensures forall k :: 0 <= k < |indices| ==> 0 <= indices[k] < M
    ensures forall n :: 0 <= n < |offsets| - 1 ==>
              SampleIndices(offsets, indices, n) == SortedSegment(offsets, draws, n, M)
  {
    var a := new int[|draws|];
    for n := 0 to |offsets| - 1
      invariant a[..offsets[n]] == SortedSegments(offsets, draws, M, n)
    {
      FillSegment(a, offsets, draws, n, M);
    }
    indices := a[..];
    assert indices == a[..offsets[|offsets| - 1]];
    AllSegmentsSorted(offsets, draws, M);
  }

  /** One pass of the index loop: sample n's segment is clamped, then sorted. */
  method FillSegment(a: array<int>, offsets: seq<int>, draws: seq<int>, n: nat, M: int)
    requires WellFormed(offsets, draws) && n + 1 < |offsets| && a.Length == |draws|
    requires a[..offsets[n]] == SortedSegments(offsets, draws, M, n)
    modifies a
    ensures a[..offsets[n + 1]] == SortedSegments(offsets, draws, M, n + 1)
  {
    var start, end := offsets[n], offsets[n + 1];
    assert start <= end;
    ghost var done := a[..start];
    ClampSegment(a, offsets, draws, n, M);
    SortSegment(a, start, end);
    SortedSegmentsStep(offsets, draws, M, n, done, a[start..end]);
    SplitAt(a[..], start, end);
  }

  lemma SplitAt<T>(s: seq<T>, i: int, j: int)
    requires 0 <= i <= j <= |s|
    ensures s[..j] == s[..i] + s[i..j]
  {
  }

  /** The inner loop over sample n's segment: each draw is clamped into [0, M). */
  method ClampSegment(a: array<int>, offsets: seq<int>, draws: seq<int>, n: nat, M: int)
    requires WellFormed(offsets, draws) && n + 1 < |offsets| && a.Length == |draws|
    modifies a
    ensures a[..offsets[n]] == old(a[..offsets[n]])
    ensures a[offsets[n]..offsets[n + 1]] == SegmentClamped(offsets, draws, n, M)
  {
    var start, end := offsets[n], offsets[n + 1];
    assert start <= end <= |draws|;
    ghost var clamped := SegmentClamped(offsets, draws, n, M);
    for i := start to end
      invariant a[..start] == old(a[..start])
      invariant a[start..i] == clamped[..i - start]
    {
      var ind := draws[i];
      if ind == M {
        ind := ind - 1;
      }
      assert clamped[i - start] == ClampIndex(draws[offsets[n] + (i - start)], M);
      a[i] := ind;
      assert a[start..i + 1] == a[start..i] + [a[i]];
      assert clamped[..i + 1 - start] == clamped[..i - start] + [clamped[i - start]];
    }
    assert clamped[..end - start] == clamped;
  }

  /** Sorting keeps every element within [0, M). */
  lemma SortByKeepsBounds(s: seq<int>, M: int)
    requires InIndexRange(s, M)
    ensures InIndexRange(SortBy(s, Identity), M)
  {
    var r := SortBy(s, Identity);
    forall k | 0 <= k < |r| ensures 0 <= r[k] < M {
      assert r[k] in multiset(r);
    }
  }

  /** std::sort(&a[start], &a[end]): replaces the segment by its sorted version. */
  method SortSegment(a: array<int>, start: int, end: int)
    requires 0 <= start <= end <= a.Length
    modifies a
    ensures a[..start] == old(a[..start]) && a[end..] == old(a[end..])
    ensures a[start..end] == SortBy(old(a[start..end]), Identity)
  {
    var sorted := SortBy(a[start..end], Identity);
    ghost var before := a[..];
    forall k | start <= k < end {
      a[k] := sorted[k - start];
    }
    assert a[..start] == before[..start];
    assert a[end..] == before[end..];
    assert a[start..end] == sorted;
  }

  /** init_zero: every one of the first sz elements becomes 0. */
  method InitZero(sz: nat, buf: array<real>)
    requires sz <= buf.Length
    modifies buf
    ensures forall i :: 0 <= i < sz ==> buf[i] == 0.0
    ensures forall i :: sz <= i < buf.Length ==> buf[i] == old(buf[i])
  {
    for i := 0 to sz
      invariant forall k :: 0 <= k < i ==> buf[k] == 0.0
      invariant forall k :: i <= k < buf.Length ==> buf[k] == old(buf[k])
    {
      buf[i] := 0.0;
    }
  }

  // ---------------------------------------------------------------------
  // The EmbeddingInOut record
  // ---------------------------------------------------------------------

  /** The index part of struct EmbeddingInOut (the float buffers are not modelled). */
  class EmbeddingInOut {
    var N: int
    var NS: int
    var E: int
    var U: int
    var offsets: seq<int>
    var indices: seq<int>
    var mbOffsets: seq<int>
    var mbIndices: seq<int>
    var wtIndices: seq<int>

    constructor ()
      ensures offsets == [] && indices == [] && mbOffsets == [] && mbIndices == [] && wtIndices == []
    {
      N, NS, E, U := 0, 0, 0, 0;
      offsets, indices, mbOffsets, mbIndices, wtIndices := [], [], [], [], [];
    }

    /**
     * sparse_transpose: gather, sort (sortByIndex stands for
     * __gnu_parallel::sort and may order rows within an index freely), group.
     */
    method SparseTranspose(sortByIndex: seq<Entry> -> seq<Entry>)
      requires WellFormed(offsets, indices) && N == |offsets| - 1 && NS == |indices| && NS >= 1
      requires forall s :: multiset(sortByIndex(s)) == multiset(s) && SortedByIndex(sortByIndex(s))
      modifies this
      ensures N == old(N) && NS == old(NS) && E == old(E) && offsets == old(offsets) && indices == old(indices)
      ensures Transposed(offsets, indices, U, mbOffsets, mbIndices, wtIndices)
    {
      var tmp := Gather(offsets, indices);
      var sorted := sortByIndex(tmp);
      var u, mo, mi, wi := GroupSorted(sorted);
      TransposeCorrect(offsets, indices, sorted);
      U, mbOffsets, mbIndices, wtIndices := u, mo, mi, wi;
    }

    /**
     * allocate_buffers_and_generte_rnd_input without the float buffers: the
     * raw draws (int)(randval * P) and (ITyp)(randval * M) are inputs.
     */
    method GenerateInput(E: int, M: int, cpDraws: seq<nat>, indDraws: seq<int>)
      requires |cpDraws| >= 1 && M >= 1
      requires |indDraws| == OffsetsOf(cpDraws)[|cpDraws|]
      requires forall k :: 0 <= k < |indDraws| ==> 0 <= indDraws[k] <= M
      modifies this
      ensures N == |cpDraws| && this.E == E && offsets == OffsetsOf(cpDraws) && NS == |indices| == |indDraws| && WellFormed(offsets, indices)
      ensures forall k :: 0 <= k < NS ==> 0 <= indices[k] < M
      ensures forall n :: 0 <= n < N ==> SortedBy(SampleIndices(offsets, indices, n), Identity)
      ensures forall n :: 0 <= n < N ==> SampleIndices(offsets, indices, n) == SortedSegment(offsets, indDraws, n, M)
      ensures Transposed(offsets, indices, U, mbOffsets, mbIndices, wtIndices)
    {
      N := |cpDraws|;
      this.E := E;
      var ns;
      offsets, ns := GenerateOffsets(cpDraws);
      NS := ns;
      OffsetsStrictlyIncreasing(cpDraws);
      indices := GenerateIndices(offsets, M, indDraws);
      forall n | 0 <= n < N ensures SortedBy(SampleIndices(offsets, indices, n), Identity) {
        SortBySorted(SegmentClamped(offsets, indDraws, n, M), Identity);
      }
      U := -1;
      mbOffsets, mbIndices, wtIndices := [], [], [];
      forall s ensures multiset(SortBy(s, EntryIndex)) == multiset(s) && SortedByIndex(SortBy(s, EntryIndex)) {
        SortBySorted(s, EntryIndex);
      }
      SparseTranspose(s => SortBy(s, EntryIndex));
    }
  }
}
