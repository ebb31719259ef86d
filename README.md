# libxsmm core, modelled in Dafny

This project models a set of libxsmm's core pieces and proves properties of
them:

- **Matrix copy and out-of-place transpose** (`libxsmm_matcopy_omp`,
  `libxsmm_otrans_omp` and their Fortran 77 wrappers). Covers the argument
  validation, the diagnostic printed for a rejected call, the tile shape
  and the decision to run multi-threaded. The static `error_once` counters
  are the state of the class `XCopy.XCopyDiagnostics`.
- **Sparse transpose of an embedding bag** (the sparse-adagrad sample).
  `EmbeddingInOut` is a class whose methods fill its offset and index
  buffers. `sparse_transpose` gathers (index, sample) pairs, sorts them and
  groups them by index. This is proved to produce, for every distinct
  index, exactly the samples that use it, with multiplicity.
  `allocate_buffers_and_generte_rnd_input` builds the input: random draws
  are parameters, and every segment is sorted in place.
- **Backward pass of the fully connected layer** (NCNC/KCCK generic
  template):
  - the block counts and the per-thread chunking of the work, proved to
    split the work into consecutive, disjoint ranges that cover it;
  - the in-place weight transpose over an `array4`, proved to fill the
    whole transposed filter;
  - the batch-reduce argument arrays;
  - the fact that every input-gradient block is written by exactly one call.
- **Backward convolution dispatch**. Covers the status codes, the order of
  the checks, and the GEMM kernels each entry point requests. The requested
  leading dimensions are proved legal.
- **Code-generator definitions**:
  - register numbers and sentinels;
  - the error codes, proved one-to-one with their kinds;
  - the loop-label tracker (a stack of open loops), proved to nest loops
    strictly;
  - the jump-label tracker (forward references patched when the label is
    defined).
- **The KNC dispatch generator script**:
  - splitting the command line;
  - `load_dims`;
  - the table of generated kernels (three nested loops, proved to place
    kernel (m, n, k) at `nk*(m*nn+n)+k`);
  - the `bsearch` lookup;
  - the BLAS fallback.

  Three defects of the script are recorded below. The rest of the model
  uses the corrected behaviour.

Integers are unbounded throughout, except where a wrap-around changes a
decision: `LIBXSMM_MCOPY_MT` multiplies as 32-bit unsigned, and `Wrap32`
models that.

## Model

| member | source | states |
|---|---|---|
| XCopy.Wrap32 | src/libxsmm_ext_xcopy.c:14 | the unsigned 32-bit product used by the threshold lies below 2^32 and equals the value when it fits |
| XCopy.MatcopyValid | src/libxsmm_ext_xcopy.c:21-22 | an accepted copy has a valid type size and distinct buffers, and unless it is empty, a non-NULL output and positive extents |
| XCopy.OtransValid | src/libxsmm_ext_xcopy.c:188-189 | an accepted transpose has a valid type size, and unless it is empty, non-NULL buffers and positive extents (aliasing is not part of the guard) |
| XCopy.McopyMt | src/libxsmm_ext_xcopy.c:14 | the copy goes parallel only when the tile fits the matrix and both extents are positive |
| XCopy.MatcopyValidShape | src/libxsmm_ext_xcopy.c:21-22 | an accepted copy has non-negative extents that are both zero or both positive; a non-empty one has a non-NULL output and leading dimensions of at least m |
| XCopy.MatcopyDiagnostic | src/libxsmm_ext_xcopy.c:163-177 | each message is chosen only when its own test holds and every earlier test failed: NULL output, out == in, bad type size, small leading dimension, negative extent |
| XCopy.OtransDiagnostic | src/libxsmm_ext_xcopy.c:299-313 | the same first-failing-test order for otrans: either pointer NULL, aliasing, type size, ldi < m or ldo < n, negative extent |
| XCopy.MatcopySilentRejection | src/libxsmm_ext_xcopy.c:21-22 | a rejected copy prints nothing exactly when every individual check passes and exactly one extent is zero |
| XCopy.OtransSilentRejection | src/libxsmm_ext_xcopy.c:188-189 | the same for otrans, where the leading-dimension rule is n <= ldo |
| XCopy.OtransMessageNamesAliasForTypesize | src/libxsmm_ext_xcopy.c:302-307 | otrans accepts out == in, yet a call rejected only for its type size is reported as an aliasing error |
| XCopy.UpDiv | src/libxsmm_ext_xcopy.c:34 | LIBXSMM_UPDIV gives the least q with q*d >= x |
| XCopy.UpDivZero | src/libxsmm_ext_xcopy.c:43 | the tile height is zero (and replaced by m) exactly when the byte budget is zero |
| XCopy.DivFits | src/libxsmm_ext_xcopy.c:46 | the shrunk tile height budget/(tn*typesize) fits the budget |
| XCopy.Tiles | src/libxsmm_ext_xcopy.c:34-47 | tiles are positive; tn is the scaled value or min(TILE_MIN, n); the tile fits the byte budget unless tm was raised to TILE_MIN; with no budget tm == m; a ceiling tile that fits is kept |
| XCopy.McopyMtThreshold | src/libxsmm_ext_xcopy.c:14 | when m*n fits in 32 bits, the copy goes parallel iff the tile fits the matrix and m*n >= 4096 |
| XCopy.McopyMtWraps | src/libxsmm_ext_xcopy.c:14 | a 65536 x 65536 copy wraps to 0 and stays sequential |
| XCopy.Matcopy | src/libxsmm_ext_xcopy.c:17-180 | rejected iff the guard fails; a no-op iff accepted with m == n == 0; runs the copy kernel for non-NULL input and the zero kernel otherwise; a parallel tile fits the matrix; never transposes |
| XCopy.Otrans | src/libxsmm_ext_xcopy.c:183-316 | rejected iff the guard fails; no-op for the empty matrix; in-place transpose iff out == in and ldi == ldo; aliasing error iff out == in and ldi != ldo; otherwise the out-of-place kernel with a tile inside the matrix |
| XCopy.OtransHasNoSizeThreshold | src/libxsmm_ext_xcopy.c:201 | unlike matcopy (line 48), a small transpose is split over threads while the same-shaped copy is not |
| XCopy.FortranCall | src/libxsmm_ext_xcopy.c:327-330 | a missing n defaults to m, a missing ldi to m, and a missing ldo to the effective ldi |
| XCopy.FortranDefaultsPassLeadingDims | src/libxsmm_ext_xcopy.c:338-344 | with every optional argument omitted, only the pointers, the type size and m decide acceptance, for both routines |
| XCopy.XCopyDiagnostics.constructor | src/libxsmm_ext_xcopy.c:159 | both one-shot counters start at zero |
| XCopy.XCopyDiagnostics.MatcopyOmp | src/libxsmm_ext_xcopy.c:158-179 | the outcome is Matcopy's; the counter grows on each rejected call while verbosity is on; a message is printed only by the increment that makes it 1 |
| XCopy.XCopyDiagnostics.OtransOmp | src/libxsmm_ext_xcopy.c:285-314 | the outcome is Otrans's; rejections and the aliasing error share one counter and one message |
| XCopy.XCopyDiagnostics.FortranMatcopyOmp | src/libxsmm_ext_xcopy.c:324-331 | the wrapper behaves as libxsmm_matcopy_omp on the defaulted arguments: the same outcome, the same counter update, and the same one-shot message for the defaulted call |
| XCopy.XCopyDiagnostics.FortranOtransOmp | src/libxsmm_ext_xcopy.c:338-345 | the wrapper behaves as libxsmm_otrans_omp on the defaulted arguments: the same outcome, the same counter update, and the same one-shot message (the rejection diagnostic or the aliasing error) |
| XCopy.SilentRejectionConsumesMessage | src/libxsmm_ext_xcopy.c:158-178 | a silent rejection (1 x 0) uses up the counter, so a later NULL output is not reported |
| SparseTranspose.Tag | samples/deeplearning/sparse_adagrad_fused/sparse_adagrad.cpp:193-196 | pairs each index of one sample with that sample's number, keeping the length |
| SparseTranspose.GatherUpTo | samples/deeplearning/sparse_adagrad_fused/sparse_adagrad.cpp:190-197 | the pairs of the first i samples fill exactly offsets[i] slots |
| SparseTranspose.Gathered | samples/deeplearning/sparse_adagrad_fused/sparse_adagrad.cpp:189-197 | the gathered buffer has NS entries |
| SparseTranspose.GatheredAt | samples/deeplearning/sparse_adagrad_fused/sparse_adagrad.cpp:193-196 | slot j in sample i's segment holds (indices[j], i) |
| SparseTranspose.GatherUpToAt | samples/deeplearning/sparse_adagrad_fused/sparse_adagrad.cpp:193-196 | the same slot property for every prefix of samples |
| SparseTranspose.GatheredCount | samples/deeplearning/sparse_adagrad_fused/sparse_adagrad.cpp:189-197 | pair (w, r) occurs in the buffer as often as w occurs in sample r |
| SparseTranspose.GatherUpToCount | samples/deeplearning/sparse_adagrad_fused/sparse_adagrad.cpp:190-197 | the same count for every prefix of samples |
| SparseTranspose.TagCount | samples/deeplearning/sparse_adagrad_fused/sparse_adagrad.cpp:194-195 | a tagged segment holds (w, r) as often as w occurs in it when r is its sample, and never otherwise |
| SparseTranspose.Gather | samples/deeplearning/sparse_adagrad_fused/sparse_adagrad.cpp:189-197 | the gathering loops produce the gathered buffer |
| SparseTranspose.ChangesMonotone | samples/deeplearning/sparse_adagrad_fused/sparse_adagrad.cpp:202-204 | the number of index changes never decreases along the buffer |
| SparseTranspose.CountGroups | samples/deeplearning/sparse_adagrad_fused/sparse_adagrad.cpp:201-204 | U is one plus the number of adjacent positions whose index differs |
| SparseTranspose.FilledSame | samples/deeplearning/sparse_adagrad_fused/sparse_adagrad.cpp:213-215 | a repeated index leaves the group arrays as they were |
| SparseTranspose.FilledNew | samples/deeplearning/sparse_adagrad_fused/sparse_adagrad.cpp:215-219 | a new index opens a group at i with that index |
| SparseTranspose.FilledDone | samples/deeplearning/sparse_adagrad_fused/sparse_adagrad.cpp:221 | closing with NS makes the arrays a full grouping |
| SparseTranspose.Starts | samples/deeplearning/sparse_adagrad_fused/sparse_adagrad.cpp:209-218 | one group start per distinct run |
| SparseTranspose.Keys | samples/deeplearning/sparse_adagrad_fused/sparse_adagrad.cpp:211-217 | one key per distinct run |
| SparseTranspose.FilledStep | samples/deeplearning/sparse_adagrad_fused/sparse_adagrad.cpp:213-220 | one iteration of the grouping loop keeps the arrays a grouping of the prefix |
| SparseTranspose.StartsFilled | samples/deeplearning/sparse_adagrad_fused/sparse_adagrad.cpp:209-220 | the starts and keys are a grouping of every prefix of a sorted buffer |
| SparseTranspose.SortedGroups | samples/deeplearning/sparse_adagrad_fused/sparse_adagrad.cpp:209-221 | on a sorted buffer, starts plus NS and the keys form a grouping with U groups |
| SparseTranspose.GroupSorted | samples/deeplearning/sparse_adagrad_fused/sparse_adagrad.cpp:201-222 | U, mb_offsets, mb_indices and wt_indices are the specification's starts, rows and keys; U+1 offsets and U keys |
| SparseTranspose.GroupsCover | samples/deeplearning/sparse_adagrad_fused/sparse_adagrad.cpp:213-220 | every index in the buffer is one of the keys |
| SparseTranspose.GroupExact | samples/deeplearning/sparse_adagrad_fused/sparse_adagrad.cpp:213-221 | on a sorted buffer, position l has key u iff it lies in group u's range |
| SparseTranspose.Rows | samples/deeplearning/sparse_adagrad_fused/sparse_adagrad.cpp:210-214 | mb_indices has one sample number per buffer entry |
| SparseTranspose.RowsCount | samples/deeplearning/sparse_adagrad_fused/sparse_adagrad.cpp:214 | within one group, sample r appears among the rows as often as (w, r) appears among the pairs |
| SparseTranspose.AbsentCount | samples/deeplearning/sparse_adagrad_fused/sparse_adagrad.cpp:215 | a stretch without index w holds no pair with index w |
| SparseTranspose.GroupBounds | samples/deeplearning/sparse_adagrad_fused/sparse_adagrad.cpp:209-221 | group ranges lie within the buffer |
| SparseTranspose.OutsideGroupAbsent | samples/deeplearning/sparse_adagrad_fused/sparse_adagrad.cpp:213-221 | no pair with a group's key lies before or after that group |
| SparseTranspose.GroupCount | samples/deeplearning/sparse_adagrad_fused/sparse_adagrad.cpp:213-221 | the rows of group u count sample r as often as the whole buffer holds (key u, r) |
| SparseTranspose.GroupIsSampleRows | samples/deeplearning/sparse_adagrad_fused/sparse_adagrad.cpp:185-223 | group u lists sample r as many times as sample r uses index wt_indices[u] |
| SparseTranspose.StrictlyIncreasingCard | samples/deeplearning/sparse_adagrad_fused/sparse_adagrad.cpp:215-217 | strictly increasing keys are pairwise distinct |
| SparseTranspose.DistinctIndices | samples/deeplearning/sparse_adagrad_fused/sparse_adagrad.cpp:201-204 | the keys are exactly the distinct indices used, and U is their number |
| SparseTranspose.SampleOf | samples/deeplearning/sparse_adagrad_fused/sparse_adagrad.cpp:190-193 | every slot j belongs to a sample whose segment contains it |
| SparseTranspose.SampleFrom | samples/deeplearning/sparse_adagrad_fused/sparse_adagrad.cpp:190-193 | the owning sample is found among the first i+1 |
| SparseTranspose.TransposeCorrect | samples/deeplearning/sparse_adagrad_fused/sparse_adagrad.cpp:185-223 | for every sorted permutation of the gathered pairs, the grouping satisfies the transpose relation |
| SparseTranspose.GroupsTransposed | samples/deeplearning/sparse_adagrad_fused/sparse_adagrad.cpp:209-222 | any grouping of a sorted permutation of the pairs is the transpose: each row lists exactly the samples in [0, N) that hold it |
| SparseTranspose.RowsInRange | samples/deeplearning/sparse_adagrad_fused/sparse_adagrad.cpp:195 | every sample number in a permutation of the gathered pairs lies in [0, N) |
| SparseTranspose.AllGroupsAreSampleRows | samples/deeplearning/sparse_adagrad_fused/sparse_adagrad.cpp:209-222 | the multiplicity statement holds for every group and every sample at once |
| SparseTranspose.Insert | samples/deeplearning/sparse_adagrad_fused/sparse_adagrad.cpp:199 | inserting keeps the multiset and adds one element |
| SparseTranspose.InsertSorted | samples/deeplearning/sparse_adagrad_fused/sparse_adagrad.cpp:199 | insertion into a key-sorted sequence stays sorted |
| SparseTranspose.SortBy | samples/deeplearning/sparse_adagrad_fused/sparse_adagrad.cpp:199 | the reference sort is a permutation |
| SparseTranspose.SortBySorted | samples/deeplearning/sparse_adagrad_fused/sparse_adagrad.cpp:265 | the reference sort orders by key |
| SparseTranspose.OffsetsOf | samples/deeplearning/sparse_adagrad_fused/sparse_adagrad.cpp:239-247 | N+1 offsets starting at 0 |
| SparseTranspose.GenerateOffsets | samples/deeplearning/sparse_adagrad_fused/sparse_adagrad.cpp:239-248 | offsets are the running sums of the segment lengths, each at least 1 (a draw of 0 becomes 1), ending at NS |
| SparseTranspose.OffsetsSteps | samples/deeplearning/sparse_adagrad_fused/sparse_adagrad.cpp:243-246 | consecutive offsets differ by the segment length |
| SparseTranspose.OffsetsStrictlyIncreasing | samples/deeplearning/sparse_adagrad_fused/sparse_adagrad.cpp:243-247 | offsets strictly increase, so NS >= N |
| SparseTranspose.SegmentClamped | samples/deeplearning/sparse_adagrad_fused/sparse_adagrad.cpp:256-264 | one clamped draw per slot of segment n |
| SparseTranspose.ClampIndex | samples/deeplearning/sparse_adagrad_fused/sparse_adagrad.cpp:260-262 | a draw in [0, M] becomes an index in [0, M); any draw other than M is kept |
| SparseTranspose.SegmentClampedBounds | samples/deeplearning/sparse_adagrad_fused/sparse_adagrad.cpp:260-262 | a draw equal to M is lowered to M-1, so every index lies in [0, M) |
| SparseTranspose.SortedSegment | samples/deeplearning/sparse_adagrad_fused/sparse_adagrad.cpp:265 | a sorted segment has the segment's length |
| SparseTranspose.SortedSegments | samples/deeplearning/sparse_adagrad_fused/sparse_adagrad.cpp:252-266 | the first n processed segments fill offsets[n] slots |
| SparseTranspose.SortedSegmentsAt | samples/deeplearning/sparse_adagrad_fused/sparse_adagrad.cpp:252-266 | later segments leave segment n's slots untouched |
| SparseTranspose.SortedSegmentsStep | samples/deeplearning/sparse_adagrad_fused/sparse_adagrad.cpp:252-266 | one outer iteration appends the sorted clamped segment |
| SparseTranspose.SortedSegmentsBounds | samples/deeplearning/sparse_adagrad_fused/sparse_adagrad.cpp:252-266 | every generated index lies in [0, M) |
| SparseTranspose.AllSegmentsSorted | samples/deeplearning/sparse_adagrad_fused/sparse_adagrad.cpp:252-266 | each sample's indices are its clamped draws, sorted, and lie in [0, M) |
| SparseTranspose.GenerateIndices | samples/deeplearning/sparse_adagrad_fused/sparse_adagrad.cpp:249-266 | NS indices in [0, M); each sample's segment is its clamped draws in sorted order |
| SparseTranspose.FillSegment | samples/deeplearning/sparse_adagrad_fused/sparse_adagrad.cpp:254-265 | one outer iteration over the index array extends the processed prefix by segment n |
| SparseTranspose.ClampSegment | samples/deeplearning/sparse_adagrad_fused/sparse_adagrad.cpp:256-264 | the inner loop writes the clamped draws into segment n and leaves earlier slots unchanged |
| SparseTranspose.SortByKeepsBounds | samples/deeplearning/sparse_adagrad_fused/sparse_adagrad.cpp:265 | sorting keeps every index in [0, M) |
| SparseTranspose.SortSegment | samples/deeplearning/sparse_adagrad_fused/sparse_adagrad.cpp:265 | sorts a[start..end] in place and leaves the rest of the array unchanged |
| SparseTranspose.InitZero | samples/deeplearning/sparse_adagrad_fused/sparse_adagrad.cpp:62-68 | the first sz elements become zero and the rest are unchanged |
| SparseTranspose.EmbeddingInOut.constructor | samples/deeplearning/sparse_adagrad_fused/sparse_adagrad.cpp:173-183 | a fresh record with empty buffers |
| SparseTranspose.EmbeddingInOut.SparseTranspose | samples/deeplearning/sparse_adagrad_fused/sparse_adagrad.cpp:185-223 | for any sort that orders by index and permutes, the inputs are unchanged and the new U, mb_offsets, mb_indices and wt_indices are the transpose of the bag |
| SparseTranspose.EmbeddingInOut.GenerateInput | samples/deeplearning/sparse_adagrad_fused/sparse_adagrad.cpp:225-275 | N, E and offsets come from the draws; each sample's indices are its clamped draws in sorted order, all in [0, M); the record ends transposed |
| FcBackward.BlockCounts | src/template/libxsmm_dnn_fullyconnected_st_bwd_ncnc_kcck_generic.tpl.c:36-38 | block counts are the floor quotients of C, K and N by their block sizes |
| FcBackward.ChunkSize | src/template/libxsmm_dnn_fullyconnected_st_bwd_ncnc_kcck_generic.tpl.c:44 | the chunk is the ceiling of work/threads |
| FcBackward.ThreadRange | src/template/libxsmm_dnn_fullyconnected_st_bwd_ncnc_kcck_generic.tpl.c:46-47 | a thread's range lies within [0, work) and holds at most one chunk |
| FcBackward.RangesConsecutive | src/template/libxsmm_dnn_fullyconnected_st_bwd_ncnc_kcck_generic.tpl.c:44-47 | the first range starts at 0; each ends where the next begins; the last thread's range ends at work |
| FcBackward.RangesDisjoint | src/template/libxsmm_dnn_fullyconnected_st_bwd_ncnc_kcck_generic.tpl.c:46-47 | ranges of different threads do not overlap |
| FcBackward.RangesCover | src/template/libxsmm_dnn_fullyconnected_st_bwd_ncnc_kcck_generic.tpl.c:44-47 | every work item belongs to exactly one thread below the thread count |
| FcBackward.Split | src/template/libxsmm_dnn_fullyconnected_st_bwd_ncnc_kcck_generic.tpl.c:74-75 | quotient and remainder recompose the index |
| FcBackward.SplitInGrid | src/template/libxsmm_dnn_fullyconnected_st_bwd_ncnc_kcck_generic.tpl.c:87-88 | an index below m*n splits into a row below m |
| FcBackward.SplitOfJoin | src/template/libxsmm_dnn_fullyconnected_st_bwd_ncnc_kcck_generic.tpl.c:74-75 | splitting a*n+b gives back (a, b) |
| FcBackward.TransposeBlock | src/template/libxsmm_dnn_fullyconnected_st_bwd_ncnc_kcck_generic.tpl.c:76-81 | block (ifm1, ofm1) of filter_tr becomes the transposed block of filter; every other element is unchanged |
| FcBackward.TransposeRange | src/template/libxsmm_dnn_fullyconnected_st_bwd_ncnc_kcck_generic.tpl.c:73-82 | the blocks of one thread's range are transposed and every other block is unchanged |
| FcBackward.TransposeAll | src/template/libxsmm_dnn_fullyconnected_st_bwd_ncnc_kcck_generic.tpl.c:73-84 | after all threads' ranges, filter_tr[f,o,x,y] == filter[o,f,y,x] everywhere, and filter is unchanged |
| FcBackward.Vla4Block | src/template/libxsmm_dnn_fullyconnected_st_bwd_ncnc_kcck_generic.tpl.c:60-63 | a 4-D access is the block's base plus the in-block offset, and lies within the buffer |
| FcBackward.Vla4 | src/template/libxsmm_dnn_fullyconnected_st_bwd_ncnc_kcck_generic.tpl.c:60-63 | the row-major offset of a 4-D VLA access: for an in-range last index, the remainder by the last extent gives that index back and the quotient is the offset of its row |
| FcBackward.JoinInjective | src/template/libxsmm_dnn_fullyconnected_st_bwd_ncnc_kcck_generic.tpl.c:60-63 | a row-major pair index determines its two coordinates |
| FcBackward.Vla4Injective | src/template/libxsmm_dnn_fullyconnected_st_bwd_ncnc_kcck_generic.tpl.c:60-63 | distinct in-range 4-D indices address distinct elements |
| FcBackward.PrepareBatchReduce | src/template/libxsmm_dnn_fullyconnected_st_bwd_ncnc_kcck_generic.tpl.c:66-93 | A_array[o] and B_array[o] point at the (ifm1, o) filter_tr block and the (mb1, o) doutput block; blocks == nBlocksOFm; later slots are unchanged |
| FcBackward.BatchBlocksContiguous | src/template/libxsmm_dnn_fullyconnected_st_bwd_ncnc_kcck_generic.tpl.c:91 | consecutive A blocks are bk*bc apart and stay inside filter_tr |
| FcBackward.ComputeRange | src/template/libxsmm_dnn_fullyconnected_st_bwd_ncnc_kcck_generic.tpl.c:86-95 | one batch-reduce call per work item of the range, each with the arrays and output block its index determines |
| FcBackward.EachOutputBlockOnce | src/template/libxsmm_dnn_fullyconnected_st_bwd_ncnc_kcck_generic.tpl.c:86-95 | each dinput block (mb1, ifm1) is written by the thread owning item mb1*nBlocksIFm+ifm1 and by no other work item |
| ConvBackward.BatchReduceKernels | src/libxsmm_dnn_convolution_backward.c:55-58 | the batch-reduce kernel shape ifmblock x (ofh_rb*ofw_rb) x ofmblock, the second kernel one row shorter, ldc widened by the stride when the input is spread, beta 0 iff accumulation loads are avoided |
| ConvBackward.FallbackKernel | src/libxsmm_dnn_convolution_backward.c:69 | the fallback GEMM is ifmblock x ofw x ofmblock with ldc = stride_w*ifmblock |
| ConvBackward.NhwcKernel | src/libxsmm_dnn_convolution_backward.c:206-216 | the NHWC kernel's ldb is blocksofm*ofmblock, its ldc depends on whether the padding matches, and it keeps the filter layout |
| ConvBackward.BwdF32 | src/libxsmm_dnn_convolution_backward.c:50-83 | succeeds iff AVX-512 is available; the plan is then the fallback GEMM when the handle asks for the fallback loops, and the f32 batch-reduce kernels otherwise |
| ConvBackward.BwdBf16 | src/libxsmm_dnn_convolution_backward.c:86-114 | succeeds iff AVX-512 is available and no fallback is requested, with the bf16 batch-reduce kernels; otherwise unsupported architecture or datatype |
| ConvBackward.BwdCustomCustom | src/libxsmm_dnn_convolution_backward.c:117-190 | data-not-bound iff a tensor is missing; unsupported datatype for mixed precisions; the generic path requests the f32 batch-reduce or fallback kernels, or the bf16 batch-reduce kernels; the non-generic path is the f32 or bf16 specialisation; no kernel on failure |
| ConvBackward.BwdNhwc | src/libxsmm_dnn_convolution_backward.c:193-269 | data-not-bound iff a tensor is missing; the generic path succeeds iff both datatypes are f32 and then requests the NHWC kernel for the given filter layout; the non-generic path succeeds with no kernel |
| ConvBackward.DataNotBoundFirst | src/libxsmm_dnn_convolution_backward.c:122-125 | a missing tensor gives the same result whatever else the handle holds |
| ConvBackward.GenericAndSpecialisedAgree | src/libxsmm_dnn_convolution_backward.c:128-186 | with AVX-512 the non-generic path gives the same outcome and kernels as the generic one; without it a supported datatype pair is rejected as an unsupported architecture |
| ConvBackward.NhwcVariantsAgree | src/libxsmm_dnn_convolution_backward.c:206-249 | the RSCK and custom-filter entry points differ only in the filter layout they request |
| ConvBackward.KernelsLegal | src/libxsmm_dnn_convolution_backward.c:55-69 | every kernel a call requests has leading dimensions at least the matrix heights |
| GeneratorCommon.GpRegNumber | src/generator_common.h:19-34 | register numbers lie in 0..15 |
| GeneratorCommon.GpRegOf | src/generator_common.h:19-35 | a number names a register iff it lies in 0..15, and then that register's number is the number |
| GeneratorCommon.GpRegNumbering | src/generator_common.h:19-51 | numbering is one to one; the undefined sentinels name no register; INSTR_UNDEF is below the first instruction |
| GeneratorCommon.Code | src/generator_common.h:322-365 | every error code lies in 90000..90043 |
| GeneratorCommon.ErrorOf | src/generator_common.h:322-365 | a code names an error iff it lies in 90000..90043, and that error's code is the code |
| GeneratorCommon.CodeRoundTrip | src/generator_common.h:322-365 | decoding an error's code gives back the error |
| GeneratorCommon.CodeInjective | src/generator_common.h:322-365 | no two error kinds share a code |
| GeneratorCommon.PushLoopLabel | src/generator_common.h:562-566 | opening a loop pushes its address while fewer than 512 are open; otherwise EXCEED_JMPLBL (line 347) and no change |
| GeneratorCommon.PopLoopLabel | src/generator_common.h:562-566 | closing a loop pops and returns the innermost address; with none open, NO_JMPLBL_AVAIL (line 346) |
| GeneratorCommon.PushPop | src/generator_common.h:562 | a pop right after a push returns the pushed address and the previous state |
| GeneratorCommon.LoopLabelTracker.constructor | src/generator_common.h:563-566 | a new tracker has no open loop |
| GeneratorCommon.LoopLabelTracker.Reset | src/generator_common.h:683 | resetting empties the tracker and zeroes every address |
| GeneratorCommon.LoopLabelTracker.RegisterLoopLabel | src/generator_common.h:563-566 | the tracker's new open labels and the error are PushLoopLabel's |
| GeneratorCommon.LoopLabelTracker.JumpBackToLoopLabel | src/generator_common.h:563-566 | the tracker's new open labels and the target are PopLoopLabel's |
| GeneratorCommon.RunLoopsAppend | src/generator_common.h:562 | running two event sequences one after the other equals running their concatenation |
| GeneratorCommon.RunLoopsKeepsOuter | src/generator_common.h:562 | a run that stays within capacity keeps the outer labels, ends Depth(es) deeper and raises no error |
| GeneratorCommon.LoopsNest | src/generator_common.h:562 | a loop with a balanced body jumps back to its own head and leaves the enclosing loops open |
| GeneratorCommon.ReferenceLabel | src/generator_common.h:568-579 | a jump to a defined label resolves at once; to an undefined one it is recorded while there is room, else EXCEED_JMPLBL (line 347) |
| GeneratorCommon.DefineLabel | src/generator_common.h:568-579 | defining an undefined label hands back the recorded jumps to patch; defining it twice gives JMPLBL_USED (line 360) |
| GeneratorCommon.ForwardJumpsPatched | src/generator_common.h:568-579 | all forward jumps recorded before the definition are handed back, in order |
| GeneratorCommon.DefinedLabelResolves | src/generator_common.h:568-579 | after a definition every jump resolves to its address and a second definition is refused |
| GeneratorCommon.JumpLabelTracker.constructor | src/generator_common.h:576-579 | every label starts undefined with no jump recorded |
| GeneratorCommon.JumpLabelTracker.Reset | src/generator_common.h:686 | resetting makes every label undefined with no jump recorded |
| GeneratorCommon.JumpLabelTracker.JumpToLabel | src/generator_common.h:576-579 | label l changes as ReferenceLabel says, every other label is unchanged, and an out-of-range label is an error |
| GeneratorCommon.JumpLabelTracker.RegisterJumpLabel | src/generator_common.h:576-579 | label l changes as DefineLabel says, every other label is unchanged, and an out-of-range label is an error |
| KncGenmain.SliceBound | scripts/xsmm_knc_genmain.py:88-90 | a Python slice bound is clamped into [0, len], with negative bounds counted from the end |
| KncGenmain.PySlice | scripts/xsmm_knc_genmain.py:88-90 | an in-range slice is the subsequence; no slice is longer than the list |
| KncGenmain.SplitArgv | scripts/xsmm_knc_genmain.py:88-92 | fails iff fewer than four arguments; RowMajor is argument 3 |
| KncGenmain.ArgvPartition | scripts/xsmm_knc_genmain.py:88-90 | with valid counts, the M, N and K lists have the given sizes and together are the remaining arguments in order |
| KncGenmain.InsertUnique | scripts/xsmm_knc_genmain.py:84-86 | inserting into a strictly sorted list keeps it strictly sorted, with the element added |
| KncGenmain.LoadDims | scripts/xsmm_knc_genmain.py:84-86 | the dimensions become strictly sorted, with the same elements (corrected) |
| KncGenmain.InSlot | scripts/xsmm_knc_genmain.py:86 | hash slot s of a small set holds the elements congruent to s mod 8 |
| KncGenmain.FromSlot | scripts/xsmm_knc_genmain.py:86 | iterating a small set from slot s visits the elements whose slot is at least s |
| KncGenmain.LoadDimsAsWritten | scripts/xsmm_knc_genmain.py:84-86 | list(set(dims)) keeps the elements but follows the set's slot order |
| KncGenmain.BSearchIn | scripts/xsmm_knc_genmain.py:62-64 | a hit is a position within the range holding the key |
| KncGenmain.BSearch | scripts/xsmm_knc_genmain.py:62-64 | a hit is a position holding the key |
| KncGenmain.BSearchInComplete | scripts/xsmm_knc_genmain.py:62-64 | on a strictly sorted range the search hits iff the key is in the range |
| KncGenmain.BSearchFinds | scripts/xsmm_knc_genmain.py:62-64 | on a strictly sorted array the search hits iff the key is present |
| KncGenmain.FlatSplit | scripts/xsmm_knc_genmain.py:65 | the index nk*(m*nn+n)+k lies in the table and determines m, n and k |
| KncGenmain.EntryAt | scripts/xsmm_knc_genmain.py:53-58 | the table entry at kernel (m, n, k)'s index is that kernel |
| KncGenmain.FlatSteps | scripts/xsmm_knc_genmain.py:53-57 | the three loops advance the flat index one entry at a time |
| KncGenmain.AppendEntry | scripts/xsmm_knc_genmain.py:57 | emitting the next kernel keeps the table a prefix of the full table |
| KncGenmain.EmitTable | scripts/xsmm_knc_genmain.py:52-59 | the emitted table has one kernel per (m, n, k), and kernel (dm[i], dn[j], dk[k]) sits at nk*(i*nn+j)+k |
| KncGenmain.Lookup | scripts/xsmm_knc_genmain.py:62-66 | a hit means all three dimensions are present, and the kernel is one of the table (corrected) |
| KncGenmain.LookupCorrect | scripts/xsmm_knc_genmain.py:62-66 | the lookup returns kernel (M, N, K) iff all three dimensions are present, and nothing otherwise |
| KncGenmain.LookupAsWritten | scripts/xsmm_knc_genmain.py:62-66 | a hit as written is some kernel of the table; each array has its own NULL-minus-array offset |
| KncGenmain.LookupAsWrittenAgrees | scripts/xsmm_knc_genmain.py:62-66 | when all three dimensions were generated, the lookup as written returns kernel (M, N, K), as the corrected one does |
| KncGenmain.MissingDimNotDetected | scripts/xsmm_knc_genmain.py:62 | when M is missing and the converted NULL minus index_m is negative, the written test does not report "not found", while the corrected lookup finds nothing |
| KncGenmain.MissingDimReadsOutOfBounds | scripts/xsmm_knc_genmain.py:62-65 | dims [1],[1],[1] with M = 2: for any negative value of (int)(NULL - index_m) the table is read at that negative index, where the corrected lookup finds nothing |
| KncGenmain.LoadDimsOneEight | scripts/xsmm_knc_genmain.py:84-86 | the corrected load of [1, 8] is [1, 8] |
| KncGenmain.SlotOrderOneEight | scripts/xsmm_knc_genmain.py:86 | the set {1, 8} iterates as [8, 1] |
| KncGenmain.OneEightSmall | scripts/xsmm_knc_genmain.py:86 | {1, 8} fits the small-set table |
| KncGenmain.SetOrderBreaksSearch | scripts/xsmm_knc_genmain.py:84-86 | load_dims([1, 8]) as written is [8, 1], which is unsorted, so bsearch misses 8; the corrected list finds it |
| KncGenmain.FallbackAsWritten | scripts/xsmm_knc_genmain.py:77-80 | the written fallback passes M, N, K in the script's order |
| KncGenmain.Fallback | scripts/xsmm_knc_genmain.py:77-80 | the corrected fallback keeps the row-major call and has legal leading dimensions in both orders |
| KncGenmain.ColMajorFallbackIllegal | scripts/xsmm_knc_genmain.py:80 | for M = 4, N = K = 1 the column-major call has lda = 1 < M, which is illegal; the corrected call is legal |
| KncGenmain.GenerateInterface | scripts/xsmm_knc_genmain.py:84-92 | fails iff fewer than four arguments; otherwise a valid interface whose dimension lists hold exactly the given values |
| KncGenmain.XsmmDnn | scripts/xsmm_knc_genmain.py:71-82 | xsmm_dnn runs a tabulated kernel only for generated dimensions, and otherwise a legal GEMM of shape M x N x K |
| KncGenmain.DispatchCorrect | scripts/xsmm_knc_genmain.py:71-82 | xsmm_dnn runs kernel (M, N, K) iff all three are tabulated, and otherwise calls the fallback GEMM |

## Left out

- OpenMP, threads, tasks and barriers are left out. A parallel loop is modelled by its per-thread ranges, in sequence.
- The JIT dispatch and the copy, zero and transpose kernel bodies (LIBXSMM_XCOPY_NONJIT, LIBXSMM_TCOPY_CALL) are left out: only the kernel chosen is modelled.
- The body of `libxsmm_itrans` and the `*_thread_internal` helpers are left out.
- XCopy.Tiles: the float `nscale` product is an input (`tnScaled`), `LIBXSMM_XCOPY_TILE_MIN` is a parameter, and the tile products are unbounded rather than 32-bit.
- XCopy.XCopyDiagnostics: the atomic increment of `error_once` is a plain increment, and the library verbosity is a field.
- The message text and `fprintf` are left out: a message is the kind of diagnostic printed.
- The adagrad update, `EmbeddingBag`, all float buffers of `EmbeddingInOut` (`output`, `gradout`, `grads`), `init_random`, `get_time`, `free_buffers` and `main` of the sparse-adagrad sample are left out. They are floating point, I/O or timing.
- SparseTranspose.EmbeddingInOut.GenerateInput: `drand48_r` draws are parameters, already scaled and truncated (`cp` and `ind`).
- SparseTranspose.EmbeddingInOut.SparseTranspose: `__gnu_parallel::sort` is a parameter, required only to permute and to order by index. It need not be stable, as in the source.
- Buffers allocated with `my_malloc` are sequences, so their alignment is not modelled.
- `std::sort` of one segment is SortBy, a reference sort proved to order and permute.
- The batch-reduce kernel's arithmetic and `libxsmm_barrier_*` are left out. Calls are modelled by their arguments (block offsets).
- `LIBXSMM_VLA_ACCESS` is taken to be row-major addressing.
- Element types are generic in the fully connected model.
- The bodies of the convolution templates are left out. After a template runs, the status is taken to be SUCCESS.
- The AVX-512 build and CPU check is a boolean parameter.
- GEMM dispatch is modelled by the kernel request it receives.
- The code generator's encoders and kernel generators are left out, and so are the generator structures the header only declares (micro-kernel config, blocking info, register mappings, callee-save and register-name functions).
- GeneratorCommon.LoopLabelTracker and GeneratorCommon.JumpLabelTracker: the header declares only the reset functions and the structures. The register and jump operations are defined in a file that is not part of this model. Their behaviour here follows the header's comment (no overlapping loops), its error codes, and address 0 meaning an undefined label.
- Python's `int()` parsing errors are left out.
- The generated file's text formatting is left out: the model keeps the emitted table, not its text.
- CPython's set order is modelled only for small sets (all values distinct modulo 8), which is enough to exhibit the defect.
- The semantics of MKL and CBLAS are left out. The fallback is the GEMM call with its leading dimensions.
- C `int` overflow is not modelled: integers are unbounded. This covers the NHWC `ldc` cast and the subtraction in `compareints`.
- `samples/edge/repro/src/edge_setup.hpp` is left out. It is set-up code with no behaviour beyond the routines above.

## Findings

| source | as written | input that shows it | evidently intended | confidence | as-written member | corrected member |
|---|---|---|---|---|---|---|
| scripts/xsmm_knc_genmain.py:84-86 | the dimensions are sorted, then passed through `set`, so they come out in hash-slot order | dims 1 and 8 come out as [8, 1]; `bsearch` for 8 then misses | a strictly sorted list of distinct dimensions, as `bsearch` needs | not executed | KncGenmain.SetOrderBreaksSearch | KncGenmain.LoadDims |
| scripts/xsmm_knc_genmain.py:62-66 | a missed `bsearch` returns NULL, and NULL minus the array is tested only for being `< nm` | dims [1],[1],[1] with M = 2 read functions[(int)(NULL - index_m)], a negative index | a missing dimension selects the fallback | not executed | KncGenmain.MissingDimReadsOutOfBounds | KncGenmain.LookupCorrect |
| scripts/xsmm_knc_genmain.py:80 | the column-major fallback passes lda = K, ldb = N and ldc = N, which are the row-major values | M = 4, N = 1, K = 1: lda = 1 < M | lda = M, ldb = K, ldc = M | not executed | KncGenmain.ColMajorFallbackIllegal | KncGenmain.Fallback |
