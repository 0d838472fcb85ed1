# RXLA core: a verified model

RXLA builds tensor programs as graphs of operations whose operands come first, transforms those graphs, and keeps compiled
programs in bounded caches. This project models the algorithms that do so and proves what they are for.

- **Reverse-mode differentiation.** A graph is a sequence of nodes; tensors are a shape with row-major reals.
  `Program` gives every operation its typing and value, `Rules` its forward tangent and its reverse rule, `Adjoints`,
  `Convolution`, `Pooling`,
  `MaxPooling` and `MaxAdjoints` the adjoint law of each operation. `Reverse` runs the sweep on values and proves it adjoint to
  the forward derivative by a balance kept at every node. `Recipes`, `RuleRecipes` and `Autodiff` model what the program
  does: validate, then append operation nodes to the graph in a backward loop. The appended nodes are proved to hold, in
  every environment, the cotangents of the sweep, so the graph the program returns computes the adjoint.
- **Scans.** `Folds`, `Scans`, `Affine`, `Cumulative` and `Gae`: the work-efficient tree, the doubling loop and the affine
  recurrences built on them, each equal to a sequential fold on every slab.
- **Contractions.** `Diagonals`, `Contractions`, `Labels`, `Einsum` and `EinsumProgram`: from the text of an equation to the
  sum of products over label assignments.
- **Attention.** `Attention`, `Sdpa`, `GroupedQuery`, `KvCache` and `Chunked`: masked attention entry by entry, broadcast batch
  axes, grouped heads, guarded paired cache writes, and whole runs of chunked calls against full-history attention.
- **Randomness.** `BitWords`, `Threefry`, `RandomSequence` and `Nucleus`: the block function on 32-bit words, 64-bit counters
  made of two words, sequences with commit or rejection, and the top-p cutoff.
- **Caches.** `ByteStrings`, `ExecutableCache`, `ArtifactStore` and `DiskCache`: the in-memory least-recently-used cache, the
  file store, injective keys, trusted loads and oldest-first trimming.
- **Search.** `SearchSorted`: the branch-free bisection with its exact result.

`Products`, `Sums`, `Shapes`, `IndexSums`, `Tensors`, `TensorOps`, `Maxima` and `Slabs` hold the arithmetic of indices, finite sums and
tensors. Code that works by changing things is a class or a method with loops (`Autodiff.Graph`, `KvCaches.KvCache`,
`Chunked.Session`, `RandomSequence.Sequence`, `ExecutableCache.Compiler`, `ArtifactStore.FileStore`, `DiskCaches.DiskCache`,
the einsum, scan, search, liveness and block loops), proved against functions; code made of expressions is functions and lemmas.

One operation does less than its documentation says: `searchsorted_i32` documents an insertion point for every needle. The model
follows the code, and `SearchSorted.Search` states exactly when its loop returns the insertion point: if and only if the last
element does not lie before the needle, or the length plus one is a power of two. Otherwise it returns one more than the length
(`SearchSorted.PastTheEnd` is an instance).

## Model

| member | source | states |
|---|---|---|
| Autodiff.RecordedGradientsAreAdjoint | crates/rxla-core/src/autodiff.rs:62-706 | the nodes appended for the requested leaves, evaluated in any environment and paired with any directions, add up to the seed paired with the output's forward tangent |
| Autodiff.Graph.ReverseGradients | crates/rxla-core/src/autodiff.rs:62-706 | refuses exactly invalid requests and unsupported live operations, then leaving the graph as it was; otherwise the graph only grows and node k of the answer holds the gradient of input k in every environment |
| Autodiff.Graph.Propagate | crates/rxla-core/src/autodiff.rs:218-706 | one backward step: recorded and accumulated nodes hold the cotangents of the sweep after that node, in every environment |
| Autodiff.Graph.Emit | crates/rxla-core/src/autodiff.rs:205-216 | the appended node computes the expression over the old graph in every environment; older nodes keep their values |
| Autodiff.MarkLive | crates/rxla-core/src/autodiff.rs:98-204 | succeeds exactly on differentiable outputs and otherwise names the last live unsupported node |
| Autodiff.AppendedDenotes | crates/rxla-core/src/autodiff.rs:205-216 | one node appended over computed operands computes the composed expression in every environment |
| Autodiff.SumComputed | crates/rxla-core/src/autodiff.rs:689-694 | the accumulation node holds the sum of the previous and the new contribution |
| RuleRecipes.RecipeComputes | crates/rxla-core/src/autodiff.rs:218-706 | for every supported operation the recorded operation nodes compute exactly its reverse rule, contribution by contribution |
| RuleRecipes.UnaryRecipeYields | crates/rxla-core/src/autodiff.rs:342-377 | the expression recorded for each elementwise function has the value of its reverse rule |
| Recipes.UnbroadcastYields | crates/rxla-core/src/autodiff.rs:436-445 | the sum over expanded axes and the reshape recorded for a broadcast have the value of its rule |
| RuleRecipes.AttentionRecipeYields | crates/rxla-core/src/autodiff.rs:251-284 | query, key, value and mask expressions of attention have the values of its reverse rule |
| RuleRecipes.InputGradientYields | crates/rxla-core/src/autodiff.rs:737-779 | the re-laid kernel and computed output padding form a well-typed transposed convolution with the input-gradient value |
| Reverse.GradientsAreAdjoint | crates/rxla-core/src/autodiff.rs:205-706 | for every graph of supported operations, seed and directions: the pairings of returned gradients with directions sum to the seed paired with the output tangent; unreached inputs get zeros |
| Reverse.SweepBalance | crates/rxla-core/src/autodiff.rs:212-700 | invariant of the sweep: at every node, pending cotangents paired with tangents equal the seed paired with the output tangent |
| Reverse.StepBalance | crates/rxla-core/src/autodiff.rs:218-700 | processing one node keeps that balance |
| Reverse.BalanceUpdate | crates/rxla-core/src/autodiff.rs:689-694 | adding one contribution to a pending node raises the balance by exactly its pairing |
| Reverse.LivenessCovers | crates/rxla-core/src/autodiff.rs:98-204 | every node that receives a cotangent was marked live, so the sweep never meets an unvalidated operation |
| Reverse.RulePositions | crates/rxla-core/src/autodiff.rs:104-203 | every operand a reverse rule contributes to is one the liveness pass marks |
| NodeRules.OpAdjoint | crates/rxla-core/src/autodiff.rs:218-695 | for each operation the contributions paired with operand tangents equal its cotangent paired with its own tangent |
| Rules.AttentionAdjoint | crates/rxla-core/src/autodiff.rs:251-284 | adjointness of the attention rule in query, key, value and mask |
| Rules.UnaryRuleAt | crates/rxla-core/src/autodiff.rs:342-377 | every elementwise rule multiplies the cotangent by the derivative, with its conventions at kinks |
| Rules.BinaryRuleAt | crates/rxla-core/src/autodiff.rs:305-341 | both contributions of a binary operation are the partial derivatives times the cotangent, ties split evenly |
| Rules.UnaryAdjoint | crates/rxla-core/src/autodiff.rs:342-377 | every differentiable elementwise rule is adjoint to slope times tangent |
| Rules.BinaryAdjoint | crates/rxla-core/src/autodiff.rs:305-341 | both contributions of a binary operation together are adjoint to its tangent |
| Rules.SelectAdjoint | crates/rxla-core/src/autodiff.rs:296-304 | select routes the cotangent to the branch the mask chose |
| MaxAdjoints.MaxAdjoint | crates/rxla-core/src/autodiff.rs:447-490 | the rule of a maximum is adjoint to sharing the derivative equally among the winners of each slice; its not-a-number branches never apply |
| Maxima.MaximumOfSlice | crates/rxla-core/src/ops.rs:524-560 | the reduced value bounds its slice and is attained in it, so every slice has a winner |
| RuleRecipes.MaxRecipeYields | crates/rxla-core/src/autodiff.rs:447-490 | the recorded winner mask, detached count and selections have the value of that rule |
| Adjoints.SliceAdjoint | crates/rxla-core/src/autodiff.rs:380-396 | a strided slice is adjoint to writing into zeros |
| Adjoints.PadAdjoint | crates/rxla-core/src/autodiff.rs:397-419 | padding splits into an interior slice for the operand and a border sum for the fill |
| Adjoints.ConcatAdjoint | crates/rxla-core/src/autodiff.rs:420-427 | concatenation is adjoint to handing each piece its stretch of the cotangent |
| Adjoints.BroadcastAdjoint | crates/rxla-core/src/autodiff.rs:436-445 | broadcast is adjoint to summing the expanded axes |
| Adjoints.UnbroadcastAt | crates/rxla-core/src/autodiff.rs:436-445 | the recorded reduction and reshape collect, at every input coordinate, exactly the output coordinates that read it |
| Adjoints.PermutedInverse | crates/rxla-core/src/autodiff.rs:429-435 | the inverse permutation recorded for a transpose is one and restores the shape |
| Adjoints.CumsumAdjoint | crates/rxla-core/src/autodiff.rs:446 | cumulative sum is adjoint to flip, cumulative sum, flip |
| Adjoints.GatherAdjoint | crates/rxla-core/src/autodiff.rs:663-686 | a clamped gather is adjoint to scatter-add, repeated indices included |
| Adjoints.DynamicUpdateSliceAdjoint | crates/rxla-core/src/autodiff.rs:640-662 | an update at clamped runtime starts is adjoint, in both operands, to clearing and reading the window |
| Adjoints.MatmulLeftAdjoint | crates/rxla-core/src/autodiff.rs:491-499 | batched matrix product is adjoint, on the left, to multiplying by the transpose |
| Convolution.OutputPaddingExact | crates/rxla-core/src/autodiff.rs:743-751 | the computed output padding lies in [0, stride) and restores the input extent exactly |
| Convolution.ConvInputAdjoint | crates/rxla-core/src/autodiff.rs:737-779 | convolution is adjoint in its input to the recorded transposed convolution, for every stride, dilation, padding and group count |
| Convolution.ConvKernelAdjoint | crates/rxla-core/src/autodiff.rs:574-604 | convolution is adjoint in its kernel to the kernel gradient |
| Convolution.TransposeInputAdjoint | crates/rxla-core/src/autodiff.rs:534-573 | a transposed convolution is adjoint to the paired forward convolution of the re-laid kernel |
| Convolution.KernelLayoutsInverse | crates/rxla-core/src/autodiff.rs:709-735 | the two kernel re-layouts are mutual inverses for every group count |
| Convolution.RegroupInverse | crates/rxla-core/src/autodiff.rs:755-768 | splitting, exchanging and merging the group axis is undone by the opposite re-layout |
| Convolution.ConvGroups | crates/rxla-core/src/convolution.rs:36-52 | accepted channel counts split evenly into groups on both sides |
| Pooling.SumPoolAdjoint | crates/rxla-core/src/pooling.rs:47-84 | sum pooling is adjoint to its gradient for every window, stride, padding and shape, empty ones included |
| Pooling.PoolIsConv | crates/rxla-core/src/pooling.rs:56-65 | pooling with channels moved to the batch is a one-channel convolution with ones |
| Pooling.PoolPadding | crates/rxla-core/src/pooling.rs:66-74 | the remainder used as output padding is the one the adjoint needs |
| MaxPooling.MaxPoolIs | crates/rxla-core/src/pooling.rs:4-13 | each output is the largest element of its window inside the input, and the lowest value when the window is padding alone |
| MaxPooling.WinnerIs | crates/rxla-ir/src/pliron/stablehlo/aggregation_emitter.rs:122-188 | selecting over the padded window picks its first largest element inside the input, and nothing of the input exactly when the window is padding alone |
| MaxPooling.MaxPoolGradientAt | crates/rxla-ir/src/pliron/stablehlo/aggregation_emitter.rs:122-204 | scattering into the padded input and cropping gives each element the cotangents of exactly the windows that selected it |
| MaxPooling.MaxPoolAdjoint | crates/rxla-core/src/autodiff.rs:506-511 | select and scatter is adjoint to reading the selected elements, for every window, stride, padding and shape |
| Folds.TreeFolds | crates/rxla-core/src/ops.rs:733-773 | the tree computes every inclusive prefix fold of an associative combination, for every length |
| Folds.TreeWork | crates/rxla-core/src/ops.rs:733-773 | the tree spends fewer than two combinations per element |
| Folds.TreeDepth | crates/rxla-core/src/ops.rs:733-773 | no result is more than 2 floor(log2 n) combinations deep |
| Scans.PrefixTreeIsTree | crates/rxla-core/src/ops.rs:733-773 | slab by slab the narrow, combine, interleave program on tensors is the sequence tree |
| Scans.PrefixTreeScans | crates/rxla-core/src/ops.rs:733-773 | the tensor scan is the sequential fold along any axis, independently on the others |
| Slabs.InterleaveSlab | crates/rxla-core/src/ops.rs:761-767 | stacking and reshaping interleaves two tensors slab by slab along the axis |
| Scans.WindowDoubles | crates/rxla-core/src/ops.rs:619-624 | combining a window of the last d inputs with the one before it gives the last 2d, later operand first |
| Scans.DoublingScan | crates/rxla-core/src/ops.rs:609-631 | the loop ends with the full prefix fold, equals the tree scan, and its 64-bit offset never overflows |
| Cumulative.LogCumsumexp | crates/rxla-core/src/ops.rs:590-631 | the exponential of each entry is the sum of exponentials of its prefix; doubling and tree agree |
| Cumulative.LogAddExpIs | crates/rxla-core/src/ops.rs:590-595 | the shifted form is the logarithm of the sum of exponentials |
| Cumulative.CumprodMultiplies | crates/rxla-core/src/ops.rs:652-654 | each entry is the product of its lane up to itself |
| Affine.ComposeAssociative | crates/rxla-core/src/ops.rs:721-729 | composing coefficient pairs is associative |
| Affine.AffineSolves | crates/rxla-core/src/ops.rs:668-672 | the scan solves s[t] = a[t] s[t-1] + b[t], never using the first multiplier |
| Affine.AffineFromSolves | crates/rxla-core/src/ops.rs:684-707 | the seeded scan solves the recurrence from an explicit initial state |
| Affine.ScanConcatenation | crates/rxla-core/src/ops.rs:668-707 | scanning a concatenation is scanning the first block and seeding the second with its last state |
| Affine.AffineScanMeaning | crates/rxla-core/src/ops.rs:656-672 | the operation accepts exactly operands of one shape with an axis in range, and then answers the states of the recurrence |
| Affine.AffineScanFromMeaning | crates/rxla-core/src/ops.rs:674-707 | the seeded operation also asks that the initial state have the shape without the axis, and then answers the seeded states |
| Gae.AdvantagesAreSequential | crates/rxla-core/examples/gae.rs:6-27 | flip, scan, flip equals the backward recurrence on every row, and the targets add the values |
| Gae.Reference | crates/rxla-core/examples/gae.rs:69-77 | the sequential loop computes that recurrence |
| EinsumProgram.EinsumOf | crates/rxla-core/src/contraction.rs:32-123 | accepts exactly the valid equations, and every output entry is the sum over omitted labels of the product of both operands |
| EinsumProgram.ParseWritten | crates/rxla-core/src/contraction.rs:36-52 | every equation over ASCII letters parses back from its text under any whitespace |
| EinsumProgram.ParseSound | crates/rxla-core/src/contraction.rs:36-52 | only such texts parse |
| EinsumProgram.Validate | crates/rxla-core/src/contraction.rs:53-76 | rank, extent and output-label checks accept exactly the well-formed requests |
| EinsumProgram.OutputOrder | crates/rxla-core/src/contraction.rs:110-121 | every output label is found in the result, so the error for a lost label cannot occur |
| Einsum.Operand | crates/rxla-core/src/contraction.rs:291-323 | merging repeated labels and reducing private ones keeps the summed reading of the operand |
| Einsum.DotReads | crates/rxla-core/src/contraction.rs:93-121 | the labelled contraction is the sum of products over the contracted labels |
| Einsum.SumOfLowered | crates/rxla-core/src/contraction.rs:91-121 | summing lowered operands equals summing the originals over all omitted labels |
| Contractions.DotGeneralAt | crates/rxla-core/src/contraction.rs:230-282 | transposes, reshapes and one batched product compute the sum over contracted coordinates |
| Contractions.DotGeneralOf | crates/rxla-core/src/contraction.rs:230-282 | the checked contraction succeeds exactly on lists that pair one to one, distinct axes in range and equal extents, and is then the contraction |
| Contractions.Axes | crates/rxla-core/src/contraction.rs:3-15 | accepts exactly distinct in-range axes and returns the free ones in order |
| Contractions.FreeCount | crates/rxla-core/src/contraction.rs:3-15 | listed and free axes together are as many as the rank |
| Contractions.ArrangementPerm | crates/rxla-core/src/contraction.rs:260-273 | any arrangement of batch, contracted and free axes is a permutation |
| Diagonals.DiagonalAt | crates/rxla-core/src/contraction.rs:175-212 | entry i is the element at (row + i, col + i), other coordinates unchanged |
| Diagonals.DiagEmbedAt | crates/rxla-core/src/contraction.rs:131-168 | the vector on its offset diagonal, zeros elsewhere |
| Diagonals.DiagonalOfEmbed | crates/rxla-core/src/contraction.rs:131-212 | extracting the embedded diagonal gives the vector back, for every length, leading shape and offset |
| Diagonals.DiagEmbedMeaning | crates/rxla-core/src/contraction.rs:131-168 | everything but a scalar is embedded, over two appended axes whose diagonal is the operand |
| Diagonals.FlatSlice | crates/rxla-core/src/contraction.rs:185-211 | the flat strided slice stays in bounds and has one entry per diagonal element |
| Attention.AttentionAt | crates/rxla-core/src/attention.rs:136-253 | over operands of one batch shape, every output entry is the weighted mean of the value rows the mask lets through |
| Sdpa.SdpaMeaning | crates/rxla-core/src/attention.rs:150-253 | attention accepts exactly operands of rank two or more with positive matching depth, at least one key, as many values as keys, a common batch shape and a mask that broadcasts to the scores; the matrix of its result at every batch position is the attention of the matrices that broadcast there |
| Sdpa.BatchDims | crates/rxla-core/src/attention.rs:190-213 | the nested loops find the common batch shape of query, key and value, or refuse when there is none |
| Sdpa.JointIsLeast | crates/rxla-core/src/attention.rs:190-213 | that shape is the least one every operand broadcasts to, and it exists exactly when the operands have a common shape |
| Sdpa.SameBatchAttention | crates/rxla-core/src/attention.rs:150-253 | operands of one batch shape are attended without any broadcasting |
| GroupedQuery.GroupedIsRepeated | crates/rxla-core/src/attention.rs:83-135 | grouping query heads into rows equals attention with each key/value head repeated consecutively |
| GroupedQuery.GroupedQueryMeaning | crates/rxla-core/src/attention.rs:83-135 | the operation, running attention on the grouped operands, accepts exactly equal batch prefixes, dividing head counts, positive matching depth, at least one key and a fitting mask, and then has that meaning, masks broadcast before grouping |
| KvCaches.KvCache.UpdateAt | crates/rxla-core/src/kv_cache.rs:53-72 | both caches are updated at clamped starts, or neither |
| KvCaches.KvCache.UpdateAtChecked | crates/rxla-core/src/kv_cache.rs:79-111 | both caches are written exactly when every start fits; otherwise neither changes and zero is reported |
| KvCaches.UpdateLands | crates/rxla-core/src/kv_cache.rs:79-111 | an accepted update lands exactly at its starts |
| Chunked.Session.Run | crates/rxla-core/examples/chunked_attention.rs:12-33 | one call appends a fitting chunk and answers causal attention over the history; later calls answer zeros and change nothing |
| Chunked.Serve | crates/rxla-core/examples/chunked_attention.rs:45-80 | over any number of calls, call n is accepted exactly when (n+1)c fits the capacity and its rows equal full-history causal attention |
| Chunked.ChunkRow | crates/rxla-core/src/attention.rs:14-32 | causal masking over the whole cache equals attention over the rows accepted so far |
| Threefry.EncryptPermutes | crates/rxla-core/src/random.rs:338-370 | for each key the block function has a two-sided inverse |
| Threefry.Block | crates/rxla-core/src/random.rs:338-370 | the twenty-round loop computes that function |
| Threefry.AdvanceIs | crates/rxla-core/src/random.rs:271-285 | signed-word arithmetic adds modulo 2^64 and reports wrapping exactly |
| Threefry.DrawDistinct | crates/rxla-core/src/random.rs:241-269 | all blocks of one draw differ, even across a wrap |
| BitWords.UnsignedLessIs | crates/rxla-core/src/random.rs:271-277 | comparing with flipped sign bits is unsigned comparison |
| RandomSequence.ReservationsDisjoint | crates/rxla-core/src/random.rs:241-269 | chained draws share no counter until the 64-bit counter wraps |
| RandomSequence.Sequence.CommitIf | crates/rxla-core/src/random/state.rs:335-351 | commits every reservation or none; stale sequences, zero conditions and any wrap leave the state alone |
| RandomSequence.Sequence.Reserve | crates/rxla-core/src/random/state.rs:314-333 | a draw gets the next counters of the chain; an oversized one moves nothing |
| RandomSequence.State.ResetKeyIf | crates/rxla-core/src/random/state.rs:53-84 | a nonzero condition replaces the key and restarts the counter, any other leaves both; either way the state is written |
| RandomSequence.ResetMakesStale | crates/rxla-core/src/random/state.rs:53-84 | a sequence begun before a reset can no longer commit, and what the reset wrote stays |
| RandomSequence.CommitThenContinue | crates/rxla-core/src/random/state.rs:314-351 | after a commit the next sequence draws no block the last one drew, until the counter wraps |
| Nucleus.CutIsNucleus | crates/rxla-core/src/random.rs:42-74 | the kept categories are a nonempty leading run whose mass reaches p and, without its last member, does not |
| Nucleus.NucleusIsSmallest | crates/rxla-core/src/random.rs:12-14 | no smaller set of categories reaches probability p |
| Nucleus.LeadingIsHeaviest | crates/rxla-core/src/random.rs:42-66 | no m ranks weigh more than the first m |
| Nucleus.TopPDraws | crates/rxla-core/src/random.rs:25-90 | a draw is valid exactly on finite or masked lanes with a finite logit, and is then the kept finite category of largest perturbed logit |
| Nucleus.SortedIndicesSorted | crates/rxla-core/src/indexing.rs:582-610 | every category once, larger logits first, equal ones in order, not-a-number last |
| SearchSorted.Search | crates/rxla-core/src/indexing.rs:141-176 | fixed rounds of wrapping midpoints and clamped gathers: the result for every sorted vector and needle, which is the insertion point if and only if the last element does not lie before the needle or the length plus one is a power of two |
| SearchSorted.PastLast | crates/rxla-core/src/indexing.rs:141-176 | whether the insertion point is below the end can be read off the last element |
| SearchSorted.PastTheEnd | crates/rxla-core/src/indexing.rs:141-176 | the loop places a needle past the end of two elements at 3, where the insertion point is 2 |
| ExecutableCache.Compiler.CompileEncoded | crates/rxla-core/src/compiler.rs:564-670 | answer, recency, entries and every counter after a request, disk read and write errors included; eviction takes the shortest least-recent prefix that makes room |
| ExecutableCache.Compiler.InvalidateMemory | crates/rxla-core/src/compiler.rs:447-462 | forgets exactly one key, with byte and entry counts |
| ExecutableCache.Compiler.Clear | crates/rxla-core/src/compiler.rs:472-477 | forgets everything and keeps the other counters |
| ExecutableCache.MakeRoom | crates/rxla-core/src/compiler.rs:649-661 | the eviction loop terminates, never pops an empty queue, and leaves the longest suffix that fits with the key |
| ExecutableCache.Replay | crates/rxla-core/src/compiler.rs:447-670 | over any run of requests, invalidations and clears the keys held are the naive list's and every executable was made for its own key |
| ExecutableCache.RetainsMostRecent | crates/rxla-core/src/compiler.rs:564-670 | after any run of requests and clears the cache holds the longest run of most recently used keys within both limits |
| ExecutableCache.KeptIsLongest | crates/rxla-core/src/compiler.rs:649-661 | the kept suffix is the longest within both limits |
| ExecutableCache.MemoryKeyInjective | crates/rxla-core/src/compiler.rs:508-526 | program and options can be read back from a key, and plain and optioned keys never coincide |
| DiskCaches.PreimageInjective | crates/rxla-core/src/disk_cache.rs:266-283 | namespace, flags (unset, empty or a value) and key can be read back from the hashed bytes |
| ByteStrings.FramedInjective | crates/rxla-core/src/disk_cache.rs:266-283 | a length-prefixed part can be told apart from whatever follows it |
| DiskCaches.AnyDirectoryOpens | crates/rxla-core/src/disk_cache.rs:220-240 | a cache opens over any directory: the intact entries of its own realm are the least past that accounts for what it can load |
| DiskCaches.DiskCache.Load | crates/rxla-core/src/disk_cache.rs:288-313 | a hit is an artifact stored under exactly the requested key, even if identifiers collide |
| DiskCaches.DiskCache.Store | crates/rxla-core/src/disk_cache.rs:314-331 | publishes without overwriting, then trims when automatic trimming is on |
| DiskCaches.LoadAfterPublish | crates/rxla-core/src/disk_cache.rs:288-331 | a fresh publication that fits is what the next load of its key returns |
| DiskCaches.DiskCache.Scan | crates/rxla-core/src/disk_cache.rs:148-199 | every entry is counted under exactly one standing, the encoded bytes are those of every listing, and the candidates are exactly the compatible ones |
| DiskCaches.DiskCache.Trim | crates/rxla-core/src/disk_cache.rs:89-119 | removes exactly the shortest oldest-first prefix of compatible entries that meets the budget, with exact counts |
| DiskCaches.TrimKeepsTheRest | crates/rxla-core/src/disk_cache.rs:71-119 | the budget is met, removed and remaining bytes add up, and no other file is touched |
| DiskCaches.TrimTwice | crates/rxla-core/src/disk_cache.rs:89-119 | a second trim with the same budget removes nothing |
| DiskCaches.OldestFirstUnique | crates/rxla-core/src/disk_cache.rs:91 | there is one oldest-first order of a set of records, so the trim is determined |
| DiskCaches.ExcessIsShortest | crates/rxla-core/src/disk_cache.rs:99-117 | the removed prefix is the shortest that brings the total within the budget |
| ArtifactStore.FilenameRoundTrip | crates/rxla-cache/src/lib.rs:47-81 | a file name is recognised as an identifier exactly when it is that identifier's name |
| ArtifactStore.FileStore.Publish | crates/rxla-cache/src/lib.rs:204-228 | refuses oversized entries and never overwrites |
| ArtifactStore.FileStore.Scan | crates/rxla-cache/src/lib.rs:243-279 | lists every regular file named by an identifier once and counts the rest |
| ArtifactStore.FileStore.Remove | crates/rxla-cache/src/lib.rs:230-241 | removes exactly the named file and says whether it was there |

## Left out

- Floating point: values are reals; rounding, infinities and not-a-number arithmetic are not modelled. Elementary functions are
  given functions of the environment, the not-a-number literal is an arbitrary real of the environment, and division by zero
  has an arbitrary value.
- ExecutableCache.RetainsMostRecent: stated for runs without invalidations, which free room without bringing evicted keys back; with
  them the cache is the naive list of `ExecutableCache.Replay`.
- Dtypes beyond the checks of a gradient request and the cast boundary: appended nodes are recorded as F32 and casts keep values.
- Autodiff.Graph.ReverseGradients: subexpressions that the program records once and uses twice are appended once per use, with
  the same values; the lazy-tensor and cross-graph checks are not part of this model. Higher-order differentiation is not stated.
- MaxPooling.Selected: the window is reduced in row-major order, so a tie goes to the first element; the order is the compiler's.
- Program.Softmax: written without subtracting the row maximum, which changes no real value of a softmax.
- Attention.MaskedAttention: an additive mask is its exponential factor, so that minus infinity is the factor zero.
- Sdpa.ScaledDotProduct: the scale is a parameter, with no default and no finiteness check; bounds of dynamic axes, dtype and
  cross-graph checks are left out.
- Chunked.Session.Run: chunk length, capacity and width are parameters where the example fixes them, and matrices have no batch axes.
- Extents are unbounded; the errors for sizes that overflow 64 bits are not modelled, except where a loop's own offset could overflow.
- Precision options, matmul batch broadcasting and the algebraic shortcuts of graph construction.
- RandomSequence.Sequence.CommitIf: the four state slots share one version; uniform, normal, Bernoulli and dropout samples and key
  splitting only post-process blocks.
- Nucleus.TopPDraws: one lane with given noise; how noise is derived from random words and the batching over other axes are left out.
- Other top-k sampling, which differs from the model only in its fixed cutoff.
- ExecutableCache.Compiler.CompileEncoded: what the disk and the backend would answer are parameters; counters do not saturate and
  compile times are not kept.
- DiskCaches.DiskCache.Load: the envelope codec and the content hash are parameters; native deserialization is not modelled.
- ArtifactStore.FileStore.Scan: I/O errors, concurrent writers, symbolic links and temporary files are left out; everything that is
  not a regular file is one kind of item.
- Device clients, buffers, plugin loading, lowering to StableHLO, planning, and image and tensor-handle helpers: foreign calls or
  single checks that would only add easy members.
