# Verified model of xecuda

xecuda runs quantised language models on Intel GPUs: OpenCL kernels driven from Python, a
CUDA-like host launcher, a GGUF reader, a byte-level BPE tokenizer, and the llama.cpp sources it is
compared with. This project models the parts whose correctness depends on several functions at
once, in Dafny, and proves what they are for.

**Compute graph (tools/ref/ggml.c).** A tensor is its position in a pool. `CGraph` is the graph
object: recursive visiting with a visited set, use counts and a compute flag; the gradient builder;
the fusion test. Each method equals a function on values (`GraphBuild`, `Backward`), and the
theorems are about those functions: every run of forward builds records exactly the ancestors of
what was built, keeps the graph topologically ordered with exact use counts, flags exactly the
ancestors of what was selected, and terminates although a cast names itself as its target. The fusion test is right because use counts are exact.
The reverse loop keeps the sum of gradient times tangent over the nodes it has not processed, so
the gradient left for an entry of a parameter is the derivative of the losses with respect to that
entry, in the epsilon-delta sense (`PartialDerivatives.GradientIsDerivative`), and all it is computed
from is flagged for computation, and nothing else (`BackwardFlags.GradientsFlagged`). This covers vector
tensors with broadcast second operands and eighteen operations, all that `Tensors.Op` lists besides
`NoOp`, `Cpy` and `Other`. `Calculus` proves the chain, product, quotient and reciprocal rules it
needs. ADD1 hands its scalar operand a mean where a sum is due; `Add1Example` is a graph on which the
gradient comes out wrong, and `BackwardShapes.Add1CarriesExactly` says when it does not.

**Output rows (tools/ref/llama-context.cpp).** `OutputTable` keeps its views in one allocation that
every batch carves anew. It sorts the output ids, logs the swaps and replays them in place on the
first access. Whatever order a batch was written in, a token reads the row that was written for it,
and a negative index the row of the output it counts to from the last.
An encode leaves an earlier decode's log pending, and the replay then moves rows by their old
numbers on the new views: it is harmless, for all contents, exactly when it brings the encoded cells
back (`OutputRuns.EncodeFaithfulExactly`). With two views that is exactly when no pending swap meets
those cells (`OutputPending.TwoViewsExactly`), and a reachable failing batch is exhibited. With three
views swaps may meet the cells and cancel (`OutputPending.CancellingSwaps`), so there meeting them is
not the exact condition.

**State streams (tools/ref/llama-context.cpp).** Tensor copies postponed to a destructor equal
copies made at once exactly when no copied range changed in between; what was saved is restored.

**Kernels (python/xecuda/kernels.py).** `Barriers` is a machine of work-items whose steps interleave
freely between barriers. The reductions, the norms, the matvecs, the fused norm+matvecs and the
attention kernel run on it: any interleaving of a race-free kernel ends like the sequential one, so
the results hold for every schedule. Single-pass attention equals two-pass attention, and the tiled
product in src/xecuda_xmx.cpp adds each product once in any order of its tiles. Rows of Q4_K and Q6_K
blocks are packed and decoded back to every weight, and the kernels agree with the reference
decoders. The results are also said without the functions that the kernels are written with: an
attention row averages over the keys of its own group's head (`AttentionSchedules.AttentionMeaning`),
a normalised vector has mean square one up to eps (`NormLaws`), and a quantised weight is given by
the bytes of its block (`QuantBytes`).

**Tokenizer, GGUF reader, arena, launcher, addressing.** Texts are characters, and their UTF-8 is
written out (RFC 3629, section 3), with ill-formed stretches replaced on decoding. Decoding undoes
encoding exactly when the special tokens that occur are visible ASCII, or when one of them has a
character that stands for no byte (the joined tokens are then returned as they are) and the rest is
visible ASCII. Merging applies the rule listed first. The reader inverts the file layout, which
`GgufBytes` gives byte by byte, and notices every truncation. Arena objects are
packed, aligned and disjoint. The launcher calls the kernel once per index pair exactly when no
dimension is empty; an empty launch still makes one call. A tensor is contiguous exactly when
element i lies at i times the element size.

Numbers are exact: floats are reals, and `exp`, `sqrt`, `log`, `sin` and `cos` are parameters with
the laws they need. Integer width is written out where it matters (the arena, the launcher).

`dafny verify dfyconfig.toml` checks everything.

## Model

| member | source | states |
|---|---|---|
| ComputeGraph.CGraph.constructor | tools/ref/ggml.c:7335-7378 | a new graph has no nodes, no leafs, no gradients and nothing visited |
| ComputeGraph.CGraph.VisitParents | tools/ref/ggml.c:7098-7164 | the in-place visit, with the flag pushed again on a revisit, ends in the state that the visiting function gives, and terminates by a count of unvisited tensors and unflagged operations |
| ComputeGraph.CGraph.PushComputeFlag | tools/ref/ggml.c:7110-7117 | an already visited node only pushes the flag on, to the sources that lack it |
| ComputeGraph.CGraph.VisitOperand | tools/ref/ggml.c:7138-7142 | visiting one source counts one use of it and never adds work |
| ComputeGraph.CGraph.VisitOperands | tools/ref/ggml.c:7129-7144 | the slots are visited in evaluation order, each followed by the count of its use |
| ComputeGraph.CGraph.BuildForwardImpl | tools/ref/ggml.c:7166-7183 | earlier nodes keep their places, a newly added root is last, and the graph invariant is kept |
| ComputeGraph.CGraph.BuildForwardExpand | tools/ref/ggml.c:7199-7201 | an expansion visits with the compute flag on, keeps the graph invariant, and from closed flags flags exactly the operations among the ancestors of its root besides those flagged before |
| ComputeGraph.CGraph.BuildForwardSelect | tools/ref/ggml.c:7185-7197 | all alternatives are built, only the chosen one is flagged, and the chosen tensor is returned |
| GraphFacts.VisitBuilds | tools/ref/ggml.c:7098-7164 | a visit keeps nodes and leafs a duplicate-free partition of what is visited with sources first, adds to the use counts exactly the slots of the nodes it records, and puts a new root last; self-edges allowed |
| GraphRuns.VisitInv | tools/ref/ggml.c:7122-7183 | exact use counts and the build order survive every visit; a visited root adds no node |
| GraphRuns.SelectInv | tools/ref/ggml.c:7185-7197 | they survive a selection among any list of alternatives |
| GraphRuns.AllocInv | tools/ref/ggml.c:1765-1890 | allocating a tensor, even one that names itself as a source, disturbs no graph built before |
| GraphRuns.RunInv | tools/ref/ggml.c:7098-7201 | every run of allocations, expansions and selections keeps the invariant |
| GraphRuns.BuildOrder | tools/ref/ggml.c:7122-7183 | after any run from an empty graph: no tensor twice, nodes are operations or parameters and leafs neither, every source a leaf, earlier or the node itself, and each use count is the number of recorded source slots that name the tensor |
| GraphOrder.VisitsExactly | tools/ref/ggml.c:7098-7164 | a visit leaves recorded exactly what was recorded and the ancestors of its root |
| GraphOrder.RunRecords | tools/ref/ggml.c:7098-7201 | after any run from an empty graph the recorded tensors are exactly the ancestors of the tensors built |
| GraphOrder.EvaluationOrder | tools/ref/ggml.c:7129-7144 | of two sources of a newly visited node the one whose slot comes sooner in the evaluation order is recorded first, unless the other is needed for a sooner one |
| GraphFlags.VisitFlagsAncestors | tools/ref/ggml.c:7098-7144 | a flagged visit flags nothing but ancestors of its root that are operations |
| GraphFlags.VisitClosesFlags | tools/ref/ggml.c:7098-7144 | a flagged visit leaves every flagged operation's sources flagged, visited before or not |
| GraphFlags.ExpandFlagsExactly | tools/ref/ggml.c:7098-7120 | from closed flags, a tensor is flagged afterwards exactly if it was before or is an operation among the root's ancestors |
| GraphRuns.RunFlags | tools/ref/ggml.c:7185-7201 | after any run the flagged tensors are exactly those flagged before and the operations among the ancestors of the selected roots |
| ComputeGraph.CGraph.NodeListFindTensor | tools/ref/ggml.c:7596-7610 | finds a listed node, giving up at the first index past the graph |
| ComputeGraph.CGraph.UsesAfter | tools/ref/ggml.c:7647-7657 | counts the source slots of later subgraph nodes that name the node |
| ComputeGraph.CGraph.ViewSourcesInside | tools/ref/ggml.c:7665-7673 | true exactly when each view source up the chain is listed or constant |
| Fusion.SubgraphUsesAsSet | tools/ref/ggml.c:7647-7657 | for distinct indices the per-index count is a count over the set of later subgraph nodes |
| Fusion.PartIsWhole | tools/ref/ggml.c:7659-7661 | a part of the nodes holds all uses of a tensor exactly when every consumer is in the part |
| Fusion.CountTestIsExact | tools/ref/ggml.c:7647-7661 | for distinct indices the comparison of counts holds exactly when every consumer of the node in the whole graph comes later in the subgraph |
| ComputeGraph.CGraph.NodeCanFuse | tools/ref/ggml.c:7626-7674 | one round of the test, for any list of indices: the node has the operation and the flag and, unless an output, its uses are all counted in the list and every view source up the chain is listed or constant |
| ComputeGraph.CGraph.CanFuseSubgraph | tools/ref/ggml.c:7618-7678 | the test as a whole accepts exactly the lists all of whose nodes pass, repeated indices included; for distinct indices exactly those none of whose inner nodes is used outside |
| Fusion.PassingIsFusable | tools/ref/ggml.c:7626-7674 | for distinct indices a node passes exactly when it is an operation that the listed code stands for, is flagged and, unless listed as an output, is none, has no consumer in the whole graph outside the later part, and every tensor it is a view of along any chain is listed or constant |
| Fusion.ViewsInsideExactly | tools/ref/ggml.c:7665-7673 | the walk up the views accepts exactly when the end of every chain of views from the node is listed or constant |
| BackwardFacts.AddOrSetAdds | tools/ref/ggml.c:6544-6558 | the value of one gradient grows by the handed tensor, whether it existed or not, and no other changes |
| BackwardFacts.SubOrSetAdds | tools/ref/ggml.c:6597-6611 | the same with the handed tensor negated |
| BackwardFacts.Add1OrSetAdds | tools/ref/ggml.c:6581-6595 | the same with a scalar spread over the shape of the source |
| BackwardOps.ElementwiseMoves | tools/ref/ggml.c:6633-7046 | for DUP, SQR, SQRT, LOG, SIN, COS, SCALE, NEG and EXP, what is handed to the operand pairs with its tangent as the node's gradient pairs with the node's tangent |
| Values.ReductionsAre | tools/ref/ggml.c:2474-2616 | what SUM, MEAN and REPEAT_BACK compute: the sum of all entries, that sum divided by their number, and the sum over one residue class |
| BackwardShapes.ShapingMoves | tools/ref/ggml.c:6731-6755 | the same for SUM, MEAN, REPEAT and REPEAT_BACK |
| BackwardShapes.BinaryFirst | tools/ref/ggml.c:6639-6698 | the same for the first operand's part of the tangent of ADD, ADD1, SUB, MUL and DIV |
| BackwardShapes.BinarySecond | tools/ref/ggml.c:6643-6704 | the same for the second operand's part, folding a broadcast operand back to its size |
| BackwardShapes.Add1CarriesExactly | tools/ref/ggml.c:6651-6658 | the mean that ADD1 hands to its second operand pairs with that operand's tangent as it should exactly when the node has one element, its gradient sums to zero or the operand rests |
| Add1Example.GradientLeft | tools/ref/ggml.c:7203-7300 | for a scalar parameter added to a constant of two elements and summed as the loss, the builder leaves the parameter the mean of two ones |
| Add1Example.Add1GradientWrong | tools/ref/ggml.c:6651-6658 | on that graph the gradient left for the parameter is one, while the derivative of the loss is two |
| Add1Example.LineMoves | tools/ref/ggml.c:6651-6658 | the values along which that derivative is taken exist |
| Gradient.PrunedStill | tools/ref/ggml.c:7228-7287 | a node that is not marked as needing a gradient has a zero tangent |
| Gradient.StepKeepsSum | tools/ref/ggml.c:6613-7097 | processing one node leaves the sum of gradient times tangent over the unprocessed nodes as it was |
| Gradient.LoopKeepsSum | tools/ref/ggml.c:7289-7296 | so does the whole reverse loop, from any point of it |
| Backward.LoopStays | tools/ref/ggml.c:7289-7296 | a step gives gradients only to nodes marked as needing them, so operations without a rule may occur elsewhere in the graph |
| GradientTheorem.GradientIsExact | tools/ref/ggml.c:7203-7300 | the losses' tangent is the sum over the parameters of gradient times tangent, in every direction in which parameters move |
| Derivatives.NodeFollows | tools/ref/ggml.c:6623-7046 | along any smooth family of values the tangent computed for a node is the derivative of its entries |
| PartialDerivatives.GradientIsDerivative | tools/ref/ggml.c:7203-7300 | entry j of the gradient left for a parameter is the derivative of the sum of the losses with respect to entry j of the parameter, and zero where no gradient is left |
| BackwardGraph.GradientGraphBuilt | tools/ref/ggml.c:7203-7300 | the forward nodes stay in place at the front of the graph, which still has its invariant, and every gradient is one of its tensors; nodes that need no gradient may be any operations |
| BackwardFlags.GradientsFlagged | tools/ref/ggml.c:6544-7300 | from closed flags, after the builder a tensor is flagged exactly if it was before or is an operation among the ancestors of a gradient that is left |
| BackwardFlags.GradientComputed | tools/ref/ggml.c:6557 | so every gradient that is an operation is flagged for computation |
| BackwardNeeds.NeededExactly | tools/ref/ggml.c:7228-7287 | the nodes marked as needing a gradient are exactly the recorded nodes that have a recorded parameter or loss among their ancestors |
| ComputeGraph.CGraph.NewOperation | tools/ref/ggml.c:1765-1890 | emitting a gradient operation extends the pool and leaves the graph alone |
| ComputeGraph.CGraph.SetGrad | tools/ref/ggml.c:6550-6557 | assigning a gradient also expands its forward graph: from closed flags exactly the operations among its ancestors gain the compute flag |
| ComputeGraph.CGraph.AddOrSet | tools/ref/ggml.c:6544-6558 | adds to an existing gradient by a new ADD, else assigns |
| ComputeGraph.CGraph.Add1OrSet | tools/ref/ggml.c:6581-6595 | adds to an existing gradient by a new ADD1, else assigns a REPEAT |
| ComputeGraph.CGraph.SubOrSet | tools/ref/ggml.c:6597-6611 | subtracts from an existing gradient by a new SUB, else assigns a NEG |
| ComputeGraph.CGraph.ServeFirst | tools/ref/ggml.c:6633-7046 | the first operand's rule of the modelled operations |
| ComputeGraph.CGraph.ServeSecond | tools/ref/ggml.c:6643-6704 | the second operand's rule of ADD, ADD1, SUB, MUL and DIV |
| ComputeGraph.CGraph.ComputeBackward | tools/ref/ggml.c:6613-7097 | one node: nothing without a gradient, whatever the operation, and a rule only for operands that need one |
| ComputeGraph.CGraph.SeedLosses | tools/ref/ggml.c:7228-7287 | marks the nodes that need gradients and gives each loss an accumulator |
| ComputeGraph.CGraph.BackwardLoop | tools/ref/ggml.c:7289-7296 | the reverse loop runs over the nodes there were when it began, although each step adds nodes |
| ComputeGraph.CGraph.BuildBackwardExpand | tools/ref/ggml.c:7203-7300 | the whole builder, in place, leaves the gradient graph that the theorems are about, keeps it well built, and flags exactly the operations among the ancestors of the gradients besides those flagged before |
| Calculus.ProductRule | tools/ref/ggml.c:6679-6692 | the product rule, for MUL |
| Calculus.QuotientRule | tools/ref/ggml.c:6693-6704 | the quotient rule, for DIV with a nonzero divisor |
| OutputReorder.SortLogSorts | tools/ref/llama-context.cpp:2050-2069 | replaying the logged swaps puts distinct ids in order |
| OutputReorder.DecodedIds | tools/ref/llama-context.cpp:2032-2077 | after a decode the mapping sends every output token to its rank and every other to -1 |
| OutputReorder.DecodeFaithful | tools/ref/llama-context.cpp:2032-2077 | each output token reads the row the graph wrote for it, whatever the order of the outputs; -1, -2 and so on read the rows of the output tokens counted from the last; every other index fails |
| OutputReorder.ReorderedRowsAscend | tools/ref/llama-context.cpp:2279-2345 | the replay leaves the rows in the order of their tokens |
| OutputReorder.DenseRowsExactly | tools/ref/llama-context.cpp:2279-2314 | rows kept one per processed token end in token order exactly when each of the first tokens is the number of outputs below the one in its place and the rest follow in order |
| OutputReorder.RowIsRank | tools/ref/llama-context.cpp:2041-2077 | decode gives an output token the row that counts the outputs below it |
| OutputReorder.BackIsForth | tools/ref/llama-context.cpp:845-872 | after a decode a negative index resolves like the output token that stands as many places before the end: -1 like the last output token |
| OutputReorder.EachFromEnd | tools/ref/llama-context.cpp:845-872 | each of the indices from -1 down to minus the number of outputs stands for an output |
| OutputReorder.IotaFromEnd | tools/ref/llama-context.cpp:1445-1449 | for an encode of n tokens index -k stands for token n - k, and no other |
| OutputReorder.DenseRowsFail | tools/ref/llama-context.cpp:2279-2314 | three tokens with outputs 2 and 1 in that order leave the rows of tokens 2, 0, 1 |
| OutputLayout.LogRows | tools/ref/llama-context.cpp:2279-2345 | replaying the log on the one allocation permutes the rows of every view alike and mixes no two views |
| OutputLayout.ViewsAdjoin | tools/ref/llama-context.cpp:2182-2203 | the first view begins the allocation, the rows of a view follow each other, and the next view or the end follows after a row for each token or each output |
| OutputRuns.DecodeFaithfully | tools/ref/llama-context.cpp:2029-2077 | after a decode every output token reads, in every view with a row per output, the row the graph wrote for it, and so does each negative index for the output token it counts to from the last; every other index fails |
| OutputRuns.AccessKeepsFaith | tools/ref/llama-context.cpp:2279-2345 | an access, which moves rows and clears the log, changes no later answer, for negative indices as for others |
| OutputRuns.EncodeKeepsFaith | tools/ref/llama-context.cpp:1393-1450 | an encode over a pending log is read back right, forwards and from the end, when the replay, on views carved anew, brings its cells back |
| OutputRuns.EncodeFaithfulExactly | tools/ref/llama-context.cpp:1393-1450 | and for all contents only then |
| OutputRuns.ClearLeaves | tools/ref/llama-context.cpp:1393-1450 | so it is when no pending swap meets a cell of its rows, in particular when the log is empty |
| OutputRuns.RunFaithful | tools/ref/llama-context.cpp:1393-2345 | after any run of decodes, encodes so placed and accesses, the accessors return the rows of the last batch, by token or counted from the last output |
| OutputPending.TwoViewsExactly | tools/ref/llama-context.cpp:2182-2203 | with two views that have a row per output an encode is read back right, whatever it holds, exactly when no pending swap meets a cell of its rows |
| OutputPending.PendingSwapDisturbs | tools/ref/llama-context.cpp:1440-1448 | a decode of outputs 0, 2, 1, 3 and then an encode of one token, with two views of width one and two sequences: some result is read back wrong |
| OutputPending.CancellingSwaps | tools/ref/llama-context.cpp:2279-2345 | with three views a decode can leave a log whose swaps meet the rows of an encode and yet bring all its cells back |
| OutputBuffer.OutputTable.SwapCells | tools/ref/llama-context.cpp:2288-2292 | the element loop exchanges two stretches of the allocation and nothing else |
| OutputBuffer.OutputTable.SwapView | tools/ref/llama-context.cpp:2288-2304 | the rows of one view are exchanged, at the offset the last reservation gave it |
| OutputBuffer.OutputTable.SwapRows | tools/ref/llama-context.cpp:2284-2342 | all views are swapped alike |
| OutputBuffer.OutputTable.Reorder | tools/ref/llama-context.cpp:2279-2345 | the allocation ends as the replay of the log, which is cleared |
| OutputBuffer.OutputTable.ViewOffset | tools/ref/llama-context.cpp:2182-2203 | views lie one behind the other, each with a row for every output or for every token |
| OutputBuffer.OutputTable.ResolveRow | tools/ref/llama-context.cpp:845-872 | negative indices count from the end, -1 being the last row, and each of the four failures is told apart |
| OutputBuffer.OutputTable.GetIth | tools/ref/llama-context.cpp:874-892 | replays, then returns the start of the row the mapping gives, or its failure |
| OutputBuffer.OutputTable.Reserve | tools/ref/llama-context.cpp:2089-2249 | room for as many rows as outputs or sequences, whichever are more; the allocation is kept when it is large enough, the views are carved anew, every id is unset, and the log stays |
| OutputBuffer.OutputTable.PlaceIds | tools/ref/llama-context.cpp:2041-2047 | maps each listed id to its position and reports whether they were in order |
| OutputBuffer.OutputTable.Least | tools/ref/llama-context.cpp:2056-2061 | the scan settles on the first least id |
| OutputBuffer.OutputTable.SelectionSort | tools/ref/llama-context.cpp:2050-2069 | the ids end as the replay of the log that was written beside them |
| OutputBuffer.OutputTable.MapOutputs | tools/ref/llama-context.cpp:2029-2077 | the mapping tail of decode: every output is read back as it was written, with the rows still where the graph put them |
| OutputBuffer.OutputTable.MapTokens | tools/ref/llama-context.cpp:1445-1449 | the mapping of encode: token i gets row i, and the log is left as it was |
| StateIO.WriteDummy.Write | tools/ref/llama-context.cpp:2516-2540 | a direct write is counted |
| StateIO.WriteDummy.WriteTensor | tools/ref/llama-context.cpp:2524-2530 | a tensor write is counted unless tensors are skipped |
| StateIO.WriteHost.Write | tools/ref/llama-context.cpp:2554-2562 | copies at once and advances, or fails without effect when the buffer is too small |
| StateIO.WriteHost.WriteTensor | tools/ref/llama-context.cpp:2564-2575 | reserves the place and remembers the copy, or fails without effect |
| StateIO.WriteHost.Destroy | tools/ref/llama-context.cpp:2547-2552 | the remembered copies are made in order |
| StateIO.ReadHost.Read | tools/ref/llama-context.cpp:2606-2614 | hands out the next bytes and advances, or fails without effect |
| StateIO.ReadHost.ReadTensor | tools/ref/llama-context.cpp:2616-2627 | remembers the copy and advances, or fails without effect |
| StateIO.ReadHost.Destroy | tools/ref/llama-context.cpp:2599-2604 | the remembered copies are made into the tensors in order |
| StateStream.PutAllExactly | tools/ref/llama-context.cpp:2554-2575 | a sequence of writes succeeds exactly when its total size fits |
| StateStream.EagerAt | tools/ref/llama-context.cpp:2554-2575 | an item begins in the stream after the sizes of the items before it, and its bytes are those of the value or of the tensor from the offset on |
| StateStream.FlushedIsEager | tools/ref/llama-context.cpp:2542-2593 | with the tensors as they are at the flush, the buffer holds what writing at once would have written, its tail untouched, and the count is the total size |
| StateStream.DeferredEqualsEagerExactly | tools/ref/llama-context.cpp:2564-2575 | the postponed bytes equal bytes written at once exactly when every saved range has the same content at both times |
| StateStream.CountIsTotal | tools/ref/llama-context.cpp:2516-2540 | the dummy counts the bytes the host writer writes or, skipping tensors, those of the directly written values alone |
| StateStream.TakeAllRestores | tools/ref/llama-context.cpp:2595-2645 | reading a saved stream with the same requests returns every value and puts back every saved byte, and no other |
| StateStream.RoundTrip | tools/ref/llama-context.cpp:2516-2645 | saving and restoring together: values, ranges and the byte counts of all three classes agree |
| ByteAlphabet.ByteCharInjective | python/xecuda/tokenizer.py:16-26 | no two bytes share a character |
| ByteAlphabet.ByteCharTable | python/xecuda/tokenizer.py:16-26 | bytes 0 to 32 become 256 to 288, 127 to 160 become 289 to 322, 173 becomes 323, and every other byte itself |
| ByteAlphabet.BytesToUnicode | python/xecuda/tokenizer.py:16-26 | the table built by the two lists maps every byte: visible ones to themselves, hidden ones to 256 and up in order |
| ByteAlphabet.Invert | python/xecuda/tokenizer.py:42 | the decoding table undoes it and knows no other character |
| BytePairs.MergeKeepsText | python/xecuda/tokenizer.py:68-86 | a round of merging keeps the concatenation |
| BytePairs.MergeShortens | python/xecuda/tokenizer.py:68-86 | a round for a pair that occurs strictly shortens the word |
| BytePairs.MergeRemoves | python/xecuda/tokenizer.py:68-86 | after its round the pair no longer occurs |
| BytePairs.MergeLeftmost | python/xecuda/tokenizer.py:68-86 | a round joins the first occurrence of the pair and goes on behind it |
| BytePairs.MergeNothing | python/xecuda/tokenizer.py:68-86 | a word without the pair is left as it is |
| BytePairs.BestIsUnique | python/xecuda/tokenizer.py:65-67 | two least-ranked pairs are the same if one is ranked, so the order of the set does not matter |
| BytePairs.EncodeStep | python/xecuda/tokenizer.py:64-89 | any least-ranked pair leads to the same final word |
| BytePairs.LowestFirst | python/xecuda/tokenizer.py:64-89 | a word whose adjacent symbols at some place have the least position in the list of merges is encoded like the word after that merge |
| BytePairs.NoneRanked | python/xecuda/tokenizer.py:66-67 | a word none of whose adjacent symbols are listed is final |
| BytePairs.EncodeKeepsText | python/xecuda/tokenizer.py:57-91 | the final word spells the token |
| BytePairs.EncodeIsFinal | python/xecuda/tokenizer.py:57-91 | no adjacent pair of the final word has a rank |
| BytePairs.NoneLeft | python/xecuda/tokenizer.py:57-91 | at no place of the final word are the adjacent symbols listed |
| BytePairs.EncodeKnown | python/xecuda/tokenizer.py:57-91 | if single symbols and merge products are tokens, all symbols of the final word are |
| BytePairs.TableOk | python/xecuda/tokenizer.py:37-40 | ranks of different pairs differ and lie below the rank of unranked pairs |
| BytePairs.RanksUnique | python/xecuda/tokenizer.py:37-40 | the list of merges determines the table: each pair has the position of the last merge that spells it |
| Tokenizer.RankMerges | python/xecuda/tokenizer.py:37-40 | merges are split at their first space, one without a space is an error, and a later merge of the same pair overrides its rank |
| Tokenizer.GetPairs | python/xecuda/tokenizer.py:49-55 | the set of adjacent pairs |
| Tokenizer.MergeRound | python/xecuda/tokenizer.py:69-86 | the index loop merges all left-to-right occurrences that do not overlap |
| Tokenizer.BpeTokenizer.constructor | python/xecuda/tokenizer.py:29-46 | the tables are mutually inverse where they should be, a token that occurs twice has its last id, the special tokens are those of type 3 in order, ranks follow the list of merges, and the memo is empty |
| Tokenizer.BpeTokenizer.MinPair | python/xecuda/tokenizer.py:65 | finds a pair of least rank: if any pair given is listed, the one found is listed no later |
| Tokenizer.BpeTokenizer.Bpe | python/xecuda/tokenizer.py:57-91 | returns the final word whether or not it was in the memo, and keeps every memo entry right |
| PreTokenizer.MatchIsScan | python/xecuda/tokenizer.py:11-14 | on byte-encoded text the pattern, matched by backtracking, finds what a scan finds |
| PreTokenizer.FindAllIsPieces | python/xecuda/tokenizer.py:110 | so the list of matches is the list of scanned pieces |
| PreTokenizer.PieceIs | python/xecuda/tokenizer.py:11-14 | from any place the pattern takes a contraction, one number, the longest run of letters with at most one other character before it, or else the longest run of symbols |
| PreTokenizer.PiecesPartition | python/xecuda/tokenizer.py:110 | the pieces are not empty and concatenate to the text |
| PreTokenizer.FindAllPartitions | python/xecuda/tokenizer.py:11-14 | every byte-encoded text is partitioned by the pattern |
| Utf8.DecodesText | python/xecuda/tokenizer.py:109-122 | decoding undoes the encoding of a text, whatever bytes follow |
| Utf8.UnitsShareBits | python/xecuda/tokenizer.py:109 | the bits of a character are shared out over one to four bytes as section 3 of RFC 3629 prescribes |
| Utf8.ReplacesLongest | python/xecuda/tokenizer.py:122 | where no whole character stands, one U+FFFD replaces the longest stretch that begins some character, or else one byte |
| Utf8.DecodesAround | python/xecuda/tokenizer.py:122 | ill-formed bytes are replaced and do not disturb the text behind them |
| Utf8.OnePerByte | python/xecuda/tokenizer.py:122 | bytes that decode one by one, none replaced, are ASCII |
| Encoding.SplitJoins | python/xecuda/tokenizer.py:99-104 | splitting on special tokens loses nothing |
| Encoding.SplitAlternates | python/xecuda/tokenizer.py:99-108 | special and ordinary parts alternate, and no ordinary part is a special token |
| Encoding.SplitIsLeftmost | python/xecuda/tokenizer.py:99-108 | at no position of an ordinary part does a special token begin, and each special part is the first listed of those that begin where it stands |
| Encoding.OrdinaryHoldsNone | python/xecuda/tokenizer.py:99-108 | so no ordinary part has a special token inside it |
| Encoding.RoundTripExactly | python/xecuda/tokenizer.py:94-124 | decode(encode(text)) is text exactly when the special tokens in it are visible ASCII, or one of them has a character that stands for no byte and the ordinary parts are visible ASCII |
| Encoding.RoundTrip | python/xecuda/tokenizer.py:94-124 | with visible ASCII special tokens every text comes back |
| Encoding.AccentLost | python/xecuda/tokenizer.py:114-124 | the text é does not come back when é is the special token |
| Encoding.SpacedKept | python/xecuda/tokenizer.py:114-124 | a special token with a space in it comes back as it is |
| Encoding.SkippingIsDropping | python/xecuda/tokenizer.py:114-119 | decoding with special tokens skipped is decoding the other ids |
| Tokenizer.BpeTokenizer.ByteEncode | python/xecuda/tokenizer.py:109 | spells each byte of the text's UTF-8 |
| Tokenizer.BpeTokenizer.EncodePart | python/xecuda/tokenizer.py:105-111 | a special token is one id, other text the ids of its pieces |
| Tokenizer.BpeTokenizer.Encode | python/xecuda/tokenizer.py:94-112 | the ids are those of the text alone, whatever the memo holds, and they exist for a complete vocabulary |
| Tokenizer.BpeTokenizer.SpellIds | python/xecuda/tokenizer.py:114-120 | the tokens of the ids joined, special ones left out on request |
| Tokenizer.BpeTokenizer.ByteDecode | python/xecuda/tokenizer.py:121-124 | the bytes that the characters stand for, decoded as UTF-8 with replacement, or the characters themselves if one stands for no byte |
| Tokenizer.BpeTokenizer.Decode | python/xecuda/tokenizer.py:114-124 | decoding as a whole gives a text, or the failure on an unknown id |
| Tokenizer.EncodeAfter | python/xecuda/tokenizer.py:94-124 | after encoding any texts before, encoding and decoding a text gives it back exactly under the condition above |
| Softmax.OnlineStep | python/xecuda/kernels.py:715-723 | rescaling by the change of maximum and adding the new term gives the sums over one more position |
| Softmax.ShiftedRatio | python/xecuda/kernels.py:726-728 | the ratio of the sums does not depend on the maximum that was subtracted |
| Softmax.TwoPassIsAttend | src/xecuda_xmx.cpp:109-128 | normalising the weights first and then averaging gives the same ratio |
| Softmax.AttendWithin | python/xecuda/kernels.py:707-729 | the result lies between the least and the greatest of the values |
| Attention.OnlineRound | python/xecuda/kernels.py:707-724 | one key position keeps the accumulated row, mass and maximum in step |
| Attention.OnlineRow | python/xecuda/kernels.py:700-729 | the single pass leaves the softmax average in its row, from any starting maximum, and writes nothing else |
| Attention.ItemFits | python/xecuda/kernels.py:691-709 | every index a work-item forms is inside its buffer, for every grouping of heads |
| Attention.EveryItem | python/xecuda/kernels.py:691-697 | every item is one position of one query head of one group |
| Attention.GroupKeys | python/xecuda/kernels.py:693-697 | the heads kv * group + i of one group all read the key rows from kv * seqKv * width on |
| Attention.AttendAverages | python/xecuda/kernels.py:700-729 | the softmax average times the sum of the exponentials of all scores is the sum of the values so weighted |
| Attention.GqaItem | python/xecuda/kernels.py:688-730 | a work-item completes its own row and touches no other; for every way to write its number as position pos of query head kv * group + i, each entry of the row is the average over the key rows of head kv, weighted by the exponentials of the scaled inner products; those past the end do nothing |
| Attention.GqaAttention | python/xecuda/kernels.py:688-730 | in any order, with repetitions, all rows that were run are complete, each averaging over the keys of its own group's head |
| Attention.TwoPassRow | src/xecuda_xmx.cpp:91-129 | the two-pass row is the same average |
| Attention.FlashHead | src/xecuda_xmx.cpp:88-130 | the tiles cover each query row of a head once |
| Attention.FlashAttention | src/xecuda_xmx.cpp:61-135 | missing buffers and bad sizes are refused without effect, else every row is complete, each head averaging over its own keys |
| Attention.DoneIsUnique | src/xecuda_xmx.cpp:61-135 | completeness determines the whole output |
| Attention.OnlineEqualsTwoPass | python/xecuda/kernels.py:688-730 | on the same inputs both implementations end with the same output, in any order of work-items |
| AttentionSchedules.RoundKeeps | python/xecuda/kernels.py:707-724 | step by step on shared memory, a round leaves the registers and the row as those over one more key position |
| AttentionSchedules.ItemValue | python/xecuda/kernels.py:688-730 | run alone, a work-item leaves the softmax average of its head in its row |
| AttentionSchedules.LaunchDisciplined | python/xecuda/kernels.py:688-730 | each work-item writes its own registers and its own row, and reads nothing that another writes |
| AttentionSchedules.AttentionAnySchedule | python/xecuda/kernels.py:676-730 | however the steps of all work-items interleave, every row of every head ends as the softmax average over the keys of its head |
| AttentionSchedules.AttentionMeaning | python/xecuda/kernels.py:676-730 | so under every schedule entry e of position pos of query head kv * group + i averages the entries e of the values of head kv, weighted by the exponentials of the scores of its keys |
| TiledProduct.TileHolds | src/xecuda_xmx.cpp:42-47 | an entry lies in exactly one tile |
| TiledProduct.AddTile | src/xecuda_xmx.cpp:46-54 | each entry of the tile grows by its row-times-column product, no other entry changes |
| TiledProduct.AddTiles | src/xecuda_xmx.cpp:41-56 | with the tiles in any order, each entry of C grows by its product once |
| TiledProduct.EntryGrows | src/xecuda_xmx.cpp:46-54 | an entry that has had its product added has grown by the sum over x of A[r, x] times B[x, s] |
| TiledProduct.MultiplyAccumulate | src/xecuda_xmx.cpp:22-59 | missing tiles, tiles without data and tiles whose inner sizes differ are refused without effect, else C grows by A times B |
| Barriers.AnyInterleaving | python/xecuda/kernels.py:52-64 | items whose accesses do not conflict end alike under every interleaving |
| Barriers.CompletesExactly | python/xecuda/kernels.py:52-64 | the interleavings are all orders in which each item takes as many steps as it has |
| Barriers.AnyPhaseOrder | python/xecuda/kernels.py:52-71 | every such order of a phase, the release of its barrier and a run of the later phases make a run of the kernel |
| Barriers.AnySchedule | python/xecuda/kernels.py:52-71 | so does a race-free kernel of any number of barrier phases |
| Barriers.DisciplineIsRaceFree | python/xecuda/kernels.py:52-71 | items that touch only what they own, or what nobody writes, do not conflict |
| Barriers.SharesAdded | python/xecuda/kernels.py:522-534 | a loop that adds to several accumulators in turn adds to each its own terms |
| Reduction.FoldsAreTotal | python/xecuda/kernels.py:56-58 | the strided partial sums add up to the sum over all indices |
| Reduction.StridedSum | python/xecuda/kernels.py:56-57 | the strided loop of one work-item adds each index of its residue class once |
| Reduction.TreeSum | python/xecuda/kernels.py:61-64 | the halving tree leaves the sum of all slots in slot 0 |
| Reduction.TreeRaceFree | python/xecuda/kernels.py:61-64 | within each halving the slots read and written by different items are disjoint |
| Reduction.ReduceSums | python/xecuda/kernels.py:822-840 | slot 0 ends as the sum of squares, of the sums with the residual when fused, for every length and every power-of-two group |
| NormKernels.ReduceComputes | python/xecuda/kernels.py:822-844 | under every schedule the reduction writes one over the root of the mean of the squares plus eps |
| NormLaws.ReduceNormalises | python/xecuda/kernels.py:822-844 | under every schedule what is written is positive, and its square times the sum of all squares plus n times eps is n |
| NormKernels.RmsNormRaceFree | python/xecuda/kernels.py:45-72 | no two work-items conflict between barriers |
| NormKernels.RmsNormComputes | python/xecuda/kernels.py:45-72 | under every schedule each output is the input times that root times its weight |
| NormLaws.RmsNormNormalises | python/xecuda/kernels.py:45-72 | under every schedule all entries are scaled by their weights and by one positive number whose square times the sum of squares plus n times eps is n |
| NormLaws.OutputsHaveUnitMean | python/xecuda/kernels.py:45-72 | with unit weights the squares of the outputs add up to n less the share of eps |
| NormKernels.AddNormComputes | python/xecuda/kernels.py:1132-1143 | each output of the separate add and norm |
| NormLaws.AddNormScales | python/xecuda/kernels.py:1132-1143 | under every schedule an output is the sum of the input and the residual times the root times its weight |
| NormKernels.MatvecRaceFree | python/xecuda/kernels.py:402-448 | the local copy is written by its owners before the barrier and only read after it, and the row guard comes after the barrier |
| NormKernels.MatvecComputes | python/xecuda/kernels.py:402-448 | under every schedule a guarded row gets its product with the filled local vector |
| NormLaws.MatvecSums | python/xecuda/kernels.py:402-448 | the product is the sum of the weights times the inputs, plain, normalised, or normalised with the residual added |
| NormKernels.NormMatvecIsComposition | python/xecuda/kernels.py:936-993 | the fused kernel, fed the reduction's result, equals the norm kernel followed by the plain matvec, whatever their schedules |
| NormKernels.AddNormMatvecIsComposition | python/xecuda/kernels.py:1045-1103 | the same with the residual added, against the separate add and norm |
| HalfFloat.KernelAgreesExactly | python/xecuda/kernels.py:369-377 | the kernel's bit trick gives the reference's number exactly when the exponent is not all ones |
| QuantBytes.SignNegates | tools/_offref.py:9-13 | the sign bit negates a number |
| QuantBytes.SmallNumbers | tools/_offref.py:11 | the numbers below 0x0400 are multiples of 2 to the -24 |
| QuantBytes.LargerNumbers | tools/_offref.py:13 | 0x3C00 is one, the next exponent doubles, and a mantissa m adds m / 1024 of the number |
| QuantBytes.SpecialNumbers | tools/_offref.py:12 | the infinity counts as one, and nothing else with its exponent is a number |
| QuantQ4.ScalesRoundTrip | python/xecuda/kernels.py:383-392 | packing eight six-bit scales and minima into twelve bytes is undone at every position |
| QuantQ4.NibblesRoundTrip | python/xecuda/kernels.py:439-441 | two nibbles of a byte are recovered |
| QuantQ4.DequantQ4 | tools/_offref.py:22-36 | the reference loop appends the decoded row, entry by entry |
| QuantQ4.LookupEmbedding | python/xecuda/model.py:219-257 | the host's lookup fills the same decoded row, for any token whose row is inside the data, and leaves zero what whole blocks do not cover |
| QuantQ4.ProductRow | python/xecuda/kernels.py:416-446 | the fused loops give the product of the decoded row with x, reading only inside the row's bytes |
| QuantQ4.MatvecItem | python/xecuda/kernels.py:402-449 | one work-item writes its own row's product and no other; columns past whole blocks are not read |
| QuantQ4.DecodersAgree | python/xecuda/kernels.py:416-446 | with exponents not all ones the kernel's and the reference's rows agree |
| QuantBytes.Decoded4 | tools/_offref.py:17-36 | entry 256 b + 32 j + l of a Q4_K row, from the bytes of its block by quotients and remainders: where its factors, scale, minimum and nibble lie and how they combine |
| QuantBytes.RowPlace4 | python/xecuda/kernels.py:412-414 | the bytes of a row lie behind those of the rows before it |
| QuantBytes.RowProductIs | python/xecuda/kernels.py:416-446 | the product of a row is the sum of its entries times those of x |
| QuantQ6.CodesRoundTrip | python/xecuda/kernels.py:525-528 | four six-bit codes packed in two low bytes and one high byte are recovered |
| QuantQ6.DequantQ6 | tools/_offref.py:38-59 | the reference fills the decoded row |
| QuantQ6.LaneSums | python/xecuda/kernels.py:522-533 | four accumulators take the four quarters of a half block |
| QuantQ6.ProductRow | python/xecuda/kernels.py:511-539 | the fused loops give the product of the decoded row with x |
| QuantQ6.MatvecItem | python/xecuda/kernels.py:497-542 | one work-item writes its own row's product and no other |
| QuantQ6.DecodersAgree | python/xecuda/kernels.py:513-538 | with exponents not all ones the kernel's and the reference's rows agree |
| QuantBytes.Decoded6 | tools/_offref.py:38-59 | entry 256 b + 128 h + 32 k + l of a Q6_K row, from the bytes of its block by quotients and remainders |
| QuantBytes.RowPlace6 | python/xecuda/kernels.py:507-509 | the bytes of a row lie behind those of the rows before it |
| QuantPacking.Row4RoundTrip | tools/_offref.py:22-36 | packing any numbers, scales, minima and quants into Q4_K blocks and decoding the row gives every weight of every block |
| QuantPacking.Row6RoundTrip | tools/_offref.py:38-59 | the same for Q6_K |
| MatvecSchedules.MatvecQ4IsReference | python/xecuda/kernels.py:394-449 | under every schedule a row gets the product of the filled vector with the reference's decoding of its bytes |
| QuantBytes.ExpectedIs | python/xecuda/kernels.py:402-449 | what a row gets is the sum of its decoded weights times the inputs, plain or normalised |
| MatvecSchedules.LaneComputes | python/xecuda/kernels.py:497-542 | under every schedule the four partial sums of each half block add up to the row's product |
| MatvecSchedules.MatvecQ6IsReference | python/xecuda/kernels.py:489-542 | the same for Q6_K, with its four partial sums |
| ArenaLayout.PlaceExactly | tools/ref/ggml.c:1707-1747 | placing fails exactly when the padded object with its header does not fit, no 64-bit sum wraps, and otherwise it starts at the end of the last object |
| ArenaLayout.NoWrap | tools/ref/ggml.c:1722-1733 | the two overflow checks make the sums exact |
| ArenaLayout.RunPacked | tools/ref/ggml.c:1707-1763 | every run of allocations and resets leaves the objects back to back, aligned and inside the buffer |
| ArenaLayout.RegionsDisjoint | tools/ref/ggml.c:1707-1763 | two objects of any run are disjoint with their headers, aligned and inside the buffer |
| ArenaLayout.TensorsFromNext | tools/ref/ggml.c:1975-2006 | stepping from one tensor to the next lists exactly the tensors, in allocation order |
| Arena.Context.Reset | tools/ref/ggml.c:1652-1660 | forgets all objects |
| Arena.Context.UsedMem | tools/ref/ggml.c:1674-1676 | the end of the last object: its offset and its size |
| Arena.Context.NewObject | tools/ref/ggml.c:1707-1763 | links the new object after the last, its data behind the header and padded to the next multiple of the alignment, or fails exactly when it does not fit, with everything before unchanged |
| Arena.Context.GetFirstTensor | tools/ref/ggml.c:1975-1989 | the first tensor object, if any |
| Arena.Context.GetNextTensor | tools/ref/ggml.c:1991-2006 | the next tensor object after a given one, if any |
| Arena.Context.AllTensors | tools/ref/ggml.c:1975-2006 | first and next together list every tensor object once, in allocation order |
| GgufFormat.ReadEncoded | python/xecuda/gguf_reader.py:91-113 | a value laid out at a place is read back, arrays nested to any depth and strings in UTF-8, and the cursor ends behind it |
| GgufFormat.CutValue | python/xecuda/gguf_reader.py:42-62 | reading a cut file gives the same value or notices that it is cut |
| GgufBytes.ByteNumbers | python/xecuda/gguf_reader.py:91-102 | tags 0, 1 and 7 are an unsigned byte, a signed byte and a boolean |
| GgufBytes.ShortNumbers | python/xecuda/gguf_reader.py:91-102 | tags 2 and 3 are two bytes, the low one first, unsigned and signed |
| GgufBytes.WideNumbers | python/xecuda/gguf_reader.py:91-102 | tags 4 to 6 are four bytes and 10 to 12 eight, the low ones first: unsigned, signed and a float's bits |
| GgufBytes.NumbersEnd | python/xecuda/gguf_reader.py:91-104 | a number cut short is the truncation error, and tags above 12 are unknown |
| GgufBytes.StringBytes | python/xecuda/gguf_reader.py:62 | a string, tag 8, is eight bytes of length and that many bytes of UTF-8 |
| GgufBytes.ArrayBytes | python/xecuda/gguf_reader.py:106-113 | an array, tag 9, is four bytes of element type, eight of length, and its elements one behind the other |
| GgufBytes.ChainedRead | python/xecuda/gguf_reader.py:106-113 | values read one behind the other make the array |
| GgufBytes.PairBytes | python/xecuda/gguf_reader.py:75-78 | a pair is a key, four bytes of type and a value |
| GgufBytes.InfoBytes | python/xecuda/gguf_reader.py:79-87 | a tensor is a name, four bytes for the number of dimensions, eight for each of them, the innermost first, four of type and eight of offset |
| GgufBytes.FileBytes | python/xecuda/gguf_reader.py:65-87 | a file is GGUF, the version in four bytes, the numbers of tensors and of pairs in eight each, then all pairs, the last of a key counting, then all tensors |
| GgufBytes.DataStarts | python/xecuda/gguf_reader.py:115-120 | the data starts at the least multiple of general.alignment not below the end of the tables, of 32 when it is not given; at the greatest not above it for a negative one; zero and values of other types are errors, except true |
| Utf8.WellFormedExactly | python/xecuda/gguf_reader.py:62 | strict decoding accepts exactly the bytes that encode some text, and gives that text |
| GgufFile.ReadInvertsLayout | python/xecuda/gguf_reader.py:65-87 | header, pairs and tensor infos are recovered with dimensions reversed, consuming exactly the bytes laid out, whatever follows |
| GgufFile.TruncationIsFound | python/xecuda/gguf_reader.py:42-62 | every strict prefix of the metadata raises the truncation error |
| GgufFile.AlignUpIsLeast | python/xecuda/gguf_reader.py:119 | the seek goes to the least multiple of the alignment not below the cursor |
| GgufFile.BaseIsLeast | python/xecuda/gguf_reader.py:116-120 | so does the data base, for a given alignment or the default |
| GgufReader.Reader.Blobs | python/xecuda/gguf_reader.py:58-61 | reads n bytes and advances, or fails |
| GgufReader.Reader.Number | python/xecuda/gguf_reader.py:44-57 | reads a little-endian number |
| GgufReader.Reader.String | python/xecuda/gguf_reader.py:62 | reads a length and that many bytes and decodes them, or fails on a cut file or on bytes that are no UTF-8 |
| GgufReader.Reader.Prim | python/xecuda/gguf_reader.py:91-104 | reads one scalar or string by its tag, and refuses an unknown tag |
| GgufReader.Reader.Value | python/xecuda/gguf_reader.py:106-113 | recursive reading over the cursor equals reading at its position |
| GgufReader.Reader.Pairs | python/xecuda/gguf_reader.py:75-78 | later keys override earlier ones |
| GgufReader.Reader.Infos | python/xecuda/gguf_reader.py:79-87 | the tensor infos in file order |
| GgufReader.Reader.Load | python/xecuda/gguf_reader.py:65-120 | the whole constructor gives what the reading function gives, or its first failure, and sets the base |
| Launcher.DivisorsExact | include/xecuda_kernel.h:87-92 | the wrapping 32-bit products are exact when five dimensions multiply below 2^32 |
| Launcher.DivisorsExactly | include/xecuda_kernel.h:87-92 | and only then |
| Launcher.TotalThreadsExact | include/xecuda_kernel.h:65 | the wrapping 64-bit product is the number of index pairs when that is below 2^64 |
| Launcher.ContextsOnce | include/xecuda_kernel.h:86-97 | every pair of block and thread index is reached, by one flat index |
| Launcher.FlatOfContext | include/xecuda_kernel.h:86-97 | every flat index gives a valid pair and is recovered from it |
| Launcher.Launch | include/xecuda_kernel.h:61-103 | in any order of the flat indices, for sizes whose products fit: each pair is called exactly once, and nothing else, precisely if no dimension is empty |
| Launcher.CoversExactly | include/xecuda_kernel.h:61-103 | so for the one-call path and the loop alike |
| Launcher.EmptyGridCalls | include/xecuda_kernel.h:65-73 | a launch of an empty grid makes the single call, for which there is no pair |
| Contiguity.IsContiguous | tools/ref/ggml.c:1473-1499 | the loop accepts exactly the strides of a packed tensor, for any block size, any stride being allowed for a unit dimension and an empty tensor included |
| Contiguity.Unravel | tools/ref/ggml.c:1898-1920 | the four parts of an index in range are its mixed-radix digits |
| Contiguity.UnravelIsDigits | tools/ref/ggml.c:1898-1920 | they are the mixed-radix digits of the index, so ravelling undoes them |
| MixedRadix.ComposeDigits | tools/ref/ggml.c:1898-1920 | composing the digits of an index gives the index |
| MixedRadix.DigitsCompose | tools/ref/ggml.c:1898-1920 | the digits of a composed index are the parts it was composed of |
| Contiguity.ContiguousMeansFlat | tools/ref/ggml.c:1473-1499 | a tensor is contiguous exactly when each element lies at its flat index times the element size |
| Contiguity.NBytes | tools/ref/ggml.c:1297-1320 | zero when an extent is not positive, else up to the end of the last element, or of the last row of blocks |
| Contiguity.ContiguousBytes | tools/ref/ggml.c:1297-1320 | for a contiguous tensor this is the number of elements times the element size |

## Left out

- Graph capacity (`ggml_cgraph.size` asserts), tensor names, and the hash table and bit set behind the visited set, which is a map here.
- Tensor shapes: a tensor is a vector of `ne` elements, and a smaller operand repeats along it. Four-dimensional broadcasting, strides inside the graph, empty tensors and types are not modelled; a gradient's shape assertions become equal element counts.
- Operations other than the listed ones (matmul, softmax, norms, rope, views and so on) build forward graphs but have no gradient rule here, so a node that depends on a parameter or a loss must be one of the listed ones.
- ComputeGraph.CGraph.ServeFirst: the other cases of the switch over operations.
- ComputeGraph.CGraph.ServeSecond: the other cases of the switch over operations.
- ComputeGraph.CGraph.ComputeBackward: a node that has a gradient is one of the listed operations; the source serves more and aborts on the rest.
- ComputeGraph.CGraph.BuildBackwardExpand: every node that depends on a parameter or a loss is one of the listed operations, the source slots without effect on a gradient (a CPY target, row indices, RoPE positions, SGN and STEP, IM2COL) counting like any other.
- BackwardGraph.GradientGraphBuilt: under the same condition on the nodes that need gradients.
- ComputeGraph.CGraph.SeedLosses: caller-supplied gradient accumulators and the in-place additions they switch on; skipping of I32 nodes, the assertions about views, and the source slots without effect on a gradient.
- Tensors whose source slots change after a graph has visited them.
- PartialDerivatives.GradientIsDerivative: every recorded node is one of the listed operations, a loss is a scalar no recorded node consumes and parameters have no operation (both asserted or intended by the source); where ADD1's second operand needs a gradient it holds only for one element.
- ComputeGraph.CGraph.CanFuseSubgraph: a later index past the graph, which the source reads before it refuses it, counts no use.
- Calculus rules are stated with a local linear bound on the error (a quadratic one), which every listed operation meets, and which implies the limit of difference quotients.
- OutputBuffer.OutputTable.GetIth: buffers that are absent, the asynchronous copies that fill rows, and the embedding and layer-input accessors, which are the same function on another view.
- OutputBuffer.OutputTable.Reserve: the views and their widths stay the same from batch to batch, where the source may switch embeddings on or off in between; the sampling tables at the end of the allocation, and their count vectors, are left out, as is the failure to allocate.
- OutputRuns.RunFaithful: the contents a graph writes are any contents of the allocation, so also cells outside the rows it owns.
- llama_io_write_file and the device variants of the state streams; a tensor's bytes are a sequence.
- Encoding.RoundTripExactly: texts without lone surrogates, which Python's strings may hold and its encoder refuses; the vocabulary knows every byte and every merge product, and no special token is empty.
- Tokenizer.BpeTokenizer.Encode: no special token is empty; the source would then split at every position.
- PreTokenizer.MatchIsScan: for byte-encoded text, which has no whitespace, the only text the tokenizer matches; the pattern's whitespace branches are modelled but never taken there.
- Floating point: rounding, overflow and NaN. Starting maxima such as `-1e30f` are any number; a half-precision exponent of all ones, on which kernel and reference differ, is excluded by the exact condition.
- Integer overflow of 32-bit index arithmetic inside the kernels; buffers and rows are addressed with unbounded indices.
- TiledProduct.MultiplyAccumulate: negative sizes, and buffers that overlap.
- Attention.FlashHead: heads are taken in order, where the source may take them in parallel.
- Barriers.AnySchedule: one work-group; groups share no local memory, and the rows they write are disjoint. The attention kernel has no barrier, so its items interleave across groups.
- NormKernels.NormMatvecIsComposition: the inverse root is passed on as a number; how the host binds that argument is left out, as are RoPE, the softmax, SwiGLU and copy kernels, add_rms_norm and add_writeback_norm.
- QuantQ4.LookupEmbedding: the token's row is inside the tensor; numpy's shorter slice otherwise, and the fallbacks for other tensor types, are left out.
- ArenaLayout.PlaceExactly: header size, alignment and buffer size are parameters, since ggml.h is not part of this model; the header size is a multiple of the alignment as there.
- ggml_size, nelems and tbytes of the GGUF reader: easy members, and the size table is wrong for three types.
- GgufReader.Reader.Load: reading from a file object is reading from its bytes; the file size, closing and raw tensor reads are left out. Floats stay bit patterns.
- Launcher.Launch: thread-local storage of the context; a divisor that wraps to zero is the caller's error.
- Contiguity.IsContiguous: no run of unchecked dimensions (m is 0 and n is 4).
- Device discovery, streams, events, the torch bridge, the web interface, weight loading, sampling, memory modules and the scheduler.
