# Verification of Knossos

A Dafny model of the central algorithms of Knossos, with proofs. It follows five parts of the repository.

**The C++ runtime** (`src/runtime/knossos.h`). `RuntimeMemory` and `Allocator` model memory as cells that hold
numbers or tensor handles, and the bump allocator. `copydown` compacts a nested object, which may share data with itself
and overlap its own destination, in two passes: `PreparePass` moves aside what is in the way of earlier
destinations, `MovePass` moves everything down, and `Copydown` states the result. `Footprint` holds the two read-only
traversals and the disjointness of the result. `TensorIndex` treats flat indices, subtensors and `build`; `InplaceAdd` and
`Sumbuild` treat accumulation in place on top of `copydown`; `Fold` proves that `RFold` is the adjoint of `FFold`.

**RLO's expressions** (`rlo/src/rlo/expression.py`). `Expressions` has the trees, free names and fresh names,
`AlphaEquivalence` the variable mapping and equality, `ExpressionHash` the hash, `Meaning` evaluation for an arbitrary
meaning of the operations, `Replacement` capture-avoiding replacement by pre-order index, `ReplacementLaws` what its result looks like, and `Renaming`
the renaming of free variables.

**Bounds and datasets**. `CumSequences` is the sparse cumulative sequence, `BoundPropagation` and `Accumulators` the upper
bounds on a graph that may have cycles, `Datasets` and `DatasetRefiners` the datasets that share sequences and the cache
across generations.

**Search**. `SearchCache` is the re-entrant cache that keeps one node of every expression open; `Episodes` turns its graph
into episodes that visit every node; `SearchRuns` is the loop of a whole search, `SearchCompleteness` states what it has
found in the end, and `LateExpansion` is a run that misses an expression.

Where the code does less than its documentation says, the code is modelled and the exact condition under which it does what
is said is proved: `rename_free` in `Renaming`, `copy_sequence_from` in `Datasets`, printing in `PrettyPrint`, the nodes that
take over from expanded ones in `SearchCompleteness`.

**Compiler pieces**. `Lexing`, `Lexer` and `PrettyPrint` treat the KS lexer and printer, `LexerLaws` and `PrettyLayout` say what
is skipped, read and refused and which layout is chosen; `DetupleLets` is the removal of tuple lets. `CostModels`,
`AbstractInterpreter` and `CostAgreement` are the two cost models of RLO, `CostLaws` says what programs cost, and
`ValueSoundness` what the interpreter's value says of the program's.

Code that works step by step is a class or a method with loops, proved against a function or a predicate; what the source
promises is then proved of that function as lemmas. Assertions and exceptions of the source are outcomes, or are proved
never to happen. Many proofs begin with `hide`, which keeps definitions that a proof does not need out of the verifier's way.

`dafny verify dfyconfig.toml --resource-limit 2000000 --verification-time-limit 0` checks the whole project with Dafny 4.11.

## Model

| member | source | states |
|---|---|---|
| Allocation.Allocator.Allocate | src/runtime/knossos.h:387-397 | The request is granted exactly if it is below the limit and the padded new top stays within the old peak or below the buffer's end; the result is the old top, the peak is the larger of old peak and new top. |
| Allocation.Allocator.Reset | src/runtime/knossos.h:407-410 | The top becomes the mark, whatever it is; nothing else changes. The invariants need a mark on an allocation boundary, not above the peak. |
| RuntimeMemory.SpanIsProduct | src/runtime/knossos.h:590-593 | The bytes of an array are the size of an element times their number. |
| RuntimeMemory.SizesOfTypes | src/runtime/knossos.h:580-581 | A number takes four bytes, a tensor handle four for each dimension, filled up to a multiple of eight, and eight for the address. |
| RuntimeMemory.PaddedIs | src/runtime/knossos.h:399-399 | Requests are filled up to a multiple of sixteen by less than sixteen bytes: the only such number. |
| Footprint.InflatedBytes | src/runtime/knossos.h:778-799 | The traversal computes the bytes of an inflated copy of the deep value, whatever memory the subobjects share. |
| Footprint.MemoryOverlaps | src/runtime/knossos.h:803-827 | True exactly if some tensor that the object reaches has data that meets the range. |
| Footprint.BelowNeverOverlaps | src/runtime/knossos.h:865-871 | The assertion in the branch for data before the copydown location never fails: such data does not meet the destination. |
| Footprint.LaidBlocks | src/runtime/knossos.h:967-970 | The tensors of an object laid out in pre-order occupy successive blocks, hence pairwise disjoint ones, from the start to start plus inflated bytes. |
| PreparePass.PrepareCopydownInplace | src/runtime/knossos.h:837-893 | Every handle edit keeps the deep values of all protected objects, changes nothing below the mark, and advances the running destination by the inflated bytes of the object; it succeeds whenever an inflated copy would fit above the top. |
| PreparePass.PrepareTensorInplace | src/runtime/knossos.h:852-893 | One tensor: left alone below the mark, moved beyond all pending destinations if in the way, and then its elements are prepared against their own future destinations. |
| PreparePass.MoveAside | src/runtime/knossos.h:876-885 | A tensor in the way is copied beyond both the top and the pending destination, and its handle redirected without changing its deep value. |
| Compaction.PrepareCopydown | src/runtime/knossos.h:895-912 | Establishes the precondition of the second pass: for every tensor in pre-order, its data does not meet the range from the mark to its future destination; deep values are kept; temporary copies take no more room than an inflated copy. |
| Compaction.CopydownByMemmove | src/runtime/knossos.h:938-965 | From that precondition, the moves keep the deep value, lay the object out from the mark in pre-order and leave the top exactly at its end. |
| MovePass.MoveTensorInplace | src/runtime/knossos.h:926-936 | Allocates at the destination, moves the data there although the ranges may overlap, then moves what the elements refer to, never overwriting what is still to be moved. |
| Compaction.Copydown | src/runtime/knossos.h:967-993 | For any nested value, shared and overlapping data included: the result is deep-equal, laid out in successive blocks in [mark, top), the top is mark plus inflated bytes, nothing below the mark changes, and it succeeds if an inflated copy above the old top would fit. |
| TensorIndex.FlattenInRange | src/runtime/knossos.h:514-530 | A flat index of an in-range index is within the number of elements, and unflattening gives back the index. |
| TensorIndex.UnflattenInRange | src/runtime/knossos.h:514-530 | Every position below the number of elements is the flat index of exactly the in-range index that unflattening gives: with the row above, a bijection for every rank. |
| TensorIndex.RowMajor | src/runtime/knossos.h:514-530 | The last index varies fastest: the flat index in closed form for one, two and three dimensions. |
| TensorIndex.NumElementsSplit | src/runtime/knossos.h:483-490 | The number of elements is the outermost dimension times that of a subtensor. |
| TensorIndex.SubtensorIsFlatten | src/runtime/knossos.h:618-632 | Taking subtensors one index at a time reaches the address of the flat index. |
| TensorIndex.DoBuild | src/runtime/knossos.h:1264-1287 | The running pointer fills exactly the elements below the higher indices, in row-major order, and stops behind the last of them. |
| TensorIndex.Build | src/runtime/knossos.h:1289-1298 | The element at the flat index of every in-range index is the value of the function there. |
| InplaceAddition.InplaceAdd | src/runtime/knossos.h:1123-1167 | For any accumulator that reaches no number twice and shares none with the summand, the result is the elementwise sum and nothing but its numbers changes; it fails exactly if the shapes differ. |
| InplaceAddition.AddableSeparate | src/runtime/knossos.h:1123-1167 | An object that is laid out in pre-order and shares no memory with the other one is such an accumulator. |
| InplaceAddition.AddedStaysLaid | src/runtime/knossos.h:1123-1167 | Adding leaves an object laid out where it was, and writes only there. |
| InplaceAddition.InplaceAddTensor | src/runtime/knossos.h:1157-1167 | The tensor case: shapes are compared, then the elements are added in order without disturbing each other. |
| InplaceAddition.InflatedAdd | src/runtime/knossos.h:1157-1167 | A sum takes exactly the memory of its first summand, so the result never grows. |
| Sumbuild.AddCall | src/runtime/knossos.h:1360-1363 | A call, an in-place add and a reset leave the sum so far plus the value of the call, at an unchanged top; it fails only if the call stops or the shapes differ. |
| Sumbuild.FirstCall | src/runtime/knossos.h:1354-1359 | The copydown of the first result makes it independent of everything a later call may reclaim. |
| Sumbuild.InplaceSumbuild | src/runtime/knossos.h:1342-1376 | Adds the values over all indices below the higher ones, in row-major order. |
| Sumbuild.DoSumbuild | src/runtime/knossos.h:1332-1365 | The first row starts the sum, the others are added in place; zero dimensions stop the program. |
| Sumbuild.RowMajorPositions | src/runtime/knossos.h:1304-1325 | The order of the calls is that of the flat positions, so every index of the box is visited exactly once. |
| Sumbuild.Sumbuild | src/runtime/knossos.h:1378-1383 | The result is the elementwise sum of the body over all indices of the box in row-major order, the top is the entry mark plus its inflated bytes, nothing else below the mark or on the stack changes; it runs to the end whenever the box is not empty, the shapes agree and the body has room. |
| Fold.RFold | src/runtime/knossos.h:1574-1600 | The two loops compute the cotangents of scope, accumulator and every element as the recursive definition of the reverse pass has them; it fails exactly where an addition of scope cotangents is undefined. |
| Fold.RFoldIsAdjoint | src/runtime/knossos.h:1573-1615 | If each step's reverse derivative is adjoint to its forward one, then for vectors of any length <FFold(dacc, dv), dr> = <ds, scope part> + <dacc, accumulator part> + sum of <dv_i, element part i>. |
| Fold.AdjointTail | src/runtime/knossos.h:1602-1610 | The same from any element on, for any tangent of the accumulator reached there: the induction along `FFold_recursive`. |
| Fold.DotLinear | src/runtime/knossos.h:1189-1202 | The inner product is additive over tangent-space addition. |
| Fold.DotPositive | src/runtime/knossos.h:1189-1202 | The inner product of a tangent with itself is positive, or zero for a zero. |
| Expressions.NewVarIsFresh | rlo/src/rlo/expression.py:144-149 | The name that `new_var` makes occurs in none of its arguments. |
| Expressions.MakeNewVar | rlo/src/rlo/expression.py:580-583 | The maximum over the arguments, as a variable name. |
| Expressions.ValidBinders | rlo/src/rlo/expression.py:40-128 | What the constructor accepts of the four binders: three children, two for a lambda, with a variable, of known type for a lambda, where one is bound. |
| Expressions.ValidOthers | rlo/src/rlo/expression.py:40-84 | And of every other operation: its number of children, of a tuple any but one. |
| Expressions.FreeVarNames | rlo/src/rlo/expression.py:129-143 | The constructor's computation, union of the children in scope, removal of the bound variable, then update with the others, gives the free names; the removal never fails. |
| Expressions.FreeInLet | rlo/src/rlo/expression.py:129-143 | The free names of a let: those of the right-hand side, and those of the body but the variable's. |
| Expressions.FreeInLam | rlo/src/rlo/expression.py:129-143 | Those of a lambda: those of the body but the argument's. |
| Expressions.FreeInBuild | rlo/src/rlo/expression.py:129-143 | Those of a build: those of the size, and those of the body but the index's. |
| Expressions.FreeInSumbuild | rlo/src/rlo/expression.py:129-143 | Those of a sumbuild likewise. |
| Expressions.FreeInOthers | rlo/src/rlo/expression.py:129-143 | Every other operation has the free names of its children. |
| Expressions.NewVarIsNext | rlo/src/rlo/expression.py:144-149 | The number of a generated name is zero or one more than that of a name in use. |
| AlphaEquivalence.GetVarMapping | rlo/src/rlo/expression.py:329-385 | In any two contexts of enclosing binders the nameless forms of two expressions are equal exactly if a mapping is returned and the contexts agree with it; its keys are the free names. The asserts on the bound variable hold, and sharing of objects makes no difference. |
| AlphaEquivalence.AddChildMappings | rlo/src/rlo/expression.py:357-365 | Extends the combined mapping by chosen children exactly as far as they can all be alike. |
| AlphaEquivalence.Equal | rlo/src/rlo/expression.py:387-400 | True exactly if the two de Bruijn forms, lambda argument types included, are equal; so it is reflexive, symmetric and transitive. |
| AlphaEquivalence.LambdasAlike | rlo/src/rlo/expression.py:354-365 | Two lambdas have equal forms exactly if their argument types are equal and their bodies have equal forms below the two arguments. |
| AlphaEquivalence.LetsAlike | rlo/src/rlo/expression.py:354-385 | Two lets have equal forms exactly if the right-hand sides have, outside the scope, and the bodies below the two variables; the variables' types do not matter. |
| AlphaEquivalence.FreeVariablesAlike | rlo/src/rlo/expression.py:350-351 | Free variables are equal exactly if their names are. |
| AlphaEquivalence.StripAgree | rlo/src/rlo/expression.py:335-344 | An expression has the same nameless form in two contexts exactly if they agree on its free names: why the shortcut for shared objects returns the identity on them. |
| ExpressionHash.HashWithVarMapping | rlo/src/rlo/expression.py:246-284 | The hash, with its switch to the context-free hash of subtrees that use no enclosing binder, is a function of the nameless form. |
| ExpressionHash.HashOf | rlo/src/rlo/expression.py:246-249 | The hash of an expression depends on its nameless form only, so expressions that compare equal have equal hashes. |
| ExpressionHash.CodesArePlaces | rlo/src/rlo/expression.py:75-77 | The code of a node type is its place among the names of all node types, written out in their order. |
| ExpressionHash.HashIsPolynomial | rlo/src/rlo/expression.py:251-284 | The hash of a node in closed form: a polynomial in thirteen with the node's code and the children's hashes as coefficients, modulo 2147483647. |
| ExpressionHash.StripOutside | rlo/src/rlo/expression.py:276-282 | A subtree that no enclosing binder reaches has the nameless form it has on its own. |
| Meaning.EvalStrip | rlo/src/rlo/expression.py:402-413 | An expression evaluates as its nameless form does, for any meaning of the operations. |
| Meaning.ChildrenOfBinder | rlo/src/rlo/expression.py:534-545 | What an operation learns of each child of a let, a build, a sumbuild and a lambda: only the last child is evaluated below the variable. |
| Meaning.EqualEvaluateAlike | rlo/src/rlo/expression.py:387-400 | Expressions that compare equal evaluate alike in every environment. |
| Replacement.NodesOfChild | rlo/src/rlo/expression.py:485-495 | The numbering of children agrees with the position in the pre-order list of nodes. |
| Replacement.CavHelper | rlo/src/rlo/expression.py:652-711 | Computes the capture-avoiding transformation for any renaming of variables, fresh or not; its assertions on indices and identity renamings never fail, and the result satisfies what the constructor checks of arities and bound variables. |
| Replacement.ReplaceSubtree | rlo/src/rlo/expression.py:628-645 | The transformation with no renaming to begin with and the default for `preserve`. |
| Replacement.CavMeans | rlo/src/rlo/expression.py:652-711 | Below any renaming to fresh variables, the result evaluates as the original does with the value at the target changed: no capture under renamed, nested or self-shadowing binders. |
| Replacement.ReplaceMeans | rlo/src/rlo/expression.py:628-645 | For every expression, every target that is not a binding occurrence and every change that acts on values where `preserve` means what it means outside, evaluation of the result is evaluation of the original with the target's value changed. |
| Replacement.ReplaceByExprMeans | rlo/src/rlo/expression.py:628-645 | In particular an inserted expression has its outer value, in every environment. |
| ReplacementLaws.TargetIsReplaced | rlo/src/rlo/expression.py:633-645 | Node `target_idx` of the result is the inserted expression itself, whatever was renamed on the way to it. |
| ReplacementLaws.RenamedIffCaptures | rlo/src/rlo/expression.py:680-695 | A binder is renamed exactly if its name is free in `preserve` or in a new value that matters below it. |
| ReplacementLaws.PlainIfNothingBound | rlo/src/rlo/expression.py:652-711 | If no binder has a name that is substituted, inserted or preserved, the result is plain replacement: nothing else changes. |
| Renaming.CavForm | rlo/src/rlo/expression.py:652-711 | For any substitution of variables for variables and any two contexts, the result has the nameless form it should have exactly if the free names mean what they should and no binder captures. |
| Renaming.CleanIffNoCapture | rlo/src/rlo/expression.py:680-695 | What decides capture below a renaming of `x` to `y`: binders of `x` over a free `y` where `x` is free, outside binders of `y`. |
| Renaming.RenameFreeForm | rlo/src/rlo/expression.py:647-650 | For any two names, every free `x` becomes a free `y` and nothing else changes, exactly if the expression is clean: a condition on the expression that can be checked before the call. |
| Renaming.RenameFree | rlo/src/rlo/expression.py:647-650 | The call itself: an acceptable expression, of the form it should have exactly if the argument is clean. |
| Renaming.RenameFreeMeans | rlo/src/rlo/expression.py:647-650 | A clean expression evaluates, after the renaming, as it did with the value of `y` for `x`, in every environment. |
| Renaming.UnusedIsClean | rlo/src/rlo/expression.py:647-650 | Every expression is clean for a name that does not occur in it. |
| Renaming.RenameFreeMayCapture | rlo/src/rlo/expression.py:647-650 | An expression that is not clean: renaming `x` to `y` in `let x = x in y` gives `let y = y in y`, which is not alpha-equivalent to `let x = y in y`. |
| Replacement.ScopeNames | rlo/src/rlo/expression.py:686-694 | Below a binder, renamed or not, other names keep their renaming and differ from the binder's. |
| CumSequences.CumSequence.Update | rlo/src/rlo/cum_sequence.py:143-178 | The dense sequence takes the better of the old value and the new one at and beyond the index; critical keys and values stay strictly monotone; true exactly if the dense sequence changed; the sequence stays the running best of all updates ever made. |
| CumSequences.RunningIsBest | rlo/src/rlo/cum_sequence.py:30-52 | The running best, to which `update` is tied, is the value of an update at or before the index, and no such update has a better one. |
| CumSequences.CumSequence.Propagate | rlo/src/rlo/cum_sequence.py:115-121 | Deletes exactly the run of following items that the new value makes pointless. |
| CumSequences.CumSequence.UpdateFromSeq | rlo/src/rlo/cum_sequence.py:138-141 | The dense sequence becomes the pointwise better of both; true exactly if some value got better. |
| CumSequences.CumSequence.GetItem | rlo/src/rlo/cum_sequence.py:123-131 | The dense value, or the IndexError before the first key. |
| CumSequences.CumSequence.Len | rlo/src/rlo/cum_sequence.py:180-182 | One more than the last index at which the dense sequence changes. |
| CumSequences.CumSequence.Iter | rlo/src/rlo/cum_sequence.py:133-136 | An iterator exactly if key zero is present, an error exactly if the first key is another. |
| CumSequences.HoleyIter.Next | rlo/src/rlo/cum_sequence.py:83-97 | Yields the dense values one by one, up to the last key, then stops for good. |
| CumSequences.CumSequence.ToList | rlo/src/rlo/cum_sequence.py:184-190 | The dense sequence, cropped or padded with its last value; negative lengths cut from the end. |
| CumSequences.DenseDetermines | rlo/src/rlo/cum_sequence.py:30-52 | Two strictly monotone lists of critical values with one dense sequence are the same list. |
| CumSequences.SplicedAt | rlo/src/rlo/cum_sequence.py:157-178 | What replacing a run of items by one does to the dense sequence at every index. |
| Accumulators.UpperBoundsAccumulator.AddEdge | rlo/src/rlo/accumulators.py:59-72 | After any sequence of edges, cycles included, the bound of every known node at every time t with no limit or t <= limit is the least value of the nodes within t recorded edges, and from the limit on it stays what it is at the limit; self-edges are skipped. |
| Accumulators.UpperBoundsAccumulator.UpdateEdge | rlo/src/rlo/accumulators.py:78-86 | Ends on any graph, without a limit too; leaves an edge inconsistent at a time only if it was so before and its end has not changed. |
| Accumulators.UpperBoundsAccumulator.UpdateNode | rlo/src/rlo/accumulators.py:74-76 | Hands the updates to all nodes with an edge to this one. |
| Accumulators.UpperBoundsAccumulator.GetUpperBounds | rlo/src/rlo/accumulators.py:51-57 | A new node starts with its own value at time zero. |
| BoundPropagation.AppliedPropagated | rlo/src/rlo/accumulators.py:78-86 | Lowering a node's bounds and handing the changes on, even if the node is lowered again meanwhile, leaves no edge newly inconsistent. |
| BoundPropagation.FewerWorse | rlo/src/rlo/accumulators.py:74-86 | An update that helped a node can help strictly fewer nodes at the next step: why the recursion ends on cyclic graphs. |
| BoundPropagation.ConsistentIsLeast | rlo/src/rlo/accumulators.py:20-23 | Sound bounds that are consistent along every edge are the least values within reach. |
| Datasets.StateValueDataset.AddExpr | rlo/src/rlo/dataset.py:57-75 | A new expression gets the running maximum of its points at positive times, from zero at time zero; no such points leave the dataset alone, a present expression is an error; true exactly if a recorded value is positive. |
| Datasets.PositiveIs | rlo/src/rlo/dataset.py:57-65 | The points that are recorded are exactly those at positive times. |
| Datasets.StateValueDataset.GetValue | rlo/src/rlo/dataset.py:103-112 | The greatest value at or before the time, or at any time. |
| Datasets.StateValueDataset.MergeDataset | rlo/src/rlo/dataset.py:114-133 | Pointwise maximum of values and times; no sequence object changes, so no other dataset that shares one does. |
| Datasets.MergedIsGreater | rlo/src/rlo/dataset.py:114-133 | A merged value is one of the two, and neither is greater; it is missing only if both are. |
| Datasets.LaterTimesIs | rlo/src/rlo/dataset.py:114-133 | The merged maximal time of an expression is one of the two, and neither is later. |
| Datasets.StateValueDataset.CopySequenceFrom | rlo/src/rlo/dataset.py:135-159 | Takes over the other sequence. The ValueError is raised exactly if the first new critical value within the maximal time that differs from the old one is smaller; otherwise it tells truthfully whether one rose. With no value fallen it is not raised. |
| Datasets.FallsIffUndercut | rlo/src/rlo/dataset.py:135-140 | Some value up to the limit has fallen exactly if the new sequence is below an old critical value within it: a finite check of the two lists. |
| Datasets.FallsNoticed | rlo/src/rlo/dataset.py:135-140 | The documented `throws if any were decreased` holds exactly if the first new critical value to differ is smaller or no old critical value is undercut, for any two sequences and any limit. |
| Datasets.FallsIfGone | rlo/src/rlo/dataset.py:151-159 | If no new critical value differs nothing is raised, and values fell exactly if an old critical value within the limit has gone. |
| Datasets.FallBetweenKeys | rlo/src/rlo/dataset.py:151-159 | An input whose fall goes unnoticed because no new critical value lies there. |
| Datasets.FallAfterRise | rlo/src/rlo/dataset.py:151-159 | An input whose fall goes unnoticed because the loop returns at a rise before it. |
| Datasets.FallAtLimit | rlo/src/rlo/dataset.py:151-159 | A fall at the maximal time itself is noticed, one behind it is not. |
| DatasetRefiners.BestAcrossGenerationsRefiner.Call | rlo/src/rlo/dataset_refiner.py:88-110 | Over any run, the cache holds the pointwise maximum of every dataset seen, the returned dataset carries the cache's values with its own times, and the count is that of the expressions that gained within their time. |
| DatasetRefiners.BestAcrossGenerationsRefiner.MergeWithCache | rlo/src/rlo/dataset_refiner.py:75-86 | No copy from the cache ever fails. |
| DatasetRefiners.StillBest | rlo/src/rlo/dataset_refiner.py:63-66 | Merging one more dataset keeps the cache the best of all seen. |
| DatasetRefiners.BestIsGreatest | rlo/src/rlo/dataset_refiner.py:63-66 | The best value, to which the cache is tied, was seen in some dataset, and no dataset seen has a greater one. |
| SearchCache.EarliestEnqueuingCache.GetNode | rlo/src/rlo/astar_search.py:97-145 | Over any run, re-entrant calls included, each expression has exactly one open node, that with the greatest time left, the count of pruned nodes is nodes minus expressions, and the assertions on existing and superseded nodes hold; evaluated open nodes are enqueued or expanded, and no expression joins the queue of evaluations that was known. |
| SearchCache.EarliestEnqueuingCache.HandOn | rlo/src/rlo/astar_search.py:121-144 | A superseded expanded node hands its actions and child expressions, one time-left higher, to its successor; a superseded unexpanded one leads to its successor being enqueued if it has an evaluation. |
| SearchCache.EarliestEnqueuingCache.SetTransitions | rlo/src/rlo/search_tree.py:185-196 | Transitions are set once; no action and no node appears twice among them, none is new, and if they were distinct all are kept. |
| SearchCache.UniquifyDistinct | rlo/src/rlo/utils.py:331-346 | Keeps one transition for every node, and all of them if they differ. |
| SearchCache.UniquifyKeepsFirst | rlo/src/rlo/utils.py:331-346 | Of the transitions to a node exactly the first is kept. |
| SearchCache.ByActionKeepsLast | rlo/src/rlo/search_tree.py:194-196 | Of the transitions with an action the last one counts, in the place of the first one. |
| SearchCache.EarliestEnqueuingCache.Expand | rlo/src/rlo/astar_search.py:170-192 | For an open node that comes off the open list, the assertion that it has not been expanded never fails; its transitions are set from its rewrites, one step less each; every new node is a result or the child of a node; and everything above is kept. |
| SearchCache.EarliestEnqueuingCache.Visit | rlo/src/rlo/astar_search.py:308-311 | What the search does with a node from its open list; no node is ever on it twice. |
| SearchRuns.AStarSearcher.Turn | rlo/src/rlo/astar_search.py:301-311 | One turn of the search loop: the open list is not empty when a node is taken, and either evaluations are used up or one more of finitely many nodes is taken. |
| SearchRuns.AStarSearcher.SearchToTree | rlo/src/rlo/astar_search.py:278-313 | In any order of urgency the search ends. If it ends before its evaluations are used up, nothing waits, every open node has its own transitions exactly if its expression is not lost, that is, expanded when no time was left and met with time since; all expressions within reach have been met exactly if those within reach of lost ones have; and if no expression is reached both by as many rewrites as there is time for and by fewer, all have. |
| SearchCompleteness.OpenNodesOwn | rlo/src/rlo/astar_search.py:121-135 | The open node of an expression has the results of its rewrites, uniquified, exactly if the expression is not lost. |
| SearchCompleteness.CompleteUnlessLost | rlo/src/rlo/astar_search.py:300-311 | A search with nothing left to do has met every expression within reach exactly if it has met those within reach of the lost ones. |
| SearchCompleteness.CompleteIfNoneLate | rlo/src/rlo/astar_search.py:300-311 | A condition on the rewrites alone under which nothing is lost in any order: then every expression within reach is met, with as much time left as the shortest way to it leaves. |
| SearchCompleteness.NodeIsReached | rlo/src/rlo/astar_search.py:175-192 | A node stands for a way from the start of exactly as many rewrites as its time left is short of the depth. |
| LateExpansion.Run | rlo/src/rlo/astar_search.py:121-135 | An input and an order in which three rewrites lead to an expression, the depth is three, nothing is left to do, and the expression has not been met. |
| SearchRuns.AStarSearcher.Search | rlo/src/rlo/astar_search.py:251-276 | The episodes of a search are real paths from the start, visit every node that can be reached, and none ends on another one. |
| SearchCache.EarliestEnqueuingCache.ProcessBatches | rlo/src/rlo/astar_search.py:147-151 | After an evaluation the open node of every evaluated expression has been enqueued. |
| SearchCache.OneOpenNode | rlo/src/rlo/astar_search.py:160-161 | Exactly the top node of an expression is open, and if any node of it was expanded so was the top one, alike. |
| SearchCache.EarliestEnqueuingCache.SearchGraphWellFormed | rlo/src/rlo/astar_search.py:124-135 | Time runs out along transitions, which lead to nodes of the cache: what the conversion to episodes needs. |
| Episodes.Converter.Convert | rlo/src/rlo/astar_search.py:20-73 | Computes the depth-first definition, in which a node gives what its transitions give and only if that is nothing the route to it. Every episode is a real path from the start through the route; what the call adds to the seen set is visited by its episodes and closed under transitions; it ends because time runs out. |
| Episodes.Converter.ToEpisodes | rlo/src/rlo/astar_search.py:258-263 | Every node that can be reached lies on an episode although each is expanded once, and the node at which an episode ends lies on no other: none is a prefix of another or occurs twice. |
| Episodes.ConvertedApart | rlo/src/rlo/astar_search.py:48-71 | Below any route through nodes already seen, no episode visits the node at which another one ends. |
| Episodes.ConvertedCovers | rlo/src/rlo/astar_search.py:46-71 | The episodes below a route are real and visit exactly what becomes seen, which is closed under transitions. |
| Episodes.ExampleEpisodes | rlo/src/rlo/astar_search.py:29-41 | The documented example, with both ways to D: exactly the three episodes A B C, A B D and A C E F, in this order. |
| Episodes.RouteIsEpisode | rlo/src/rlo/search_tree.py:165-168 | Shifting the actions by one turns a route into a path of nodes with the actions taken from them. |
| Lexers.Lexer.LexToken | mlir/lib/Parser/Lexer.cpp:55-143 | The loop with its position, location and depth computes the tokens, the locations and the rest as the recursive definition has them; it aborts exactly where that does. |
| Lexers.LexText | mlir/lib/Parser/Lexer.cpp:55-143 | The outermost call on a whole text gives the root token of the recursive definition, or aborts where that does. |
| Lexers.Lexer.LexOne | mlir/lib/Parser/Lexer.cpp:68-138 | One turn of the loop, for each kind of character. |
| Lexers.Lexer.Get | mlir/lib/Parser/Lexer.cpp:29-38 | One character on, the location following the position. |
| Lexers.Lexer.ScanString | mlir/lib/Parser/Lexer.cpp:71-79 | Ends behind the first quote that no backslash precedes. |
| Lexers.Lexer.ScanComment | mlir/lib/Parser/Lexer.cpp:96-109 | Ends behind the closing bar and hash of the outermost comment, counting as the source does. |
| Lexers.Lexer.ScanIdentifier | mlir/lib/Parser/Lexer.cpp:126-132 | Ends before the first character that is not one of an identifier; the end of the file is an error. |
| LexerLaws.LineCommentIsSkipped | mlir/lib/Parser/Lexer.cpp:89-93 | A comment from a semicolon to the end of the line is white space, whatever it contains. |
| LexerLaws.LineCommentMustEnd | mlir/lib/Parser/Lexer.cpp:89-93 | Without a line end it is an error. |
| LexerLaws.CommentIsSkipped | mlir/lib/Parser/Lexer.cpp:95-109 | A comment from `#` and bar to bar and `#` is white space, with all the comments nested in it. |
| LexerLaws.CommentMustEnd | mlir/lib/Parser/Lexer.cpp:95-109 | Without its closing marks it is an error. |
| LexerLaws.StringsAreRead | mlir/lib/Parser/Lexer.cpp:71-87 | Exactly the strings in quotes in which every inner quote follows a backslash, and the last one does not, are read as one token. |
| LexerLaws.BlankIsSkipped | mlir/lib/Parser/Lexer.cpp:119-124 | The five blanks, and a `#` without a bar, make no token; the location follows. |
| LexerLaws.IdentifierCharacters | mlir/lib/Parser/Lexer.cpp:46-52 | Letters, digits and twenty-four marks, and no other characters, belong to identifiers. |
| LexerLaws.Refused | mlir/lib/Parser/Lexer.cpp:62-66 | A character of no class, a `#` at the end and a closing bracket that is not the expected one abort. |
| LexerLaws.BracketMustEnd | mlir/lib/Parser/Lexer.cpp:111-117 | An opening bracket without its closing one aborts. |
| LexerLaws.Located | mlir/lib/Parser/Lexer.cpp:29-38 | Lines are counted by line ends, columns from one behind the last of them. |
| LexerLaws.ExampleTokens | mlir/lib/Parser/Lexer.cpp:55-143 | An identifier and a comment in brackets: the one token and the locations. |
| PrettyPrint.PrettyToken | mlir/lib/Parser/Lexer.cpp:155-198 | The loops compute text and width as the recursive definition has them; a leaf that goes through a pointer to its characters loses what follows a NUL, but not its width. |
| PrettyLayout.FittingIsOnOneLine | mlir/lib/Parser/Lexer.cpp:175-184 | If every branch is narrower than the width left to it, two columns less at each level, the tree is printed on one line, with the width that the source counts: the characters without one bracket for each branch. |
| PrettyLayout.NarrowIsOnOneLine | mlir/lib/Parser/Lexer.cpp:162-184 | In particular if it is narrower than the available width by two columns for each level of branches inside it. |
| PrettyLayout.WideIsBroken | mlir/lib/Parser/Lexer.cpp:175-198 | A branch that does not fit has its children below each other, indented like itself, and the width of the widest. |
| PrettyLayout.NarrowMayBreak | mlir/lib/Parser/Lexer.cpp:162-184 | The two columns matter: a list that would fit as a whole is broken inside. |
| PrettyPrint.LexPretty | mlir/lib/Parser/Lexer.cpp:55-198 | Lexing the printed text of any lexable tree without NUL, in any surroundings, gives the tree up to locations and goes on behind it. |
| PrettyPrint.LexUndoesPretty | mlir/lib/Parser/Lexer.cpp:55-198 | For every lexable tree, indent and width, lexing the printed text gives a root with that tree as its only child, brackets preserved, exactly if no leaf contains a NUL and the tree is not a bare identifier. |
| PrettyPrint.NulIsLost | mlir/lib/Parser/Lexer.cpp:159-160 | An input that does not survive: the string of one NUL is printed as a lone quote, alone or in brackets. |
| PrettyPrint.LexWithoutNul | mlir/lib/Parser/Lexer.cpp:55-143 | Every value that the lexer returns is a piece of its text: without a NUL there, there is none in the tokens. |
| DetupleLets.Pass.Detuple | users/awf/detuple_lets.py:16-55 | The pass with its global counter; with assertions checked it fails exactly on expressions that have a tuple let of some names, since `StructuredName.from_str` refuses the `$` of `get$k$n`. |
| DetupleLets.Pass.DetupleInput | users/awf/detuple_lets.py:16-55 | On a definition the pass fails, since it reads `type` where a definition has `return_type`; an edef is returned as it is; rules and generated definitions are of unknown kind. |
| DetupleLets.Pass.DetupleTuple | users/awf/detuple_lets.py:23-34 | The wrapping loop puts the last name outermost. |
| DetupleLets.KeepsMeaning | users/awf/detuple_lets.py:16-55 | Evaluation is unchanged, shadowing and nesting included, for patterns of distinct names in programs that use no temporary name. |
| DetupleLets.NamesAreComponents | users/awf/detuple_lets.py:30-32 | In a tuple let each name has the value of `get$k$n`, k its place counted from one and n the number of names, and other names are untouched. |
| DetupleLets.ExampleDetupled | users/awf/detuple_lets.py:57-70 | The program at the end of the source: two nested pairs, with the temporaries 1001 and 1002, the last name outermost. |
| DetupleLets.RemovesTupleLets | users/awf/detuple_lets.py:23-34 | No tuple let remains. |
| DetupleLets.BindsNumbered | users/awf/detuple_lets.py:26-28 | The result binds exactly the temporaries numbered from the counter's next value on, each once. |
| DetupleLets.TemporariesDistinct | users/awf/detuple_lets.py:26-28 | All generated names are distinct. |
| CostAgreement.CostsAgree | rlo/src/rlo/absint.py:481-678 | On every well-typed first-order program, whenever the abstract interpreter returns, its cost is that of the cost function and its value has the shape given by the type, calls through let-bound lambdas included. |
| CostAgreement.ApplyAgrees | rlo/src/rlo/costs.py:94-110 | The cost of a call: what was recorded when the lambda was bound is what running its body costs. |
| CostAgreement.IfAgrees | rlo/src/rlo/costs.py:135-143 | The dearer branch in full, the cheaper one by epsilon, in both models. |
| CostLaws.IfCost | rlo/src/rlo/costs.py:134-143 | The dearer arm counts in full, the cheaper one a ten-thousandth, and the test one, whichever arm comes first. |
| CostLaws.IfBounds | rlo/src/rlo/costs.py:134-143 | An `if` costs at least one more than its condition and either arm, and at most one more than the condition and 1.0001 times any bound on both; exchanging the arms changes nothing. |
| CostLaws.IfIsStrict | rlo/src/rlo/costs.py:137-139 | Making either arm cheaper, the cheaper one too, makes the `if` cheaper. |
| CostLaws.CostIsNonNegative | rlo/src/rlo/costs.py:74-158 | No program has a negative cost. |
| CostLaws.CallCost | rlo/src/rlo/costs.py:91-110 | Calling a let-bound lambda costs exactly two more than its body with the parameter bound instead. |
| CostLaws.OwnCosts | rlo/src/rlo/costs.py:27-52 | What each kind of node adds to the costs of its children, in numbers; a call of an unknown function adds nine. |
| CostLaws.OperationCost | rlo/src/rlo/costs.py:149-157 | One or two for each element of the larger operand, and two for the allocation if there are several. |
| CostLaws.UntypedCost | rlo/src/rlo/costs.py:150-153 | An operand of unknown type counts as one element. |
| CostLaws.OperationTypes | rlo/src/rlo/expression.py:209-235 | Which operations apply to which types, broadcasting included, and to nothing else. |
| CostLaws.LoopOwnCost | rlo/src/rlo/costs.py:114-128 | Builds and sumbuilds: sixteen times the body, and an allocation or fifteen additions of the body's value. |
| CostLaws.TensorOperations | rlo/test/rlo/test_cost.py:92-112 | Adding two vectors costs 18, multiplying a vector by a number 34, a matrix 514. |
| CostLaws.LoopExamples | rlo/src/rlo/costs.py:114-128 | A build of squares costs 34, their sum 47. |
| CostLaws.ScalarExamples | rlo/test/rlo/test_absint.py:105-105 | `let x 1.0 (if true 2.0 x)` costs 1.1, and an `if` over an exponential and a constant 5. |
| ValueSoundness.ValueIsDescribed | rlo/src/rlo/absint.py:481-678 | Whatever a scalar program evaluates to, the chosen branch of every `if` alone being run, is described by the value that the interpreter returns: equal to it, or abstract of its type; tuples, closures and calls included. |
| ValueSoundness.StraightIsExact | rlo/src/rlo/absint.py:481-678 | A scalar program without `if` that has a value is evaluated to exactly that value. |
| ValueSoundness.FloorDivIsFloor | rlo/src/rlo/absint.py:404-404 | Integer division is the quotient rounded down, for either sign. |
| ValueSoundness.BuiltinCosts | rlo/src/rlo/absint.py:343-470 | The built-in functions cost what the operation costs, for mixed arguments too, and tensors that are alike are combined into one like them. |
| ValueSoundness.IndexValue | rlo/src/rlo/absint.py:595-605 | The element of a tensor has its shape without the outermost dimension, or is a number of its type. |
| ValueSoundness.SizeValue | rlo/src/rlo/absint.py:607-611 | The size of a tensor is its outermost dimension. |
| ValueSoundness.BuildValue | rlo/src/rlo/absint.py:618-641 | A build puts sixteen elements in front of the shape of its body, whatever the length; a negative length is refused. |
| ValueSoundness.SumbuildValue | rlo/src/rlo/absint.py:642-649 | A sumbuild has the shape of its body. |
| CostAgreement.SumbuildAgrees | rlo/src/rlo/costs.py:115-128 | The additions of a sumbuild, counted from the type in one model and from the value in the other. |
| CostAgreement.BuiltinBinaryAgrees | rlo/src/rlo/absint.py:175-186 | What a built-in function returns on values of the types it is declared for costs what the node costs, broadcasting and allocation included. |
| CostAgreement.FitsLambda | rlo/src/rlo/absint.py:204-211 | A lambda in scope is a closure over an environment that fits the context of its definition. |

## Left out

- Alignment padding between tuple components: a tuple's components follow each other without gaps, and the empty tuple takes no bytes.
- Machine integers: sizes, indices and widths are unbounded, so overflow of `int` and `size_t` is not modelled.
- Addresses: the allocator's buffer starts at address zero and everything else, such as the stack, follows it; cells are numbers or tensor handles, addressed by their first byte.
- Floating point: numbers are reals, in the runtime, in sequences and in both cost models.
- Sumbuild.Sumbuild: a body is a function of memory, top and index whose result depends on the index alone; its own steps are not modelled.
- TensorIndex.Build: what the body allocates while it runs is not modelled; elements are stored as values.
- InplaceAddition.InplaceAdd: what the source does to an accumulator that reaches a number twice or shares one with the summand is not stated.
- InplaceAddition.InplaceAddTensor: the same.
- Fold.RFold: on values, not on memory; the allocations of its tangents are not modelled.
- Footprint.BelowNeverOverlaps: assumes, as the source's comment does, that data below the mark refers only to data below it.
- `CHECK_COPYDOWN_CORRECTNESS`, CUDA and `KS_NO_ALLOCATOR` variants, printing, and the elementwise and linear-algebra primitives of the runtime.
- Expressions.Valid: the constructor's checks of types and of first-order use of lambdas are not modelled, nor is the propagation of types.
- The size of a `select` and the declared cost of a `stop`, which equality ignores; constants are real numbers, so `1`, `1.0` and `True` are not told apart by kind.
- Object identity of expressions: two references to one object are any two equal trees, chosen freely.
- ExpressionHash.HashWithVarMapping: the hashes of names and constants are parameters, and the cached hash is recomputed.
- Renaming.RenameFree: for a variable as the new name, as its parameter is called; the rewrite rules that call it are not modelled.
- `has_same_graph`, whose mapping need not be one-to-one, and digits other than 0 to 9 in variable names.
- SearchCache.EarliestEnqueuingCache.GetNode: nodes are records under their key (expression, time left), of which each has one, not separate objects; what an evaluation computes is left out, except which expressions wait and which are evaluated.
- SearchRuns.AStarSearcher.SearchToTree: urgency is left out: any node on the open list may come next.
- `ReuseRefiner`, policy datasets, `get_examples` and `build_from_triples`; the inner refiner is the one that does nothing.
- Lexers.Lexer.LexToken: tracing by verbosity is left out; a failed assertion, which ends the program, is an outcome without a token.
- DetupleLets.KeepsMeaning: types on variables and calls are left out.
- ValueSoundness.ValueIsDescribed: programs without tensors and `$ranhashdoub`; the real exponential and logarithm are parameters.
- CostLaws.OperationTypes: combining a number with a tuple of tensors, and sums other than over vectors of numbers, have no type in the model.
- CostAgreement.CostsAgree: programs without `stop`, edefs, definitions and tensors of tuples, with tuple-free sumbuild bodies and sums over vectors of numbers, in the approximate mode; recursion of the interpreter is bounded by fuel, and running out of it counts as not returning. `constVec` and `deltaVec`, on which the interpreter raises an exception, are not expressions of the model.
- The AST parser, MLIR lowering, learning, plotting, logging and configuration.
