# OpenFGA check evaluation: a verified model

OpenFGA answers one question: does a user have a relation to an object, given relationship tuples and
an authorization model? This project models the parts of the server that compute that answer and
states what they promise, for every input, every run and every interleaving.

| file | what it models |
|---|---|
| `Reducers.dfy` | the union, intersection and exclusion reducers over outcomes that arrive in any order |
| `Rules.dfy` | the meaning of a check: the least fixpoint of the rewrite rules, which keys a key looks up, and what is derivable with visited keys cut out |
| `Derivations.dfy` | the same meaning said directly of tuples and rewrites, and as the existence of a derivation |
| `Evaluator.dfy` | the v1 recursive evaluator, with and without the subproblem cache, as a class with mutually recursive methods |
| `Stratified.dfy` | exclusion: the perfect model of layered relations, and the evaluator against it |
| `ExclusionCycles.dfy`, `CyclicExclusion.dfy` | when excluding a recursive relation goes wrong, and a model and tuples on which it does |
| `Ids.dfy`, `Sorted.dfy` | why ids may be numbered: order, equality and the empty string survive; sorted sequences |
| `Channels.dfy` | batching an id stream into channel messages and putting it together again |
| `BottomUp.dfy` | the v2 union, intersection and difference over sorted iterators |
| `ContextualLeaves.dfy` | stored and contextual objects merged into a leaf, and an exclusion over such a leaf |
| `ModelGraph.dfy` | the weighted model graph, the meaning of its nodes, and the flattening of nested unions |
| `GraphEvaluation.dfy`, `GraphStreams.dfy` | the bottom-up evaluation of a whole rewrite tree, and what its stream promises when reads fail |
| `FailedReads.dfy` | an exclusion of a union in which some reads fail |
| `Weight2.dfy` | the order-pruned join of the user's and the object's ids |
| `ChunkStreams.dfy`, `FastPath.dfy` | the v1 streams over chunks and the three set operations on them |
| `OrderedCombined.dfy` | the iterator that merges ordered tuple iterators |
| `Reachability.dfy`, `RecursiveV1.dfy` | recursive relations as reachability, and the v1 level-by-level search |
| `WorkSharing.dfy`, `WorkSharingExact.dfy`, `WorkSharingExposed.dfy` | the v2 search by workers that share one visited map, as a state machine over its actions |
| `BoundedSearch.dfy`, `BoundedBlocked.dfy`, `BoundedExposed.dfy`, `WorkSharingResolver.dfy` | the same search with its bounded worker pool and response channel, and the whole resolver |
| `RecursiveMeaning.dfy`, `RecursiveResolver.dfy` | the recursive resolvers against the meaning of a check, and the v2 one from end to end |
| `Durations.dfy`, `CacheRuns.dfy` | entry lifetimes, and the check cache with its controller as a state machine with one clock |
| `Invalidation.dfy` | one pass of the cache controller over the changelog, and what repeated passes keep |
| `ContextIndex.dfy` | the index of contextual tuples and lookup by bisection |
| `Wrappers.dfy` | optional values |
| `Bag.dfy`, `BagDrains.dfy`, `BagProgress.dfy` | the lock-free bag: cells, references and compare-and-swap, refining a log of insertions |

Concurrency appears in three forms. Outcomes of concurrent handlers are delivered in an arbitrary
permutation. Two channels read by one `select` are interleaved by arbitrary choices. Workers, refreshes
and lock-free operations are steps of a state machine whose runs are arbitrary sequences of enabled
steps. A storage read may fail wherever a `reliable` flag is false.

## Results that go beyond a plain "correct"

- What a check means is said three ways: as the least fixpoint of the rewrite rules, directly of tuples and
  rewrites (`Derivations.GrantedMeans`), and as the existence of a finite derivation
  (`Derivations.GrantedIffProved`).
- An answer of the evaluator that is not marked as cyclic agrees with every fixpoint of the rules, also
  when the model subtracts. That is why a cache entry may be served on any path. A cyclic "no" may be
  right for its path and wrong as an entry (`Evaluator.CyclicAnswerIsPathDependent`).
- With exclusion, a "yes" and a non-cyclic "no" agree with the perfect model of layered relations, and every
  answer does when a rank falls along the lookups below every subtracted operand (`Stratified.CheckLayered`).
  Otherwise the default strategy can be wrong. For "base but not rel", with a directly assigned base and a
  `rel` that refers to itself through usersets or parents, its answer is wrong if and only if the user holds
  the base and not `rel`, and a cycle lies on the object or ahead of it (`ExclusionCycles.CheckExclusion`).
  Two groups that list each other as members make it deny their owner (`CyclicExclusion.CyclicNoIsWrong`).
  The recursive strategy that `internal/graph/check.go:690` also offers for `rel` is not misled
  (`ExclusionCycles.CheckByReaching`).
- `resolveDifference` cancels repetitions one by one. What it delivers is the set difference if and only if
  no shared id is repeated more often in the base than in the subtracted stream
  (`BottomUp.ResolveDifference`). A comment in `internal/check/bottom_up.go:253` says that merging stored
  and contextual tuples removes duplicates, but the comparator there never returns zero. So an exclusion over
  such a leaf is exact if and only if no object is stored, contextual and subtracted at once
  (`ContextualLeaves.ExcludeFromLeaf`).
- `resolveUnion` goes on after an operand has failed and reports the error at its end
  (`internal/check/bottom_up.go:327-416`), which a difference above it may never reach. Excluding a union then
  delivers ids that the failed read would have excluded, and ends without an error: base 3 and 5, and operands
  1 with an error and 5 (`FailedReads.FailureIsHidden`). This happens if and only if the
  base is read without an error, none of its ids is above everything that the operands delivered, and one that
  it keeps is not below what some failed operand delivered (`FailedReads.ExcludeUnion`). A whole rewrite tree
  conceals no failure if unions below an intersection or a subtraction either do not fail or have a single
  operand (`GraphEvaluation.ResolveRewrite`). Applied to plain reads, the operators of v1 and v2 conceal
  nothing.
- The v2 recursive search claims an id in the visited map before it evaluates the tuple's condition.
  It is exact for every user and schedule if and only if no reached id can be claimed by a tuple with a
  false condition first (`WorkSharingExposed.ExactIffSafe`), whatever the concurrency limit
  (`BoundedExposed.BoundedExactIffSafe`); a store without false conditions always qualifies
  (`WorkSharingExposed.AcceptingAllIsSafe`).
- The v2 search can block although every read succeeds: its response channel is read only after the last
  seed has been given to the worker pool. It blocks on some store if and only if there are at least two
  seeds and at least twice `concurrencyLimit` ids on the user's side, or there is a seed and the limit is zero
  (`BoundedBlocked.BlocksIff`). A call that blocks ends with the error of its context.
- No request is served an answer stamped at or before a change recorded earlier if and only if answers do
  not outlast the changelog entry (`CacheRuns.FreshIffOutlasts`). For a positive lifetime that means that
  answers are stored the moment they are stamped, and that jitter cannot lengthen a lifetime of less than a
  year by one nanosecond (`CacheRuns.FreshIffUnjittered`). The code takes the stamp before the cache reads
  its clock (`internal/graph/cached_resolver.go:202`), so some lag is always there. Freshness of stamps does
  not make answers current: an evaluation that takes time can straddle a change
  (`CacheRuns.CurrentIffInstant`).
- A changelog pass leaves every recent change covered if and only if it finds a change newer than the one it
  knows or the added changes were covered before. A second change with the very timestamp of the recorded
  one stays uncovered, unless it shares both its keys with that one (`Invalidation.EqualStampIsMissed`), until
  a later change comes or the record expires.
- The documentation of `Bag.Seq` says that an iterator resumes from the break point. The value at which a
  loop broke off is handed out again: a drain repeats a position if and only if a break is followed by
  another loop (`BagDrains.RepeatsIffResumed`, `BagDrains.BrokenOffIsRepeated`).

## Model

| member | source | states |
|---|---|---|
| `Reducers.Union` | internal/graph/check.go:160-218 | for every arrival order: yes iff some operand says yes, else an error iff some operand errs (the last error to arrive), else no, cyclic iff some operand is; never both allowed and cyclic |
| `Reducers.Intersection` | internal/graph/check.go:222-291 | no iff some operand is no or cyclic, with the flag of the first such to arrive, else the first error to arrive, else yes; fewer than two operands is an error |
| `Reducers.Exclusion` | internal/graph/check.go:295-374 | no iff the base is no or cyclic or the subtracted operand is yes or cyclic, else an error iff either errs, whichever reports first |
| `Reducers.ArrivalOrderIrrelevant` | internal/graph/check.go:160-291 | the verdict of union and intersection is the same for every permutation of the outcomes |
| `Rules.GrantedIsLeastFixpoint` | internal/graph/check.go:1041-1064 | without exclusion the rewrite rules have a least fixpoint, contained in every other |
| `Rules.RewriteMonotone` | internal/graph/check.go:987-1064 | a rewrite whose subtracted operands only look up settled keys never loses a grant when more keys are granted; without exclusion that is every rewrite |
| `Rules.LookupsDecide` | internal/graph/check.go:840-1064 | only the keys that a rewrite looks up decide it |
| `Rules.DerivableIsInFixpoint` | internal/graph/check.go:475-488 | what is derivable, with or without a cut, is in the fixpoint that settles the subtracted keys |
| `Rules.PositiveIsSettled` | internal/graph/check.go:1041-1064 | without exclusion the least fixpoint is what is derivable |
| `Rules.CutIsHarmless` | internal/graph/check.go:475-488 | a key that the rules do not grant from what is derivable without it is not derivable at all, so cutting a visited key loses nothing |
| `Rules.CutKeysUnderivable` | internal/graph/check.go:475-488 | a visited key is never derivable around itself |
| `Derivations.FixpointMeans` | internal/graph/check.go:648-1064 | for every fixpoint and each kind of rewrite: a relation holds iff it is the user itself, or a type-correct path exists and some tuple of the user, of its public wildcard, of a userset or of a parent grants it, said of the tuples' fields |
| `Derivations.GrantedMeans` | internal/graph/check.go:648-1064 | the same for the least fixpoint |
| `Derivations.PerfectMeans` | internal/graph/check.go:295-374 | the same for the perfect model, exclusion included |
| `Derivations.GrantedIffProved` | internal/graph/check.go:648-1064 | without exclusion a key is granted iff a finite derivation from tuples proves it |
| `Evaluator.Checker.Check` | internal/graph/check.go:395-472 | whole checks terminate; without exclusion an answer is yes exactly when the key is in the least fixpoint; a non-cyclic answer agrees with every fixpoint and is stored; a depth error comes only if some chain of lookups takes as many userset and parent steps as the limit; with reliable reads, a closed model and no such chain there is always an answer |
| `Evaluator.Checker.CheckAgainst` | internal/graph/check.go:395-472 | the same against any fixpoint that is derivable once a zone of keys is settled, where lookups stay in the zone and a rank falls along them; keys of the zone are never answered as cyclic |
| `Evaluator.Checker.ResolveCheck` | internal/graph/check.go:395-488 | under any visited set, yes is granted and no is not derivable around the visited keys; a depth error needs a chain of lookups as deep as what is left of the limit; the depth limit is reported before a cycle, a cycle before anything else; the number of unvisited keys decreases with every dispatch |
| `Evaluator.Checker.CheckRewrite` | internal/graph/check.go:840-858 | the same for a rewrite, through the reducers in any arrival order; a computed relation keeps the visited set and the depth |
| `Evaluator.Checker.CheckChildren` | internal/graph/check.go:987-1039 | one right outcome for every operand of a set operation |
| `Evaluator.Checker.CheckDirect` | internal/graph/check.go:799-837 | own tuple, public wildcard and assigned usersets together answer the direct assignment |
| `Evaluator.Checker.CheckUsersets` | internal/graph/check.go:648-792 | the default strategy over the userset tuples is right, whatever order dispatches return in |
| `Evaluator.Checker.UsersetOutcomes` | internal/graph/default_resolver.go:96-129 | every userset tuple is dispatched, one level deeper, unless a wildcard of the user's own type or an error ends the production; a depth error needs a chain of lookups that deep |
| `Evaluator.Checker.CheckParents` | internal/graph/check.go:862-985 | the default strategy over the tupleset tuples is right, whatever order dispatches return in |
| `Evaluator.Checker.ParentOutcomes` | internal/graph/default_resolver.go:158-188 | every parent on which the computed relation may be defined is dispatched, one level deeper, unless an error ends the production; a depth error needs a chain of lookups that deep |
| `Evaluator.Checker.Dispatch` | internal/graph/cached_resolver.go:136-204 | an answer from the cache, from any state other requests left it in, or from the delegate is right on this path; only non-cyclic answers are stored, every stored entry is right, and without caching nothing is stored |
| `Evaluator.CacheIsTransparent` | internal/graph/cached_resolver.go:136-204 | on a fixed tuple set without exclusion the cached and the uncached evaluator agree whenever both answer |
| `Evaluator.RewriteAnswersKey` | internal/graph/check.go:448-472 | the rewrite's answer, computed with the key visited, is right for the key on the shorter path |
| `Evaluator.UnionRight` | internal/graph/check.go:160-218 | right operands make a right union |
| `Evaluator.IntersectionRight` | internal/graph/check.go:222-291 | right operands make a right intersection |
| `Evaluator.DifferenceRight` | internal/graph/check.go:295-374 | right operands make a right exclusion, cyclic outcomes included |
| `Evaluator.UsersetDispatchesRight` | internal/graph/default_resolver.go:190-234 | right dispatches, cut short only by an error or a certain yes, answer the userset part |
| `Evaluator.ParentDispatchesRight` | internal/graph/default_resolver.go:190-234 | the same for parents |
| `Evaluator.EntryServesEveryPath` | internal/graph/cached_resolver.go:153-169 | a stored answer is right under every visited set |
| `Evaluator.CyclicAnswerIsPathDependent` | internal/graph/cached_resolver.go:188-198 | a cyclic no that is right on its path would be wrong as a cache entry |
| `Stratified.PerfectIsFixpoint` | internal/graph/check.go:295-374 | when no relation subtracts what depends on it, settling the relations level by level gives a fixpoint of the rules |
| `Stratified.LayerMonotone` | internal/graph/check.go:987-1064 | more grants at a level never take one away at that level, exclusion included |
| `Stratified.LayeredIsSettled` | internal/graph/check.go:295-374 | if a rank falls along every lookup below the subtracted operands, the perfect model is what is derivable once those lookups are settled |
| `Stratified.SupportedIsFixpoint` | internal/graph/check.go:295-374 | keys that support each other may be added to the perfect model's grants, level by level, and the result is again a fixpoint |
| `Stratified.CheckLayered` | internal/graph/check.go:395-472 | if a rank falls along every lookup below the subtracted operands, the answer is yes iff the key is in that perfect model; a yes and a non-cyclic no always agree with it |
| `Stratified.CheckAmbiguous` | internal/graph/check.go:295-374 | a key on which two fixpoints differ is answered with a cyclic no |
| `ExclusionCycles.CheckExclusion` | internal/graph/check.go:295-374 | for a direct base and a self-recursive subtracted relation, in every arrival order: the answer differs from the perfect model iff the base holds, the relation does not, and a cycle lies on the object or ahead of it; then it is a cyclic no |
| `ExclusionCycles.NoCycleFalls` | internal/graph/check.go:475-488 | without such a cycle, the number of objects ahead falls along every lookup |
| `ExclusionCycles.CyclesSupportThemselves` | internal/graph/check.go:475-488 | granting the relation all along the cycles is a second fixpoint |
| `ExclusionCycles.PerfectIffReaches` | internal/graph/recursive_resolver.go:275-339 | in the perfect model the relation is reaching an object on which it holds directly |
| `ExclusionCycles.CheckByReaching` | internal/graph/recursive_resolver.go:82-162 | the recursive strategy's answer agrees with the perfect model on every layered model, cycles or not |
| `CyclicExclusion.CyclicNoIsWrong` | internal/graph/check.go:350-374 | on two groups that list each other as members, the default strategy denies an owner whom the perfect model makes a guest |
| `Evaluator.VisitingDecreases` | internal/graph/resolve_check_request.go:119-152 | each path's own visited set grows by one defined key, which bounds the recursion |
| `Evaluator.KeyFails` | internal/graph/check.go:395-488 | if a rewrite fails for depth, a chain of lookups from its key has the steps that the limit still allowed |
| `Evaluator.ChainIsBounded` | internal/graph/resolve_check_request.go:119-152 | a chain of lookups that repeats no key has at most as many steps as there are keys |
| `Ids.RankFaithful` | internal/check/bottom_up.go:327-416 | numbering the strings of a run keeps order, equality and the empty string, so the operators cannot tell the difference |
| `Channels.Batcher.Add` | internal/check/bottom_up.go:284-292 | every value but the empty one is added to the stream, whatever chunk it lands in |
| `Channels.Batcher.Close` | internal/check/bottom_up.go:312-322 | the channel delivers exactly what was added, in order, and then the error if there was one, in chunks of which all but the last are full |
| `Channels.ChannelIterator.Next` | internal/iterator/channel.go:53-91 | yields the next id of the channel, across chunk borders and empty chunks, and ends as the channel does |
| `Channels.ReadAll` | internal/iterator/channel.go:53-91 | reading a channel to its end gives back what was sent into it, error included |
| `BottomUp.ResolveUnion` | internal/check/bottom_up.go:327-416 | any number of sorted iterators: the output is their set union, ascending, and it ends in an error iff some iterator does, in the error of one of them |
| `BottomUp.ScanForLeast` | internal/check/bottom_up.go:357-398 | a scan that drops heads equal to the least so far loses no value, even if a lesser head follows |
| `BottomUp.MergeStep` | internal/check/bottom_up.go:357-416 | putting out the least head keeps output and rest together equal to the union and in order |
| `BottomUp.ResolveIntersection` | internal/check/bottom_up.go:418-509 | the output is the set intersection, ascending; it ends as one iterator does, after which no other could change it, so without an error no failed iterator can have made a difference; with one it is the intersection up to there |
| `BottomUp.SkipAll` | internal/check/bottom_up.go:470-500 | only values below the greatest head are skipped, until no head is below it or an iterator has ended, and there is progress |
| `BottomUp.SkipTo` | internal/check/bottom_up.go:623-635 | stops at the first value at or above the target and skips only lower ones |
| `BottomUp.ResolveDifference` | internal/check/bottom_up.go:511-620 | on non-descending streams the output is the multiset difference in order, including both ways of draining the base; it is the set difference iff no shared id is repeated more often in the base, so always on a base without repetitions; the subtracted stream's error is reported iff the base goes beyond what it delivered, else the base's own; without an error no failed read can have made a difference, and with one the output begins the result |
| `FailedReads.ExcludeUnion` | internal/check/bottom_up.go:327-620 | subtracting a union whose operands may fail: when an error is reported, and that a result without one is conclusive for all that was missed iff the failure is not hidden |
| `FailedReads.ConclusiveIff` | internal/check/bottom_up.go:511-620 | what was put out is the same for every completion of the failed reads iff none of it may have been missed |
| `FailedReads.FailureIsHidden` | internal/check/bottom_up.go:327-620 | an object is delivered without an error although the read that failed may exclude it |
| `ContextualLeaves.MergeContextual` | internal/check/bottom_up.go:249-268 | merging stored and contextual objects keeps all of both, duplicates included |
| `ContextualLeaves.ExcludeFromLeaf` | internal/check/bottom_up.go:249-268 | an exclusion over a leaf delivers what is not subtracted and what is stored, contextual and subtracted at once; it is exact iff there is nothing of the latter |
| `ContextualLeaves.RepeatedTupleDefeatsExclusion` | internal/check/bottom_up.go:249-268 | an excluded object that is stored and contextual is delivered |
| `ModelGraph.FlattenNode` | internal/modelgraph/model.go:77-119 | the loop computes the flattened edge list, which `FlattenedAreReached` characterises |
| `ModelGraph.FlattenedAreReached` | internal/modelgraph/model.go:77-119 | by the kinds of edges and nodes: the list has exactly the operands that live edges lead to through nothing but unions, without the recursive ones on the recursive path |
| `ModelGraph.UnionMeans` | internal/modelgraph/model.go:77-119 | a union means the ids of those operands together |
| `ModelGraph.FlatteningKeepsMeaning` | internal/modelgraph/model.go:77-119 | the disjunction of the flattened edges means what the node means, on the recursive path too |
| `ModelGraph.RecursivePathDropsRecursiveEdges` | internal/modelgraph/model.go:113-115 | on the recursive path exactly the recursive edges are missing: both parts together are the full result |
| `GraphEvaluation.ResolveRewrite` | internal/check/bottom_up.go:124-158 | a whole rewrite tree over sorted leaves resolves iff every node and edge that is evaluated is of a kind the resolver handles, for a wildcard request and on the recursive path too; it yields a sorted stream, strictly so if no leaf repeats an id; if no leaf fails and no base of an exclusion repeats an id, it is exactly the set meaning, without an error; if leaves fail and unions below an intersection or a subtraction are steady, a stream without an error is what the tree read in full means |
| `GraphEvaluation.ResolveEdge` | internal/check/bottom_up.go:104-120 | the same for what an edge leads to |
| `GraphEvaluation.Operands` | internal/check/bottom_up.go:75-102 | operands that cannot reach the user type are left out; the others are all resolved, or one of them cannot be |
| `GraphEvaluation.Unite` | internal/check/bottom_up.go:160-168 | the same for a flattened union, which on the recursive path leaves recursive edges out |
| `GraphEvaluation.Intersect` | internal/check/bottom_up.go:52-70 | the same for an intersection, for a wildcard request too |
| `GraphEvaluation.Exclude` | internal/check/bottom_up.go:124-158 | the same for an exclusion: base minus subtracted |
| `GraphStreams.DeadOperandEmptiesIntersection` | internal/check/bottom_up.go:52-70 | an operand without the wildcard makes a wildcard intersection empty |
| `GraphStreams.UniteIsFaithful` | internal/check/bottom_up.go:160-168 | a union without an error is the whole of what it would be if read in full; if it has one operand it begins it |
| `GraphStreams.IntersectIsFaithful` | internal/check/bottom_up.go:52-70 | the same for an intersection of steady operands |
| `GraphStreams.ExcludeIsFaithful` | internal/check/bottom_up.go:124-158 | the same for an exclusion whose subtracted operand is steady |
| `Weight2.Execute` | internal/check/weight2.go:69-191 | for every interleaving the answer is yes exactly when the sides share a value, with pruning on sorted sides and without it on unsorted ones; a no conceals no error: both sides were read without one, or one was and is empty |
| `Weight2.ReceiveKeeps` | internal/check/weight2.go:121-186 | a value that is not remembered can never match what the other side still receives |
| `Weight2.ReceiveChunk` | internal/check/weight2.go:112-149 | a chunk read to its end hides no match; a match stops it |
| `ChunkStreams.Streams.SkipToTargetObject` | internal/iterator/stream.go:77-111 | moves to the first buffered id at or above a valid target and refuses an invalid one |
| `ChunkStreams.Streams.Drain` | internal/iterator/stream.go:114-127 | returns the buffer and leaves it empty |
| `ChunkStreams.Streams.CleanDone` | internal/iterator/stream.go:194-207 | every stream without a buffer gets its next chunk and finished streams go, or an error of a stream is reported |
| `ChunkStreams.CleaningKeeps` | internal/iterator/stream.go:129-207 | cleaning up keeps every value that is to come, and the streams that stay have a buffer |
| `ChunkStreams.CleaningSelects` | internal/iterator/stream.go:129-207 | a stream that is removed had neither values nor an error left |
| `FastPath.FastPathUnion` | internal/graph/weight_two_resolver.go:301-371 | the output is the set union, ascending, and an error is reported iff a stream has one |
| `FastPath.FastPathIntersection` | internal/graph/weight_two_resolver.go:373-461 | without a reported error the output is the set intersection, ascending, and no failed read can have made a difference; errors are those of a stream or an invalid target |
| `FastPath.FastPathDifference` | internal/graph/weight_two_resolver.go:463-580 | without a reported error the output is the multiset difference in order, and the set difference iff no shared id is repeated more often in the base, and no failed read can have made a difference; errors are those of a stream or an invalid target |
| `FastPath.Run` | internal/graph/weight_two_resolver.go:301-580 | on sane strictly ascending streams each operation ends without an error and delivers its set meaning |
| `FastPath.CuttingIsIrrelevant` | internal/graph/weight_two_resolver.go:301-580 | two ways of cutting the same streams into chunks, empty ones included, give the same output |
| `OrderedCombined.Combined.Next` | pkg/storage/tuple_iterators.go:461-476 | yields the least key after the last one with the tuple of the earliest input that has it, and the head shown before if there was one |
| `OrderedCombined.Combined.Head` | pkg/storage/tuple_iterators.go:478-492 | shows what the following `Next` yields, without yielding it |
| `OrderedCombined.Combined.FindHead` | pkg/storage/tuple_iterators.go:498-557 | finds the first input with the least head after the last key yielded, or that nothing follows |
| `OrderedCombined.YieldAll` | pkg/storage/tuple_iterators.go:447-563 | read to its end: strictly ascending keys, exactly those of the inputs, each with its earliest tuple |
| `Reachability.ReachesIsLeastSolution` | internal/graph/recursive_resolver.go:275-339 | reaching the base is the least solution of "in the base, or some successor is a solution" |
| `Reachability.ClosedSetIsSafe` | internal/graph/recursive_resolver.go:275-339 | a set that successors do not leave and that misses the base reaches nothing |
| `RecursiveV1.RecursiveFastPath` | internal/graph/recursive_resolver.go:82-162 | yes only if some first successor reaches the user's ids, no only if none does; a no conceals no error; below the depth limit it finds exactly what is fewer steps away than the limit leaves, and a depth error needs a chain almost that long; an answer comes if reads succeed and the depth limit exceeds the number of objects |
| `RecursiveV1.LoadSides` | internal/graph/recursive_resolver.go:203-260 | for every interleaving: a shared value, an empty user side read without an error, an error, or both sides loaded without an error and disjoint |
| `RecursiveV1.BreadthFirst` | internal/graph/recursive_resolver.go:275-339 | the level-by-level search is exact and terminates on cyclic data; with reliable reads it answers yes iff a base object is fewer steps away than the depth limit leaves |
| `RecursiveV1.MatchLevels` | internal/graph/recursive_resolver.go:275-339 | the same from any level on: the level is as many steps away as levels were searched, and without failed reads nothing that near is missing |
| `RecursiveV1.ExpandLevel` | internal/graph/recursive_resolver.go:275-339 | one level moves to the visited objects, its successors form the next, and a read error is remembered |
| `WorkSharingExposed.ExactIffSafe` | internal/check/recursive.go:180-279 | every complete error-free run is exact for every user, iff no reached id is exposed to a rejected tuple |
| `WorkSharingExposed.ExposedIsMissed` | internal/check/recursive.go:346-355 | an exposed id has a run that ends without an error and without the match |
| `WorkSharingExposed.AcceptingAllIsSafe` | internal/check/recursive.go:346-355 | when every condition holds, nothing is exposed |
| `WorkSharingExposed.ConditionCanHideMember` | internal/check/recursive.go:346-355 | a three-object store that is not safe |
| `WorkSharingExact.QuiescentIsExact` | internal/check/recursive.go:180-236 | a finished search of a safe store that found nothing and had no error is right to say no |
| `WorkSharingExact.RunKeepsInvariant` | internal/check/recursive.go:180-279 | in every run a match is a real one, every worker's id is reached through visited ids, and every claimed id is accounted for |
| `WorkSharing.NoStepRepeats` | internal/check/recursive.go:251-279 | no action happens twice in a run |
| `WorkSharing.RunsAreBounded` | internal/check/recursive.go:251-279 | every run ends: it has no more steps than actions were open at its start |
| `WorkSharing.ExpandedAtMostTwice` | internal/check/recursive.go:200-206 | no id is expanded three times |
| `WorkSharing.OnlySeedsExpandTwice` | internal/check/recursive.go:200-206 | an id that is expanded twice is a seed: stored unconditionally once, claimed once |
| `BoundedSearch.ActRefines` | internal/check/recursive.go:183-279 | every action under the limit is a step of the search without bounds, or none |
| `BoundedSearch.BlockedIffJammed` | internal/check/recursive.go:183-236 | the search can go on unless a seed waits for a place, all places are taken and every worker waits to send into a full channel |
| `BoundedSearch.RoomyNeverBlocks` | internal/check/recursive.go:183-236 | with reliable reads, one seed or fewer than twice the limit of ids to be found, no run blocks |
| `BoundedSearch.OverIsQuiescent` | internal/check/recursive.go:207-236 | a search that is over has received its match, or has no match and no worker left |
| `BoundedBlocked.BlocksIff` | internal/check/recursive.go:183-236 | for all seeds, user ids and limits: some store blocks iff there are two seeds and twice the limit of user ids, or the limit is zero |
| `BoundedBlocked.ManyHitsBlock` | internal/check/recursive.go:183-236 | the blocked run, for every positive limit |
| `BoundedSearch.OverIsExact` | internal/check/recursive.go:207-236 | under every limit a match is real, and on a safe store so is its absence |
| `BoundedExposed.BoundedExactIffSafe` | internal/check/recursive.go:180-279 | for every positive limit: every run that is over without an error is exact for every user, iff no reached id is exposed to a rejected tuple |
| `BoundedExposed.ExposedIsMissed` | internal/check/recursive.go:346-355 | under every positive limit, an exposed id has a run that goes down to the rejected tuple first, never blocks, and ends without the match |
| `WorkSharingResolver.RecursiveMatch` | internal/check/recursive.go:180-236 | under the limit and in every schedule: yes only if reached, no only if not reached (on a safe store); with reliable reads and room an answer; the context's error only if the search can block |
| `WorkSharingResolver.LoadSides` | internal/check/recursive.go:88-168 | as in v1, except that errors are remembered and do not stop the loading: both sides are loaded, and every error was seen; a user side that fails before its first id ends it with no match |
| `WorkSharingResolver.Execute` | internal/check/recursive.go:88-178 | the whole resolver is exact on a safe store; a match outweighs an error, an error outweighs a no: a no means that both sides were read without an error or one was and is empty; with reliable reads there is an answer if one side has at most one id or the other fewer than twice the limit |
| `RecursiveMeaning.GrantedIffReaches` | internal/check/recursive.go:43-86 | for a relation assigned directly and otherwise through usersets of itself, or through itself on a parent, granted is held directly or reached along those usersets or parents |
| `RecursiveMeaning.CheckLevelByLevel` | internal/graph/recursive_resolver.go:51-162 | the v1 resolver's yes is granted, and its no leaves only what the object holds directly |
| `RecursiveMeaning.CheckWorkSharing` | internal/check/recursive.go:43-178 | the same for the v2 resolver on a safe store |
| `RecursiveResolver.UserSideIsBase` | internal/check/recursive.go:43-86 | bottom-up evaluation on the recursive path means exactly the objects on which the user holds the relation directly, if the non-recursive operands reached through unions read those tuples |
| `RecursiveResolver.CheckRecursive` | internal/check/recursive.go:43-178 | the whole v2 resolver, user's side included: a yes is granted, and on a safe store a no leaves only what the object holds directly |
| `Durations.MaxJitterIsShare` | pkg/storage/cache.go:278-303 | the split division equals the capped percentage of the base rounded down, and is at most the base |
| `Durations.JitteredTTL` | pkg/storage/cache.go:278-303 | for every number drawn: the base plus it, capped at the largest duration, which lies between the base and the base plus the largest jitter |
| `CacheRuns.FreshIffOutlasts` | internal/cachecontroller/cache_controller.go:148-297 | in every run no request is served an entry stamped at or before a change recorded before the request, iff the longest entry life plus the storing lag is within the record's life |
| `CacheRuns.FreshIffUnjittered` | internal/graph/cached_resolver.go:151-202 | with the configured jitter and lag this holds iff the lifetime is not positive, or there is no lag and the jitter cannot lengthen a lifetime under a year by one unit |
| `CacheRuns.CurrentIffInstant` | internal/graph/cached_resolver.go:181-202 | every answer served was computed after the changes recorded before the request iff that holds and evaluation takes no time, or nothing is kept |
| `CacheRuns.RecordsNeverGoBack` | internal/cachecontroller/cache_controller.go:209-228 | with one refresh in flight at a time, a later record never names an older change |
| `CacheRuns.BeginRefreshes` | internal/cachecontroller/cache_controller.go:148-192 | a request gets the change on record unless it expired, and leaves a refresh in flight iff the record is missing or was checked longer ago than the interval, or one was in flight |
| `CacheRuns.RecordLasts` | internal/cachecontroller/cache_controller.go:148-297 | after a refresh, for every later time: what a request gets, and whether it starts the next refresh |
| `CacheRuns.FailedRefreshIsRetried` | internal/cachecontroller/cache_controller.go:209-297 | a refresh that cannot read the changelog leaves everything as it was, and the next request starts another |
| `CacheRuns.ChangesAreNoticed` | internal/cachecontroller/cache_controller.go:148-297 | in every run: once a refresh that starts after a change has recorded, no request that finds a record is served an answer stamped at or before that change |
| `CacheRuns.StepKeepsInvariant` | internal/cachecontroller/cache_controller.go:148-297 | every step keeps: the record names the newest recorded change for its full life, entries end in time, each request knows the record or outlives it |
| `CacheRuns.LateRead` | internal/cachecontroller/cache_controller.go:165-192 | otherwise a request that finds the record expired is served a stale entry |
| `Invalidation.Controller.FindChangesAndInvalidate` | internal/cachecontroller/cache_controller.go:239-345 | on an append-only changelog, everything recent is covered after a pass iff it finds a change newer than it knows, also beyond the page, or the added changes were covered already; a pass that finds one revokes exactly the cached reads that a change within the iterator lifetime touches, or all if no change of the page is older; a timeout changes nothing and a read error marks the store |
| `Invalidation.IsInvalidAt` | pkg/storage/storagewrappers/cached_datastore.go:254-273 | a cached read is invalid iff it is older than the mark of its store, of its object and relation, or of one of its users and the object type |
| `Invalidation.MarkAllRevokes` | internal/cachecontroller/cache_controller.go:329-375 | marking changes revokes exactly the reads that one of them touches, by object type, object, relation and user |
| `Invalidation.MarkAllFields` | internal/cachecontroller/cache_controller.go:329-375 | a mark is set for an object and relation iff a change has both, and for a user and object type iff a change has both |
| `Invalidation.PassIsExact` | internal/cachecontroller/cache_controller.go:310-345 | the page alone decides: the reads revoked are those that a recent change of the whole changelog touches |
| `Invalidation.Controller.InvalidateRecent` | internal/cachecontroller/cache_controller.go:310-345 | the store is marked iff the whole page is recent, else exactly the recent changes |
| `Invalidation.CountRecent` | internal/cachecontroller/cache_controller.go:312-327 | the backward scan finds how many changes are after the cutoff |
| `Invalidation.PassCovers` | internal/cachecontroller/cache_controller.go:329-345 | marks set from the first page cover the recent changes of the whole changelog |
| `Invalidation.BeyondPageIsOld` | internal/cachecontroller/cache_controller.go:316-327 | once the page shows an old change, every recent change is on the page |
| `Invalidation.EqualStampIsMissed` | internal/cachecontroller/cache_controller.go:299-308 | two passes, the second over one more change with the recorded timestamp: it marks nothing, the change is uncovered unless it shares both keys with the recorded one, and the reads revoked are those the first change touches |
| `Invalidation.LaterStampIsNew` | internal/cachecontroller/cache_controller.go:299-308 | a change stamped after all those seen is always found |
| `ContextIndex.Request.FindSpecific` | internal/check/check.go:854-863 | bisection finds a tuple exactly when a linear scan of the request does, namely the first |
| `ContextIndex.Request.TuplesOfObject` | internal/check/request.go:286-290 | the object's group holds, in ascending order of user, exactly the first tuple of each user of the type |
| `ContextIndex.Request.BuildContextualTupleMaps` | internal/check/request.go:176-216 | both maps agree with linear scans of all tuples, and have no empty groups |
| `ContextIndex.InsertSorted` | internal/check/request.go:219-256 | the slice stays strictly sorted, and a scan of it finds what it would find with the tuple at the end: the first occurrence is kept |
| `ContextIndex.Search` | internal/check/request.go:229-237 | bisection stops at the first key at or above the target |
| `ContextIndex.GroupMembers` | internal/check/request.go:219-256 | a group holds exactly the tuples that are the first of their kind |
| `ContextIndex.GroupedScanIsScan` | internal/check/request.go:258-290 | both groupings find the same tuple for a user, relation and object |
| `Bag.StepRefines` | internal/containers/bag.go:25-75 | every step of the linked-list machine is a step of the insertion log, or none |
| `Bag.RunRefines` | internal/containers/bag.go:25-75 | so is every run, from any interleaving of adds, drains and clears |
| `BagDrains.HandsFollowLog` | internal/containers/bag.go:60-70 | in every run, what a drain hands out at each place is the value inserted at a position of its window |
| `BagDrains.SpotsArePositions` | internal/containers/bag.go:60-70 | in every run the window's cursor at each hand is the position counted from the loops that went on |
| `BagDrains.RepeatIffBreaks` | internal/containers/bag.go:60-70 | in every run positions fall or stay, and two hands are at one position iff every loop in between broke off |
| `BagDrains.RepeatsIffResumed` | internal/containers/bag.go:60-70 | a drain hands out some position twice iff a break was followed by another hand |
| `BagDrains.BrokenOffIsRepeated` | internal/containers/bag.go:60-70 | the run in which a loop breaks off at a value and the next one receives it again |
| `BagDrains.UnbrokenDrainReverses` | internal/containers/bag.go:60-70 | without a break a drain hands out its window in reverse order of insertion, at its end all of it |
| `BagDrains.DrainsAreApart` | internal/containers/bag.go:60-70 | two drains never hand out the same position |
| `Bag.NothingLost` | internal/containers/bag.go:25-75 | in every run each inserted value is in the bag, in one drain's window or cleared, and the list from the head is the bag's contents in reverse |
| `BagDrains.EndedDrainIsWhole` | internal/containers/bag.go:60-70 | a drain at its end has handed out every position of its window |
| `Bag.SwapPublishes` | internal/containers/bag.go:45-52 | a successful compare-and-swap puts the call's values, latest first, in front of the list |
| `Bag.StepKeepsPublished` | internal/containers/bag.go:45-52 | no step changes a published cell |
| `BagProgress.AddCompletes` | internal/containers/bag.go:25-55 | in every reachable state, whatever others have done, at most five steps of its own let a call publish its values |
| `BagProgress.DrainCompletes` | internal/containers/bag.go:60-70 | a drain that goes on alone yields exactly what it has left and is then at its end |
| `Bag.Build` | internal/containers/bag.go:30-43 | the loop links each value in front of the one before it |

## Left out

- Cancellation, deadlines, panics and goroutine cleanup: the results are about runs in which every outcome is delivered.
- The planner, and with it the choice of a strategy.
- Evaluator.Checker.CheckUsersets: takes the default strategy; the weight-2 and recursive ones are proved exact on their own. On cyclic data the recursive one says no without the cyclic flag, so a choice between them would not keep that a non-cyclic answer agrees with every fixpoint.
- Evaluator.Checker.CheckParents: takes the default strategy, as `CheckUsersets` does.
- Channels.ChannelIterator.Next: a chunk's own iterator does not fail part of the way; the error comes as a message.
- Channels.ReadAll: a chunk's own iterator does not fail part of the way; the error comes as a message.
- The v1 weight-2 join (`internal/graph/weight_two_resolver.go:108-203`) and `fastPathRewrite`: the operators are modelled, the dispatch to them is not.
- The v2 edge cache while a visited map is shared, and the v2 resolvers of intersection and exclusion, whose answer depends on which error comes first.
- `CanApplyRecursion` and the conditions under which the recursive resolvers are chosen.
- The typesystem, the weighted graph builder, condition evaluation, key building, hashing and the LRU library: given as predicates, fields of a graph or injective keys; entries are never evicted.
- Storing, extending and dropping cached iterators: a cached read is its keys and the time it was made.
- Server handlers, storage back ends, configuration, metrics and tracing.
- Ids and names are numbers; `Ids.RankFaithful` says why that suffices for operators that only compare.
- GraphEvaluation.ResolveRewrite: requires what the graph builder guarantees (weighted operands of an intersection, a weighted base); the code skips an unweighted operand of an intersection instead of returning nothing.
- GraphEvaluation.ResolveEdge: a read that fails before its first tuple ends the resolution with an error in the source; here a failing leaf yields a stream that ends in one. For trees with failing leaves the condition is sufficient only; for an exclusion of a union `FailedReads.ExcludeUnion` has the exact one.
- ModelGraph.FlattenNode: the graph is given as the tree of its edges, so a node whose edges are missing from the graph is not modelled.
- FastPath.FastPathIntersection: requires at least one stream, because with none the source's loop never ends.
- FastPath.FastPathDifference: requires non-descending streams and a base without the empty id, which the two ways of putting ids out would treat differently.
- ChunkStreams.Streams.CleanDone: a stream is a value in the list, so two references to one stream are not captured.
- OrderedCombined.Combined.FindHead: inputs are ordered and reads do not fail, so the branch that reports an input out of order never applies.
- OrderedCombined.Combined.Next: inputs are ordered and reads do not fail, so the branch that reports an input out of order never applies.
- Weight2.Execute: channels are finite; `ToChannel` (`internal/iterator/channel.go:28-42`) goes on after an error, so an iterator that fails forever would keep the join busy until its context ends. An error of a chunk's own iterator is represented by an error message of the left channel.
- WorkSharingExposed.ExactIffSafe: ranges over schedules with as many workers as needed; `BoundedExposed.BoundedExactIffSafe` is the same under a limit.
- WorkSharingExposed.ExposedIsMissed: the run may use as many workers as needed; `BoundedExposed.ExposedIsMissed` keeps to a limit.
- BoundedSearch.RoomyNeverBlocks: counts the ids of the user that some tuple leads to; which stores with more of them block is not characterised one by one. The tuples of one id are read in any order.
- WorkSharingResolver.Execute: a condition that fails to evaluate is a rejected tuple, and the error its iterator reports is a failed read.
- RecursiveMeaning.CheckLevelByLevel: the user's side is given as the objects that hold the relation directly; `fastPathRewrite`, which produces it, is not modelled.
- RecursiveMeaning.CheckWorkSharing: the user's side is given as the objects that hold the relation directly; `RecursiveResolver.CheckRecursive` derives it.
- RecursiveResolver.CheckRecursive: the tuples of the relation and the leaves of its node are given as what reading them yields; the user is not a userset.
- CacheRuns.FreshIffOutlasts: one store and one clock; lag and evaluation time are parameters. That a lifetime of zero or less keeps nothing is an assumption about the cache library, which is not part of this model.
- Invalidation.Controller.FindChangesAndInvalidate: marks do not expire in the model.
- Bag.StepRefines: the cells of one call are allocated in one step, which nobody else can observe; values are numbers.
