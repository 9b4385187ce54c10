# Yona, modelled in Dafny

Yona is a functional language with a native compiler (C++) and a C runtime. This
project models the parts of it whose correctness is least evident from reading one
function, and proves what they promise.

`dafny verify dfyconfig.toml` checks the whole project.

| files | what they model |
|---|---|
| `RefGraph`, `RefCount`, `Ownership` | reference counting with recursive, tag-directed destruction |
| `Pool`, `Arena` | the size-class slab pool with intrusive free lists; the bump arena with its overflow chain |
| `ThreadPool`, `WorkStealing` | both thread pools, as step relations over every interleaving |
| `LoweringSyntax`, `Lowering`, `LoweringScope`, `LoweringFuel`, `LoweringProof`, `LoweringTheorem`, `LoweringSafe`, `LoweringSites`, `LoweringExamples`, `Kernels` | the compiler pass that replaces `map`/`filter`/`foldl` calls by fixed kernels, against a definition of what programs mean |
| `Hash`, `Hamt`, `HamtProof`, `HamtContents`, `HamtTheorem`, `HamtOwners`, `HamtIterator`, `Sequences` | hash functions, the hash array mapped trie behind Dict and Set, and its streaming iterator |
| `Utf8`, `LexerSyntax`, `LexerSpec`, `LexerScan`, `LexerRuns`, `Lexer`, `ModuleSource` | the hand-written lexer, and the second scanner that must agree with it |
| `EditDistance`, `Fixpoints`, `Ackermann` | the rolling-row edit distance, two fixpoints of module compilation, and the explicit-stack Ackermann function of the benchmarks |
| `Encoding`, `Base64` | hexadecimal, URL and base64 text |

## How it is modelled

Code that changes state step by step is imperative Dafny proved against a
specification: the runtime's heap, the pool, the arena, the iterator and the lexer are
classes; the edit distance, the fixpoints, the encoders and the Ackermann loop are
methods with loops. The abstract syntax tree of the lowering pass and the tries are
values. The thread pools are step relations, because their properties are about
interleavings; the work-stealing queue is also a class.

Machine integers wrap where the source's do: the lowering pass, the kernels, the hashes
and the round-robin counter work on 64-bit words. Bytes of a source text are characters
below 256. What `malloc` and `calloc` return, what other modules export, and whether the C++
library accepts the text of a number, are parameters.

The meaning of programs in the lowering pass is an evaluator with fuel for nested calls;
an outcome reached with some fuel is reached with any more (`EvalMore`).

## What the proofs found

Each of these follows the code where the code and its documentation, or a natural
expectation, part ways. For each there is an input or a run that shows it, and where the
code does meet the expectation under a condition, the exact condition.

- An empty `std::function` submitted to `ThreadPool` is counted into `active_tasks` and
  never out (`EmptyTaskStarts`), so `wait_all` never leaves again
  (`EmptyTaskBlocksWaitAll`); the counter is exact if and only if nothing empty started
  (`ActiveCountsRunning`).
- `shutdown` stores `stop` and notifies without the mutex, so a worker between its test
  and its sleep can be left asleep (`ShutdownCanStrand`). That can happen after the
  notification if and only if at that moment the queue is empty and a worker has read
  `stop` as false and not yet slept (`StrandsIff`).
- A work-stealing queue is not always a contiguous slice of its pushes: a steal followed
  by a push leaves a gap (`StealThenPushLeavesGap`). It is one if and only if nothing
  between its ends was stolen (`ContiguousIff`). Round robin stays even after the counter
  wraps if and only if the number of workers divides 2^64 (`BalancedForeverIff`).
- The lowering pass looks for imports only: it overlooks a let that reuses an imported
  name (`HiddenImportIsLowered`) and a whole-module import that rebinds it
  (`WildcardIsOverlooked`). It finds the binding of lexical scope if and only if no let,
  parameter or whole-module import further in rebinds the name (`ResolveIsScopingIff`).
- It evaluates a hoisted operand even for an empty array, so a program that returns an
  array can trap (`EmptyColumnTraps`). A pipe is hoisted like arithmetic, although it
  calls a function, so such a program can also fail to end (`PipeNeverReturns`). A site
  keeps its value if and only if the operand gives an integer or the array is not empty
  (`SiteReplaced`), and a program keeps its value if and only if no such slip is on its
  way (`LoweredOutcome`, and without regard to fuel `LoweredEnds`); programs that hoist
  integer arithmetic never slip (`SafeLoweringPreserves`). The pass accepts a fold whose
  parameters share one name, which sums every array if and only if they do not
  (`FoldSumsIff`).
- Inserting into a dictionary whose root has two owners copies the root but writes a
  child that has one: the other owner's version changes (`SharedVersionChanges`,
  `SourceKeptIff`), and its size field goes stale exactly when the key was new
  (`SourceSized`). That child is then held by both roots and counted once; counts stay
  exact if and only if the child is not written in place (`OwnersExactIff`,
  `SharedChildUndercounted`). Membership denies a key whose value is the sentinel word (`Contains`).
- The lexer reads past the end of a source that ends inside a character literal or an
  escape, and the next token is then taken from a position that does not exist:
  `tokenize` throws if and only if one of its scans starts at a literal that is cut off
  (`Tokenize`), as on a lone quote (`TokenizeQuote`).
- A scan starts at a newline, which is an error, if and only if newlines that give no
  token are followed by a block comment and another newline (`StrandedNewlineIff`,
  `StrandedExample`). A block comment that is never closed is accepted (`BlockStops`,
  `TokenizeComment`). An overlong UTF-8 sequence advances by fewer bytes than it has
  (`ReadsShortestIff`).
- The scanner that looks for the word `module` and the lexer disagree over a lone carriage
  return in a comment, a block comment, an invalid byte in a comment, and a letter beyond
  ASCII next to the word (`CarriageReturnDiffers`, `BlockCommentDiffers`,
  `InvalidByteDiffers`, `LetterDiffers`). But for the first two they agree if and only if
  the scanner says no, or the text before the word is whole characters in their shortest
  form and a character that ends the word follows (`Agrees`).
- `base64Decode` reads padding as bits that are all ones, so a text comes back exactly
  when its last incomplete group consists of bytes 255 (`RoundTripIff`). A decoded NUL
  ends the text in C, so encoding undoes `hexDecode` only on texts without a pair `00`
  (`HexImageIff`). What `base64Decode` writes fits its buffer if and only if the last
  group has more than one character or some byte is left out for padding
  (`DecodeFitsIff`).
- An increment that takes a count to its largest value makes the block immortal. Counts
  stay exact for the references the program holds if and only if such a block owns only
  sentinels (`IncrementKeepsInvIff`, `RcInc`); otherwise what it owns is never freed
  (`StuckForGood`, `ImmortalLeaks`).

## Model

| member | source | states |
|---|---|---|
| `RefCount.Runtime.RcAlloc` | src/compiled_runtime.c:259-268 | A new block with count 1 takes over the references its payload stores: the exact-count invariant holds for the caller's references minus the stored ones plus the new one. |
| `RefCount.Runtime.RcInc` | src/compiled_runtime.c:271-277 | The count grows by one, null and sentinel blocks are left alone. The invariant is kept for the caller's references if and only if the count was not one below the sentinel or the block owns only sentinels; in every case it is kept once what an immortal block owns is counted as held for ever. |
| `RefCount.Runtime.Drop` | src/compiled_runtime.c:290-462 | A caller's release ends, re-establishes the invariant, keeps every sentinel block, frees each block at most once, and afterwards a counted block is present exactly when the remaining external references reach it. |
| `RefCount.Runtime.RcDec` | src/compiled_runtime.c:290-462 | The recursion itself, in the middle of destructions: counts stay exact for the references that remain, and blocks being destroyed are not touched. |
| `RefCount.Runtime.ReleaseAll` | src/compiled_runtime.c:311-434 | The loops over a dying block's words release exactly its owned references, whatever earlier iterations freed. |
| `RefCount.Runtime.constructor` | src/compiled_runtime.c:244-268 | The empty heap satisfies the invariant. |
| `Ownership.OwnedExactly` | src/compiled_runtime.c:302-434 | For every modelled tag, each pointer is released exactly as many times as the layout, masks and flags give owning slots that hold it. |
| `Ownership.OwnedByDict` | src/runtime/hamt.c:542-554 | A HAMT node releases each pointer once for every key, value (by flag) and child slot that holds it. |
| `Ownership.NullNotOwned` | src/compiled_runtime.c:302-434 | A null word is never released. |
| `RefGraph.ReleaseFreesUnreachable` | src/compiled_runtime.c:290-462 | Any outcome of a release with exact counts frees precisely the counted nodes that the remaining references no longer reach. |
| `RefGraph.SurvivorsReachable` | src/compiled_runtime.c:290-462 | Exact counts over an acyclic graph: a counted node is still there if and only if it is reachable. |
| `RefGraph.AddKeepsInv` | src/compiled_runtime.c:259-268 | Allocation keeps exact counts and acyclicity. |
| `RefGraph.IncrementKeepsInv` | src/compiled_runtime.c:271-277 | An increment below the sentinel keeps exact counts and acyclicity. |
| `RefGraph.IncrementKeepsInvIff` | src/compiled_runtime.c:271-277 | An increment keeps exact counts if and only if it does not reach the sentinel or the node owns only sentinels. |
| `RefGraph.AnyIncrementKeepsInv` | src/compiled_runtime.c:271-277 | Every increment keeps exact counts and acyclicity once the references an immortal node gives up are counted as held. |
| `RefGraph.RunKeepsInv` | src/compiled_runtime.c:259-462 | Every reachable heap, over all runs of allocations, arena allocations, releases and increments of any count, has exact counts for the references held or left in immortal blocks, and is acyclic. |
| `RefGraph.BalancedRunLeavesNothing` | src/compiled_runtime.c:259-462 | A run that hands back every reference, and in which no node with references became immortal, leaves only sentinel nodes: nothing leaks. |
| `RefGraph.BalancedRunLeaves` | src/compiled_runtime.c:259-462 | A run that hands back every reference leaves only sentinel nodes and what immortal nodes owned. |
| `RefGraph.StuckForGood` | src/compiled_runtime.c:271-462 | What a node owned when it became immortal, and all that is reached from there, is never freed by any later run. |
| `RefGraph.ImmortalLeaks` | src/compiled_runtime.c:271-277 | A run that increments a node up to the sentinel: counts are no longer exact for what the caller holds, and the child is never freed. |
| `Pool.BlockPool.PoolAlloc` | src/compiled_runtime.c:211-231 | The block returned was not held, is 8-aligned, at least as large as asked for, of the right class, and shares no byte with any block held; the invariant of lists, blocks and holders is kept. |
| `Pool.BlockPool.PoolFree` | src/compiled_runtime.c:233-242 | A freed block leaves the held set and goes to the front of its class's list; too large ones leave the pool. |
| `Pool.BlockPool.PoolGrow` | src/compiled_runtime.c:192-209 | A slab adds its 256 blocks, last one first, in front of the list and changes no other list and no held block. |
| `Pool.BlockPool.Push` | src/compiled_runtime.c:239-241 | Linking a block through its own first word puts it in front of the list the links spell out. |
| `Pool.BlockPool.Store` | src/compiled_runtime.c:94-98 | Writes into held blocks never disturb a free list. |
| `Pool.PoolClassFor` | src/compiled_runtime.c:100-105 | The loop finds the smallest class that fits, or none. |
| `Pool.FreedToItsOwnClass` | src/compiled_runtime.c:253-263 | The class decoded from the tag word at release time, under any auxiliary bits, leads back to the class chosen at allocation. |
| `Pool.AccountTake` | src/compiled_runtime.c:211-231 | Taking the head of a list keeps every block either held or on the list of its own class, never both. |
| `Pool.AccountGive` | src/compiled_runtime.c:233-242 | Giving a block back keeps every block either held or on the list of its own class, never both. |
| `Arena.Arena.Alloc` | src/compiled_runtime.c:493-514 | The range handed out is aligned, inside one block and disjoint from all earlier ones; a block is appended exactly when none has room, and the search ends. |
| `Arena.Arena.Destroy` | src/compiled_runtime.c:516-523 | Every block of the chain is released, no two of them share a byte, and every range handed out lies inside one. |
| `Arena.Arena.constructor` | src/compiled_runtime.c:482-491 | A fresh arena hands out nothing and has the default size for a size of zero or less. |
| `Arena.AppendBlock` | src/compiled_runtime.c:500-507 | Appending an overflow block keeps all ranges handed out disjoint and inside their blocks. |
| `Arena.BumpBlock` | src/compiled_runtime.c:509-511 | Moving the cursor hands out bytes nobody has. |
| `ThreadPool.RunKeepsInv` | src/thread_pool.cpp:26-90 | Over every interleaving: mutual exclusion, first-in first-out starts, each started body is running once or finished or empty, the active counter is exact, no early exit, and enough threads awake for what waits. |
| `ThreadPool.NoLostWakeup` | src/thread_pool.cpp:32-67 | Before shutdown, while the queue is not empty, some worker is awake or some submitter is still to notify. |
| `ThreadPool.WaitAllMeansDone` | src/thread_pool.cpp:69-79 | wait_all leaves its loop if and only if everything accepted so far has finished. |
| `ThreadPool.ExitedMeansDrained` | src/thread_pool.cpp:34-36 | Once all workers have exited the queue is empty and every callable submission has finished. |
| `ThreadPool.NothingAcceptedAfterExit` | src/thread_pool.cpp:58-67 | After a worker has exited nothing is accepted any more. |
| `ThreadPool.ActiveCountsRunning` | src/thread_pool.cpp:38-54 | active_tasks equals the number of running workers if and only if nothing empty was ever started. |
| `ThreadPool.EmptyTaskBlocksWaitAll` | src/thread_pool.cpp:45-54 | An empty std::function is counted in and never out: once one has started, wait_all cannot leave. |
| `ThreadPool.EmptyTaskStarts` | src/thread_pool.cpp:32-54 | A run that starts an empty task: it is counted in while nobody runs it. |
| `ThreadPool.ShutdownCanStrand` | src/thread_pool.cpp:81-83 | A run in which stop is stored and announced between a worker's test and its sleep; the worker sleeps after every continuation without a spurious wakeup. |
| `ThreadPool.StrandsIff` | src/thread_pool.cpp:32-83 | After shutdown's notification a worker can still fall asleep in some continuation if and only if at that moment the queue is empty and a worker has read stop as false and not yet slept. |
| `ThreadPool.NothingWakes` | src/thread_pool.cpp:32-90 | Once nobody is left to notify, a worker asleep stays asleep in every continuation without a spurious wakeup. |
| `WorkStealing.RunKeepsInv` | src/thread_pool.cpp:113-156 | Over every interleaving each submission waits at its place in its queue or was taken from it, and no two workers run the same one. |
| `WorkStealing.StartedOnce` | src/thread_pool.cpp:113-146 | What a worker starts had not been taken before and stays taken. |
| `WorkStealing.OwnerPopsInOrder` | include/thread_pool.h:90-96 | The owner takes from its queue in the order of the pushes. |
| `WorkStealing.FateKept` | src/thread_pool.cpp:113-146 | What became of a submission never changes again. |
| `WorkStealing.WorkStealingQueue.Push` | include/thread_pool.h:85-88 | A push joins the back and waits. |
| `WorkStealing.WorkStealingQueue.TryPop` | include/thread_pool.h:90-96 | The owner gets what was pushed first among what waits, after all it took before; nothing earlier is left. |
| `WorkStealing.WorkStealingQueue.TrySteal` | include/thread_pool.h:98-104 | A thief gets what was pushed last among what waits. |
| `WorkStealing.TakingKeepsContiguous` | include/thread_pool.h:90-104 | Popping and stealing keep a slice of the pushes a slice. |
| `WorkStealing.PushContiguous` | include/thread_pool.h:85-88 | A push keeps it a slice if and only if the queue is empty or the push before it is still at the back. |
| `WorkStealing.ContiguousIff` | include/thread_pool.h:85-104 | In every reachable state a queue is a contiguous slice of its pushes if and only if nothing between its first and last entry was stolen. |
| `WorkStealing.StealThenPushLeavesGap` | include/thread_pool.h:85-104 | A run of the pool (push, push, steal, push on one queue) that reaches a queue that is not a contiguous slice. |
| `WorkStealing.DealtEvenly` | src/thread_pool.cpp:148-156 | Along every run, until 2^64 submissions, no queue is dealt two more than another. |
| `WorkStealing.BalancedForeverIff` | src/thread_pool.cpp:153-155 | Round robin stays balanced for every number of submissions if and only if the number of workers divides 2^64. |
| `LoweringTheorem.LoweredOutcome` | src/AcceleratorLowering.cpp:592-674 | With any fuel the lowered program gives the original's outcome, traps, or runs out of fuel, exactly as the slip on the original's way says: at a matched site, first inside the hoisted operand, then in the column, then where the operand gives no integer and the column has no elements. A program that returns a value keeps it if and only if nothing slips. |
| `LoweringTheorem.LoweredEnds` | src/AcceleratorLowering.cpp:592-674 | Fuel aside, of a program that returns a value: the lowered program returns it if and only if with enough fuel nothing slips, traps if and only if with enough fuel something slips to a trap, and otherwise never ends. |
| `LoweringFuel.EvalMore` | src/Codegen.cpp:1637-1790 | What ends with some fuel ends the same way with more, pipes, calls and kernels included: outcomes do not depend on the fuel. |
| `LoweringSafe.SafeLoweringPreserves` | src/AcceleratorLowering.cpp:592-674 | Equality outright with any fuel, whenever each operand hoisted out of a site is arithmetic that divides by no zero, over literals, given integer inputs and names that lets bind to such arithmetic. |
| `LoweringSafe.NeverSlips` | src/AcceleratorLowering.cpp:592-674 | Evaluating such a program never slips, by induction over fuel and syntax. |
| `LoweringTheorem.SiteReplaced` | src/AcceleratorLowering.cpp:592-674 | One site and its kernel, whatever its operand: a value the site returns the kernel returns if and only if the operand gives an integer or the column is not an empty array; where the site traps the kernel traps if and only if its operand ends. |
| `LoweringTheorem.SiteMeaning` | src/AcceleratorLowering.cpp:611-674 | What a matched column call computes, in terms of its column's value and its operand. |
| `LoweringTheorem.Preserved` | src/AcceleratorLowering.cpp:456-604 | The rewrite follows every expression in every environment and scope, departing exactly where the original's way slips, by induction over fuel and syntax. |
| `LoweringSites.Collect` | src/AcceleratorLowering.cpp:456-604 | The walk appends the matches of a program, a site before what lies inside it, and never the callee of another application. |
| `LoweringSites.KernelsAreSites` | src/AcceleratorLowering.cpp:592-604 | Every collected match becomes one kernel of the rewritten program, with its operand, in the same order, and there are no others. |
| `LoweringSites.InsideSite` | src/AcceleratorLowering.cpp:445-454 | The sites inside a matched site are those of its column. |
| `LoweringScope.ResolveIsScopingIff` | src/AcceleratorLowering.cpp:398-422 | The import that walking up the parents finds is the binding of lexical scope if and only if no let, parameter or whole-module import further in rebinds the name. |
| `Lowering.ResolveImportedSymbol` | src/AcceleratorLowering.cpp:398-422 | The three nested loops compute the resolution that ResolveIsScopingIff is about. |
| `Lowering.FlattenApply` | src/AcceleratorLowering.cpp:350-386 | The loop over a curried chain finds its head and all arguments in application order. |
| `LoweringProof.FlatMeaning` | src/AcceleratorLowering.cpp:350-386 | Applying the head to the flattened arguments at once means the same as the chain of applications. |
| `LoweringProof.Hoist` | src/AcceleratorLowering.cpp:79-89 | A simple scalar, pipes included: if it ends inside the lambda and outside, with whatever fuel, it gives the same, and if it ends inside it ends outside with no less fuel. |
| `LoweringProof.MapMeaning` | src/AcceleratorLowering.cpp:158-229 | A map lambda the pass accepts acts on every array as its kernel under wrapping 64-bit arithmetic, or fails as its operand does. |
| `LoweringProof.FilterMeaning` | src/AcceleratorLowering.cpp:231-267 | A filter lambda the pass accepts keeps the elements its kernel keeps, or fails as its operand does. |
| `LoweringProof.FoldMeaning` | src/AcceleratorLowering.cpp:269-294 | A fold lambda the pass accepts sums the array, when its parameters have different names. |
| `LoweringExamples.FoldSumsIff` | src/AcceleratorLowering.cpp:269-294 | A fold the pass accepts sums every array if and only if its two parameter names differ. |
| `LoweringExamples.HiddenImportIsLowered` | src/AcceleratorLowering.cpp:398-422 | A let that reuses an imported name is overlooked: a program whose result the pass changes. |
| `LoweringExamples.WildcardIsOverlooked` | src/AcceleratorLowering.cpp:404-407 | So is a whole-module import that rebinds the name. |
| `LoweringExamples.EmptyColumnTraps` | src/AcceleratorLowering.cpp:79-89 | A division by zero hoisted out of a lambda that no element reaches: the original returns the empty array, the lowered program traps. |
| `LoweringExamples.PipeNeverReturns` | src/AcceleratorLowering.cpp:79-89 | A pipe is hoisted like arithmetic: the original returns the empty array, the lowered program returns at no fuel. |
| `LoweringExamples.KnownNameIsSafe` | src/AcceleratorLowering.cpp:158-229 | A map that adds a let-bound number is lowered and needs no further condition. |
| `LoweringExamples.MapIsStdIntArray` | src/AcceleratorLowering.cpp:50-58 | The mangled name of map in Std\IntArray is the symbol the matcher looks for. |
| `LoweringProof.WrapNegate` | src/AcceleratorLowering.cpp:197-210 | x - k equals x + (-k) after wrapping, for every 64-bit k. |
| `Kernels.ReduceSum` | src/runtime/gpu_cpu.c:227-260 | The two-lane sum equals the left-to-right wrapping fold. |
| `Kernels.FilterColumn` | src/runtime/gpu_cpu.c:177-225 | The two-pass filter fills an array of exactly the right size with the kept elements in order. |
| `Kernels.SumFromWraps` | src/runtime/gpu_cpu.c:227-260 | Wrapping at every addition is wrapping once at the end. |
| `Hash.HashIntBijective` | src/compiled_runtime.c:3301-3307 | Hash_Int is a bijection on 64-bit words, with its inverse given. |
| `Hash.HashIntInjective` | src/compiled_runtime.c:3301-3307 | Distinct keys never collide. |
| `Hash.HashString` | src/compiled_runtime.c:3309-3315 | The loop hashes exactly the bytes before the terminator. |
| `Hash.StepInverts` | src/compiled_runtime.c:3312-3313 | An FNV-1a step is a bijection of the state for each byte. |
| `Hash.StepSeparates` | src/compiled_runtime.c:3312-3313 | An FNV-1a step is injective in the byte for each state. |
| `Hash.OneByteChangesHash` | src/compiled_runtime.c:3309-3315 | Strings of one length that differ in exactly one byte have different hashes. |
| `Hash.FragmentsSeparate` | src/runtime/hamt.c:49-54 | Any two keys differ in one of the thirteen five-bit fragments of their hashes. |
| `Hamt.Lookup` | src/runtime/hamt.c:159-185 | The loop down the trie returns the value found, or the default. |
| `Hamt.Contains` | src/runtime/hamt.c:187-191 | Membership is reported if and only if the key is present with a value other than the sentinel word. |
| `HamtProof.PutHolds` | src/runtime/hamt.c:371-452 | Insertion adds its entry and changes no other reading; the version it started from reads as before, or shows the insertion too when one of its nodes was written. |
| `HamtProof.SourceKeptIff` | src/runtime/hamt.c:371-452 | The version an insertion started from is unchanged if and only if none of its nodes was written or the entry was there already. |
| `HamtProof.MergeTwoHolds` | src/runtime/hamt.c:294-347 | Splitting a slot yields a trie that holds exactly the two entries and never reaches the collision case. |
| `HamtProof.WithDataEdits` | src/runtime/hamt.c:195-225 | Inserting an entry at its compressed position changes that slot and no other. |
| `HamtProof.PromotedEdits` | src/runtime/hamt.c:256-292 | Turning an entry into a child moves it between the two bitmaps and changes no other slot. |
| `HamtContents.PutSized` | src/runtime/hamt.c:371-456 | The size field stays the number of entries, and grows by one exactly when the key was absent. |
| `HamtContents.SourceSized` | src/runtime/hamt.c:371-456 | The version an insertion started from keeps a correct size field if and only if the insertion did not write a child below its root with an absent key; its traversal grows by exactly that entry. |
| `HamtContents.CollectKeys` | src/runtime/hamt.c:518-536 | Collecting keys fills the buffer with the keys of the traversal, in order and within its bounds. |
| `HamtTheorem.TraverseIsGet` | src/runtime/hamt.c:464-472 | The traversal lists exactly the entries lookup finds. |
| `HamtTheorem.TraverseDistinct` | src/runtime/hamt.c:464-472 | It lists each key once. |
| `HamtTheorem.PlacedHeight` | src/compiled_runtime.c:1373-1375 | A trie is at most thirteen levels high. |
| `HamtTheorem.RunFindsLast` | src/runtime/hamt.c:353-452 | After any run of insertions, each into the version before it with any number of owners, and that version let go or not by an only owner, lookup finds the last value written under each key and nothing else; no other version is released in between. |
| `HamtTheorem.RunTraversal` | src/runtime/hamt.c:353-472 | After any such run the traversal, the size field and the height agree with what was written. |
| `HamtTheorem.SharedVersionChanges` | src/runtime/hamt.c:418-452 | Two insertions, a second owner of the root, and a third insertion: the version the other owner holds changes. |
| `HamtOwners.OwnersExactIff` | src/runtime/hamt.c:411-445 | After an insertion into a node with several owners each child is counted once for every node that owns it, if and only if the child on the key's way is not written in place. |
| `HamtOwners.SameNode` | src/runtime/hamt.c:371-452 | Result and source are the same value exactly when the insertion wrote its node in place; otherwise the result is a new node with one owner. |
| `HamtOwners.SharedChildUndercounted` | src/runtime/hamt.c:418-445 | On the run of SharedVersionChanges a child is held by two nodes and counted once. |
| `HamtIterator.Iterator.Advance` | src/compiled_runtime.c:1402-1425 | Each call yields the next entry of the recursive traversal, and none for ever after the last; the stack guard never drops a child. |
| `HamtIterator.Iterator.constructor` | src/compiled_runtime.c:1468-1480 | A new iterator has the whole traversal before it. |
| `HamtIterator.Iterator.Push` | src/compiled_runtime.c:1392-1400 | A node is pushed unless the stack is full. |
| `HamtIterator.Iterator.YieldTop` | src/compiled_runtime.c:1407-1412 | The entry passed is the first of what remained, and the rest still remains. |
| `HamtIterator.Iterator.Descend` | src/compiled_runtime.c:1414-1420 | Going down to a child changes nothing of what remains and lowers the work. |
| `HamtIterator.ForEach` | src/compiled_runtime.c:1504-1530 | The callback is called on the entries of the traversal in turn. |
| `HamtIterator.DescendKeeps` | src/compiled_runtime.c:1414-1420 | Descending splits what is left without changing it and lowers the work that remains. |
| `EditDistance.EditDistance` | src/Codegen.cpp:539-553 | The single row, overwritten in place, computes the two-dimensional recursion. |
| `EditDistance.NextRow` | src/Codegen.cpp:543-551 | Overwriting the row left to right turns one row of the recursion into the next. |
| `EditDistance.LevIsShortestScript` | src/Codegen.cpp:539-553 | The distance is the length of a script of single-character edits, and no script is shorter. |
| `EditDistance.Metric` | src/Codegen.cpp:539-553 | It is symmetric, zero exactly on equal strings, and obeys the triangle inequality. |
| `EditDistance.SuggestSimilar` | src/Codegen.cpp:555-573 | The suggestion is the first of the nearest names, or empty when none is within three edits. |
| `Fixpoints.HeapAdts` | src/Codegen.cpp:636-664 | The loops end with exactly the ADTs that reach a function field, and the set is closed under mention. |
| `Fixpoints.LeastClosed` | src/Codegen.cpp:636-664 | Every closed set contains it. |
| `Fixpoints.SameDeclarationsSameSet` | src/Codegen.cpp:636-664 | It does not depend on the order of the declarations. |
| `Fixpoints.Pass` | src/Codegen.cpp:648-663 | One pass adds only justified names and reports a change exactly when it made one. |
| `Fixpoints.PrivateGenfns` | src/Codegen.cpp:952-990 | The worklist ends with exactly the private functions reached from exported ones through sourced private ones. |
| `Fixpoints.Visit` | src/Codegen.cpp:963-989 | One iteration keeps the worklist's invariant and makes progress. |
| `Ackermann.AckIter` | bench/reference/ackermann.js:1-18 | The explicit stack terminates with the value of the recursion, after a number of rounds given by a recursion of its own. |
| `Ackermann.PushOne` | bench/reference/ackermann.py:3-6 | Pushing and popping keep what the stack still has to deliver. |
| `Utf8.DecodesEncodingIff` | src/Lexer.cpp:106-189 | The decoder takes an escape's encoding back to its value, wherever it stands, if and only if the value has at most 21 bits. |
| `Utf8.ReadsEncoded` | src/Lexer.cpp:161-189 | Repeated reading takes the encodings of any code points back to them, each step consuming exactly the bytes of one. |
| `Utf8.ReadsShortestIff` | src/Lexer.cpp:161-189 | A character read advances by its whole sequence if and only if the sequence is the shortest; an overlong one advances by less. |
| `Lexer.Lexer.PeekChar` | src/Lexer.cpp:106-159 | The loop over continuation bytes decodes the character at the position, or finds it invalid. |
| `Lexer.Lexer.AdvanceChar` | src/Lexer.cpp:161-189 | Reading moves past the character by the size of its value, also past the end of the source. |
| `Lexer.Lexer.SkipChar` | src/Lexer.cpp:191-200 | Skipping always moves on inside the source, by one byte over an invalid sequence. |
| `Lexer.Lexer.SkipWhitespaceAndComments` | src/Lexer.cpp:231-285 | The loop stops at the first position that is neither blank nor comment, newlines counting as the brackets say. |
| `LexerSyntax.BlockStops` | src/Lexer.cpp:255-279 | A block comment stops after the mark that closes it, at an invalid sequence, or at the end: an unterminated one is no error. |
| `LexerSyntax.GapSkips` | src/Lexer.cpp:231-285 | Blanks and comments decompose in one way only. |
| `Lexer.Lexer.ScanIdentifier` | src/Lexer.cpp:288-307 | A word runs as far as it can and is looked up among the keywords. |
| `Lexer.Lexer.ScanNumber` | src/Lexer.cpp:310-433 | The loops read the digits, fraction, exponent and suffix that NumberFrom describes; the scan fails at an invalid byte or when the library refuses the text. |
| `LexerRuns.NumberOutline` | src/Lexer.cpp:310-433 | A number's span starts with a digit and stays inside the source; an integer has only digits and underscores, a byte ends with its suffix. |
| `Lexer.Lexer.ParseEscapeSequence` | src/Lexer.cpp:436-485 | An escape succeeds, fails, or runs past the end of the source, exactly as its text says. |
| `Lexer.Lexer.ScanStringBody` | src/Lexer.cpp:493-558 | The loop stops where SegmentFrom says, with the interpolations it opens or closes. |
| `LexerRuns.BodyEnds` | src/Lexer.cpp:493-558 | A string segment ends after a quote or an opening brace; its scan passes the end of the source exactly when an escape is cut off there. |
| `Lexer.Lexer.ScanCharacter` | src/Lexer.cpp:561-595 | The scan stops where CharacterFrom says. |
| `LexerRuns.CharacterFound` | src/Lexer.cpp:561-595 | A character literal is delimited by quotes; the scan passes the end exactly when the literal is cut off there. |
| `Lexer.Lexer.OperatorKind` | src/Lexer.cpp:636-707 | The nested look-ahead finds the token and end that OperatorFrom gives. |
| `Lexer.Lexer.ScanMark` | src/Lexer.cpp:832-934 | The token, its end and the bracket depth are those of MarkFrom: these characters always give a token. |
| `LexerRuns.MarkSpelled` | src/Lexer.cpp:636-934 | For every bracket, separator and operator character, the token found has its spelling in the source, and no longer one starts there. |
| `Lexer.Lexer.FindStart` | src/Lexer.cpp:742-819 | The scan starts where StartOf says, with or without a newline token. |
| `Lexer.Lexer.NextToken` | src/Lexer.cpp:742-957 | The scan's result from any state, and the whole state it leaves: position, brackets, blocks, interpolations and last token. |
| `LexerRuns.StepLexed` | src/Lexer.cpp:742-957 | From any state, a token's span follows the blanks and comments before it and is spelled and delimited as its type says; the scan passes the end of the source if and only if it starts at a literal that is cut off. |
| `Lexer.Lexer.PeekToken` | src/Lexer.cpp:960-982 | Peeking finds what the next scan finds and restores all that a later scan depends on. |
| `Lexer.Tokenize` | src/Lexer.cpp:984-1009 | Tokenizing ends on every byte string. It throws if and only if some scan of the run starts at a literal that is cut off, returns tokens if and only if every scan succeeds, and the tokens are then the scans' results, a chain that covers the source. |
| `LexerRuns.LastQuoteIsCut` | src/Lexer.cpp:561-595 | A source whose first token is a quote at its very end makes the first scan pass the end. |
| `Lexer.TokenizeQuote` | src/Lexer.cpp:984-1009 | A lone quote: tokenize throws. |
| `LexerRuns.UnclosedComment` | src/Lexer.cpp:255-279 | A source that is one comment without an end has no token but its end, and no error. |
| `Lexer.TokenizeComment` | src/Lexer.cpp:984-1009 | Tokenizing the two characters that open a comment gives the end token alone. |
| `LexerSpec.ChainCovers` | src/Lexer.cpp:984-1009 | In such a chain spans are ordered, disjoint and inside the source, with only skippable text between them. |
| `LexerSpec.EveryByte` | src/Lexer.cpp:984-1009 | Every byte lies in one token's span, or among blanks and comments, or is the brace that closes an interpolation. |
| `LexerSpec.StartOfGap` | src/Lexer.cpp:742-819 | What is skipped before a token is blanks and comments only. |
| `LexerSpec.StrandedNewlineIff` | src/Lexer.cpp:744-819 | A scan begins at a newline, which is an error, if and only if no bracket is open, the newlines before it give no token, and a block comment stands between them and it. |
| `LexerSpec.StrandedExample` | src/Lexer.cpp:744-819 | Such a source. |
| `ModuleSource.IsModuleSource` | include/ModuleSource.h:13-37 | The loops look for the word module after blanks and line comments. |
| `ModuleSource.Agrees` | include/ModuleSource.h:9-37 | Without a lone carriage return in a comment before the first word or a block comment at it, the scanners agree if and only if is_module_source says no, or the text before the word is whole shortest characters and a character that ends it follows. |
| `ModuleSource.KeywordIff` | include/ModuleSource.h:13-37 | On such a source the first token is the keyword if and only if is_module_source says so, the text before the word is whole, and the word ends there. |
| `ModuleSource.KeywordWhere` | src/Lexer.cpp:288-307 | On any source the first token is the keyword if and only if the word module stands, and ends, where the first scan starts. |
| `ModuleSource.FirstTokens` | include/ModuleSource.h:9-37 | The two scanners run side by side, and what their answers mean. |
| `ModuleSource.KeywordsAreATable` | src/Lexer.cpp:9-45 | The keyword table spells words, and module once. |
| `ModuleSource.CarriageReturnDiffers` | include/ModuleSource.h:24-28 | A carriage return in a comment makes the scanners differ. |
| `ModuleSource.BlockCommentDiffers` | include/ModuleSource.h:13-37 | A block comment in front makes the scanners differ. |
| `ModuleSource.LetterDiffers` | include/ModuleSource.h:35-36 | A letter beyond ASCII right after the word makes the scanners differ. |
| `ModuleSource.InvalidByteDiffers` | include/ModuleSource.h:24-28 | An invalid byte in a comment before the word makes the scanners differ. |
| `Encoding.HexCharsIs` | src/compiled_runtime.c:1946 | The digits by position. |
| `Encoding.HexEncode` | src/compiled_runtime.c:1948-1957 | The loop writes two digits for each byte. |
| `Encoding.HexDecode` | src/compiled_runtime.c:1966-1974 | The loop reads pairs of digits into a buffer, where the text ends at the first NUL. |
| `Encoding.HexRoundTrip` | src/compiled_runtime.c:1948-1974 | Decoding undoes encoding on every text, in twice its length. |
| `Encoding.HexImageIff` | src/compiled_runtime.c:1948-1974 | Encoding undoes decoding if and only if the text has even length, lower-case digits only and no pair that stands for NUL. |
| `Encoding.ReadWholeIff` | src/compiled_runtime.c:1948-1974 | A decoded buffer is read as a whole if and only if no byte before its end is NUL. |
| `Encoding.UrlEncode` | src/compiled_runtime.c:1976-1993 | The loop escapes all but the unreserved characters. |
| `Encoding.UrlDecode` | src/compiled_runtime.c:1995-2011 | The loop reads triplets, plus signs and plain characters into a buffer, where the text ends at the first NUL. |
| `Encoding.UrlRoundTrip` | src/compiled_runtime.c:1976-2011 | Decoding undoes encoding on every text. |
| `Encoding.UrlWholeIff` | src/compiled_runtime.c:1995-2011 | All that was decoded is read if and only if no triplet stands for NUL. |
| `Encoding.UrlIsSafe` | src/compiled_runtime.c:1976-1993 | Encoded text has only unreserved characters and percent signs. |
| `Base64.Base64Encode` | src/compiled_runtime.c:1898-1915 | The loop encodes three bytes at a time through a 24-bit word. |
| `Base64.EncodeIsBase64` | src/compiled_runtime.c:1898-1915 | The result is the input's bits in groups of six, in the alphabet, with padding: section 4 of RFC 4648, for every length. |
| `Base64.Base64Decode` | src/compiled_runtime.c:1917-1944 | The loop decodes four characters at a time through a 32-bit word into a buffer, where the text ends at the first NUL. |
| `Base64.RoundTripIff` | src/compiled_runtime.c:1898-1944 | Decoding undoes encoding if and only if the bytes beyond the last whole group of three are all ones. |
| `Base64.DecodeEncode` | src/compiled_runtime.c:1898-1944 | What comes back from an encoded text: its whole groups, then bytes of all ones. |
| `Base64.UnquadQuad` | src/compiled_runtime.c:1917-1944 | Three bytes come back; a shorter last group comes back as bytes of all ones. |
| `Base64.DecodeFitsIff` | src/compiled_runtime.c:1917-1944 | What is decoded fits the buffer allocated for it, with its terminator, if and only if the last group has more than one character or some byte is left out for padding. |
| `Base64.TableIs` | src/compiled_runtime.c:1896 | The alphabet by position. |

## Left out

- RefCount.Runtime.RcDec: requires an ownership graph without cycles; the source never frees a cycle either, and the property is about what it does free.
- Hamt.PutImpl: works on values that carry their owner counts, and tells what becomes of the one version the insertion started from.
- HamtTheorem.RunFindsLast: releases no version but the one just replaced; where a child is counted once and held twice (HamtOwners.OwnersExactIff), releasing a further version would free what the latest one uses.
- HamtIterator.Iterator.Advance: assumes a trie of height at most fourteen, which HamtTheorem.PlacedHeight gives for every trie that insertion builds.
- LoweringTheorem.LoweredOutcome: speaks of sites whose name is the import the pass takes it for and whose fold has two parameter names. The others are calls of something else (ResolveIsScopingIff) and folds that do not sum (FoldSumsIff).
- ModuleSource.Agrees: leaves aside sources with a lone carriage return in a comment before the first word or a block comment at it, on which ModuleSource.KeywordWhere says what the lexer finds.
- Reference counting: the root and chunk objects of the tree-shaped sequences, processes, regular expressions and channels; a payload read outside its block, which the layouts exclude, gives zero.
- Atomicity of the reference counts: each operation is one step; pool and counts are used from one thread.
- Arena.Arena.Destroy: the chain is a sequence of blocks, so following the next pointers is not modelled.
- Pool and arena: statistics and tracing.
- ThreadPool: one caller of `wait_all`; that `shutdown` ends, which it does not always do; exceptions of a running function, which count as finishing.
- WorkStealing: pushes to the global queue, which no code of the source makes; functions left in the queues at shutdown.
- Lowering: floating-point kernels and GPU back ends; of the binary operators, the power, shift, comparison (other than < and >), bitwise, logical, list and membership ones, which are hoisted like arithmetic; which side of a pipe is evaluated first; calls of other modules' functions, which stay symbolic; patterns other than names, cases, generators and the other syntax through which the walk merely descends; the query for column calls that cannot be lowered, which only negates the match.
- Hamt: owner counts and flags of keys and values, deletion (the source has none), printing; building the key list as a sequence object.
- Hash of floating-point numbers and other trait instances.
- Lexer: literal values, lines and columns; whether a number's text converts is a parameter, since it is the C++ library's decision. Surrogate code points are read like others, as the source does, although section 3 of RFC 3629 excludes them.
- Percent triplets are written with lower-case digits, as the source does, although section 2.1 of RFC 3986 asks for upper-case ones.
- Encoding: sizes of the output buffers other than that of base64Decode; HTML escapes.
- Fixpoints: collecting the free names of a body; which name of an unordered set comes first.
- EditDistance: the order in which the four tables are walked, which is the order of the names given.
- Sequences, closures, effects, exceptions, channels, the rest of the standard library, code generation, linking, diagnostics and tools: they would add size, not depth.
