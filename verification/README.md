# TigonSQL: a verified model of the stream engine's core

TigonSQL compiles stream queries into plans of operators that process tuples one at a time. This project models the
parts of it that keep state between tuples, and the code generator and hash functions they rest on, and proves what
they promise over all inputs and all runs:

- **The hash table** (`Table`, `HashTable`): overflow chains, a doubly linked list threading the non-empty buckets,
  iterators. `Table` is the table as a value; the classes of `HashTable` hold the pointers and are proved to refine it.
  The operators below hold tables as values of `Table`. `RunningAgg` is the flush that erases groups behind an
  iterator it has already advanced; `RunningRuns` takes that operator through whole runs.
- **The windowed equi-join** (`Join*`): two queues, two tables and a current timestamp compute, incrementally, the
  relational inner or outer join of every timestamp. The aligned start that the operator needs is stated and proved to
  be exactly what it needs; a misaligned start is shown to stop the operator for good.
- **Group-by** (`Grouping`, `OopGroupBy`/`Oop*`, `GroupBy*`): the out-of-order operator with its deque of window
  tables and the double-buffered operator. `Grouping` says what a grouping is; both operators are proved to output it,
  the second one exactly when groups do not come back after another epoch.
- **Sampling** (`Clean*`): groups, supergroups, and the list and count kept for each supergroup through admission,
  cleaning and window changes; over whole runs every supergroup is proved to behave as a reference on a plain list does
  alone, up to a count that one supergroup leaves over to another.
- **Merge** (`Merge*`): the order-preserving two-way merge with a single queue.
- **The NIC compiler** (`Nic*`): scalar expressions and predicates compiled to two-address code with copy variables,
  shared no-copy variables, numbered constants and forward jumps; correctness of single expressions, of whole programs
  in both modes, the exact condition on column loads, and exactly which predicates the safety test accepts.
- **Plan executor** (`Plan`, `PlanSort`, `Routing`, `TreeExecutor`): breadth-first numbering, topological sort, and
  routing of packets and flushes through an operator tree.
- **Hashing** (`Hash61`, `StringHash`, `XorHash`): arithmetic modulo 2^61 - 1 on 64-bit words with every wrap-around written out.

Each operator appears twice: as transition functions on a state value, about which the theorems over whole runs are
proved, and as a class with the fields and loops of the source whose methods are proved to compute those transitions.
The sampling operator's steps are methods on its tables, proved against the bookkeeping they must keep.

Key extraction, timestamps, predicates, aggregates and output creation come from generated functors; they are
parameters (a `Query` or `Functor` record). Where the source can fail (a key or an output tuple that cannot be made, a
tuple that cannot be loaded), the parameter returns an `Option` and the failure is part of the model. Machine integers
are unbounded except where the width matters: the byte counters wrap at 2^32 and all hash arithmetic wraps at 2^64.

Where comment and code disagree, the model follows the code. The comment on `MultAddPrime` promises a result below
twice the prime; `Hash61.MultAddExceeds` says exactly for which operands it is not, and the final reduction is proved exact
all the same. A NIC filter program lets through whatever falls off the end of its last LFTA; `NicSends.FilterProgramErrors`
says exactly which packets that concerns. The operator tables are scanned entry by entry, so a function name is also
accepted as an operator; `NicTables.BinaryTableExact` says which one then gets a meaning. Sampling: after a flush, a supergroup that is new to both windows is offered to the predicate with the count
left over from the last supergroup cleaned, as in the code.

## Model

| member | source | states |
|---|---|---|
| `Table.InsertItems` | tigon-sql/include/hfta/hash_table.h:139-171 | an insertion adds the new item at one place of the iteration order, keeps all others in order, and keeps the table valid |
| `Table.EraseItems` | tigon-sql/include/hfta/hash_table.h:207-247 | erasing a stored key removes exactly one item, with that key, and keeps the others in order; an emptied bucket leaves the used list |
| `Table.PutItems` | tigon-sql/include/hfta/groupby_operator.h:82-86 | updating an aggregate through its pointer changes one item in place and nothing else |
| `Table.HasIffStored` | tigon-sql/include/hfta/hash_table.h:182-205 | find succeeds exactly on the keys that iteration visits, and what it returns is a stored item |
| `Table.ItemBucket` | tigon-sql/include/hfta/hash_table.h:139-171 | an item is iterated if and only if it sits in the chain its key hashes to |
| `Table.ValuesInChain` | tigon-sql/include/hfta/hash_table.h:76-84 | the equal-key items of a key's chain are all the equal-key items of the table, in order |
| `TableLaws.HasInsert` | tigon-sql/include/hfta/hash_table.h:139-171 | what find sees for every key after an insertion |
| `TableLaws.HasPut` | tigon-sql/include/hfta/hash_table.h:182-205 | what find sees for every key after an update in place |
| `TableLaws.HasErase` | tigon-sql/include/hfta/hash_table.h:207-247 | with unique keys, what find sees for every key after an erasure |
| `HashTables.HashTable.constructor` | tigon-sql/include/hfta/hash_table.h:122-137 | an empty table with a power-of-two bucket count of at least the requested size |
| `HashTables.HashTable.Insert` | tigon-sql/include/hfta/hash_table.h:139-171 | the pointer structure stays valid (used list exact and doubly linked, items in their buckets, size exact) and its value is the insertion into the table value |
| `HashTables.HashTable.Find` | tigon-sql/include/hfta/hash_table.h:182-205 | returns the first equal-key item of the key's chain, or null exactly when the key is not stored |
| `HashTables.HashTable.Erase` | tigon-sql/include/hfta/hash_table.h:207-247 | unlinks one equal-key item and, if its bucket empties, the bucket; size drops by one exactly when the key was stored |
| `HashTables.HashTable.Clear` | tigon-sql/include/hfta/hash_table.h:308-330 | the table is empty, valid and has its old buckets; the peak size is kept |
| `HashTables.HashTable.Rehash` | tigon-sql/include/hfta/hash_table.h:332-351 | refuses a non-empty table; otherwise doubles the buckets exactly when the peak load exceeded the load factor, stays a power of two, and resets the peak |
| `HashTables.HashTable.Begin` | tigon-sql/include/hfta/hash_table.h:293-299 | an iterator at the first item of the iteration, or at its end |
| `HashTables.HashTable.Advance` | tigon-sql/include/hfta/hash_table.h:62-74 | ++ moves from the n-th item of the iteration to the (n+1)-th, across buckets |
| `HashTables.HashTable.Enumerate` | tigon-sql/include/hfta/hash_table.h:62-74 | begin and ++ to the end terminate and visit every item exactly once in iteration order |
| `HashTables.HashTable.FindAll` | tigon-sql/include/hfta/hash_table.h:76-84 | find followed by next, filtered by key equality, visits exactly the equal-key items |
| `RunningAgg.EraseBehind` | tigon-sql/include/hfta/running_gb_operator.h:106-112 | advancing the iterator and then erasing the item it left removes exactly that item and leaves the iterator at the next one |
| `RunningAgg.Flush` | tigon-sql/include/hfta/running_gb_operator.h:95-120 | a tuple is output for every group whose output can be created, once, in iteration order; the table keeps exactly the groups that the cleaning predicate does not evict, and the aggregates behind their pointers are restarted |
| `RunningRuns.FlushLookup` | tigon-sql/include/hfta/running_gb_operator.h:95-120 | a flush evicts exactly the groups that the cleaning predicate names and restarts the aggregate of every other one, once |
| `RunningRuns.FlushIsRestart` | tigon-sql/include/hfta/running_gb_operator.h:95-120 | the flush of the table value leaves the groups that are not evicted, restarted, in their old order: the same list that the flush through pointers leaves |
| `RunningRuns.RunIsAlone` | tigon-sql/include/hfta/running_gb_operator.h:42-120 | in every run the table holds for each group exactly the aggregate that the group's own tuples and the flushes give it, independently of all other groups |
| `RunningRuns.FlushOutputsAll` | tigon-sql/include/hfta/running_gb_operator.h:42-120 | each flush takes every live group exactly once, with that aggregate, and nothing else, and outputs one tuple per group whose output can be created |
| `RunningRuns.RunOutIff` | tigon-sql/include/hfta/running_gb_operator.h:42-120 | a run outputs a tuple if and only if at one of its flushes a live group, with the aggregate it has alone, makes that tuple |
| `RunningRuns.QuietWithoutFlush` | tigon-sql/include/hfta/running_gb_operator.h:70-73 | an input without a flush outputs and evicts nothing |
| `JoinProofs.ProbeTable` | tigon-sql/include/hfta/join_eq_hash_operator.h:150-168 | probing the one bucket of a key gives the same outputs and touches as probing every stored tuple |
| `JoinProofs.ProbeMatches` | tigon-sql/include/hfta/join_eq_hash_operator.h:150-168 | the outputs of a probe are exactly the relational matches of the tuple |
| `JoinProofs.DrainInv` | tigon-sql/include/hfta/join_eq_hash_operator.h:129-171 | consuming a queue at the current timestamp keeps the join invariant: consumed tuples stored, touched exactly when they joined, all pairs output |
| `JoinRuns.AdvanceInv` | tigon-sql/include/hfta/join_eq_hash_operator.h:318-332 | closing a window outputs the padded tuples it owes and moves to the next timestamp with the invariant kept |
| `JoinRuns.StepInv` | tigon-sql/include/hfta/join_eq_hash_operator.h:233-345 | every accepted or rejected tuple keeps the join invariant, given an aligned start |
| `JoinTheorems.RunInv` | tigon-sql/include/hfta/join_eq_hash_operator.h:233-345 | every run from an aligned start keeps the join invariant |
| `JoinTheorems.RunIsRelationalJoin` | tigon-sql/include/hfta/join_eq_hash_operator.h:129-345 | once curr_ts has passed t, the outputs emitted for t are, as a multiset, the inner or outer relational join of the accepted tuples of t: each equal-key pair once, each unmatched tuple of an outer side padded once |
| `JoinTheorems.RunIsInnerJoin` | tigon-sql/include/hfta/join_eq_hash_operator.h:129-171 | for an inner join these are exactly the equal-key pairs |
| `JoinProgress.PassesExactlyWhen` | tigon-sql/include/hfta/join_eq_hash_operator.h:317-332 | in an aligned run with both channels past t, curr_ts passes t if and only if the admitted inputs that follow outnumber the distinct timestamps up to t still queued: each admitted input settles exactly one |
| `JoinProgress.JoinCompleteAfter` | tigon-sql/include/hfta/join_eq_hash_operator.h:233-345 | after that many inputs the whole join of the tuples of t has been emitted |
| `JoinTheorems.NothingEarly` | tigon-sql/include/hfta/join_eq_hash_operator.h:233-345 | nothing is output for a timestamp later than the current one, nor before both channels have delivered |
| `JoinTheorems.RunKeepsOrder` | tigon-sql/include/hfta/join_eq_hash_operator.h:91-127 | queues stay sorted and not behind curr_ts, curr_ts is not beyond either channel, and the tables hold tuples of curr_ts only |
| `JoinTheorems.CurrTsIncreases` | tigon-sql/include/hfta/join_eq_hash_operator.h:317-332 | curr_ts never moves back and moves strictly forward exactly when both channels have moved past it |
| `JoinTheorems.RunMem` | tigon-sql/include/hfta/join_eq_hash_operator.h:75-88 | queue_mem is the number of queued bytes modulo 2^32, in every run |
| `JoinTheorems.RunMaxTs` | tigon-sql/include/hfta/join_eq_hash_operator.h:270-300 | the stored channel maxima are the greatest timestamps received |
| `JoinTheorems.MisalignedForever` | tigon-sql/include/hfta/join_eq_hash_operator.h:253-268 | after a misaligned start nothing is ever output and curr_ts never moves, whatever arrives |
| `JoinTheorems.AlignmentIsExact` | tigon-sql/include/hfta/join_eq_hash_operator.h:253-268 | the queues stay ahead of curr_ts if and only if the start was aligned |
| `JoinTheorems.LateStartLosesOutput` | tigon-sql/include/hfta/join_eq_hash_operator.h:253-268 | a concrete misaligned input whose owed output is never emitted |
| `JoinOrder.RunInOrder` | tigon-sql/include/hfta/join_eq_hash_operator.h:317-332 | in every run, aligned or not, the outputs leave in the order of their windows, and nothing is output of a window later than the current one |
| `JoinOrder.StepWithin` | tigon-sql/include/hfta/join_eq_hash_operator.h:317-332 | what one input outputs for the window it closes precedes what it outputs for the window that is current afterwards |
| `JoinOrder.InputEmits` | tigon-sql/include/hfta/join_eq_hash_operator.h:129-212 | the exact output of each input of an aligned run, in order: the padding that the closed window owes, left side first, then, for each tuple consumed, left channel first and in arrival order, exactly the matches of that tuple with the tuples of the window consumed before it |
| `JoinOperators.JoinOperator.ProbeOther` | tigon-sql/include/hfta/join_eq_hash_operator.h:150-168 | the probe loop emits the matches of the chain in order and touches exactly the keys that joined |
| `JoinOperators.JoinOperator.JoinFront` | tigon-sql/include/hfta/join_eq_hash_operator.h:132-169 | one round of the join loop is one step of the model |
| `JoinOperators.JoinOperator.DrainQueue` | tigon-sql/include/hfta/join_eq_hash_operator.h:129-171 | the inner loop consumes one queue as the model does |
| `JoinOperators.JoinOperator.ProcessJoin` | tigon-sql/include/hfta/join_eq_hash_operator.h:129-171 | both queues are consumed as the model does |
| `JoinOperators.JoinOperator.ProcessOuterJoin` | tigon-sql/include/hfta/join_eq_hash_operator.h:173-212 | padded outputs of both outer sides in iteration order; both tables emptied |
| `JoinOperators.JoinOperator.AcceptTuple` | tigon-sql/include/hfta/join_eq_hash_operator.h:233-345 | accept_tuple computes the model's step, including rejection, start, and window close |
| `Grouping.GroupingUpdate` | tigon-sql/include/hfta/groupby_operator.h:82-86 | updating a stored group accounts for one more of its tuples: the grouping of the input so far becomes that of the longer input |
| `Grouping.GroupingInsert` | tigon-sql/include/hfta/groupby_operator.h:90-98 | storing a group that is nowhere yet, at any place, accounts for its first tuple |
| `OopProofs.PartialFlushMoves` | tigon-sql/include/hfta/groupby_operator_oop.h:217-270 | emitting one group moves it from what is left to the output and changes nothing else |
| `OopProofs.FlushWindowsMoves` | tigon-sql/include/hfta/groupby_operator_oop.h:322-370 | flushing whole windows moves them to the output in order, the first one from flush_pos on |
| `OopProofs.ExtendKeeps` | tigon-sql/include/hfta/groupby_operator_oop.h:161-183 | extending the deque at the start, the front or the back keeps table k on window min_wid + k and adds no groups |
| `OopProofs.PunctKeeps` | tigon-sql/include/hfta/groupby_operator_oop.h:99-154 | a punctuation, with the flush of what the previous one left, keeps the invariant, whatever the width and sign of the temporal type make of the index test |
| `OopProofs.TupleKeeps` | tigon-sql/include/hfta/groupby_operator_oop.h:158-215 | a tuple is accounted for in its window's table |
| `OopProofs.TablesFollowWindows` | tigon-sql/include/hfta/groupby_operator_oop.h:158-184 | after the first tuple there are max_wid - min_wid + 1 tables and table k holds window min_wid + k only |
| `OopProofs.RunConserves` | tigon-sql/include/hfta/groupby_operator_oop.h:85-370 | at every point of every timely run, output and unflushed groups are together the groups of the input, each once with its full fold; every output group belongs to a window that a punctuation has closed |
| `OopProofs.EveryGroupOnceInOrder` | tigon-sql/include/hfta/groupby_operator_oop.h:274-319 | a run followed by flush outputs every group exactly once, complete, in non-decreasing window order, and leaves no table |
| `OopProgress.EndedGroupsLeave` | tigon-sql/include/hfta/groupby_operator_oop.h:85-154 | from the inputs alone: after two punctuations, every group of a window up to the first one (for a 32-bit unsigned temporal type, of every window that the second one ends) has been output once as many inputs have followed as there were tuples and windows |
| `OopProgress.NextGroupLeaves` | tigon-sql/include/hfta/groupby_operator_oop.h:217-270 | while a flush is under way every input outputs the next group left, unless the window being flushed is empty and is dropped |
| `OopProgress.FlushEnds` | tigon-sql/include/hfta/groupby_operator_oop.h:85-270 | a flush under way takes exactly one input per group and one per empty window: after that many inputs every group of an ended window is out |
| `OopProgress.NextPunctDrains` | tigon-sql/include/hfta/groupby_operator_oop.h:125-131 | a later punctuation during a flush outputs the rest and everything that it ends itself |
| `OopProgress.PunctStarts` | tigon-sql/include/hfta/groupby_operator_oop.h:107-142 | a punctuation that ends stored windows when no flush is under way starts one, unless and only unless the punctuation before it lies behind all stored windows and the temporal type is not 32-bit unsigned |
| `OopProgress.PunctuationIgnored` | tigon-sql/include/hfta/groupby_operator_oop.h:109-117 | in that case a group of an ended window stays however many tuples follow |
| `OopOperators.OopOperator.PartialFlush` | tigon-sql/include/hfta/groupby_operator_oop.h:217-270 | partial_flush computes the model's transition and outputs |
| `OopOperators.OopOperator.FlushOld` | tigon-sql/include/hfta/groupby_operator_oop.h:322-370 | flush_old computes the model's transition and outputs |
| `OopOperators.OopOperator.Flush` | tigon-sql/include/hfta/groupby_operator_oop.h:274-319 | flush computes the model's transition and outputs |
| `OopOperators.OopOperator.MakeRoom` | tigon-sql/include/hfta/groupby_operator_oop.h:161-183 | the three extension loops compute the model's extension |
| `OopOperators.OopOperator.AcceptTuple` | tigon-sql/include/hfta/groupby_operator_oop.h:85-215 | accept_tuple computes the model's step and outputs |
| `GroupByProofs.FlushOldRotates` | tigon-sql/include/hfta/groupby_operator.h:188-217 | a new epoch outputs exactly what was left of the old table, makes the current groups the next to flush, and starts with an empty table |
| `GroupByProofs.AcceptSame` | tigon-sql/include/hfta/groupby_operator.h:48-111 | a tuple of the current epoch turns the grouping held by the current table into that of the stretch with the tuple |
| `GroupByProofs.AcceptNew` | tigon-sql/include/hfta/groupby_operator.h:48-111 | a tuple of another epoch never finds its group in the current table, so the flush it asks for always happens |
| `GroupByProofs.RunByStretch` | tigon-sql/include/hfta/groupby_operator.h:48-140 | in every run, output, unflushed suffix of the old table and current table are the groupings of the successive stretches of equal epochs, in order |
| `GroupByTheorems.ConservesIffGroupsStay` | tigon-sql/include/hfta/groupby_operator.h:48-140 | at any point of any run they hold each group exactly once with the fold of all its tuples, if and only if no other epoch came between two tuples of one group |
| `GroupByTheorems.OrderedStay` | tigon-sql/src/main/c/ftacmp/query_plan.cc:8744-8782 | non-decreasing epochs satisfy that condition |
| `GroupByTheorems.FlushCompletes` | tigon-sql/include/hfta/groupby_operator.h:142-186 | after flush all groups have been output, each once under the same condition, and both tables are empty |
| `GroupByTheorems.FinishedMeansEmpty` | tigon-sql/include/hfta/groupby_operator.h:113-140 | in every run flush_finished implies that the old table is empty |
| `GroupByProgress.EndedEpochLeaves` | tigon-sql/include/hfta/groupby_operator.h:48-140 | an epoch change outputs everything left of the older epochs, and then each further tuple of the new epoch outputs exactly the next group of the one that ended, until none is left |
| `GroupByOperators.GroupByOperator.PartialFlush` | tigon-sql/include/hfta/groupby_operator.h:113-140 | partial_flush computes the model's transition and outputs |
| `GroupByOperators.GroupByOperator.FlushOld` | tigon-sql/include/hfta/groupby_operator.h:188-217 | flush_old computes the model's transition and outputs |
| `GroupByOperators.GroupByOperator.Flush` | tigon-sql/include/hfta/groupby_operator.h:142-186 | flush computes the model's transition and outputs |
| `GroupByOperators.GroupByOperator.AcceptTuple` | tigon-sql/include/hfta/groupby_operator.h:48-111 | accept_tuple computes the model's step and outputs |
| `Clean.EvictOk` | tigon-sql/include/hfta/clean_operator.h:407-420 | evicting a group from group table, list and count keeps every supergroup's count equal to its list length and its list equal to its stored groups |
| `Clean.StoreOk` | tigon-sql/include/hfta/clean_operator.h:220-235 | storing a new group with its list entry and count keeps the same bookkeeping |
| `Clean.NewSuperOk` | tigon-sql/include/hfta/clean_operator.h:165-193 | a new supergroup enters both supergroup tables with an empty list |
| `CleanSteps.CleanSuper` | tigon-sql/include/hfta/clean_operator.h:381-428 | cleaning keeps exactly the groups the sampling predicate accepts, in order, in list, count and group table alike; other supergroups are untouched |
| `CleanSteps.FinalClean` | tigon-sql/include/hfta/clean_operator.h:99-115 | at a window border every supergroup is finalized and cleaned exactly once, as if alone; no group appears and no aggregate changes |
| `CleanOperators.Admit` | tigon-sql/include/hfta/clean_operator.h:145-206 | the predicate is evaluated on the current state, or one made from the closed window, or an initial one, with the matching count; the supergroup is entered even if it fails, and counted one higher with its superaggregates updated exactly if it holds |
| `CleanOperators.Record` | tigon-sql/include/hfta/clean_operator.h:208-235 | a stored group is updated and takes back the count, a new one is created, stored and listed; either way the bookkeeping is exact again |
| `CleanOperators.TakeTuple` | tigon-sql/include/hfta/clean_operator.h:145-249 | the whole outcome of a regular tuple for its supergroup (state, count, list, aggregate, survivors of a cleaning), with exact bookkeeping, other supergroups untouched, and the size the group table peaks at |
| `CleanOperators.SupergroupFound` | tigon-sql/include/hfta/clean_operator.h:264-283 | every group of the closed window finds its supergroup in the matching tables, so no output is lost for want of one |
| `CleanOperators.CleanOperator.Rotate` | tigon-sql/include/hfta/clean_operator.h:252-379 | a window change outputs all that is left of the old window, swaps all three table indices together, and starts with empty tables |
| `CleanOperators.CleanOperator.SuperFlush` | tigon-sql/include/hfta/clean_operator.h:346-379 | the two supergroup tables are cleared and swapped together |
| `CleanOperators.CleanOperator.PartialFlush` | tigon-sql/include/hfta/clean_operator.h:298-344 | outputs at most one group of the closed window and clears the table once it is exhausted |
| `CleanOperators.CleanOperator.AcceptTuple` | tigon-sql/include/hfta/clean_operator.h:77-250 | keeps the bookkeeping invariant; indices swap exactly when a flush is needed; with one every supergroup is finalized and the tuple has its whole outcome in the new window, which holds nothing else, seen with the count left over; without one only the tuple's supergroup changes, by its whole outcome, and the closed window's supergroups stay; the output is exactly the due part of the closed window |
| `CleanRuns.AcceptAll` | tigon-sql/include/hfta/clean_operator.h:77-428 | over any run, the tables go from those on entry to those on exit through one step per input, each with its whole outcome and, at a flush, the window it closes; what was due and what those windows owe is what has been output followed by what is still due, in order |
| `CleanRuns.WindowsClose` | tigon-sql/include/hfta/clean_operator.h:97-116 | every flush of a run closes one window, with every supergroup finalized and cleaned |
| `CleanRuns.StoredIffSurvives` | tigon-sql/include/hfta/clean_operator.h:99-115 | a group is stored in a closed window exactly when it survives the final cleaning of its supergroup |
| `CleanRuns.SurvivorOutput` | tigon-sql/include/hfta/clean_operator.h:252-344 | a closed window outputs every survivor exactly once, made from its aggregate, the final state of its supergroup and the number of the supergroup's survivors, if its output can be created |
| `CleanReference.OfferIs` | tigon-sql/include/hfta/clean_operator.h:145-249 | a tuple does to its supergroup's state, groups, aggregates and order what a reference on a plain list does, without tables, lists of keys or counts |
| `CleanReference.KeptIsSurvivors` | tigon-sql/include/hfta/clean_operator.h:381-428 | a cleaning pass that erases from table, list and count is one pass of the sampling predicate over the reference's list |
| `CleanReference.RunIsAlone` | tigon-sql/include/hfta/clean_operator.h:77-428 | at every point of any run every supergroup has the state, groups, aggregates and closed-window remainder that the reference gives for its own tuples and the flushes, with the counts left over at flushes |
| `CleanReference.SupergroupIsolated` | tigon-sql/include/hfta/clean_operator.h:95-193 | whatever the other supergroups get, a supergroup with the same tuples and flushes has the same history, if it is present whenever one of its own tuples brings a flush |
| `CleanReference.LastCountIs` | tigon-sql/include/hfta/clean_operator.h:95-115 | the count left over is that of the supergroup finalized last, before its groups are cleaned |
| `CleanReference.SupergroupsInterfere` | tigon-sql/include/hfta/clean_operator.h:95-115 | without that condition isolation fails: the count of the supergroup finalized last stays in the local variable, and a tuple of an absent supergroup is rejected or admitted depending on it |
| `CleanReference.WindowIsReference` | tigon-sql/include/hfta/clean_operator.h:97-344 | the window closed by any flush of any run holds, each once, exactly the groups and aggregates that the reference keeps at its close, and outputs them with the reference's final state and count |
| `CleanReference.SampleRun` | tigon-sql/include/hfta/clean_operator.h:66-428 | a run of a new operator outputs what the windows closed by its flushes owe, but for what is still due, and every supergroup follows the reference from nothing |
| `MergeProofs.PurgeShape` | tigon-sql/include/hfta/merge_operator.h:68-89 | a purge releases exactly the front tuples up to the first that is later than the other channel |
| `MergeTheorems.RunInv` | tigon-sql/include/hfta/merge_operator.h:104-201 | every run keeps one channel queued, with its front posted and later than the other channel |
| `MergeTheorems.OneQueue` | tigon-sql/include/hfta/merge_operator.h:104-201 | wait_channel is the other channel exactly when the queue is not empty, else -1; queue size and byte counter are exact |
| `MergeTheorems.RunKeepsChannels` | tigon-sql/include/hfta/merge_operator.h:104-201 | per channel, output followed by queue is exactly what was accepted, in arrival order |
| `MergeTheorems.RunConserves` | tigon-sql/include/hfta/merge_operator.h:104-201 | output, queue and dropped tuples together are the multiset of regular tuples received |
| `MergeTheorems.RunDropped` | tigon-sql/include/hfta/merge_operator.h:123-132 | dropped_cnt is the number of tuples that arrived behind their channel's last posted timestamp, modulo 2^32 |
| `MergeTheorems.OrderedIffChannelsOrdered` | tigon-sql/include/hfta/merge_operator.h:104-201 | output followed by queue is in timestamp order if and only if each channel's accepted tuples are |
| `MergeTheorems.NothingDropped` | tigon-sql/include/hfta/merge_operator.h:112-133 | inputs non-decreasing per channel lose nothing |
| `MergeTheorems.SortedMerge` | tigon-sql/include/hfta/merge_operator.h:104-201 | for such inputs the output is sorted, nothing is lost, channel order is kept, and everything output is strictly earlier than everything queued |
| `MergeTheorems.OutputIsDue` | tigon-sql/include/hfta/merge_operator.h:135-180 | a tuple is output only when the other channel has reached its timestamp |
| `MergeProgress.QueueIsLater` | tigon-sql/include/hfta/merge_operator.h:134-180 | the front of the queue, and with ordered channels every queued tuple, is strictly later than every input of the other channel, status tuples included, that arrived while the queue was empty or while that channel was awaited |
| `MergeProgress.DueTupleLeaves` | tigon-sql/include/hfta/merge_operator.h:134-180 | with ordered channels a tuple that the other channel has reached is in the output |
| `MergeProgress.DroppedIsBehind` | tigon-sql/include/hfta/merge_operator.h:112-133 | a tuple is dropped only if the start or an earlier input of its channel is later, and always if an input heard of its channel is |
| `MergeProgress.UnsortedQueueLags` | tigon-sql/include/hfta/merge_operator.h:68-89 | with a channel out of order a tuple behind the front can stay queued although the other channel has passed it |
| `MergeOperators.MergeOperator.PurgeQueue` | tigon-sql/include/hfta/merge_operator.h:68-89 | the purge loop computes the model's purge |
| `MergeOperators.MergeOperator.AcceptTuple` | tigon-sql/include/hfta/merge_operator.h:104-201 | accept_tuple computes the model's step and outputs |
| `NicGenerator.Scan` | tigon-sql/src/main/c/ftacmp/generate_nic_code.cc:64-99 | the table scan returns the entry after the first match, or ERROR |
| `NicTables.BinaryTable` | tigon-sql/src/main/c/ftacmp/generate_nic_code.cc:34-81 | every binary query operator is mapped to the card function with the same meaning |
| `NicTables.UnaryTable` | tigon-sql/src/main/c/ftacmp/generate_nic_code.cc:55-99 | every unary query operator is mapped to the card function with the same meaning |
| `NicTables.BinaryTableExact` | tigon-sql/src/main/c/ftacmp/generate_nic_code.cc:34-81 | over all names, the function found has the meaning of the name as a query operator, or none if it is not one, except exactly for "shift_left", which the scan finds among the function names and maps to AND |
| `NicTables.UnaryTableExact` | tigon-sql/src/main/c/ftacmp/generate_nic_code.cc:55-99 | over all names, the unary function found has the meaning of the name as a query operator, or none if it is not one |
| `NicCorrect.GenExprShape` | tigon-sql/src/main/c/ftacmp/generate_nic_code.cc:106-196 | generated code writes operators into fresh copy variables only, plain loads into the no-copy variable of their field, and records exactly the columns used |
| `NicCorrect.GenPredShape` | tigon-sql/src/main/c/ftacmp/generate_nic_code.cc:198-252 | the same for predicates |
| `NicCorrect.GenExprCorrect` | tigon-sql/src/main/c/ftacmp/generate_nic_code.cc:106-196 | running the code leaves the expression's value in the result variable and preserves earlier copy variables, loaded no-copy variables and constants |
| `NicCorrect.GenPredCorrect` | tigon-sql/src/main/c/ftacmp/generate_nic_code.cc:198-252 | running the code leaves the predicate's truth value in the result variable, with the same frame |
| `NicProgram.Generate` | tigon-sql/src/main/c/ftacmp/generate_nic_code.cc:427-523 | the generation loops build the program of the model |
| `NicSends.PackedProgramCorrect` | tigon-sql/src/main/c/ftacmp/generate_nic_code.cc:427-523 | packed mode sends for exactly the LFTAs whose NIC-safe predicates all hold, in order, when loads run before uses |
| `NicSends.FilterProgramExact` | tigon-sql/src/main/c/ftacmp/generate_nic_code.cc:427-523 | filter mode sends each packet at most once, and exactly when there is no LFTA, or some LFTA with predicates finds them all true, or all but the last predicate of the last LFTA hold (its code falls through to label(pass)) |
| `NicSends.FilterProgramComplete` | tigon-sql/src/main/c/ftacmp/generate_nic_code.cc:427-523 | when every LFTA has a safe predicate, no packet that satisfies some LFTA is lost |
| `NicSends.FilterProgramErrors` | tigon-sql/src/main/c/ftacmp/generate_nic_code.cc:496-523 | when the filter is wrong: a packet that no LFTA wants is sent if and only if there is no LFTA or all but the last predicate of the last one hold; a wanted packet is lost if and only if only LFTAs without predicates want it and the last LFTA does not fall through |
| `NicSends.FilterProgramUseless` | tigon-sql/src/main/c/ftacmp/generate_nic_code.cc:496-523 | a last LFTA with at most one safe predicate lets every packet through |
| `NicExamples.FilterSendsUnwanted` | tigon-sql/src/main/c/ftacmp/generate_nic_code.cc:496-523 | the simplest filter, one LFTA with one predicate, sends a packet that fails it |
| `NicPaths.LoadsBeforeUsesIsExact` | tigon-sql/src/main/c/ftacmp/generate_nic_code.cc:427-523 | the condition on the LFTAs holds if and only if on every control-flow path every no-copy variable is loaded before it is used |
| `NicExamples.SingleLftaIsSafe` | tigon-sql/src/main/c/ftacmp/generate_nic_code.cc:427-523 | a single LFTA satisfies the condition |
| `NicExamples.NoBareColumnIsSafe` | tigon-sql/src/main/c/ftacmp/generate_nic_code.cc:106-196 | programs without a bare column as right operand satisfy the condition |
| `NicExamples.UnsafeProgramSendsWrongTuple` | tigon-sql/src/main/c/ftacmp/generate_nic_code.cc:427-523 | without the condition a concrete program sends a tuple for an LFTA the packet does not satisfy |
| `NicSafety.SafePredNoErrors` | tigon-sql/src/main/c/ftacmp/generate_nic_code.cc:255-331 | every predicate that passes the safety test compiles without reaching an error branch: no error mark, no function named ERROR, and a result variable |
| `NicSafety.SafePredLegal` | tigon-sql/src/main/c/ftacmp/generate_nic_code.cc:255-331 | its code loads only legal fields, applies only legal operators and declares only literals of legal types |
| `NicSafety.CollectSafe` | tigon-sql/src/main/c/ftacmp/generate_nic_code.cc:427-443 | the loop keeps exactly the safe predicates of every LFTA, in order |
| `NicSafety.SafePartImplied` | tigon-sql/src/main/c/ftacmp/generate_nic_code.cc:427-443 | a packet that satisfies the whole filter clause satisfies the part left to the card |
| `NicSafety.Compile` | tigon-sql/src/main/c/ftacmp/generate_nic_code.cc:410-523 | from filter clauses to the card: in the program made of the safe parts of the clauses, whatever packet satisfies the whole clause of an LFTA reaches that LFTA, when loads run before uses and, in filter mode, every LFTA has a safe predicate |
| `NicExact.PredSafeIff` | tigon-sql/src/main/c/ftacmp/generate_nic_code.cc:255-331 | a predicate passes the safety test if and only if all literal and column types in it are legal, all its fields are readable, all its operators are legal, and it contains no parameter, function call or IN |
| `NicExact.SafePartIsFilter` | tigon-sql/src/main/c/ftacmp/generate_nic_code.cc:427-443 | the safe part of a clause is all its predicates of that kind, in order and with multiplicity |
| `NicExact.CardDecides` | tigon-sql/src/main/c/ftacmp/generate_nic_code.cc:427-523 | from clauses to the card in packed mode: a packet is sent for an LFTA if and only if it satisfies every predicate of that kind in its clause, when loads run before uses |
| `NicExact.DeclaredIds` | tigon-sql/src/main/c/ftacmp/generate_nic_code.cc:490 | in packed mode the constant declared for LFTA i is its identifier, and no other is declared |
| `Plan.Number` | tigon-sql/include/hfta/hfta.h:508-532 | the worklist terminates with exactly the nodes reachable from the root, each once, and the map is its inverse |
| `PlanSort.TopSort` | tigon-sql/include/hfta/hfta.h:548-571 | the leaf-removal loop terminates; the order has no duplicates, children come first, and a node left out has a child left out |
| `PlanSort.Adjacency` | tigon-sql/include/hfta/hfta.h:534-546 | the adjacency lists are the distinct children, by number |
| `PlanSort.SortNodes` | tigon-sql/include/hfta/hfta.h:508-574 | sorted_nodes is all the nodes reachable from the root, children before parents and the root last, if and only if none of them lies on a cycle |
| `Routing.ChainIsRunAll` | tigon-sql/include/hfta/hfta.h:929-946 | running the chain of parents from the source gives the same operator states and output as running all operators in any order with children first, and leaves all queues empty |
| `Routing.FlushIsComplete` | tigon-sql/include/hfta/hfta.h:649-672 | a tree flush leaves all queues empty, and every operator is flushed after consuming everything its children produced |
| `Routing.FeedIsCalls` | tigon-sql/include/hfta/hfta.h:935-941 | consuming a queue is one call of the operator per tuple, in order, each from the state the one before left, and collects everything that the calls emit |
| `Routing.ChainClimbs` | tigon-sql/include/hfta/hfta.h:931-946 | each operator of the chain turns what it gets into what its parent gets, and the last one's output is the result |
| `Routing.FlushedIsTurn` | tigon-sql/include/hfta/hfta.h:666-671 | a flushed operator has turned what it was sent into output, followed by the output of its own flush |
| `TreeExecutor.TreeIsAcyclic` | tigon-sql/include/hfta/hfta.h:119-143 | a plan in which every node but the root has its one parent has no cycle, so the sort is complete |
| `TreeExecutor.SortedTree` | tigon-sql/include/hfta/hfta.h:548-571 | in a tree the sorted order puts every node before its parent |
| `TreeExecutor.Hfta.constructor` | tigon-sql/include/hfta/hfta.h:487-574 | the executor of a tree starts with a complete order, the root last, and empty queues |
| `TreeExecutor.Hfta.AcceptPacket` | tigon-sql/include/hfta/hfta.h:929-946 | the do-loop up the chain makes each operator turn what it gets into what its parent gets, outputs what the root emits, computes what running all operators in sorted order would, and empties the queues |
| `TreeExecutor.Hfta.Flush` | tigon-sql/include/hfta/hfta.h:649-672 | the flush loop computes the model's flush and empties the queues |
| `Hash61.MultAddExact` | tigon-sql/include/stringhash.h:325-333 | only the sum c0 can wrap; as an integer the result is the folded product plus b |
| `Hash61.MultAddCong` | tigon-sql/include/stringhash.h:325-333 | the result is congruent to a * x + b modulo 2^61 - 1, and the bound that the next call needs is kept |
| `Hash61.MultAddExceeds` | tigon-sql/include/stringhash.h:323-333 | the promise "ax+b mod Prime, possibly plus Prime" fails exactly when both the fold of the product and the addition of b carry: the result reaches twice the prime if and only if the folded product is at least the prime and its remainder plus b is too |
| `Hash61.MultAddBelowTwicePrime` | tigon-sql/include/stringhash.h:323-333 | a check for callers: a normalised multiplier with a product below 2^61, or an addend at least 2^32 below the prime, keeps the result below twice the prime |
| `Hash61.MultAddReachesTwicePrime` | tigon-sql/include/stringhash.h:323-333 | normalised operands for which the result is twice the prime |
| `Hash61.ReduceExact` | tigon-sql/include/stringhash.h:342-343 | mask, shift and one subtraction give the exact remainder of any 64-bit word |
| `Hash61.Hash61bit5univ` | tigon-sql/include/stringhash.h:336-345 | the hash is the degree-4 polynomial of the key with the given coefficients, reduced exactly modulo 2^61 - 1 |
| `Hash61.InitHash61bit5univ` | tigon-sql/include/stringhash.h:349-359 | the coefficients are the exact remainders of the random words |
| `StringHash.FourProductsCong` | tigon-sql/include/stringhash.h:777-787 | only the C0 sum can wrap, and the folded words are congruent to the four products |
| `StringHash.MulPrimeCong` | tigon-sql/include/stringhash.h:770-787 | for H below twice the prime and M up to the prime, the result is congruent to H * M and below 2^61 + 4 |
| `StringHash.AccumulatorIsPolynomial` | tigon-sql/include/stringhash.h:745-788 | for every string, before each multiplication the accumulator is below twice the prime, and it is congruent to the polynomial of the chunk hashes in the base |
| `StringHash.LongIsPolynomial` | tigon-sql/include/stringhash.h:734-789 | a string of at least 16 words hashes to the high half of 16 H + C + length * factor modulo 2^64, with C the hash of the last chunk and H that polynomial times the base |
| `XorHash.ChunkBits` | tigon-sql/include/stringhash.h:746-762 | a bit of a chunk hash is one exactly when an odd number of the chunk's products have it |
| `XorHash.ChunkIsXor` | tigon-sql/include/stringhash.h:746-762 | the hash of a chunk is the exclusive or of all its products, in any order |
| `XorHash.ShortIsXor` | tigon-sql/include/stringhash.h:636-674 | a short string hashes to the high half of that exclusive or and the next hash word |
| `XorHash.PairIs` | tigon-sql/include/stringhash.h:746-762 | the product of a pair is (x0 + h1)(x1 + h0) modulo 2^64, whatever wraps on the way |
| `XorHash.HashIsXor` | tigon-sql/include/stringhash.h:734-744 | strings of fewer than 16 words hash by that form |
| `StringHash.EvenStringHash32bit2univ` | tigon-sql/include/stringhash.h:636-652 | the even-length loop computes the pairwise hash |
| `StringHash.OddStringHash32bit2univ` | tigon-sql/include/stringhash.h:656-674 | the odd-length loop computes the pairwise hash |
| `StringHash.StringHash32bit2univ` | tigon-sql/include/stringhash.h:679-689 | the dispatch on parity computes the pairwise hash |
| `StringHash.String2Hash32bit2univ` | tigon-sql/include/stringhash.h:693-704 | the specialised form for two words agrees with the general one |
| `StringHash.String3Hash32bit2univ` | tigon-sql/include/stringhash.h:707-720 | the specialised form for three words agrees with the general one |
| `StringHash.HashChunk` | tigon-sql/include/stringhash.h:746-762 | one chunk is hashed with parameter indices below 16 |
| `StringHash.VarINT32StringHash32bitUniv` | tigon-sql/include/stringhash.h:734-789 | the chunk loop terminates for every length and computes the string hash of the words |
| `StringHash.PadSlice` | tigon-sql/include/stringhash.h:826-832 | the words of a 64-byte chunk are a stretch of the zero-padded little-endian words of the string |
| `StringHash.PadWord` | tigon-sql/include/stringhash.h:826-832 | a padded word has the value of its four bytes, least significant first, with zeros past the end |
| `StringHash.ByteHasher.CopyIn` | tigon-sql/include/stringhash.h:815-830 | copying bytes into a zeroed buffer yields the zero-padded little-endian words |
| `StringHash.ByteHasher.VarStringHash32bitUniv` | tigon-sql/include/stringhash.h:805-870 | the byte-string hash is the word-string hash of the zero-padded little-endian words with the length counted in bytes, and the buffer is all zeros again on every return |

## Left out

- hash_set: a near copy of hash_table whose erase does not unlink an emptied bucket.
- erase_full, total_memory and the memory-footprint methods of the hash table: freeing of payloads and byte estimates.
- The bucket index is the remainder by the bucket count, which is a power of two, in place of the bit mask; the load factor comparison is over reals.
- JoinOperators.JoinOperator.AcceptTuple: the temporal-status tuples that accept_tuple also emits are not part of the output.
- OopOperators.OopOperator.AcceptTuple: the temporal-status tuples that accept_tuple also emits are not part of the output; a window outside the deque, which no timely input reaches, is ignored instead of indexed.
- GroupByOperators.GroupByOperator.AcceptTuple: the temporal-status tuples that accept_tuple also emits are not part of the output.
- CleanOperators.CleanOperator.AcceptTuple: the temporal-status tuples and the packet counters are not modelled, and the functor's flush indicator is an input.
- MergeOperators.MergeOperator.AcceptTuple: the temporal-status tuples that accept_tuple also emits are not part of the output.
- accept_tuple of the running-aggregate operator is modelled on table values (`RunningRuns`), its flush also through pointers (`RunningAgg`).
- The flush methods of join and merge: the first closes a window early and advances once, the second emits without clearing its queue, so runs are of accept_tuple.
- The external flush of the sampling operator, which swaps only the group tables.
- CUBE and ROLLUP patterns: one group per tuple only.
- DAG mode of the executor, end-of-file counting, heartbeat traces and the posting of result tuples.
- Plan nodes are numbers in place of pointers, and an operator is a state with an accept and a flush function.
- Group-by references in NIC predicates carry their definitions, so they are acyclic; operand names are structured values, so two of them never clash by spelling.
- NicProgram.Generate: the column list that pack_and_send is given is not built.
- `x & Prime61`, shifts and LOW/HIGH are written as remainders and quotients by powers of two.
- Universality of the hash families and the random tables: probabilistic claims.
- The tabulation hashes, the query front end, code generation for host operators, cluster management and file output.
