# Verification of the OHM plugins' resource control

A Dafny model of the parts of the OHM plugins where state machines, recursion and arithmetic meet,
with proofs about all their runs. `dafny verify dfyconfig.toml` checks everything.

What is modelled, from the hardest part on:

- **Response curves** (`cgrp-curve.c`). A lexer, an operator-precedence parser and a stack machine
  evaluate the text of a function, which a monotonicity check and a sampling loop turn into an integer
  table. `RpnTokens`, `RpnParser`, `RpnTrees`, `RpnCompiler`, `RpnEvaluator`, `RpnConservation`,
  `RpnLexer`, `RpnParseMethod` and `RpnPrinter` (with `Decimals`) hold the compiler, `ResponseCurve` and
  `CurveSoundness` the tables. The transition system of the parser is the specification of the loop
  over token buffers; trees and their spellings are the independent reference for what it computes.
- **The leader cascade** (`cgrp-leader.c`, `cgrp-partition.c`). Moving a process moves those it leads,
  which recurses through the process table. `Spread` says on values what a cascade may do and has
  done, `Leading` is the recursion as a function cut off at a depth, `Chains` and `Halting` say exactly
  when it ends by itself, `Cascade` is the mutual recursion on objects, `Reparent` the loops over
  groups around it.
- **Process bookkeeping** (`list.h`, `cgrp-hash.c`, `cgrp-group.c`, `cgrp-process.c`). `Lists` and
  `ProcTable` are the intrusive rings and the bucketed table, standing for a list in insertion order
  (`Buckets` has the hash function, `Sequences` what lists have in common);
  `Registry` and `Membership` are the groups and the active process on one table in traversal order,
  which `TableRefinement` proves the buckets to be; `Priority` and `PriorityTasks` the
  priority modes.
- **Bluetooth accessories** (`bluetooth-bluez5.c`): `Bluez5` on values, `BluezDevices` on objects.
- **Delay timers** (`plugins/delay`): `DelayTimers` on values, `DelayFacts` for the fields of a fact,
  `DelayMethods` on objects.
- **Load estimators and the I/O-wait alert** (`cgrp-sysmon.c`): `Estimators`, `Sysmon`.
- **Bounded reclassification** (`cgrp-classify.c`, `cgrp-action.c`): `Reclassify`, `Classifier`.

Code that works in place is modelled by classes, arrays and loops whose contracts tie the new state to
a function of the old one; the properties of whole runs are lemmas about these functions.

Some promises turned out to hold only under a condition, which is then proved to be the exact one:

- The response table climbs within its range if and only if omax is not negative or the last interior
  sample stays half a unit below it, since the conversion to int truncates toward zero
  (`CurveSoundness.TableIsSound`).
- A refused setpriority is recorded like a granted one, so that the update is lost
  (`Priority.StaysInStepIff`, `Priority.FailedUpdateIsLost`). The order of priorities in a group, on
  the other hand, needs no assumption on where 0 lies in the curve (`Priority.GroupRunKeepsOrder`).
- Removing a Bluetooth device that is still flagged keeps the requests exact if and only if at least
  two others are flagged as well (`Bluez5.RemovalIsExact`).
- A restart that fails after its arguments were accepted loses the timer it was to replace
  (`DelayTimers.RestartRestarts`), and arguments arrive as sent if and only if they are integers and
  non-null strings (`DelayTimers.DeliveryIsFaithful`).
- Moving a process ends whatever the kernel answers if and only if it visits no process that traces
  itself (`Halting.HaltsIffNoCycleAhead`).
- A pass at the maximum count drops its process unless a group action comes after the last attempt
  (`Reclassify.LastAttemptDrops`, `Reclassify.RegroupedAtLast`).
- More waiting never means slower polling if and only if the configured interval at high load is not
  the longer one (`Sysmon.DelayIsAntitone`).
- Token texts lex back if and only if `abs` is not among them (`RpnPrinter.PrintLexes`).

Writes to control files, answers of the kernel, of GLib and of the fact store, the order in which hash
tables are walked and the contents of messages come in as parameters or arbitrary choices; requests
going out are recorded in logs.

## Model

| member | source | states |
|---|---|---|
| `RpnCompiler.CompilesToPostfix` | plugins/cgroups/cgrp-curve.c:703-841 | For every infix spelling of every tree with at least the parentheses that the precedence and associativity tables demand, compiling gives exactly the postfix form of the tree if the nesting fits the stack (255) and the form fits the output (254 tokens), and fails otherwise |
| `RpnCompiler.ShortSpellingsCompile` | plugins/cgroups/cgrp-curve.c:703-841 | Every such spelling of at most 254 tokens compiles to its postfix form |
| `RpnTrees.EveryTreeCanBeWritten` | plugins/cgroups/cgrp-curve.c:511-525 | Every tree has a spelling with enough parentheses, so the compiler theorem covers all trees |
| `RpnTrees.UsualPrecedence` | plugins/cgroups/cgrp-curve.c:511-525 | Powers bind before products and products before sums, and among equals the left operator comes first except with powers |
| `RpnCompiler.SpellingRuns` | plugins/cgroups/cgrp-curve.c:753-831 | Run on any spelling from any stack it may follow, the parser queues the finished part, leaves the pending operators on the stack, and fails exactly when a buffer would overflow |
| `RpnCompiler.OperatorPops` | plugins/cgroups/cgrp-curve.c:766-784 | An operator moves exactly the pending operators of its left operand to the output and stops in front of what binds less |
| `RpnCompiler.ParenthesesRun` | plugins/cgroups/cgrp-curve.c:785-808 | A parenthesised spelling is completed at its closing parenthesis, and a function in front of it is applied |
| `RpnCompiler.FinishPending` | plugins/cgroups/cgrp-curve.c:809-826 | At the end the pending operators follow in reverse order, if there is room for them and the end mark |
| `RpnConservation.CompileConserves` | plugins/cgroups/cgrp-curve.c:753-831 | For every accepted token list: the parentheses balance, the output holds exactly the other tokens, as a multiset, and the operands in their order |
| `RpnConservation.RunConserves` | plugins/cgroups/cgrp-curve.c:753-831 | At every point of a run, stack and output together account for all tokens read, and an UNKNOWN token is at most at the bottom of the stack |
| `RpnConservation.EvaluatorDecidesParserOutput` | plugins/cgroups/cgrp-curve.c:857-961 | On the output for any accepted token list the evaluator returns normally if and only if the output is the postfix form of a tree, then with the value of that tree, and it never overflows its stack |
| `RpnEvaluator.CalcDecidesWellFormedness` | plugins/cgroups/cgrp-curve.c:857-961 | The same for any token sequence of operands, operators and functions that fits the output buffer |
| `RpnEvaluator.PostfixIsInjective` | plugins/cgroups/cgrp-curve.c:857-961 | The tree that a postfix form stands for is unique |
| `RpnEvaluator.CalcOfPostfix` | plugins/cgroups/cgrp-curve.c:857-961 | Evaluating the postfix form of a tree gives the value of the tree at every x |
| `RpnEvaluator.OperatorsCompute` | plugins/cgroups/cgrp-curve.c:911-917 | What an operator makes of the results of its operands: sum, difference of the left and the right one, product, quotient unless the divisor is zero, and power |
| `RpnEvaluator.FunctionsCompute` | plugins/cgroups/cgrp-curve.c:929-936 | What a function makes of the result of its argument: logarithms, sine and cosine of the library, and for abs the one of the argument and its negative that is not negative |
| `RpnEvaluator.LeavesCompute` | plugins/cgroups/cgrp-curve.c:880-895 | A variable stands for the input and a number for itself |
| `RpnEvaluator.CalcFollowsBuild` | plugins/cgroups/cgrp-curve.c:857-961 | From any stack of values of trees, evaluation succeeds exactly when rebuilding trees from the tokens leaves one, and gives its value |
| `RpnEvaluator.BuildInvertsPostfix` | plugins/cgroups/cgrp-curve.c:857-961 | Rebuilding trees from tokens undoes writing them in postfix |
| `RpnEvaluator.RpnCalc` | plugins/cgroups/cgrp-curve.c:857-961 | The stack machine in its loop computes the specified value, or 0 and the error met first |
| `RpnLexer.TokenProgress` | plugins/cgroups/cgrp-curve.c:584-697 | Every token other than END and UNKNOWN consumes input |
| `RpnLexer.GetToken` | plugins/cgroups/cgrp-curve.c:584-697 | The lexer in its loops reads the token that the lexical rules say, and stops where they say |
| `RpnLexer.NothingElseLexes` | plugins/cgroups/cgrp-curve.c:584-697 | Blanks and tabs are passed over; a number out of range and a character that starts no token are unknown |
| `RpnParseMethod.TokenBuffer.Put` | plugins/cgroups/cgrp-curve.c:706-735 | PUSH and QUEUE append while fewer than 255 tokens are held, and otherwise change nothing and fail |
| `RpnParseMethod.TokenBuffer.Pop` | plugins/cgroups/cgrp-curve.c:706-735 | POP takes the last token off, and gives UNKNOWN from an empty stack |
| `RpnParseMethod.TakeOperator` | plugins/cgroups/cgrp-curve.c:766-784 | The operator case of the loop makes the transition of the parser |
| `RpnParseMethod.TakeClose` | plugins/cgroups/cgrp-curve.c:789-808 | The closing parenthesis case makes the transition of the parser |
| `RpnParseMethod.TakeEnd` | plugins/cgroups/cgrp-curve.c:809-826 | The end case gives the finished output, or fails as specified |
| `RpnParseMethod.RpnParse` | plugins/cgroups/cgrp-curve.c:703-841 | The whole parser loop over a text gives NULL exactly when lexing meets an unknown token or the transition system fails, and otherwise the compiled tokens |
| `RpnPrinter.PrintLexes` | plugins/cgroups/cgrp-curve.c:584-697 | Tokens printed with one space between them lex back to themselves if and only if none of them is abs, which no case of the lexer starts |
| `RpnPrinter.PrintedTreesRoundTrip` | plugins/cgroups/cgrp-curve.c:584-841 | Printing a spelling with integer constants, lexing, parsing and evaluating gives the value of the tree at every x |
| `RpnPrinter.TokenReadsBack` | plugins/cgroups/cgrp-curve.c:584-697 | Each kind of token is read back wherever its text stands |
| `RpnPrinter.StrtodAssumptionsHold` | plugins/cgroups/cgrp-curve.c:627-650 | What the lexer theorems assume of strtod is met by a concrete reader of decimal integers |
| `ResponseCurve.CheckMonotonic` | plugins/cgroups/cgrp-curve.c:410-434 | The loop accepts exactly the functions that only rise or only fall along the grid of its steps |
| `ResponseCurve.GridEndsIff` | plugins/cgroups/cgrp-curve.c:418-434 | That grid has an end, and with it the check of a monotonic function, if and only if the step is positive, which a reversed input range makes it not |
| `ResponseCurve.CheckCurve` | plugins/cgroups/cgrp-curve.c:440-456 | A curve is checked with the step that one input unit makes; an input range of one point makes the step infinite and always passes |
| `CurveSoundness.PassesIffOneWay` | plugins/cgroups/cgrp-curve.c:410-456 | The check passes if and only if there is a single input, or the function rises or falls between any two points of the check within the curve range |
| `ResponseCurve.RspcrvCreate` | plugins/cgroups/cgrp-curve.c:309-358 | NULL exactly when the function is neither registered nor compiles or its curve fails the check |
| `ResponseCurve.CurveCreate` | plugins/cgroups/cgrp-curve.c:145-192 | A curve exists exactly when the check passes, and its table holds the fixed ends and the truncated samples between them |
| `CurveSoundness.TextsAreCurves` | plugins/cgroups/cgrp-curve.c:328-343 | The function named by a text is the one registered under it, and otherwise the value of the tree it spells |
| `CurveSoundness.TextsWithoutValue` | plugins/cgroups/cgrp-curve.c:328-343 | A text that compiles but has no value stands for zero |
| `CurveSoundness.InputsMapToScaledValues` | plugins/cgroups/cgrp-curve.c:145-229 | From end to end: inputs up to imin and from imax on map to omin and omax, and one between them to the value of the function at the point dividing the curve range alike, scaled to the output range, up to half a unit where that is at least -1/2 and to half a unit to one and a half above it elsewhere |
| `ResponseCurve.FillTable` | plugins/cgroups/cgrp-curve.c:172-186 | The sampling loop fills every entry of the table |
| `ResponseCurve.CurveMap` | plugins/cgroups/cgrp-curve.c:211-229 | Without a curve an input maps to itself; otherwise to the entry of that input, or the first or last entry outside the range of the table |
| `ResponseCurve.MapIsLookup` | plugins/cgroups/cgrp-curve.c:211-229 | The same of tables |
| `CurveSoundness.SamplesLieOnGrid` | plugins/cgroups/cgrp-curve.c:379-434 | Every sampled argument is a point of the checked grid |
| `CurveSoundness.NormalisedClimbs` | plugins/cgroups/cgrp-curve.c:379-404 | The scaled samples climb from 0 to 1, whether the checked function rises or falls |
| `CurveSoundness.TableIsSound` | plugins/cgroups/cgrp-curve.c:145-229 | The table climbs from omin to omax, all entries in range, if and only if omax is not negative or the last interior sample stays half a unit below it |
| `CurveSoundness.CalcMeetsEnds` | plugins/cgroups/cgrp-curve.c:379-404 | The curve takes the values omin and omax at the ends of the input range, which the table fixes |
| `CurveSoundness.EntriesRound` | plugins/cgroups/cgrp-curve.c:172-186 | Interior entries are the samples rounded half up, except that below -1/2 truncation lifts them by one |
| `CurveSoundness.EntriesNearRange` | plugins/cgroups/cgrp-curve.c:172-186 | In any case no interior entry leaves the range by more than one above |
| `CurveSoundness.NegativeRangeOverflows` | plugins/cgroups/cgrp-curve.c:172-186 | A concrete curve with a negative range whose last interior entry is above omax |
| `CurveSoundness.MapIsMonotone` | plugins/cgroups/cgrp-curve.c:211-229 | With a climbing table curve_map is monotone on all integers, stays in range, and maps an input like its clamped value |
| `Halting.HaltsIffNoCycleAhead` | plugins/cgroups/cgrp-leader.c:204-223 | Moving a process ends for every table, follower relation and pattern of write failures if and only if none of the processes visited on the way traces itself, directly or through others; granting every write is the worst case |
| `Halting.CycleNeverHalts` | plugins/cgroups/cgrp-leader.c:204-223 | If a process visited on the way traces itself, as the process moved may, a move whose writes are granted is completed at no depth of the recursion |
| `Halting.AheadHalts` | plugins/cgroups/cgrp-partition.c:304-324 | Otherwise some depth suffices, whatever the kernel answers |
| `Spread.ExactlyVisitedMove` | plugins/cgroups/cgrp-leader.c:151-223 | When no write fails, the processes moved are exactly those visited from the start: tracers of visited ones wherever they are, and followers and tasks of the same program that are outside the target; all others keep their partition |
| `Leading.AddLeads` | plugins/cgroups/cgrp-partition.c:304-324 | Every move that ends has asked for the process first, only for processes visited from it and for the one target, has changed partitions exactly where a write succeeded, and has taken along all that the moved ones lead, the tracer always and the others unless they were inside |
| `Leading.AddDeeper` | plugins/cgroups/cgrp-partition.c:304-324 | A recursion that ends within a depth ends the same within any greater one |
| `Cascade.PartitionAddProcess` | plugins/cgroups/cgrp-partition.c:304-324 | On the objects, for exactly those tables and answers of the kernel for which the recursion ends: the state afterwards is that of the recursion on values, success is that of the first write alone; of every process moved the tracer, which is the oldest entry of the pid it names, has been asked to move, and the tasks of its program and its named followers have unless they were inside; if no write failed all those asked have arrived |
| `Cascade.OnlyFamilyAsked` | plugins/cgroups/cgrp-leader.c:151-223 | Nobody else is asked: a set with the process and with the tracer, program tasks and named followers of all its members has everybody asked to move |
| `Leading.RequestsInOrder` | plugins/cgroups/cgrp-leader.c:204-223 | The order of the requests, exactly, where all but the first are refused: those to follow in table order, each as often as it is named, and the tracer last |
| `Cascade.LeaderActs` | plugins/cgroups/cgrp-leader.c:204-223 | The walk and then the tracer make the step of the recursion; all that the process leads is in the target or was asked for, and the tracer was asked for in any case |
| `Cascade.LeadFollowers` | plugins/cgroups/cgrp-leader.c:151-186 | One table entry outside the target: ordered to follow once if it shares group leader and name, and otherwise as often as it is named a follower |
| `Cascade.TimesOfLed` | plugins/cgroups/cgrp-leader.c:151-186 | A task of the same program is ordered to follow once, any other entry as often as it is named a follower |
| `Cascade.ForgetTracer` | plugins/cgroups/cgrp-leader.c:204-223 | A tracer that is not in the table any more is forgotten |
| `Cascade.MoveTask` | plugins/cgroups/cgrp-partition.c:304-324 | The process belongs to the partition only after a successful write |
| `Chains.ChainsEndIffNoCycle` | plugins/cgroups/cgrp-leader.c:213-222 | Following tracers ends from everywhere if and only if no process traces itself, directly or through others |
| `Chains.EndsIffNoCycleAbove` | plugins/cgroups/cgrp-leader.c:213-222 | Following the tracers of one process ends if and only if no process among them traces itself |
| `Chains.AboveShrinks` | plugins/cgroups/cgrp-leader.c:213-222 | The processes above a tracer are fewer than those above the process traced: the termination measure |
| `Spread.OnlyVisitedMove` | plugins/cgroups/cgrp-partition.c:304-324 | Whatever fails, no process moves unless it is visited from the start, and none anywhere but to the target |
| `Spread.MovedAreClosed` | plugins/cgroups/cgrp-leader.c:151-223 | When all writes succeed, every process that a moved one leads is in the target |
| `Spread.SpreadsJoin` | plugins/cgroups/cgrp-partition.c:304-324 | A cascade that continues another is one cascade |
| `Reparent.PartitionAddGroup` | plugins/cgroups/cgrp-partition.c:330-356 | The members concerned are moved one after the other in the order of the list, those that are inside when their turn comes not; with no failed write all of them end in the target, also those that earlier moves had cascaded to; failure, which flags the group, is reported only if a move of a member was refused, and success only if all members that still exist are in the target |
| `Reparent.ConcernedInOrder` | plugins/cgroups/cgrp-partition.c:340-346 | The members concerned are those of the given pid, or all for pid 0, in the order of the list |
| `Leading.EachInOrder` | plugins/cgroups/cgrp-partition.c:340-350 | Where all requests are refused they are exactly those for the members outside, in order |
| `Reparent.FixupGroup` | plugins/cgroups/cgrp-partition.c:362-379 | One group of a thaw: moved again if it is flagged on the partition, without undoing what earlier groups achieved |
| `Reparent.UnfreezeFixup` | plugins/cgroups/cgrp-partition.c:362-379 | The members of the groups flagged on the partition are moved, group by group and in order; if the writes succeed all of them end in it; exactly those flags are cleared, and without any nothing is written |
| `Reparent.PartitionFreeze` | plugins/cgroups/cgrp-partition.c:385-410 | Only a successful thaw of a partition with a freezer moves anything |
| `Reparent.LeaderAddFollower` | plugins/cgroups/cgrp-leader.c:130-202 | A follower is recorded once, at the end of its leader's list, and other leaders keep theirs |
| `Lists.ListInit` | plugins/cgroups/list.h:39-43 | A hook alone is an empty ring |
| `Lists.ListEmpty` | plugins/cgroups/list.h:49-53 | A ring is found empty exactly when it has no items |
| `Lists.ListAppend` | plugins/cgroups/list.h:59-77 | The pointers after an append are those of the ring with the item at its end |
| `Lists.ListDelete` | plugins/cgroups/list.h:83-95 | The pointers after a delete are those of the ring without the item, and an unlinked item may be deleted again |
| `Buckets.BucketIsMasked` | plugins/cgroups/cgrp-hash.c:241-245 | The bucket is the bitwise and of the pid less one, read as unsigned, with the number of buckets less one, for every 32-bit pid |
| `Buckets.MaskIsRemainder` | plugins/cgroups/cgrp-hash.c:241-245 | Masking the low bits of a number is taking its remainder by a power of two |
| `ProcTable.ProcTable.Insert` | plugins/cgroups/cgrp-hash.c:251-260 | All buckets stay rings and the table stands for the list with the entry at its end |
| `ProcTable.ProcTable.Unhash` | plugins/cgroups/cgrp-hash.c:285-290 | All buckets stay rings and the table stands for the list without the entry |
| `ProcTable.ProcTable.Lookup` | plugins/cgroups/cgrp-hash.c:296-315 | Lookup gives the oldest live entry of a pid, or NULL |
| `ProcTable.OldestIsFirst` | plugins/cgroups/cgrp-hash.c:296-315 | An entry before which no other has its pid is the one that a search for the pid gives |
| `ProcTable.OldestIsInItsBucket` | plugins/cgroups/cgrp-hash.c:296-315 | Searching the bucket of a pid is as good as searching the whole list |
| `ProcTable.ProcTable.ForeachInBucket` | plugins/cgroups/cgrp-hash.c:321-337 | The walk of one bucket visits its entries in order although the callback unhashes some of them |
| `ProcTable.ProcTable.Foreach` | plugins/cgroups/cgrp-hash.c:321-337 | The walk of the table visits what was there at its start, and exactly the entries the callback unhashed are gone |
| `ProcTable.TraversalVisitsOnce` | plugins/cgroups/cgrp-hash.c:321-337 | A walk visits each live entry once and nothing else |
| `ProcTable.OldestInTraversal` | plugins/cgroups/cgrp-hash.c:296-337 | The first entry of a pid in traversal order is the oldest one |
| `ProcTable.SurvivorsTwice` | plugins/cgroups/cgrp-hash.c:321-337 | Entries removed in two walks are those removed in one |
| `TableRefinement.RunRefines` | plugins/cgroups/cgrp-hash.c:251-337 | Over every run of creations, group moves, notices and removals the one table that cascades and bookkeeping work on is what a traversal of the linked buckets meets, and lookups in both find the same process |
| `TableRefinement.TraversalInsert` | plugins/cgroups/cgrp-hash.c:251-260 | A traversal meets a new entry at the end of its bucket, behind all buckets up to its own and before all others |
| `TableRefinement.TraversalWithout` | plugins/cgroups/cgrp-hash.c:285-290 | Unhashing takes the entry out of the traversal and leaves the others in order |
| `TableRefinement.LookupRefines` | plugins/cgroups/cgrp-hash.c:296-315 | Lookup in the buckets and lookup in traversal order find the same process |
| `Registry.RunKeepsValid` | plugins/cgroups/cgrp-process.c:1138-1260 | Over every run of creations, group moves, state changes and removals each process is linked in its own group's list and no other, the table stays sorted by bucket, and the active process is in the table with the active group equal to its group, or both are NULL |
| `Registry.ActiveIsLast` | plugins/cgroups/cgrp-process.c:1230-1260 | Over every run the active process is the last that said so and has neither said otherwise nor been removed since |
| `Registry.GroupIsLast` | plugins/cgroups/cgrp-group.c:223-288 | Over every run a process of the table is in the group it joined last since its creation |
| `Registry.CreateInserts` | plugins/cgroups/cgrp-process.c:1138-1166 | A created process enters at the end of its bucket: lookups that found one still find the same, and removing it again restores the table |
| `Registry.JoinKeepsValid` | plugins/cgroups/cgrp-group.c:223-266 | A group move keeps the invariant |
| `Registry.RemoveKeepsValid` | plugins/cgroups/cgrp-process.c:1172-1194 | A removal keeps the invariant, the active process included |
| `Membership.ProcessCreate` | plugins/cgroups/cgrp-process.c:1138-1166 | A new process, in no group and no partition, has entered the table at the end of its bucket |
| `Membership.GroupAddProcess` | plugins/cgroups/cgrp-group.c:223-266 | The process goes to the end of the list of its new group, and the active group follows the active process; the first write asks for the new group's partition if it has one, and for the root if only the old group had one, otherwise there is none; the group's priority is kept or set as the options say; and success is exactly that of move and priority |
| `Membership.GroupDelProcess` | plugins/cgroups/cgrp-group.c:272-288 | The process is in no list and no group any more |
| `Membership.ProcessUpdateState` | plugins/cgroups/cgrp-process.c:1230-1260 | The states active and standby set and clear the active process; a state of another name is refused |
| `Membership.ProcessRemove` | plugins/cgroups/cgrp-process.c:1172-1194 | The process is gone from table, group and active process |
| `Membership.ProcessIgnore` | plugins/cgroups/cgrp-process.c:1217-1224 | The process leads its followers back to the root with the whole cascade, and is then gone from table, group and active process while all others keep the partitions the cascade left them |
| `Priority.OnlyLocksCount` | plugins/cgroups/cgrp-process.c:1303-1363 | Between lock and unlock or extern, a run does what its lock requests alone would do |
| `Priority.ExternIsLeftAlone` | plugins/cgroups/cgrp-process.c:1303-1363 | Between extern and intern nothing is recorded and nothing asked of the kernel |
| `Priority.RequestsSwitchModes` | plugins/cgroups/cgrp-process.c:1303-1363 | Extern hands a process over as it is; lock, unlock from locked and intern from extern set mode and priority together |
| `Priority.DefaultTakesRequests` | plugins/cgroups/cgrp-process.c:1303-1413 | In default mode a relative request adds to the recorded priority and the others replace it, clamped, and what is asked of the kernel, if the priority is to change, is the nice value of that |
| `Priority.ChangesAreAsked` | plugins/cgroups/cgrp-process.c:1366-1413 | In every mode a priority that changes is asked of the kernel, and the kernel has what it granted last |
| `Priority.RelativesAddUp` | plugins/cgroups/cgrp-process.c:1303-1413 | Over every run of granted relative requests without a curve, record and kernel end with the total |
| `Priority.NiceIsNearest` | plugins/cgroups/cgrp-process.c:1366-1395 | The nice value is the one of the kernel's range nearest to what the curve gives |
| `Priority.AskedMatchesRecorded` | plugins/cgroups/cgrp-process.c:1366-1409 | Over every run the nice value last asked for is that of the recorded priority |
| `Priority.NiceFollowsPriority` | plugins/cgroups/cgrp-process.c:1303-1413 | From the first write on, while writes succeed, the kernel has the clipped and mapped value of the recorded priority, so passing over an equal request loses nothing |
| `Priority.StaysInStepIff` | plugins/cgroups/cgrp-process.c:1366-1413 | One request keeps kernel and record in step if and only if it asks nothing, is granted, or asks the value already set |
| `Priority.FailedUpdateIsLost` | plugins/cgroups/cgrp-process.c:1366-1413 | After a refused write the same request never reaches the kernel again |
| `Priority.GroupRunKeepsOrder` | plugins/cgroups/cgrp-group.c:326-343 | Two members that start in the same mode keep the order of their priorities over every run of group requests whatever the kernel answers, and with a climbing curve that of the nice values asked |
| `Priority.GroupPriorityHolds` | plugins/cgroups/cgrp-group.c:255-320 | When priorities are overwritten and none is preserved, a group's priority holds for all its members in default mode over every run of changes and joins |
| `Priority.JoinersTake` | plugins/cgroups/cgrp-group.c:261-264 | Unless its group sets no priority or its own is kept, a process that joins in default mode takes the group's |
| `PriorityTasks.AdjustPriority` | plugins/cgroups/cgrp-process.c:1303-1413 | The mode switch, the record and the write, as specified, and success unless the write failed |
| `PriorityTasks.SwitchMode` | plugins/cgroups/cgrp-process.c:1314-1363 | The nested switches decide mode and continuation |
| `PriorityTasks.ProcessSetPriority` | plugins/cgroups/cgrp-process.c:1266-1297 | A priority is kept exactly if the option says so, for one of the options if the kernel has a positive nice value, and otherwise set; success exactly if it was kept, nothing was asked or the write did not fail |
| `PriorityTasks.GroupAdjustPriority` | plugins/cgroups/cgrp-group.c:326-343 | The loop adjusts every member and nobody else, and succeeds exactly when no member's write failed |
| `PriorityTasks.GroupSetPriority` | plugins/cgroups/cgrp-group.c:294-320 | The loop sets every member unless the group has the priority already, keeps what each member's kernel value and the option say, and succeeds exactly when every member does |
| `Bluez5.CountingIsExact` | plugins/accessories/bluetooth-bluez5.c:406-502 | Over every run of device and transport changes, removals and daemon stops, the requests of each kind alternate, connect first, the last one connects if and only if some device of the table is flagged, and a disconnected device has no flag |
| `Bluez5.ChangedExactly` | plugins/accessories/bluetooth-bluez5.c:446-502 | A state change requests a connection of a kind exactly when the count leaves zero and a disconnection when it returns there, keeps the services, and leaves flags consistent |
| `Bluez5.FlagsFollowState` | plugins/accessories/bluetooth-bluez5.c:446-502 | After a change of state the HSP flag of a device that serves HSP is set exactly when it is not disconnected, the A2DP flag when a transport is idle or active, or the flag was set and the device stays connected |
| `Bluez5.RemovalIsExact` | plugins/accessories/bluetooth-bluez5.c:720-755 | Removing a device in any state keeps a kind exact if and only if the device was not flagged or at least two others are, because it is counted after it has left the table |
| `Bluez5.VanishedWhileConnected` | plugins/accessories/bluetooth-bluez5.c:720-755 | From the empty tables, a headset that connects and vanishes leaves the connection on with no device to it, and no disconnection is asked for |
| `Bluez5.DisconnectKeepsValid` | plugins/accessories/bluetooth-bluez5.c:177-194 | Disconnecting the devices in any order of the table leaves all of them disconnected and the requests exact |
| `Bluez5.OfferKeepsValid` | plugins/accessories/bluetooth-bluez5.c:913-969 | Services offered are added to those there were, what was served still is, and no flag, state, count, request or other device changes |
| `Bluez5.ServicesCount` | plugins/accessories/bluetooth-bluez5.c:446-502 | A device that plays counts for A2DP exactly with an A2DP service and for HSP exactly with a headset service |
| `Bluez5.TransportGone` | plugins/accessories/bluetooth-bluez5.c:720-745 | A device that loses a transport is connected still, with its flags, unless it was disconnected; nothing else changes |
| `Bluez5.EventsSetStates` | plugins/accessories/bluetooth-bluez5.c:913-1077 | What is announced or reported last is the state of the device; announcements, removals and a stop of the daemon change the tables as they say |
| `Bluez5.A2dpFirst` | plugins/accessories/bluetooth-bluez5.c:446-502 | A change makes at most one request of each kind, that for A2DP first, and none if the state is the same |
| `Bluez5.StopKeepsValid` | plugins/accessories/bluetooth-bluez5.c:177-194 | Forgetting all devices after disconnecting them keeps the requests exact |
| `BluezDevices.DevicePathIsStem` | plugins/accessories/bluetooth-bluez5.c:1099-1134 | The device of a transport path is its stem of four slashes in front of a fifth, or all of it |
| `BluezDevices.FindNthChar` | plugins/accessories/bluetooth-bluez5.c:1101-1115 | The loop finds the n-th occurrence or the end |
| `BluezDevices.AddUuids` | plugins/accessories/bluetooth-bluez5.c:941-961 | The loop adds exactly the services named, and drops none |
| `BluezDevices.NamesOfServices` | plugins/accessories/bluetooth-bluez5.c:1155-1190 | Each service has a text, and every text of a service has the number assigned to it |
| `BluezDevices.NamesOfStates` | plugins/accessories/bluetooth-bluez5.c:1136-1153 | The states reported are idle, active, and pending, which counts as active |
| `BluezDevices.OfferedIsNamed` | plugins/accessories/bluetooth-bluez5.c:941-961 | A list of properties offers exactly the services that some text of it names |
| `BluezDevices.AnnouncedIsLast` | plugins/accessories/bluetooth-bluez5.c:925-940 | The last connection state of a list counts |
| `BluezDevices.ReportedInOrder` | plugins/accessories/bluetooth-bluez5.c:1040-1070 | States are reported in the order of their texts |
| `BluezDevices.Bluez.DevicesConnected` | plugins/accessories/bluetooth-bluez5.c:406-444 | The loops over the table count its flagged devices |
| `BluezDevices.Bluez.StateChanged` | plugins/accessories/bluetooth-bluez5.c:446-502 | The flags, the state and the requests after a state change, also of a device that has left the table |
| `BluezDevices.Bluez.DeviceAnnounced` | plugins/accessories/bluetooth-bluez5.c:289-304 | A device is made when first heard of, its services are added and its connection state applied |
| `BluezDevices.Bluez.TransportAnnounced` | plugins/accessories/bluetooth-bluez5.c:327-349 | A transport is made when first heard of, and its device follows the states reported |
| `BluezDevices.Bluez.ParseDeviceProperties` | plugins/accessories/bluetooth-bluez5.c:913-969 | The services are added before the last connection state counts |
| `BluezDevices.Bluez.ParseTransportProperties` | plugins/accessories/bluetooth-bluez5.c:1019-1077 | The states known are applied in turn, the others passed over |
| `BluezDevices.Bluez.InterfacesRemoved` | plugins/accessories/bluetooth-bluez5.c:720-755 | A transport or else a device leaves its table before the state change |
| `BluezDevices.Bluez.DaemonState` | plugins/accessories/bluetooth-bluez5.c:177-194 | The loop disconnects every device in some order, and then both tables are emptied |
| `DelayTimers.TimersAgreeWithSources` | plugins/delay/timer.c:36-126 | Over every run of requests, cancellations and expiries a fact is active exactly when its recorded source is pending for it, and every callback was due: it follows a successful request of its id with no callback, cancellation or failed restart in between |
| `DelayTimers.FiresAtMostOnce` | plugins/delay/timer.c:321-383 | Callbacks of an id never outnumber its successful requests |
| `DelayTimers.DeliveryIsFaithful` | plugins/delay/timer.c:144-241 | A callback gets types and values as requested if and only if all arguments are integers and non-null strings |
| `DelayTimers.OtherArguments` | plugins/delay/timer.c:203-241 | Null strings arrive as the integer 0, and arguments of unknown types as a text that says so |
| `DelayTimers.ExecutionKeepsValid` | plugins/delay/request.c:26-51 | A request, restarting or not, whether source and fact can be made or not, keeps facts and sources in agreement |
| `DelayTimers.ExecutionSucceedsIff` | plugins/delay/request.c:26-51 | A request succeeds if and only if its arguments are there and not too many, its id is free or it may restart, and source and fact can be made; then source and fact have its delay, cut to an unsigned int, and its call |
| `DelayTimers.RestartRestarts` | plugins/delay/timer.c:70-93 | A restart replaces the timer, leaves it alone when an argument is null, and otherwise loses it when it fails |
| `DelayTimers.FailuresLeave` | plugins/delay/timer.c:36-93 | What every request that fails leaves behind, exactly: nothing changed, a fact marked as failed, or a timer gone |
| `DelayTimers.FactsTell` | plugins/delay/timer.c:307-383 | A fact tells that its timer was cancelled or has run down, and stays |
| `DelayTimers.CancellationKeepsValid` | plugins/delay/request.c:54-69 | A cancellation takes the source away with the activity |
| `DelayTimers.ExpiryKeepsValid` | plugins/delay/timer.c:321-383 | An expiry uses the source up and runs the call that was due |
| `DelayFacts.FactDescribesTimer` | plugins/delay/timer.c:144-241 | Reading the fields back gives state, delay, source, callback, its name, the expiration and the arguments as delivered |
| `DelayFacts.ArgNamesAreInjective` | plugins/delay/timer.c:215-238 | Arguments have field names of their own |
| `DelayMethods.BuildFldlist` | plugins/delay/timer.c:144-241 | The field array is filled within its 74 places, and the 2048 bytes for names never run out |
| `DelayMethods.ReadArguments` | plugins/delay/timer.c:338-376 | The loop reads the arguments back, as strings first and as integers next |
| `DelayMethods.Delay.TimerLookup` | plugins/delay/timer.c:109-126 | The one fact of an id is found, or none |
| `DelayMethods.Delay.TimerAdd` | plugins/delay/timer.c:36-68 | A timer is scheduled and stored; a refused fact takes its source back |
| `DelayMethods.Delay.TimerRestart` | plugins/delay/timer.c:70-93 | The old source and fact go before the new ones are made |
| `DelayMethods.Delay.CancelByEntry` | plugins/delay/timer.c:307-318 | An active timer loses its source and stops; others stay as they are |
| `DelayMethods.Delay.DelayExecution` | plugins/delay/request.c:26-51 | The branches of a request make the specified step, and there is one fact per id still |
| `DelayMethods.Delay.DelayCancel` | plugins/delay/request.c:54-69 | A cancellation makes the specified step and succeeds exactly when the id has a fact |
| `DelayMethods.Delay.TimerEventCb` | plugins/delay/timer.c:321-383 | An expiry makes the specified step |
| `Estimators.WindowAverageIsMean` | plugins/cgroups/cgrp-sysmon.c:760-812 | While the sum of the window fits an unsigned long, what is returned is the mean of its samples rounded half up, whatever wrapped around before, and lies between its least and largest sample |
| `Estimators.SlidingWindow.Update` | plugins/cgroups/cgrp-sysmon.c:760-812 | The total is the wrapped sum of the last samples, as many as the window has, and the average is that of the total |
| `Estimators.WindowSlides` | plugins/cgroups/cgrp-sysmon.c:760-812 | Writing the next slot of a full window replaces its oldest sample, also across the end of the array |
| `Estimators.RecentIsLatest` | plugins/cgroups/cgrp-sysmon.c:760-812 | The window holds the latest samples, as many as fit |
| `Estimators.WrappedSum` | plugins/cgroups/cgrp-sysmon.c:766-777 | Wrapping around after each step of a sum is wrapping around once at its end |
| `Estimators.WeightedSnoc` | plugins/cgroups/cgrp-sysmon.c:662-667 | The update adds one sample to the definition by shares: alpha for the newest, less by 1 - alpha for every later one |
| `Estimators.WeightedWithin` | plugins/cgroups/cgrp-sysmon.c:662-667 | The weighted average stays between zero and the largest sample |
| `Estimators.WeightedAverage.Update` | plugins/cgroups/cgrp-sysmon.c:662-667 | The average over all samples so far, rounded, never above the largest of them |
| `Estimators.WeightedAverage.constructor` | plugins/cgroups/cgrp-sysmon.c:635-647 | The factor is two divided by one more than the number of samples |
| `Estimators.SharesAddUp` | plugins/cgroups/cgrp-sysmon.c:662-667 | The shares of n alike samples make up all but the n-th power of one minus the factor |
| `Sysmon.DelayIsAntitone` | plugins/cgroups/cgrp-sysmon.c:262-281 | More waiting never means slower polling if and only if the interval at high load is not the longer one, and then the interval stays within its limits |
| `Sysmon.DelayIsInterpolated` | plugins/cgroups/cgrp-sysmon.c:262-281 | The interval is the long one up to the low threshold, the short one from the high one on, and in between falls in proportion, rounded half up |
| `Sysmon.AlertIsSinceLastCrossing` | plugins/cgroups/cgrp-sysmon.c:287-325 | The alert is on if and only if the high threshold was reached and the level not below the low one since |
| `Sysmon.NoticesAlternate` | plugins/cgroups/cgrp-sysmon.c:287-325 | Notifications alternate, high first, and the last one says whether the alert is on |
| `Sysmon.IoWait.Calculate` | plugins/cgroups/cgrp-sysmon.c:287-325 | One sample changes alert, notifications and next interval as specified |
| `Reclassify.ReclassificationEnds` | plugins/cgroups/cgrp-action.c:528-564 | Whatever rules apply from pass to pass and however the timers fire, if no pass schedules more than a given number there are no more passes than the geometric sum of that number over 17 levels |
| `Reclassify.ShortRulesEnd` | plugins/cgroups/cgrp-action.c:528-564 | In particular, rules with at most so many actions each bring about no more passes than the sum for twice that number |
| `Reclassify.OneBranch` | plugins/cgroups/cgrp-action.c:528-564 | If every pass schedules at most one reclassification, a process is classified at most 17 times |
| `Reclassify.SeventeenTimes` | plugins/cgroups/cgrp-action.c:528-564 | And 17 times is possible |
| `Reclassify.FiringUsesUp` | plugins/cgroups/cgrp-classify.c:461-498 | Every timer that fires uses up one of the passes that the pending timers may bring about |
| `Reclassify.PassIsBounded` | plugins/cgroups/cgrp-classify.c:339-455 | One pass classifies by argument at most once and schedules at most twice as often as one rule may ask |
| `Reclassify.LastAttemptDrops` | plugins/cgroups/cgrp-action.c:528-564 | After a pass at the maximum count the process is out of the table if and only if it was given up at least as often as it had entries, and behind every group action, nested passes included |
| `Reclassify.LastActionsDrop` | plugins/cgroups/cgrp-action.c:297-320 | For a list of actions without classification by argument: if and only if there are as many attempts to reclassify as entries, and one behind every group action |
| `Reclassify.RegroupedAtLast` | plugins/cgroups/cgrp-action.c:297-320 | A group action behind the last attempt creates the process again; in front of it, it does not |
| `Reclassify.PlainEffects` | plugins/cgroups/cgrp-action.c:199-223 | What a list of actions without classification by argument comes to, in order: a timer with the delay asked for and the next count up to the 16th time, then giving up; groups and other actions as they are |
| `Reclassify.PlainSucceeds` | plugins/cgroups/cgrp-action.c:199-223 | Such a list succeeds if and only if all its actions do, and enters the process exactly if one gives it a group |
| `Reclassify.PassKeeps` | plugins/cgroups/cgrp-action.c:528-564 | Before the last attempt no pass takes any process out of the table |
| `Reclassify.GoesByArgument` | plugins/cgroups/cgrp-classify.c:339-382 | Classification by argument n: the process goes by that argument from then on, or by a fixed name if there are fewer, and what happens is what rules for that name say |
| `Reclassify.WithRules` | plugins/cgroups/cgrp-classify.c:420-447 | Rules of a binary decide, unless they ask for nothing and there is a fallback |
| `Reclassify.WithoutRules` | plugins/cgroups/cgrp-classify.c:424-440 | Without rules the fallback decides, except for changes of ids, names and threads unless it is always to be used |
| `Reclassify.AddOnsNeverShadow` | plugins/cgroups/cgrp-classify.c:388-418 | Add-ons for binaries that the configuration defines make no difference to any pass, those by argument included |
| `Reclassify.FallbackStandsIn` | plugins/cgroups/cgrp-classify.c:420-447 | Defining a binary without rules by the actions of the fallback makes no difference to its passes |
| `Classifier.Context.ActionExec` | plugins/cgroups/cgrp-action.c:199-223 | The loop carries out every action in order although one fails |
| `Classifier.Context.ActionClassifyExec` | plugins/cgroups/cgrp-action.c:528-564 | A positive delay schedules below the maximum and gives the process up at it; zero and negative ones classify by an argument, zero by the one in front of the first |
| `Classifier.Context.ActionGroupExec` | plugins/cgroups/cgrp-action.c:297-320 | A process that is not in the table enters it |
| `Classifier.Context.GiveUp` | plugins/cgroups/cgrp-action.c:546-554 | At the maximum the process is taken out of the table if it is there |
| `Classifier.Context.ClassifyByArgvx` | plugins/cgroups/cgrp-classify.c:339-382 | The guard refuses a second classification by argument in a pass |
| `Classifier.Context.ClassifyByRules` | plugins/cgroups/cgrp-classify.c:388-455 | Rules of the binary, then of add-ons, then the fallback, also when the rules found give no action; events that are no reason to fall back are passed over |
| `Classifier.Context.ClassifyByBinary` | plugins/cgroups/cgrp-classify.c:286-333 | An unknown process is created first, unless it is gone already, and the answer of the rules is returned |

## Left out

- Floating point: doubles are reals, and no rounding, overflow, infinity or NaN is modelled. Division by zero, the library functions and strtod are parameters.
- Memory allocation failures, errno, logging and debug printing.
- ResponseCurve.CurveCreate: assumes imin <= imax, since for a reversed input range the grid of the check has no end (ResponseCurve.GridEndsIff) or the table no place.
- ResponseCurve.CheckCurve: the infinite step of an input range of one point is a case of its own.
- RpnLexer.GetToken: returns positions in a string instead of pointers, and texts end where the string does.
- RpnParseMethod.RpnParse: does not say that every accepted text is infix, because the parser accepts texts such as `x 1 +` as well; the evaluator decides those.
- Cascade.PartitionAddProcess: requires that the recursion ends, since a method of the model cannot run on for ever; Halting.HaltsIffNoCycleAhead says when that is, and its callers require that condition.
- Reparent.UnfreezeFixup: the flag of a group is cleared also when a write of the thaw failed, as in the code; the group is then not moved again.
- Membership.GroupAddProcess: leaves facts and application tracking out; as for all moves, the cascade must not come to a process that traces itself.
- Lists.ListDelete: reaches an entry through its own hook, so the pointer arithmetic of list_entry is not modelled.
- ProcTable.ProcTable.Foreach: the callback may unhash the visited entry but no other, as those of the repository do.
- Priority.GroupPriorityHolds: assumes that priorities are overwritten; with one preserved the group's need not hold for that member.
- Reparent.PartitionFreeze: whether the freezer control can be written is an arbitrary choice.
- process_adjust_oom repeats the switch of process_adjust_priority with other limits; its file protocol is left out.
- leader_exit, group_exit, mounting, the configuration grammar and printing.
- The attribute caching of process_get_argv: argument vectors are given.
- Classifier.Context.ClassifyByArgvx: does not model the renaming of the process by its argument.
- Classifier.Context.ActionExec: actions other than reclassifying, grouping and ignoring are recorded with a given success and change nothing else.
- Classifier.Context.ActionClassifyExec: for a zero delay the code reads in front of the argument vector; what it finds there is an arbitrary text.
- BluezDevices.Bluez.TransportAnnounced: assumes that the device of a new transport is known; the code does not check the pointer.
- BluezDevices.Bluez.InterfacesRemoved: a device removed before its transports leaves them pointing to it, after which nothing is said.
- Bluez5.CountingIsExact: devices are removed when disconnected and without transports; Bluez5.RemovalIsExact covers the others.
- Hands-free cards: their state is recorded for the first card alone, so nothing of the kind holds for them.
- D-Bus messages: their contents are given, already taken apart.
- DelayMethods.BuildFldlist: the expiration time is an arbitrary text.
- DelayMethods.Delay.TimerEventCb: what the callback itself requests comes after the expiry, and the id is a value that outlives its fact.
- The fact store is a set of facts with typed fields; its signals are not modelled.
- Sysmon.IoWait.Calculate: takes the average as given, without the sampling of /proc/stat and the clock.
- Estimators.SlidingWindow.Update: assumes a window of at least one sample; the code allocates a window of any size.
- Sysmon.DelayIsAntitone: assumes ordered thresholds, as the initialisation checks.
- Estimators.WeightedAverage.Update: the smoothing factor is an exact quotient.
