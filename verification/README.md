# A verified model of the native column scheduler, message layer and converters

This project models the native side of a Spark/Arrow/Fletcher bridge and proves properties of the model
with Dafny 4.11. `dafny verify dfyconfig.toml` checks all of it. No lemma relies on Dafny's automatic
induction: every induction is a recursive call in its proof.

**The scheduler.** A pool of workers takes row groups from deques and a global queue and drives hardware
instances over one register bus guarded by a spinlock. `SchedulerModel` is a labelled transition system
with one step per register access, lock, unlock, queue probe, kernel completion and client action, for any
number of workers up to the number of instances and any number of tasks; every interleaving of these steps
is a run. The hardware is an environment: it starts in any condition, a kernel may finish once it and its
four readers are started, and then publishes `f(arguments)` with its done bit, for an arbitrary `f`.
`SchedulerSafety`, `SchedulerInvariants` and `SchedulerResults` prove what holds in every reachable state:
a future that is ready holds the kernel's value for its own task; critical sections exclude each other and
the write history is a row of whole sections; tasks are conserved; results come in submission order.
`SchedulerProgress` proves that the scheduler cannot deadlock, and `SchedulerFairness` that under a fair
schedule it finishes, although its spinlock is unfair. `TaskPool` looks at the queues alone, with
workers that submit tasks too, and finds exactly when a task gets lost. `PlatformClasses` and
`SchedulerClasses` have the program's own shape, objects and loops, and are proved to issue exactly the
write batches the transition system is made of.

**The message layer.** `Wire` defines varints, fixed-width values, tags and records as the Protocol Buffers
encoding does (sections "Base 128 Varints", "Message Structure" and "Length-Delimited Records" of its
specification). `Messages` holds one table row for each `case` of the generated parsers of Types_.proto, for
all 29 message types, and the merge of "Last One Wins". `Codec` parses and serialises message values,
`CodecLaws` and `Sizes` prove the laws of both, and `WireFormat` says what each field's bytes are and what
a field that is read last leaves behind. `MessageObjects` is the heap layer: objects with has-bits,
selectively reset fields and lazily allocated, owned sub-messages, refining the values. The generated
classes come from one template and differ only in tables (field kinds, has-bit numbers, clear masks), so one
class parameterised by its message type stands for all of them, TreeNode and its relatives included.

**On top of it.** `SchemaDecoder` turns the bytes of a Schema message into Arrow fields. `Converters` builds
record batches over buffers that Java owns and copies batches out into them. `DataSetReader` flattens the
batches of scan tasks.

Where a wanted property is false of the code, the exact condition is proved, with an input at which it
fails:

- `try_steal` loses a task exactly when the deque holds two or more and the last one is a task
  (`StealKeepsLive`, `ConservedIffShortSteals`; the run of `LongStealHappens`);
- the registers identify a chunk exactly up to 2^32 rows (`WordsIdentifyChunk`; `RowCountsCollide`);
- an accepted byte string hides what is appended to it exactly when it was not read to its end
  (`ConcatenationExact`; `ConcatenationNeedsTheEnd`);
- a message is serialised but refused when read exactly when it is nested beyond the recursion limit
  (`RoundTripExact`; `TooDeepIsRefused`);
- ProtoTypeToSchema never refuses a column, because its null check is on a field that is never null; a
  column gets a null type exactly in the cases of `UnsupportedExact` (`UnsupportedIsNotRefused`);
- the copy loop accesses memory beyond the last buffer exactly when more buffers are needed than there are
  and those there are fit, for its guards never stop it (`WalkExact`; `OneBufferTooFew`);
- writing through a pointer to a sub-message leaves its field standing for a message exactly when the
  field's has-bit is set (`WriteThrough`; `LateWrite`);
- copying a message from its own sub-message gives that sub-message exactly when it was empty, for it is
  cleared before it is read (`CopyFrom`; `CopyOfOwnPart`).

## Model

| member | source | states |
|---|---|---|
| Mmio.WordsIdentifyChunk | native_root/arrow/include/ColumnScheduler.h:173-185 | two chunks get the same argument registers if and only if addresses and sizes agree and the row counts agree modulo 2^32, since WriteMMIO takes 32 bits |
| Mmio.RowCountsCollide | native_root/arrow/include/ColumnScheduler.h:176 | an empty chunk and one of 2^32 rows are different and get the same registers |
| Mmio.SplitJoin | native_root/arrow/include/ColumnScheduler.h:160-162 | joining the high and low result register gives back the 64-bit result |
| Mmio.DoneBitReadsDone | native_root/arrow/include/ColumnScheduler.h:110-118 | the masked status word shows the done bit exactly when the kernel is done |
| Mmio.RegistersAreApart | native_root/arrow/include/Util.h:402-405 | with the block offsets of calculate_reg_base_offset, two register addresses are equal if and only if block and register are, for every step of up to 256 bytes between registers |
| Mmio.BatchRegistersFit | native_root/arrow/include/ColumnScheduler.h:71-75 | every access of the three batches, the polls and the fetches goes to one of the sixteen registers of a block |
| Mmio.TaskWordsSpelledOut | native_root/arrow/include/ColumnScheduler.h:173-185 | the kernel gets for each column the row count modulo 2^32, then the two halves of address and of size, which add up to them, the low one first |
| Mmio.StrobesSpelledOut | native_root/arrow/include/ColumnScheduler.h:61-105 | Reset writes 4 and then 0 to register 0 of blocks 5k up to 5k + 4, Start writes 1 and then 0 from block 5k + 4 down to 5k |
| Mmio.ArgumentsSpelledOut | native_root/arrow/include/ColumnScheduler.h:164-191 | reader i of instance k gets its row count in register 10, its address in 11 and 12, its size in 13 and 14 of block 5k + i |
| Mmio.OutputIsFixedPoint | native_root/arrow/include/ColumnScheduler.h:160-162 | a task's value times 2^18 is what the kernel computed |
| TaskPool.AfterStealCount | native_root/arrow/include/ColumnScheduler.h:272-280 | stealing from a deque of two or more destroys its last entry, and that is all it destroys |
| TaskPool.StepCensus | native_root/arrow/include/ColumnScheduler.h:353-431 | balance of every queue step for every task: what was there plus what is submitted is what remains plus what is destroyed |
| TaskPool.StealKeepsLive | native_root/arrow/include/ColumnScheduler.h:272-280 | a steal keeps the multiset of live tasks if and only if the victim holds at most one entry or ends in an emptied one |
| TaskPool.ConservedIffShortSteals | native_root/arrow/include/ColumnScheduler.h:361-418 | over every run with submissions from outside and from workers: no task is lost or doubled if and only if every steal met a deque of length at most one |
| TaskPool.LongStealHappens | native_root/arrow/include/ColumnScheduler.h:272-280 | a concrete run of five steps, in which a worker submits twice and another one steals, ends with a submitted task that is nowhere |
| TaskPool.ShellsComeFromLongSteals | native_root/arrow/include/ColumnScheduler.h:419-431 | in every run, a worker takes an emptied entry, whose call is undefined, only after some steal met a deque of two or more |
| TaskPool.ExactlyOnePlace | native_root/arrow/include/ColumnScheduler.h:353-431 | under conservation a submitted task is in exactly one of global queue, deques, running and finished, and is begun at most once |
| SchedulerModel.OwnInstanceIffEnough | native_root/arrow/include/ColumnScheduler.h:453-454 | workers have pairwise different instances if and only if there are at most as many workers as instances |
| SchedulerSafety.WriteKeepsStage | native_root/arrow/include/ColumnScheduler.h:71-75 | every write of Reset, setPtoaArguments and Start takes the worker's instance from one point of the protocol to the next: cleared, then arguments word by word, then readers and kernel started |
| SchedulerSafety.FinishKeepsStage | native_root/arrow/include/ColumnScheduler.h:113-119 | a kernel that finishes while its worker is at any point keeps what the worker relies on; in particular a done bit always comes with the output of the present task |
| SchedulerSafety.StepKeepsWellFormed | native_root/arrow/include/ColumnScheduler.h:344-431 | no enabled step leaves the well-formed states: controls in range, running workers hold a submitted task, device and queues intact |
| SchedulerSafety.StepKeepsStages | native_root/arrow/include/ColumnScheduler.h:447-462 | every step of anyone keeps every worker's instance at the point of the protocol where that worker stands |
| SchedulerInvariants.StepKeepsExclusive | native_root/arrow/include/ColumnScheduler.h:37-46 | every step keeps at most one worker between lock and unlock, and the lock state says whether one is |
| SchedulerInvariants.StepKeepsHistory | native_root/arrow/include/ColumnScheduler.h:71-80 | every step keeps the write history a row of whole sections followed by the part of the one in progress |
| SchedulerResults.ReachableInvariant | native_root/arrow/include/ColumnScheduler.h:443-462 | all invariants together hold in every reachable state |
| SchedulerResults.FuturesAreOwnOutputs | native_root/arrow/include/ColumnScheduler.h:447-462 | in every interleaving a ready future, times 2^18, is the kernel function of exactly its task's four register sets: nothing of another worker, no stale done bit, no torn read |
| SchedulerResults.MutualExclusion | native_root/arrow/include/ColumnScheduler.h:29-47 | in every reachable state at most one worker is inside a critical section, unlocked polling notwithstanding |
| SchedulerResults.WritesAreWholeSections | native_root/arrow/include/ColumnScheduler.h:61-105 | the global write history is a concatenation of complete Reset, argument and Start batches, each of one worker on its own instance, plus a partial one only while the lock is held |
| SchedulerResults.EachTaskOnce | native_root/arrow/include/ColumnScheduler.h:405-431 | every submitted task is in exactly one of queued, running and finished, is begun at most once, and the deques stay empty as only the client submits |
| SchedulerResults.TasksBeginInOrder | native_root/arrow/include/ColumnScheduler.h:344-431 | in every reachable state the tasks begun and those in the global queue are all tasks in the order of their submission |
| SchedulerResults.SubmitAppendsOutputs | native_root/arrow/ColumnScheduler.cpp:23-40 | whichever worker ran which chunk and in whatever order they finished, Submit leaves the old results followed by one value per chunk in chunk order, which times 2^18 is what the kernel computes for that chunk |
| SchedulerResults.ResultsAreSequentialMap | native_root/arrow/ColumnScheduler.cpp:23-70 | between calls, delivered values followed by queued ones are one for each submitted chunk in order, times 2^18 the kernel's value for it; nothing is queued or running, and hasNext holds exactly while fewer values were taken than submitted |
| SchedulerResults.VictimsCoverQueues | native_root/arrow/include/ColumnScheduler.h:363-365 | the steal loop visits every queue exactly once and the worker's own last, for any number of workers |
| SchedulerResults.YieldsAfterFullScan | native_root/arrow/include/ColumnScheduler.h:419-431 | a worker yields only after this very call found its own deque, the global queue and every other deque empty |
| SchedulerProgress.ProductiveStepDrops | native_root/arrow/include/ColumnScheduler.h:344-431 | every productive step lowers a measure over queued tasks, protocol position, pending kernels and client work |
| SchedulerProgress.NoDeadlock | native_root/arrow/include/ColumnScheduler.h:344-431 | in every state of the invariant with an unresolved future or a call under way some productive step is enabled |
| SchedulerProgress.CanComplete | native_root/arrow/ColumnScheduler.cpp:23-40 | from every such state a path no longer than the measure completes all work |
| SchedulerProgress.ProductivePathsAreShort | native_root/arrow/include/ColumnScheduler.h:344-431 | a path all of whose steps are productive is no longer than the measure |
| SchedulerProgress.StepWeighed | native_root/arrow/include/ColumnScheduler.h:344-431 | for a second measure, the work that is left: no step of anyone but Submit raises it, idle scans and polls in vain included, and every step that brings work forward lowers it |
| SchedulerProgress.AdvancesAreBounded | native_root/arrow/include/ColumnScheduler.h:344-431 | on every path, however many waiting steps are mixed in, the steps that bring work forward number at most the work at the start plus the work submitted on the way |
| SchedulerProgress.AdvancesAreFew | native_root/arrow/include/ColumnScheduler.h:344-431 | on every path without Submit they number at most the work at the start |
| SchedulerFairness.SomethingAdvances | native_root/arrow/include/ColumnScheduler.h:29-47 | while work is unfinished, on a path without Submit in which every window of K steps gives every worker a turn, lets kernels that stay ready finish and the client go on, some step brings work forward in every (workers + 6) * K steps |
| SchedulerFairness.FairPathsComplete | native_root/arrow/include/ColumnScheduler.h:344-431 | every such path of length (work + 1) * (workers + 6) * K passes through a state with no call under way and every future ready: under a fair schedule the unfair spinlock starves nothing |
| SchedulerFairness.RoundRobinCompletes | native_root/arrow/ColumnScheduler.cpp:23-40 | round robin over workers, kernels and client is such a schedule, with a window of one round, and so completes from every state of the invariant |
| PlatformClasses.BatchReachesStage | native_root/arrow/include/ColumnScheduler.h:71-75 | issuing the first t writes of a batch one after the other brings an instance to the t-th point of the section |
| PlatformClasses.ThreadSafePlatform.Lock | native_root/arrow/include/ColumnScheduler.h:37-42 | spins as often as another thread is found to hold the lock, and then holds it |
| PlatformClasses.ThreadSafePlatform.Reset | native_root/arrow/include/ColumnScheduler.h:61-82 | the loop writes exactly the Reset batch and leaves all five blocks cleared, whatever their condition |
| PlatformClasses.ThreadSafePlatform.SetPtoaArguments | native_root/arrow/include/ColumnScheduler.h:164-191 | the loop writes exactly the argument batch; a cleared instance then holds the words of all four chunks |
| PlatformClasses.ThreadSafePlatform.Start | native_root/arrow/include/ColumnScheduler.h:84-105 | the loop writes exactly the start batch, kernel first; an instance with its arguments is then started |
| PlatformClasses.ThreadSafePlatform.WaitForFinish | native_root/arrow/include/ColumnScheduler.h:106-142 | polling ends, within the device's time, with the done bit of this task's run, and changes no other instance |
| PlatformClasses.ThreadSafePlatform.ReadResult | native_root/arrow/include/ColumnScheduler.h:144-163 | after the done bit the two halves read give a value that times 2^18 is the kernel's output for this task |
| PlatformClasses.RunInstanceProjection | native_root/arrow/include/ColumnScheduler.h:447-462 | from any condition of the device the task returns a value that times 2^18 is the kernel's output for its registers, and the register trace grows by its three batches |
| SchedulerClasses.WorkStealingTaskQueue.TrySteal | native_root/arrow/include/ColumnScheduler.h:272-280 | hands out the front, leaves an emptied entry in its place and drops the back; false exactly on an empty deque |
| SchedulerClasses.ThreadPool.Submit | native_root/arrow/include/ColumnScheduler.h:405-418 | a worker thread submits to the front of its own deque, any other thread to the back of the global queue, and no other queue changes |
| SchedulerClasses.ThreadPool.PopTaskFromOtherWorkerQueue | native_root/arrow/include/ColumnScheduler.h:361-372 | finds a task if and only if some deque has one, and changes the victim's deque only |
| SchedulerClasses.ThreadPool.RunPendingTask | native_root/arrow/include/ColumnScheduler.h:419-431 | own deque before global queue before the others; the empty answer means all of them are empty |
| SchedulerClasses.ColumnScheduler.Get | native_root/arrow/ColumnScheduler.cpp:34-37 | whichever worker is given each turn, the value of a submitted task arrives and is its output |
| SchedulerClasses.ColumnScheduler.Submit | native_root/arrow/ColumnScheduler.cpp:23-40 | results grow by the outputs of the chunks in chunk order, every task has its value on return, and delivered and queued values stay the outputs of all tasks in order |
| SchedulerClasses.ColumnScheduler.HasNext | native_root/arrow/ColumnScheduler.cpp:67-70 | true exactly when fewer values were delivered than tasks submitted |
| SchedulerClasses.ColumnScheduler.Next | native_root/arrow/ColumnScheduler.cpp:41-47 | returns the output of the first task whose value was not delivered yet |
| Wire.VarintRoundTrip | native_root/proto/Types_.pb.cc:1408-1410 | a varint below 2^64 takes at most ten bytes and reads back as itself whatever follows |
| Wire.VarintSizeExact | native_root/proto/Types_.pb.cc:1692-1697 | the length computed by counting groups is the length written |
| Wire.VarintGroups | native_root/proto/Types_.pb.cc:1592-1595 | the bytes of a varint are the seven-bit groups of its value, least significant first, all but the last marked, and none too many |
| Wire.ReadsGroups | native_root/proto/Types_.pb.cc:1384-1451 | any marked row of groups within the limit, minimal or not, is read as their sum |
| Wire.ReadsNothing | native_root/proto/Types_.pb.cc:1384-1451 | a varint is refused exactly when no byte within the limit ends it |
| Wire.LittleEndianBytes | native_root/proto/Types_.pb.cc:4857-4875 | four and eight bytes make up their value, the least significant first |
| Wire.RecordRoundTrip | native_root/proto/Types_.pb.cc:1592-1595 | any valid record, of any wire type, is read back with its tag from its own bytes, whatever follows |
| Messages.TableOk | native_root/proto/Types_.pb.cc:7406-7571 | field numbers ascend, and every tag lies within the cutoff of its message's parser |
| Messages.LookupExact | native_root/proto/Types_.pb.cc:1382-1416 | testing field number and low tag byte under the cutoff accepts a tag exactly when it is the field's own tag |
| Messages.ScalarRoundTrip | native_root/proto/Types_.pb.cc:1384-1451 | every scalar and enum value in range comes back from its sign-extended wire form |
| Messages.MergeEmptyLeft | native_root/proto/Types_.pb.cc:1797-1802 | merging into the empty message gives the merged message |
| Messages.MergeEmptyRight | native_root/proto/Types_.pb.cc:1752-1788 | merging the empty message changes nothing |
| Messages.MergeAssociative | native_root/proto/Types_.pb.cc:7963-8020 | MergeFrom is associative, for trees of any depth |
| Messages.MergeShape | native_root/proto/Types_.pb.cc:7963-8020 | merging two trees of a message type gives a tree of that type, which closes the laws above |
| Messages.MergedSlotAt | native_root/proto/Types_.pb.cc:2264-2286 | at the end of any path of fields, at any depth: a scalar or string of the merged-in message wins, what it lacks stays, elements are appended, sub-messages join |
| Codec.SerializedMerges | native_root/proto/Types_.pb.cc:2027-2150 | parsing the bytes of a message into any other message merges the one into the other, with nothing left unread |
| Codec.ParseUndoesSerialize | native_root/proto/Types_.pb.cc:7400-7698 | parsing what was serialised gives back the message, for every message tree of every type within the recursion limit whose size fits an int |
| CodecLaws.ParseKeepsGood | native_root/proto/Types_.pb.cc:1375-1533 | whatever bytes are accepted, values are in range, unknown fields are genuinely unknown, and nesting stays within the limit |
| CodecLaws.DivertedIsUnknown | native_root/proto/Types_.pb.cc:1385-1396 | an out-of-range enum value is kept as an unknown field that the parser would divert again unchanged |
| CodecLaws.Normalises | native_root/proto/Types_.pb.cc:1384-1595 | parse, serialise, parse again gives the same message for every accepted byte string whose serialised size fits an int |
| Growth.AtMostTwice | native_root/proto/Types_.pb.cc:1384-1595 | the message parsed from any accepted byte string serialises to at most twice its length, diverted and sign-extended values included |
| Growth.NormalisesShort | native_root/proto/Types_.pb.cc:1384-1595 | every accepted byte string of at most half the range of int normalises in one pass |
| CodecLaws.ParseDeeper | native_root/jni/ProtobufSchemaDeserializer.cpp:16-20 | what is accepted under one recursion limit is accepted with the same result under any larger one |
| CodecLaws.RoundTripExact | native_root/jni/ProtobufSchemaDeserializer.cpp:16-20 | a message comes back from its own bytes if and only if it is nested within the recursion limit, and is refused otherwise |
| CodecLaws.NestedGood | native_root/jni/ProtobufSchemaDeserializer.cpp:16-20 | a field nested n levels down is within a limit if and only if n is |
| CodecLaws.TooDeepIsRefused | native_root/jni/ProtobufSchemaDeserializer.cpp:16-20 | a field nested 1001 levels down is serialised to at most 6006 bytes, which are refused |
| CodecLaws.GoodAtHeight | native_root/jni/ProtobufSchemaDeserializer.cpp:16-20 | the limit a message needs is its height as a tree, through single and repeated sub-messages alike |
| CodecLaws.RoundTripByHeight | native_root/jni/ProtobufSchemaDeserializer.cpp:16-20 | a message comes back from its own bytes if and only if it is at most a thousand levels high |
| CodecLaws.ParseAppend | native_root/proto/Types_.pb.cc:2031-2100 | a parse that reached the end of its input continues on whatever is appended |
| CodecLaws.ParseInto | native_root/proto/Types_.pb.cc:2027-2105 | parsing into a merged message is merging into it what is parsed, failure included |
| CodecLaws.ConcatenationMerges | native_root/proto/Types_.pb.cc:2264-2286 | parsing a concatenation is parsing both parts and merging the second into the first, when the first was read to its end |
| CodecLaws.ConcatenationExact | native_root/proto/Types_.pb.cc:7583-7592 | that law holds for every second byte string if and only if the first one is read to its end |
| CodecLaws.ConcatenationNeedsTheEnd | native_root/proto/Types_.pb.cc:7575-7579 | a single zero byte is accepted as the empty message of any type and swallows the field after it |
| Sizes.TagSizeExact | native_root/proto/Types_.pb.cc:7900-7940 | the constants one and two are the true tag lengths below field 16 and from 16 up |
| Sizes.ScalarSizeExact | native_root/proto/Types_.pb.cc:1686-1729 | tag constant plus computed value size is the length of the written scalar field, negative values included |
| Sizes.SizeExact | native_root/proto/Types_.pb.cc:7820-7946 | ByteSizeLong is the number of bytes serialised for every message, as soon as either fits an int, and the two fit together or not at all |
| WireFormat.SerializedInOrder | native_root/proto/Types_.pb.cc:2108-2150 | a message is written as the bytes of its fields in the order of their numbers, with the unknown fields last |
| WireFormat.IntegerField | native_root/proto/Types_.pb.cc:4588-4600 | every integer, enum or bool field is its tag, 8 times its number, and the varint of its value in 64-bit two's complement, so that reading it as int64 gives the same number; a negative one takes ten bytes after the tag |
| WireFormat.FixedField | native_root/proto/Types_.pb.cc:4857-4869 | floats and doubles are tags with wire type 5 and 1 and the bytes of the bit pattern, least significant first |
| WireFormat.TextField | native_root/proto/Types_.pb.cc:2116-2124 | a string is its tag, its length and its bytes |
| WireFormat.MessageField | native_root/proto/Types_.pb.cc:2126-2130 | a sub-message is its tag, the length of its own serialisation, and that |
| WireFormat.RepeatedField | native_root/proto/Types_.pb.cc:2137-2144 | each element is written with a tag of its own, in order |
| WireFormat.AbsentField | native_root/proto/Types_.pb.cc:2114-2116 | an absent field, or an empty list, contributes no byte |
| WireFormat.LastIntegerWins | native_root/proto/Types_.pb.cc:1384-1451 | an integer field read after any accepted input holds the value of its type congruent to the varint, with all else as before; an enum value that is none goes to the unknown fields as its sign-extended int |
| WireFormat.LastTextWins | native_root/proto/Types_.pb.cc:2031-2045 | a string field read after any accepted input holds its own bytes, with all else as before |
| WireFormat.LastFixedWins | native_root/proto/Types_.pb.cc:4813-4836 | so does a float or double field with its own bit pattern |
| MessageObjects.HasBitsDistinct | native_root/proto/Types_.pb.cc:6830-6889 | no two optional fields of a message share a has-bit, and all fit the word |
| MessageObjects.MaskCoversBit | native_root/proto/Types_.pb.cc:1241-1248 | the mask under which Clear resets a scalar contains the scalar's own has-bit |
| MessageObjects.MessageObject.RepresentationInvariant | native_root/proto/Types_.pb.h:4564-4610 | a set has-bit means a non-null owned sub-message; a clear one means that string, scalar or sub-message is at its default |
| MessageObjects.MessageObject.HasTells | native_root/proto/Types_.pb.h:4504-4506 | has_ answers whether the represented message has the field |
| MessageObjects.MessageObject.constructor | native_root/proto/Types_.pb.cc:1187-1191 | a new object represents the empty message |
| MessageObjects.MessageObject.GetScalar | native_root/proto/Types_.pb.h:4336-4339 | the field's value, or zero when it is absent |
| MessageObjects.MessageObject.GetText | native_root/proto/Types_.pb.h:4511-4514 | the field's bytes, or none when it is absent |
| MessageObjects.MessageObject.GetMessage | native_root/proto/Types_.pb.h:4571-4576 | the sub-message, or one that is empty when the field is absent |
| MessageObjects.MessageObject.SetScalar | native_root/proto/Types_.pb.h:4340-4344 | sets this field of the represented message and no other, keeping the invariant |
| MessageObjects.MessageObject.SetText | native_root/proto/Types_.pb.h:4515-4519 | sets this field of the represented message and no other, keeping the invariant |
| MessageObjects.MessageObject.ReleaseText | native_root/proto/Types_.pb.h:4545-4552 | hands out the string exactly when the field was present, and leaves it absent |
| MessageObjects.MessageObject.MutableMessage | native_root/proto/Types_.pb.h:4584-4592 | the field becomes present; the sub-message handed out is what was there, or empty |
| MessageObjects.MessageObject.ReleaseMessage | native_root/proto/Types_.pb.h:4577-4583 | ownership passes to the caller, disjoint from what remains, and the field is absent |
| MessageObjects.MessageObject.SetAllocatedMessage | native_root/proto/Types_.pb.h:4593-4610 | takes ownership of the argument and represents it, or clears the field for null |
| MessageObjects.MessageObject.AddElement | native_root/proto/Types_.pb.h:4650-4653 | appends an empty element and hands it out |
| MessageObjects.MessageObject.ClearField | native_root/proto/Types_.pb.h:4567-4570 | the field is absent or empty afterwards, every other field unchanged |
| MessageObjects.MessageObject.Clear | native_root/proto/Types_.pb.cc:1916-1936 | although each field is reset only under its mask, the result is the empty message with nothing stale left behind |
| MessageObjects.MessageObject.MergeFrom | native_root/proto/Types_.pb.cc:2264-2286 | the represented message becomes the merge of both: scalars and strings that the source has are the source's, fields it lacks stay, elements are appended; the source is apart or an empty one, possibly a sub-message of the object; nothing is shared with a source apart |
| MessageObjects.MessageObject.CopyFrom | native_root/proto/Types_.pb.cc:2295-2300 | the represented message becomes that of the source if and only if the source is the object itself, is apart from it, or was empty; from a sub-message held by pointers, at any depth, the result is the empty message |
| MessageObjects.EmptyBelow | native_root/proto/Types_.pb.cc:3187-3212 | once an object has become empty with its pointers in place, every sub-message they lead to, at any depth, is valid and empty, has-bit or not |
| MessageObjects.CopyOfOwnPart | native_root/proto/Types_.pb.cc:8029-8034 | replacing a concrete if-tree by its own condition gives the empty tree, though the condition was not empty |
| MessageObjects.MessageObject.Copy | native_root/proto/Types_.pb.cc:1869-1886 | a deep copy: a fresh object that represents the same message and shares nothing |
| MessageObjects.MessageObject.Swap | native_root/proto/Types_.pb.cc:2306-2320 | exchanges the two represented messages by exchanging fields, touching no deeper object and losing none |
| MessageObjects.MessageObject.MergePartialFromCodedStream | native_root/proto/Types_.pb.cc:2027-2105 | the parse loop in place refines parsing of values: same acceptance, same message, same stop; the object is valid even when parsing fails |
| MessageObjects.MessageObject.ByteSizeLong | native_root/proto/Types_.pb.cc:2198-2247 | returns the computed size and leaves the right cached size in every object below, changing nothing else |
| MessageObjects.MessageObject.SerializeWithCachedSizes | native_root/proto/Types_.pb.cc:2108-2150 | with length prefixes taken from the cached sizes, writes exactly the serialisation of the represented message |
| MessageObjects.PrintAndParse | native_root/proto/Types_.pb.cc:2027-2247 | the two passes and the parse loop on objects: the size announced is the number of bytes written, and they rebuild an equal message in fresh objects |
| MessageObjects.WriteThrough | native_root/proto/Types_.pb.h:4564-4592 | after a scalar is written through a pointer to a field's sub-message, the field stands for a message, under any ownership at all, if and only if its has-bit is set |
| MessageObjects.WriteThroughPresent | native_root/proto/Types_.pb.h:4564-4592 | written through the pointer to a present sub-message, the scalar becomes part of the parent's message, and nothing else in it changes |
| MessageObjects.LateWrite | native_root/proto/Types_.pb.h:4567-4592 | a concrete history in which a pointer kept past clear_type leaves content behind a clear has-bit, so that the field stands for nothing |
| SchemaDecoder.DataTypeExact | native_root/jni/ProtobufSchemaDeserializer.cpp:74-133 | the type switches yield a type if and only if the getters name it by number and by the details that matter for it |
| SchemaDecoder.UnsupportedExact | native_root/jni/ProtobufSchemaDeserializer.cpp:22-133 | exactly which enum values, and which time units with which times, have no Arrow type |
| SchemaDecoder.TypesSpelledOut | native_root/jni/ProtobufSchemaDeserializer.cpp:22-133 | the enum in full: which number, unit and interval means which type |
| SchemaDecoder.ColumnByNumbers | native_root/jni/ProtobufSchemaDeserializer.cpp:74-144 | a column is read by field numbers: name, type and nullable from 1, 2 and 3, and of the type its number, precision, scale, time unit and interval type from 1, 3, 4, 6 and 8 |
| SchemaDecoder.TypelessIsNone | native_root/jni/ProtobufSchemaDeserializer.cpp:135-137 | a column without a type decodes to the type of nulls, never to a null type |
| SchemaDecoder.UnsupportedIsNotRefused | native_root/jni/ProtobufSchemaDeserializer.cpp:147-161 | six bytes of a schema with one column of type FIXED_SIZE_BINARY are accepted and decode to a field with a null type |
| SchemaDecoder.ProtoTypeToField | native_root/jni/ProtobufSchemaDeserializer.cpp:135-144 | read through the getters of the object: name, type with NONE for a missing one, nullable defaulting to true |
| SchemaDecoder.ProtoTypeToSchema | native_root/jni/ProtobufSchemaDeserializer.cpp:147-161 | one field per column in order; no column is ever refused |
| SchemaDecoder.ReadSchemaFromProtobufBytes | native_root/jni/ProtobufSchemaDeserializer.cpp:163-172 | fails exactly when the bytes are refused, and otherwise decodes the parsed schema |
| SchemaDecoder.DecodeUndoesEncode | native_root/jni/ProtobufSchemaDeserializer.cpp:16-172 | for every list of columns, decoding the serialised schema gives one field per column in order, of the same name and type, nullable unless the writer said otherwise; zones and children are dropped |
| Converters.StartGrows | native_root/jni/Converters.cpp:63-64 | the cursor of a later field lies at least one buffer per field further on |
| Converters.SlicesTile | native_root/jni/Converters.cpp:66-112 | every slot below the total lies in the slice of exactly one field |
| Converters.TotalIsCount | native_root/jni/Converters.cpp:66-112 | the total is one buffer for each field, one more for each that is not nullable and one more for each binary-like one |
| Converters.MakeRecordBatch | native_root/jni/Converters.cpp:57-127 | succeeds if and only if the arrays cover the total; the buffers of all columns one after the other are then exactly the first entries of the arrays, and the bitmap is missing just in nullable columns |
| Converters.WalkExact | native_root/jni/Converters.cpp:141-193 | for every list of buffers: memory beyond the last one is accessed if and only if more are needed than there are and those there are fit; the copy succeeds if and only if there are enough and all fit |
| Converters.OneBufferTooFew | native_root/jni/Converters.cpp:145-173 | one fixed-width column and a single buffer pass every guard and overrun it |
| Converters.OutcomeByColumn | native_root/jni/Converters.cpp:145-191 | how the copy ends from sizes alone: it succeeds if and only if there are two or three buffers for each column, bitmaps and values are no longer than theirs, and offsets are shorter or Java grants a buffer |
| Converters.CopyRecordBatch | native_root/jni/Converters.cpp:130-195 | for any number of buffers and any answer of Java, it succeeds or overruns exactly in those cases; on success each column's bitmap, or ones, values and offsets are at the start of their buffers, offsets in the granted one just when they do not leave room in theirs, and tails and all other memory are unchanged |
| Converters.CursorGap | native_root/jni/Converters.cpp:63-191 | copying is ahead of building by one slot for every nullable field |
| Converters.CursorsAgree | native_root/jni/Converters.cpp:63-191 | both are at the same slot after a field if and only if no field so far is nullable |
| Converters.CopyAndRebuild | native_root/jni/Converters.cpp:57-195 | building from the buffers a batch was copied to gives columns whose values and offsets begin with the original bytes and whose absent bitmaps are all ones, also where Java moved a buffer |
| DataSetReader.EmptyTasksAreSkipped | native_root/arrow/DataSetParquetReader.cpp:78-85 | a scan task without batches makes no difference to what is delivered |
| DataSetReader.FlattenAt | native_root/arrow/DataSetParquetReader.cpp:68-86 | batch j of task i comes as number j after all batches of the tasks before |
| DataSetReader.ReadTasks | native_root/arrow/DataSetParquetReader.cpp:61-121 | a new reader delivers every batch of every task at that place, and then the end marker |
| DataSetReader.DataSetParquetReader.constructor | native_root/arrow/DataSetParquetReader.cpp:61-65 | after the first task is fetched, the batches of all tasks are pending, each at its place |
| DataSetReader.DataSetParquetReader.ReadNext | native_root/arrow/DataSetParquetReader.cpp:68-86 | returns the next pending batch and removes it, or the end marker exactly when none is pending; the recursion ends on the number of remaining tasks |
| DataSetReader.DataSetParquetReader.ReadMany | native_root/arrow/DataSetParquetReader.cpp:107-121 | any number of reads: first the concatenation of all tasks' batches in order, then the end marker for ever |

## Left out

- `ColumnScheduler::Schedule`: its submissions are commented out, so the futures it waits on are never set.
- Memory orderings, the race on the shared `platform_g` pointer, sleeps and pool destruction: sequential consistency and one fixed platform are assumed.
- The rounding of the final division: results are exact rationals over 2^18.
- The platform behind WriteMMIO is not part of this model: it is taken to step a fixed number of bytes, up to 256, from one register to the next. `dau_t` is a split into 32-bit halves, low half first, as on little-endian machines.
- Chunks are values: that the caller keeps the register structures behind its pointers alive until Submit returns is assumed.
- More workers than instances: two workers would then share an instance, which OwnInstanceIffEnough marks as the boundary.
- SchedulerProgress.ProductiveStepDrops: besides refused locks and polls without a done bit, a probe of the empty global queue does not count as productive; yielding does, because a worker that has scanned past a freshly filled queue has to yield before it can see it.
- SchedulerClasses.ColumnScheduler.Submit: here a worker's turn runs to its end; interleavings inside a turn are covered by SchedulerResults.SubmitAppendsOutputs.
- SchedulerClasses.ColumnScheduler.Next: taking more values than tasks were submitted is excluded; the source would spin before the first Submit, and be undefined after it.
- PlatformClasses.ThreadSafePlatform.Reset: a thread that already holds the lock is excluded, as it would spin for ever; so for SetPtoaArguments, Start and ReadResult. Rivals that hold the lock are waited for, but their register writes are part of the transition system only.
- PlatformClasses.ThreadSafePlatform.ReadResult: a call before the done bit is excluded; it would return what the result registers hold.
- PlatformClasses.ThreadSafePlatform.WaitForFinish: an instance that was not started is excluded, as polling it would not end.
- Group wire types, arenas, reflection, descriptors, UTF-8 checks and the experimental parser; the ToArray serialisers repeat the stream ones.
- The library under the generated code is not part of this model: a tag that cannot be read counts as zero, and a length prefix beyond the remaining input or the range of int is refused.
- Codec.ParseUndoesSerialize: serialised sizes beyond the range of int are outside it, as they are for the length prefixes of the format.
- MessageObjects.MessageObject.MergePartialFromCodedStream: input is a byte sequence instead of a stream with limits; a has-bit that is set before a scalar fails to read is not distinguished from one that is not, as a failed parse only promises a valid object.
- MessageObjects.MessageObject.Clear: elements of a repeated field are dropped, where the library keeps them cleared for reuse.
- The has-bit word is a set of bit numbers; nested tests of group masks are folded into the tests of the single bits, which imply them.
- MessageObjects.MessageObject.MergeFrom: the source is apart from the object or stands for the empty message; merging from an own sub-message that is not empty, which would be read while it is written, is not modelled.
- MessageObjects.MessageObject.CopyFrom: copying from an element of an own repeated field is not modelled, as Clear drops elements here.
- Arrow's range check on decimal precision, and its schema, field and array objects beyond what is listed above.
- Converters.CopyRecordBatch: a buffer that Java grants has the space that was asked for, and no two writes go to the same place. What memory holds after an overrun or an exit of the process is not stated.
- Converters.CopyAndRebuild: schemas with nullable fields, for which CursorGap says how far the two layouts drift apart.
- DataSetReader.DataSetParquetReader.constructor: needs one scan task, since the source executes the first one unchecked; Arrow errors end the process and are not modelled.
- FileReader, the JNI loops that move columns to Java, JavaMemoryPool, PlatformWrapper and Tpch.h: foreign calls and file access with easy contracts only.
