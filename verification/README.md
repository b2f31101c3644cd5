# A verified model of the harness plan engine and the Astrolobe storage engine

The repository holds two systems. The harness plans and runs tool calls for a conversation; Astrolobe is a storage
engine with a write-ahead log, a paged file format, a vector index, a graph index and a selectivity estimator. This
project models the parts of both where correctness spans many steps, and proves what they are for.

## The parts

**The harness plan engine.** `ToolSchema`, `Gates` and `Resolver` are the decisions on single calls and plans.
`Execution` says what a run does, as functions of the executor's state and of everything outside it: the answers of the
tools, the clock, and the order in which parallel reads happen to run are arbitrary functions. `Executor` is the same run
with its state, meter and calls updated in place, proved equal. `PlanRuns`, `PlanTheorems`, `Budgets` and `BudgetRoom`
hold what every run keeps, `WaveOrder` in which order a wave runs, and `FieldNames` which names are taken for the same.
`Resume` parks and rebuilds a plan, `Sessions` is the conversation around it as a state machine over turns, and `Harness`
the store and the turn. `Questions` says what a conversation asks for, `Recoils` how often, `Denials` what comes of a
no, and `Replies` what a turn says; `Interruptions` compares a plan parked any number of times with one uninterrupted run,
and `CarriedFailures` and `ReorderedCalls` are plans for which the two differ. The main results speak of whole lives of a
plan: run, park, resume, run.

**The write engine.** `RowCodec`, `Memtables` and `Engines` are the payload codec, the version chains and the engine.
`EngineRuns` runs them through any sequence of appends and commits that succeed or fail, crashes that lose any part of the
unsynced tail, recoveries, and flushes cut short at any stage, and ties log, memtable and segments to the writes that were
acknowledged and to those whose commit failed. `EngineTheorems` says what that guarantees, and exactly when it does not.

**The file format.** `Checksum`, `Cursors`, `Preambles`, `Footers`, `Types`, `Columns`, `Chunks` and `VssFiles` are the
writer and the reader of `.vss` files. `Remainders` proves the checksum to be the CRC32C of section 12.1
of RFC 3720. `FileIntegrity` says what any accepted bytes must be, and `ByteLayouts` pins each record byte by byte, since
a round trip alone would hold of any layout that writer and reader share.

**The indexes.** `Beams` holds the two beam searches over any graph, `HnswIndex` insertion and search, `HnswPages`,
`HnswSections` and `HnswSearch` the breadth-first renumbering, the section's bytes, and the view that searches them, and
`HnswDegrees` indexes that insertion builds and serialization loses.
`Blooms`, `EdgeIndexes`, `Traversals` and `EdgePages` are the edge index, its filter, its traversal and its byte view.

**The histogram.** `Histograms` is the equi-height histogram over the reals.

`Wrappers`, `Numbers`, `Bits`, `Bitmaps`, `Bytes` and `Sorting` are shared vocabulary.

Loops and updated objects of the source are methods and classes here, each proved against a specification function; the
theorems are about those functions.

## Where the code falls short of its promise

- A failed producer stops its dependents only within the run it failed in. When a write in the same wave parks the plan,
  the failure is carried over, and after the resume a dependent whose argument the user has supplied is called: a
  conversation of three turns shows it (`CarriedFailures.FailureCarriedOver`). For every called step its producers all
  succeeded if and only if none of them had failed before the run began (`PlanTheorems.ProducersSucceeded`).
- Resuming is meant to go on as if the plan had never been parked. Budgets aside, it does if and only if no park left a step
  pending behind a failed producer (`Interruptions.ParkedAsUninterrupted`); and even then only up to the order of the calls:
  a resume starts a new wave, in which a read made ready meanwhile runs before the write that was confirmed
  (`ReorderedCalls.OrderDiffers`).
- The recoil budget bounds the questions that are parked, not those that are asked: past it a run still asks, once, and
  parks nothing (`Recoils.RecoilsBounded`, `Recoils.ParkedWithinBudget`).
- When a stage needs a field, the user is asked for it, but the answer becomes an argument of the call, which the gate does
  not read: with the stage and the known fields as they are, the step asks again (`Questions.StageAnswerIdle`).
- A commit record that is written but cannot be synced leaves the caller with an error and the memtable without the write;
  once a later commit has synced the log, a restart shows the write (`EngineTheorems.FailedResurfaces`). A restart changes
  nothing if and only if no commit has failed since the last start or flush (`EngineTheorems.RestartAgrees`).
- An append that fails halfway leaves part of a record in the log, and the engine goes on; recovery reads no further, so
  whatever is acknowledged after it is lost in the next restart, and only that (`EngineTheorems.TornAppend`).
- A crash between the steps of a flush is meant to be safe. It is, whatever follows, if and only if everything in the log is
  durable when the flush begins or there is nothing to flush (`EngineTheorems.FlushSafeIff`): otherwise the manifest's
  checkpoint covers an LSN that is handed out again after a crash. A write that fails between its data record and its
  commit record gets there (`EngineTheorems.UnsettledReached`).
- `recover` skips LSN 0, so an engine created with base 0 loses its first write (`EngineTheorems.BaseZeroLoses`); with a base
  of at least 1, which is what the database passes, it loses none.
- The latest snapshot is `max_lsn + 1`, saturating; once an LSN reaches the sentinel's neighbor it shows nothing at all
  (`Memtables.LatestNeedsRoom`).
- The neighbor count of a serialized node is one byte on every layer. At layer 0 it wraps: the view lists a node's
  neighbors if and only if there are at most 255 (`HnswSections.SlotExact`). On upper layers it is capped while every neighbor
  is written, so the layer above is misread too (`HnswSections.LaterLayerMisread`): where the counts below a layer fit, its
  neighbors are read back if and only if its own count does (`HnswSections.SameGraph`). Inserting any 257 vectors gets there
  when `ef_construction` is at least 256 and `m` at least 256, or 128 with all levels 0: the view then lists no neighbors at all
  (`HnswDegrees.InsertedListsNone`), and too few on layers 1 and 2 where all nodes reach them (`HnswDegrees.InsertedMisread`).
- The executor does not look at coercion errors: a call's declared arguments fit if and only if there were none
  (`PlanTheorems.CallProvenance`), and a call with one that does not is made all the same (`PlanTheorems.MisfitCalled`).
- `rehydrateSuspension` also asks whether the answered field is still missing; it never is (`Resume.OnlyTypesReject`).
- `toSuspensionPayload` keeps neither the nudge nor the pending call it is handed; the call is derived again, and is the
  one that was shown (`Sessions.ConfirmedIsWhatRuns`).

## Assumptions

- One turn at a time per session, and the suspension store is present. Turn ids are new, so a fresh plan starts from an
  empty ledger.
- `Sessions.AtMostOnce` assumes nothing about the registry. `Sessions.ConfirmedIsWhatRuns` assumes, for its last clause
  only, that the tools of the parked plan are still registered as they were.
- Hashes of arguments are injective: the arguments stand for their hash.
- `Interruptions` compares runs in the same surroundings: a tool answers a call by its contents, and the gate does not change.
- `usize` is 64 bits wide. Writers cut lengths and counts to the width of their fields; each round trip says which must fit.
- Distances are totally ordered numbers; a heap is a set ordered by (distance, id); a node's random level is an argument
  of insertion.
- Floats are bits in the codecs and reals in the histogram. The predicate that decides which bytes are UTF-8 is a parameter.

## Model

| member | source | states |
|---|---|---|
| ToolSchema.RequiredParamNames | packages/core/src/runtime/tool-schema.ts:123-127 | a name is listed exactly when some declaration with that name is required |
| ToolSchema.FormsAgree | packages/core/src/runtime/tool-schema.ts:4-20 | the ways to declare a parameter are interchangeable: a kind alone is required in either form; a trailing mark, `optional: true` and `required: false` each make it optional, and nothing else does |
| ToolSchema.FindMissingRequiredArgs | packages/core/src/runtime/tool-schema.ts:134-143 | a name is missing exactly when it is required and its argument is absent or null; an empty text or `false` is a value |
| ToolSchema.CoerceArgs | packages/core/src/runtime/tool-schema.ts:160-224 | the loop over the declarations yields the specified arguments and errors |
| ToolSchema.CoercedPointwise | packages/core/src/runtime/tool-schema.ts:160-224 | coercion adds and drops no argument, treats each declared one on its own, leaves undeclared ones alone, and reports an error exactly for the rejected ones |
| ToolSchema.CoercionIdempotent | packages/core/src/runtime/tool-schema.ts:160-224 | coercing coerced arguments changes nothing and reports errors exactly when the first pass did |
| ToolSchema.CoercionKeepsMissing | packages/core/src/runtime/tool-schema.ts:150-159 | coercion neither supplies nor loses a value |
| ToolSchema.AcceptedAnswerUnchanged | packages/core/src/runtime/tool-schema.ts:160-224 | a value accepted on its own keeps its value when coerced among any other arguments |
| ToolSchema.AcceptedFits | packages/core/src/runtime/tool-schema.ts:180-217 | an accepted value is of its declared kind and among the listed values; one that already is, is accepted as it is |
| ToolSchema.AcceptedIff | packages/core/src/runtime/tool-schema.ts:180-217 | a value is the outcome of coercion exactly when it fits the declaration and is the argument itself or what an argument of the wrong kind converts to: numbers and truth values written as text, and anything else to text |
| ToolSchema.CoercedFitIff | packages/core/src/runtime/tool-schema.ts:160-224 | all present declared arguments fit after coercion if and only if coercion reported no error |
| Gates.OverridesDecide | packages/core/src/safety/policy.ts:20-69 | which calls safety refuses, and why, and which it asks about: exactly, over every override mode, its confirmation setting, and read-only mode |
| Gates.StricterHolds | packages/core/src/harness/gates.ts:20-75 | restricting the stage, the fields at hand or the safety settings never lets a held call through, nor spares one its question |
| Gates.GatePasses | packages/core/src/harness/gates.ts:20-75 | a call can proceed, at once or after approval, exactly when nothing is missing, the stage is ready and safety allows; approval is asked only of writes |
| Gates.GateAsks | packages/core/src/harness/gates.ts:25-75 | the verdict, exactly: missing arguments are asked for first and all named; then a stage that does not admit the tool refuses; then its fields not at hand are asked for, all of them; what is left is for safety to refuse, to ask about, or to allow |
| Cycles.RankedAcyclic | packages/core/src/harness/resolver.ts:105-135 | edges that decrease some rank close no walk |
| Cycles.Visit | packages/core/src/harness/resolver.ts:111-128 | one depth-first visit either returns a real cycle or finishes the node and keeps the search invariant |
| Cycles.DetectCycle | packages/core/src/harness/resolver.ts:106-135 | a cycle is returned exactly when the dependency graph has one, and what is returned is a cycle |
| Resolver.Earliest | packages/core/src/harness/resolver.ts:41-50 | the least step that produces a normalized field |
| Resolver.MapProducers | packages/core/src/harness/resolver.ts:41-50 | the producer map names the earliest producer of every produced field and no other |
| Resolver.ResolveStep | packages/core/src/harness/resolver.ts:55-94 | the loop over required parameters computes the specified sources, needs and effect |
| Resolver.WiredToEarliest | packages/core/src/harness/resolver.ts:66-82 | an unhinted required parameter is wired to its earliest producer when that precedes the consumer, and is missing otherwise |
| Resolver.WiredOtherwise | packages/core/src/harness/resolver.ts:59-82 | hints win, optional hints ride along as they are, parameters nobody produces are missing, and nothing else is wired |
| FieldNames.NormalizedSame | packages/core/src/harness/resolver.ts:11-17 | two names normalize alike exactly when they have the same letters and digits in the same order, whatever the case |
| FieldNames.WiredByName | packages/core/src/harness/resolver.ts:66-82 | an unhinted required parameter is drawn from, and needs, the earliest step that lists a field of its name, if that comes before; if none before does, it is missing |
| Resolver.NeedsAre | packages/core/src/harness/resolver.ts:78-91 | a step needs exactly the producers its arguments come from, all of them earlier steps |
| Resolver.ResolvedWellWired | packages/core/src/harness/resolver.ts:55-94 | every resolved plan has distinct ids, needs earlier steps only, and needs each output it draws on |
| Resolver.OrderedAcyclic | packages/core/src/harness/resolver.ts:97-100 | a plan whose needs point backwards has no dependency cycle |
| Resolver.ResolvePlan | packages/core/src/harness/resolver.ts:30-103 | resolution succeeds exactly for distinct ids; the cycle check never fires |
| Resolver.NextWave | packages/core/src/harness/resolver.ts:144-153 | a wave holds exactly the uncompleted instructions whose needs are completed |
| Resolver.WaveNotEmpty | packages/core/src/harness/resolver.ts:144-153 | the first uncompleted instruction of an ordered plan is always ready |
| Execution.FindEntry | packages/core/src/harness/executor.ts:232 | an entry is found exactly when the ledger has one for the instruction |
| Execution.ExtractsField | packages/core/src/harness/executor.ts:138-149 | the field of that very name wins, then the first that normalizes alike, then the whole output |
| FieldNames.ExtractsByName | packages/core/src/harness/executor.ts:138-149 | an output is read by the very name, or else by the first field of the same name, or else whole |
| Execution.WaveCompletes | packages/core/src/harness/executor.ts:206-248 | a wave that does not stop the plan completes all its steps |
| Execution.WaveShrinks | packages/core/src/harness/executor.ts:193-256 | each such wave leaves fewer steps to run, so the loop ends |
| Executor.ExecutorState.constructor | packages/core/src/harness/executor.ts:86-102 | a new state counts only the successes of an existing ledger as completed |
| Executor.HydratedFacts | packages/core/src/harness/executor.ts:86-102 | completed steps, and those with outputs, are exactly the ledger's successes; failed steps may run again |
| Executor.HydratedOutputs | packages/core/src/harness/executor.ts:86-102 | the output of each is the result of its last successful entry |
| Executor.AssembleArgs | packages/core/src/harness/executor.ts:152-174 | the loop computes the assembled arguments and the missing parameters |
| Executor.BudgetMeter.NoteToolCall | packages/core/src/harness/budgets.ts:38-50 | the meter's new state and verdict: over the limit, third identical call, or too late |
| Executor.RunInstruction | packages/core/src/harness/executor.ts:266-399 | the in-place method does what the specification function says of state, meter and calls |
| Executor.InvokeOnce | packages/core/src/harness/executor.ts:341-398 | a completed identical call is not repeated; otherwise the call is counted, made once and recorded |
| Executor.AwaitReads | packages/core/src/harness/executor.ts:209-217 | all reads run, each as one step, in an arbitrary order; their outcomes come back in plan order |
| Executor.AwaitWrites | packages/core/src/harness/executor.ts:219-225 | writes run one after another and stop at the first that does not complete |
| Executor.RunWave | packages/core/src/harness/executor.ts:206-248 | reads, then writes, then the halt for failed producers with pending dependents |
| WaveOrder.ReadStopsWave | packages/core/src/harness/executor.ts:206-218 | a read that does not complete keeps the wave from running any write, and the first such read in plan order says why |
| WaveOrder.WritesInOrder | packages/core/src/harness/executor.ts:220-226 | writes run in plan order, each where the last one left off, up to the first that does not complete, and none after it |
| WaveOrder.NotRepeated | packages/core/src/harness/executor.ts:346-354 | where the first entry of this very call is a success, its result is used again: nothing is called, counted or recorded |
| WaveOrder.MadeOnce | packages/core/src/harness/executor.ts:356-371 | otherwise the call is made, if the budget allows, and recorded as it came out |
| Executor.ExecutePlan | packages/core/src/harness/executor.ts:182-259 | the wavefront loop computes the specified final state, calls and outcome |
| PlanRuns.ArgsStay | packages/core/src/harness/executor.ts:152-174 | the arguments of a step whose producers are finished no longer change |
| PlanRuns.InstructionKeeps | packages/core/src/harness/executor.ts:266-399 | running a ready instruction keeps the run invariant; a stop leaves the state as it was and asks about that instruction |
| PlanRuns.ReadsKeep | packages/core/src/harness/executor.ts:209-217 | any order of the reads keeps the run invariant, and every question stays right |
| PlanRuns.WaveKeeps | packages/core/src/harness/executor.ts:193-256 | a wave keeps the run invariant, and one that goes on leaves no failed producer with a pending dependent |
| PlanRuns.NeverStalls | packages/core/src/harness/executor.ts:193-204 | as long as steps are left some step is ready; the loop ends only with all completed |
| PlanRuns.RunKeeps | packages/core/src/harness/executor.ts:182-259 | a whole run keeps the invariant, never stalls, and takes at most as many waves as steps are left |
| PlanTheorems.RunEnds | packages/core/src/harness/executor.ts:193-258 | a run never stalls, ends within as many waves as steps are left, and completes only with every step run |
| PlanTheorems.EndsStartable | packages/core/src/harness/executor.ts:345-371 | where a run stops, its ledger stands for its whole state, so another run can start there |
| PlanTheorems.CalledOnce | packages/core/src/harness/executor.ts:345-371 | the ledger grows by one entry per call; no step with an entry is called, and none twice |
| PlanTheorems.CallProvenance | packages/core/src/harness/executor.ts:152-173 | every call carries all required arguments, each drawn from its literal or its named producer's success, in a stage that admits it, after all its producers; its declared arguments fit if and only if coercing the assembled ones met no error |
| PlanTheorems.MisfitCalled | packages/core/src/harness/executor.ts:169-173 | concrete run: a hint that is no number is rejected by coercion, and the tool is called with it all the same |
| PlanTheorems.ProducersSucceeded | packages/core/src/harness/executor.ts:227-248 | for a called step, all producers succeeded if and only if none had failed before this run began |
| PlanTheorems.OnlyApproved | packages/core/src/harness/executor.ts:308-337 | a step held back for approval is called only if the run was given approval for that very step |
| PlanTheorems.LastStepCalled | packages/core/src/harness/executor.ts:193-258 | the one step left is called with its arguments as soon as its gate allows |
| CarriedFailures.FailureCarriedOver | packages/core/src/harness/executor.ts:206-248 | concrete conversation from an empty ledger: a step fails beside a write that parks, and after the yes and one answer its dependent is called, the failure still in the ledger |
| Budgets.CallWithin | packages/core/src/harness/budgets.ts:38-50 | a call let through is counted first, is within the limit, and is at most the second of its kind |
| Budgets.BudgetHolds | packages/core/src/harness/budgets.ts:38-50 | no run makes more calls than its budget, or the same call a third time, whatever plan and state it starts from |
| BudgetRoom.NotedIff | packages/core/src/harness/budgets.ts:38-50 | once the meter has counted the calls made, the next is refused exactly when it is one too many, the third of its kind, or too late, and for the first of these |
| BudgetRoom.BudgetSuffices | packages/core/src/harness/budgets.ts:38-50 | with room for the steps left, no three of them on one tool, and time, no step of a run is refused, and the meter ends at the number of calls |
| Resume.OnlyTypesReject | packages/core/src/harness/resume.ts:55-65 | an answer is rejected exactly when it does not coerce; the missing-field test never decides |
| Resume.SeedState | packages/core/src/harness/resume.ts:70-80 | replaying the ledger counts failures as completed and keeps the outputs of successes |
| Resume.Rehydrate | packages/core/src/harness/resume.ts:20-88 | the step-by-step rebuild returns the specified plan and state, or the specified error |
| Resume.RehydrateFails | packages/core/src/harness/resume.ts:20-66 | a stale registry, a vanished tool or step, an answer that does not coerce: exactly when each is reported, the first that applies |
| Resume.ToolNamedIs | packages/core/src/harness/resume.ts:30-38 | of tools with one name the last registered counts |
| Resume.CollectKnownArgs | packages/core/src/harness/resume.ts:90-107 | literals, and results of producers that succeeded |
| Resume.ParkedReturns | packages/core/src/harness/resume.ts:20-139 | park then rebuild returns the same steps, ledger, completed set, outputs and counters; the answer is the only change |
| Resume.ResumeContinues | packages/core/src/harness/resume.ts:20-88 | from every state a run can reach the rebuilt state is that state, and the plan is the same or has the accepted answer pinned; rebuilding fails only for an answer that is not accepted |
| Interruptions.ParkedAsUninterrupted | packages/core/src/harness/executor.ts:182-259 | a plan parked any number of times makes no call that differs from those of one run with all answers and approvals from the start; that run completes if and only if the last resume does and no park left a step pending behind a failed producer, and then calls and ledger are the same multisets |
| Interruptions.ResumedAsUninterrupted | packages/core/src/harness/resume.ts:10-88 | the same for one park through the stored payload, with the yes or with the accepted answer |
| Resume.AnswerReachesTool | packages/core/src/harness/resume.ts:66-67 | the accepted answer reaches the tool unchanged by the executor's own coercion |
| ReorderedCalls.OrderDiffers | packages/core/src/harness/executor.ts:206-225 | concrete plan: the same three calls are made in another order when it is parked at its write |
| Sessions.FinishKeeps | packages/core/src/harness/index.ts:338-402 | whatever a run leaves parked is well formed: same plan, its ledger, a pending step, and a question about its settled arguments |
| Sessions.ResumeStarts | packages/core/src/harness/index.ts:221-276 | a parked plan resumes as a well wired plan over its own ledger |
| Sessions.ConversationKeeps | packages/core/src/harness/index.ts:73-453 | every conversation keeps the session invariant |
| Sessions.AtMostOnce | packages/core/src/harness/resume.ts:70-80 | over a plan's whole life, with any parks and resumes, each instruction is called at most once, whether it succeeded or failed |
| Sessions.ParkedWasAsked | packages/core/src/harness/index.ts:359-402 | whatever is parked, the last reply was its question |
| Replies.RepliesFit | packages/core/src/harness/index.ts:338-453 | over conversations: a run that finished, or that the budget cut short after some calls, is summed up; a question is asked, a refusal explained; and about the goal and message that the plan began with |
| Replies.FreshReplies | packages/core/src/harness/index.ts:112-190 | with nothing parked, a plan is run exactly when one was proposed and its step ids are distinct; otherwise the reply says which it was |
| Denials.SaysOneOf | packages/core/src/safety/confirmations.ts:11-22 | a message is a yes or a no exactly when, spaces around it aside, it is one of the listed words in any case |
| Denials.NeverBoth | packages/core/src/safety/confirmations.ts:11-22 | no message is both |
| Denials.DenialAbandons | packages/core/src/harness/index.ts:200-220 | over conversations: a no to an open question of either kind is answered by giving the plan up; nothing is called or left parked, and no later turn adds a call to that plan |
| Denials.AsksAgain | packages/core/src/harness/index.ts:221-233 | anything but a yes to a request for approval, or a value that does not fit, leaves everything as it is and asks again |
| Denials.StartsAfresh | packages/core/src/harness/index.ts:84-110 | an expired plan, or one that cannot be rebuilt, is given up and the message planned for afresh |
| Sessions.ConfirmedIsWhatRuns | packages/core/src/harness/index.ts:221-257 | a step needing approval is called only in the turn of a yes to that very step; with the registry unchanged, with exactly the arguments shown |
| Sessions.EveryRunStartable | packages/core/src/harness/index.ts:195-276 | every run of every conversation satisfies the premises of the run theorems, so none stalls |
| Questions.InfoAsksMissing | packages/core/src/harness/executor.ts:294-305 | in any conversation whose parked plans keep their tools, a run that ends for want of a value replies with a question for exactly the fields the gate misses for that step's settled arguments, and the answer would be taken for one of them |
| Questions.ResolvedSourced | packages/core/src/harness/resolver.ts:55-94 | a resolved step has a source for each required parameter, and only those can lack a value |
| Questions.StageAnswerIdle | packages/core/src/harness/gates.ts:50-59 | an answer to a question for a stage's field changes nothing of the gate's verdict in the same context |
| Recoils.RecoilsBounded | packages/core/src/harness/index.ts:349-395 | over a whole conversation one plan parks at most the budget's number of info questions, takes at most one answer to each, and ends at most one more run with a question, which is asked but not parked |
| Recoils.ParkedWithinBudget | packages/core/src/harness/index.ts:259-273 | the recoil count of a parked plan is the number of answers it has taken; a run's info question is parked if and only if that number is below the budget |
| Harness.SuspensionStore.Suspend | packages/core/src/harness/suspension.ts:50-79 | one record per session: the new one replaces any other |
| Harness.SuspensionStore.Get | packages/core/src/harness/suspension.ts:81-110 | an unexpired record is returned; an expired one is cleared; nothing else changes |
| Harness.SuspensionStore.Clear | packages/core/src/harness/suspension.ts:112-115 | the session's record is gone, all others stay |
| Harness.Finish | packages/core/src/harness/index.ts:338-453 | the store and the reply after a run are the specified ones |
| Harness.ResumeSuspended | packages/core/src/harness/index.ts:195-288 | reply, calls and store are those of the specified resume, or the record is dropped |
| Harness.RunHarness | packages/core/src/harness/index.ts:73-187 | one turn: reply, calls and this session's record are the specified ones, every other session's record stays |
| RowCodec.ValueRoundTrip | Sunjet/Astrolobe/crates/ll-engine/src/codec.rs:33-133 | every value written in place is read back, with the position after it |
| RowCodec.PutRoundTrip | Sunjet/Astrolobe/crates/ll-engine/src/codec.rs:18-95 | decoding an encoded put gives back the row id and the row |
| RowCodec.DeleteRoundTrip | Sunjet/Astrolobe/crates/ll-engine/src/codec.rs:29-77 | decoding an encoded delete gives back the row id |
| ByteLayouts.ValueLayout | Sunjet/Astrolobe/crates/ll-engine/src/codec.rs:33-66 | the tag of each kind of value and what follows it |
| ByteLayouts.PutLayout | Sunjet/Astrolobe/crates/ll-engine/src/codec.rs:18-31 | row id, column count, then each column's id and value |
| RowCodec.EncodePut | Sunjet/Astrolobe/crates/ll-engine/src/codec.rs:18-27 | the loop writes the columns in ascending id order |
| RowCodec.DecodeOp | Sunjet/Astrolobe/crates/ll-engine/src/codec.rs:71-95 | the loop with a moving position decodes the specified operation, or nothing |
| Memtables.Memtable.Apply | Sunjet/Astrolobe/crates/ll-engine/src/memtable.rs:52-76 | closes the open version at the LSN, opens a new one, and widens the LSN bounds |
| Memtables.LatestIsGreatest | Sunjet/Astrolobe/crates/ll-engine/src/memtable.rs:91-107 | the reference: the write with the greatest LSN at or below the snapshot |
| Memtables.SnapshotSees | Sunjet/Astrolobe/crates/ll-engine/src/memtable.rs:78-107 | a snapshot sees, of each row, exactly the newest write at or below it |
| Memtables.LatestSnapshot | Sunjet/Astrolobe/crates/ll-engine/src/memtable.rs:86-89 | the latest snapshot sees every row's last write |
| Memtables.LatestNeedsRoom | Sunjet/Astrolobe/crates/ll-engine/src/memtable.rs:86-89 | the latest snapshot shows a history if and only if no LSN touches the sentinel's neighbor; else it shows nothing |
| Memtables.Memtable.VisibleEntriesVersioned | Sunjet/Astrolobe/crates/ll-engine/src/memtable.rs:136-151 | the visible versions, tombstones included, by ascending row id |
| Memtables.MergedNewest | Sunjet/Astrolobe/crates/ll-engine/src/memtable.rs:96-107 | newest-stamp-wins merging of newest versions yields the newest versions of the union |
| Memtables.CutAndMerge | Sunjet/Astrolobe/crates/ll-engine/src/memtable.rs:101-151 | a history cut into any parts and merged in any order and nesting shows what the whole history shows |
| Memtables.DeletedStaysDeleted | Sunjet/Astrolobe/crates/ll-engine/src/memtable.rs:136-139 | a row deleted last is a tombstone in every merge of the parts |
| Engines.Engine.constructor | Sunjet/Astrolobe/crates/ll-engine/src/engine.rs:46-52 | an empty log and memtable, ids from 1 |
| Engines.Engine.RecoverAfter | Sunjet/Astrolobe/crates/ll-engine/src/engine.rs:106-133 | committed data records above the checkpoint are replayed in log order; ids restart above every id in the log |
| Engines.Engine.Insert | Sunjet/Astrolobe/crates/ll-engine/src/engine.rs:55-64 | appends the encoded put under a new id, commits it, and applies it at the append's LSN; what is left behind when the append, the commit record or its sync fails |
| Engines.Engine.Delete | Sunjet/Astrolobe/crates/ll-engine/src/engine.rs:67-76 | the same for a tombstone |
| Engines.Engine.ResetMemtable | Sunjet/Astrolobe/crates/ll-engine/src/engine.rs:93-95 | an empty memtable; the log is untouched |
| Engines.Engine.CheckpointWal | Sunjet/Astrolobe/crates/ll-engine/src/engine.rs:144-146 | an empty log from the new base; the memtable is untouched |
| EngineRuns.AppendKeeps | Sunjet/Astrolobe/crates/ll-engine/src/engine.rs:55-60 | an appended record changes nothing that is shown |
| EngineRuns.CommitKeeps | Sunjet/Astrolobe/crates/ll-engine/src/engine.rs:61-64 | a commit shows the pending write and no other, and makes it durable |
| EngineRuns.CommitUnsyncedKeeps | Sunjet/Astrolobe/crates/ll-wal/src/wal.rs:74-78 | a commit record written but not synced, with the engine still up, shows nothing; the write is in doubt from then on |
| EngineRuns.CrashKeeps | Sunjet/Astrolobe/crates/ll-engine/src/engine.rs:106-116 | losing any part of the unsynced tail loses no acknowledged write |
| EngineRuns.RecoverKeeps | Sunjet/Astrolobe/crates/ll-engine/src/engine.rs:106-133 | recovery rebuilds exactly the writes since the checkpoint whose commit record survived |
| EngineRuns.FlushKeeps | Sunjet/Astrolobe/crates/ll-query/src/database.rs:326-353 | a flush, cut short at any stage, keeps the invariant, provided the log is durable |
| EngineTheorems.ShowsCommitted | Sunjet/Astrolobe/crates/ll-engine/src/engine.rs:55-133 | over any run of writes, failed appends and commits, crashes, recoveries, and flushes that find the log durable or have nothing to write, the engine's history is in LSN order, holds every acknowledged write, and besides them only writes whose commit failed before the last restart; while no LSN reaches the sentinel's neighbor, segments and memtable together show that history |
| EngineTheorems.ReadsLastCommitted | Sunjet/Astrolobe/crates/ll-engine/src/engine.rs:78-81 | after such a run, with such LSNs, a row reads as the last write of that history left it |
| EngineTheorems.RestartAgrees | Sunjet/Astrolobe/crates/ll-engine/src/engine.rs:99-133 | after such a run, a restart that loses nothing leaves the memtable as it was if and only if no commit has failed since the last start or flush |
| EngineTheorems.FailedResurfaces | Sunjet/Astrolobe/crates/ll-wal/src/wal.rs:74-78 | concrete run: a write whose caller was told it failed, and which is not shown, is shown after a later good commit and a restart |
| EngineTheorems.UncommittedNeverVisible | Sunjet/Astrolobe/crates/ll-engine/src/engine.rs:110-132 | a durable record left uncommitted never becomes visible in such a run, and nothing shown ever takes its LSN |
| EngineTheorems.FlushSafeIff | Sunjet/Astrolobe/crates/ll-query/src/database.rs:326-353 | after any such run, a flush loses no acknowledged write in any such run to come if and only if it writes nothing or everything in the log is durable |
| EngineTheorems.UnsettledReached | Sunjet/Astrolobe/crates/ll-query/src/database.rs:326-353 | concrete run: a good write, then one that fails between its two records, and a flush would find the log not durable |
| EngineTheorems.TornAppend | Sunjet/Astrolobe/crates/ll-wal/src/wal.rs:55-66 | after such a run, an append that left part of a record, and any further writes, a restart keeps every acknowledged write if and only if none was acknowledged since |
| EngineTheorems.WritesCommit | Sunjet/Astrolobe/crates/ll-engine/src/engine.rs:55-76 | the engine's insert and delete, successful or failing at any point, are such appends and commits: the payload decodes again, and a write is acknowledged exactly when nothing failed |
| EngineTheorems.BaseZeroLoses | Sunjet/Astrolobe/crates/ll-engine/src/engine.rs:97-101 | concrete input: a log whose LSNs begin at 0 loses its first write in plain recovery |
| Checksum.BuildTable | Sunjet/Astrolobe/crates/ll-format/src/checksum.rs:11-31 | every table entry is eight shifts of its index |
| Checksum.ComputeCrc32c | Sunjet/Astrolobe/crates/ll-format/src/checksum.rs:34-41 | the table-driven loop computes the bit-by-bit Castagnoli register |
| Checksum.LookUpAll | Sunjet/Astrolobe/crates/ll-format/src/checksum.rs:34-41 | over any table of shifts, the lookup loop computes that register |
| Checksum.ShiftLinear | Sunjet/Astrolobe/crates/ll-format/src/checksum.rs:11-31 | a shift distributes over exclusive or |
| Checksum.ShiftInjective | Sunjet/Astrolobe/crates/ll-format/src/checksum.rs:11-31 | a shift loses no register |
| Checksum.FeedAllInjective | Sunjet/Astrolobe/crates/ll-format/src/checksum.rs:34-41 | different registers stay different under the same bytes |
| Checksum.BurstChangesCrc | Sunjet/Astrolobe/crates/ll-format/src/checksum.rs:34-41 | equally long messages that differ only inside four consecutive bytes have different checksums |
| Remainders.CrcIsRemainder | Sunjet/Astrolobe/crates/ll-format/src/checksum.rs:1-41 | the checksum is the complement of the remainder, coefficients reversed, of the message polynomial (its first 32 bits complemented) by x^32 and 0x1EDC6F41, as section 12.1 of RFC 3720 defines it |
| Remainders.CrcRemains | Sunjet/Astrolobe/crates/ll-format/src/checksum.rs:1-41 | such a remainder exists for every message |
| Remainders.RemainderUnique | Sunjet/Astrolobe/crates/ll-format/src/checksum.rs:1-41 | and there is one only |
| Cursors.Writer.LpBytes | Sunjet/Astrolobe/crates/ll-format/src/codec.rs:34-41 | appends a 32-bit length and the bytes |
| Cursors.Reader.Slice | Sunjet/Astrolobe/crates/ll-format/src/codec.rs:55-66 | takes exactly the next bytes, or fails without moving |
| Cursors.ReadsLp | Sunjet/Astrolobe/crates/ll-format/src/codec.rs:85-92 | a length-prefixed blob is read back, leaving what follows |
| Preambles.EncodePreamble | Sunjet/Astrolobe/crates/ll-format/src/preamble.rs:31-43 | the 64-byte array filled in place |
| Preambles.PreambleRoundTrip | Sunjet/Astrolobe/crates/ll-format/src/preamble.rs:31-77 | an encoded preamble decodes to itself, whatever follows |
| Footers.SectionRoundTrip | Sunjet/Astrolobe/crates/ll-format/src/footer.rs:123-273 | a directory entry is read back |
| Footers.ZoneMapRoundTrip | Sunjet/Astrolobe/crates/ll-format/src/footer.rs:123-273 | a zone map is read back |
| Footers.FooterRoundTrip | Sunjet/Astrolobe/crates/ll-format/src/footer.rs:123-273 | decoding an encoded footer gives it back |
| Footers.EncodeFooter | Sunjet/Astrolobe/crates/ll-format/src/footer.rs:123-171 | the growing writer produces the specified bytes |
| Footers.DecodeFooter | Sunjet/Astrolobe/crates/ll-format/src/footer.rs:174-273 | the moving reader accepts, rejects and returns as specified on any bytes |
| Types.NullCount | Sunjet/Astrolobe/crates/ll-format/src/types.rs:105-131 | positive exactly when some cell is null, and at most the length |
| Types.CountsNulls | Sunjet/Astrolobe/crates/ll-format/src/types.rs:105-131 | it is the number of null cells |
| Types.ConcatParts | Sunjet/Astrolobe/crates/ll-format/src/types.rs:135-171 | the loop concatenates, or stops at the first segment of another type |
| Types.ConcatChecksTypes | Sunjet/Astrolobe/crates/ll-format/src/types.rs:135-171 | concatenation succeeds exactly when every segment has the type |
| Columns.PackedBits | Sunjet/Astrolobe/crates/ll-format/src/column.rs:238-247 | bit j of the bitmap is set exactly when cell j is present |
| Columns.PackValidity | Sunjet/Astrolobe/crates/ll-format/src/column.rs:238-247 | the in-place bit setting yields that bitmap |
| Columns.CellRoundTrip | Sunjet/Astrolobe/crates/ll-format/src/column.rs:249-404 | every fixed-width cell is read back from its slot |
| Columns.StringsRoundTrip | Sunjet/Astrolobe/crates/ll-format/src/column.rs:249-404 | strings are read back through their offsets |
| Columns.PayloadRoundTrip | Sunjet/Astrolobe/crates/ll-format/src/column.rs:249-404 | a page payload of any type, with or without nulls, decodes to its cells |
| Chunks.EncodePagePayload | Sunjet/Astrolobe/crates/ll-format/src/column.rs:249-312 | the writing loops produce the specified payload |
| Chunks.DecodePagePayload | Sunjet/Astrolobe/crates/ll-format/src/column.rs:314-404 | the reading loops return the specified cells or error on any bytes |
| Chunks.EncodeColumnChunk | Sunjet/Astrolobe/crates/ll-format/src/column.rs:45-137 | the page loop produces the specified chunk and one zone map per page, counts cut to the width of their fields |
| Chunks.DecodeColumnChunk | Sunjet/Astrolobe/crates/ll-format/src/column.rs:140-221 | decoding does what the specification says on any bytes |
| Chunks.PageRoundTrip | Sunjet/Astrolobe/crates/ll-format/src/column.rs:45-221 | each page is found through the index, passes its checksum and decodes to its rows |
| Chunks.PagesConcat | Sunjet/Astrolobe/crates/ll-format/src/column.rs:45-221 | the pages concatenate to the column |
| Chunks.ChunkRoundTrip | Sunjet/Astrolobe/crates/ll-format/src/column.rs:45-221 | a chunk of any type and any rows-per-page decodes to its column |
| FileIntegrity.ChunkMeans | Sunjet/Astrolobe/crates/ll-format/src/column.rs:140-221 | any chunk that is accepted is what its header says, and each of its pages has the checksum given for it |
| VssFiles.WriteFileWith | Sunjet/Astrolobe/crates/ll-format/src/file.rs:107-250 | exactly the inputs the writer's checks accept are written, as the specified file |
| VssFiles.BuildFile | Sunjet/Astrolobe/crates/ll-format/src/file.rs:126-250 | the buffer and directory grown section by section are the specified file, for every input |
| VssFiles.ReadLlFile | Sunjet/Astrolobe/crates/ll-format/src/file.rs:253-342 | reading does what the specification says on any bytes |
| VssFiles.ReadAllSections | Sunjet/Astrolobe/crates/ll-format/src/file.rs:300-327 | the directory walk collects columns and opaque sections in order |
| VssFiles.ReadTranslationTable | Sunjet/Astrolobe/crates/ll-format/src/file.rs:364-382 | a table of the wrong length is refused, any other is read entry by entry |
| VssFiles.FileRoundTrip | Sunjet/Astrolobe/crates/ll-format/src/file.rs:107-342 | reading back any accepted input returns its columns, opaque sections in order, translation table, preamble and footer |
| FileIntegrity.PreambleChecks | Sunjet/Astrolobe/crates/ll-format/src/preamble.rs:46-77 | which 64 bytes are accepted, exactly, and which failure is reported of any others |
| FileIntegrity.ReadMeans | Sunjet/Astrolobe/crates/ll-format/src/file.rs:253-383 | any file that is accepted has its mark at both ends, a footer and sections with the checksums given for them, matching ids and row counts, and a translation table with one entry a row |
| ByteLayouts.PreambleLayout | Sunjet/Astrolobe/crates/ll-format/src/preamble.rs:31-43 | byte by byte: mark `VSS1`, version 1, byte order, id, five 64-bit numbers, low byte first |
| ByteLayouts.TrailerLayout | Sunjet/Astrolobe/crates/ll-format/src/file.rs:236-250 | checksum, footer length, mark |
| ByteLayouts.SectionLayout | Sunjet/Astrolobe/crates/ll-format/src/footer.rs:123-172 | the 26 bytes of a directory entry |
| ByteLayouts.ZoneMapLayout | Sunjet/Astrolobe/crates/ll-format/src/footer.rs:123-172 | the fields of a zone map, counts before lists |
| ByteLayouts.FooterLayout | Sunjet/Astrolobe/crates/ll-format/src/footer.rs:123-172 | the fields of a footer in their order |
| ByteLayouts.ChunkLayout | Sunjet/Astrolobe/crates/ll-format/src/column.rs:45-136 | the 50 bytes of a chunk header |
| ByteLayouts.PageLayout | Sunjet/Astrolobe/crates/ll-format/src/column.rs:45-136 | the 16 bytes of a page header |
| ByteLayouts.IndexLayout | Sunjet/Astrolobe/crates/ll-format/src/column.rs:45-136 | the 24 bytes of a page-index entry |
| VssFiles.FooterBurstDetected | Sunjet/Astrolobe/crates/ll-format/src/file.rs:253-342 | a burst of up to 32 bits anywhere in the footer makes reading fail with a footer checksum mismatch |
| VssFiles.SectionBurstDetected | Sunjet/Astrolobe/crates/ll-format/src/file.rs:253-362 | a burst of up to 32 bits inside any section body makes reading fail |
| Beams.SearchLayer | Sunjet/Astrolobe/crates/ll-index/src/hnsw.rs:388-431 | terminates with at most ef distinct reachable nodes, nearest first; no visited node left out is nearer than a kept one; fewer than ef means everything reachable; one distance for each visited node |
| Beams.BeamExact | Sunjet/Astrolobe/crates/ll-index/src/hnsw.rs:388-431 | with ef covering the reachable nodes, exactly those are returned |
| Beams.LocallyOptimal | Sunjet/Astrolobe/crates/ll-index/src/hnsw.rs:388-431 | nothing next to a result is nearer than any result unless it is one |
| Beams.DescentLocal | Sunjet/Astrolobe/crates/ll-index/src/hnsw.rs:193-200 | where a greedy descent leaves a layer, no neighbor on that layer is nearer |
| Beams.DescentNears | Sunjet/Astrolobe/crates/ll-index/src/hnsw.rs:193-200 | it passes every layer in between, and never ends farther off than it began |
| Beams.BeamGated | Sunjet/Astrolobe/crates/ll-index/src/page.rs:442-501 | exactly the ef least admitted nodes among those visited, by (distance, id); fewer means everything reachable was visited |
| Beams.DropWorst | Sunjet/Astrolobe/crates/ll-index/src/page.rs:488-496 | pushing a candidate and popping the farthest keeps the ef least |
| Beams.GatedExact | Sunjet/Astrolobe/crates/ll-index/src/page.rs:442-501 | with ef at least the reachable count, exactly the admitted reachable nodes |
| HnswIndex.SelectNeighbors | Sunjet/Astrolobe/crates/ll-index/src/hnsw.rs:438-470 | the two passes compute the specified selection |
| HnswIndex.KeptDiverse | Sunjet/Astrolobe/crates/ll-index/src/hnsw.rs:438-470 | kept candidates are pairwise diverse; one is passed over only for a nearer kept one or for want of room |
| HnswIndex.SelectedFacts | Sunjet/Astrolobe/crates/ll-index/src/hnsw.rs:438-470 | at most m distinct candidates, all of them if there are no more, the nearest always first |
| HnswIndex.FilledNearest | Sunjet/Astrolobe/crates/ll-index/src/hnsw.rs:460-467 | what the second pass adds are the nearest of those passed over |
| HnswIndex.Hnsw.SearchWith | Sunjet/Astrolobe/crates/ll-index/src/hnsw.rs:372-386 | greedy descent through every upper layer, each entered at the one result of the beam above, then the best of a layer-0 beam from there, cut off at the asked count, every id in range |
| HnswIndex.Hnsw.ConnectLayer | Sunjet/Astrolobe/crates/ll-index/src/hnsw.rs:218-247 | the new node's list, each neighbor linked back and pruned on overflow, every other list unchanged, the graph well formed |
| HnswIndex.Hnsw.Insert | Sunjet/Astrolobe/crates/ll-index/src/hnsw.rs:177-254 | the invariant: entry at the maximum level, links between different existing nodes of the layer, no duplicates, degrees within bounds; the neighbors selected from the beams of the one route down from the entry; and what else changed |
| HnswPages.PermutationHits | Sunjet/Astrolobe/crates/ll-index/src/page.rs:165-210 | an order listing each node once hits every node |
| HnswPages.ComputeBfsOrder | Sunjet/Astrolobe/crates/ll-index/src/page.rs:167-210 | a permutation of the nodes: first what a node of highest degree reaches, in order of its distance in hops, then the rest in id order |
| HnswSections.ParseSerialized | Sunjet/Astrolobe/crates/ll-index/src/page.rs:44-276 | a serialized index parses, with its header fields and quantizer |
| HnswSections.SlotAgrees | Sunjet/Astrolobe/crates/ll-index/src/page.rs:79-104 | row offset and code of every node survive; of its layer-0 neighbors, renumbered, as many as the count byte says |
| ByteLayouts.SlotLayout | Sunjet/Astrolobe/crates/ll-index/src/page.rs:44-159 | the fields of a node slot, its unused neighbors all ones |
| ByteLayouts.GraphHeaderLayout | Sunjet/Astrolobe/crates/ll-index/src/page.rs:44-159 | the 66 bytes of the section header |
| HnswSections.SlotExact | Sunjet/Astrolobe/crates/ll-index/src/page.rs:79-104 | at layer 0 the view lists a node's neighbors if and only if there are at most 255 of them |
| HnswSections.UpperAgrees | Sunjet/Astrolobe/crates/ll-index/src/page.rs:107-134 | upper-layer neighbors survive behind the sorted index as far as their count byte says, if the counts below fit theirs; above its level a node has none |
| HnswSections.SameGraph | Sunjet/Astrolobe/crates/ll-index/src/page.rs:44-372 | where the counts of the layers below fit their byte, the parsed view lists a node's neighbors, renumbered, if and only if their own count fits, on a layer the level byte reaches |
| HnswSections.SameEverywhere | Sunjet/Astrolobe/crates/ll-index/src/page.rs:44-372 | if every degree and level fits a byte, the view is the same graph at every layer |
| HnswSections.LaterLayerMisread | Sunjet/Astrolobe/crates/ll-index/src/page.rs:117-131 | after a list of more than 255, the next layer's count is read out of that list |
| HnswDegrees.InsertedFull | Sunjet/Astrolobe/crates/ll-index/src/hnsw.rs:177-254 | where beam and degree bounds have room for every node, insertion keeps each layer complete: every node lists exactly the others |
| HnswDegrees.InsertAll | Sunjet/Astrolobe/crates/ll-index/src/hnsw.rs:177-254 | inserting any vectors with any drawn levels into parameters with such room builds a complete graph on every layer |
| HnswDegrees.FullExact | Sunjet/Astrolobe/crates/ll-index/src/page.rs:79-104 | of a complete index the view lists a node's layer-0 neighbors if and only if there are at most 256 nodes |
| HnswDegrees.InsertedListsNone | Sunjet/Astrolobe/crates/ll-index/src/page.rs:44-159 | concrete input: any 257 vectors inserted with such parameters, quantized and serialized; every node has 256 neighbors at layer 0, and the view parsed from the bytes lists none at any node |
| HnswDegrees.InsertedMisread | Sunjet/Astrolobe/crates/ll-index/src/page.rs:107-134 | concrete input: the same with levels of 2 and above; every node has 256 neighbors at layers 1 and 2, and the view lists 255 at layer 1 and at most 255 at layer 2 |
| HnswSearch.FillSlots | Sunjet/Astrolobe/crates/ll-index/src/page.rs:76-105 | the slot region filled in place is the specified one |
| HnswSearch.UpperRecords | Sunjet/Astrolobe/crates/ll-index/src/page.rs:107-134 | the upper-layer loops produce the specified index and records |
| HnswSearch.Quantized | Sunjet/Astrolobe/crates/ll-index/src/hnsw.rs:258-267 | every index that insertion built can be serialized |
| HnswSearch.SerializeHnsw | Sunjet/Astrolobe/crates/ll-index/src/page.rs:44-159 | the writer produces the specified section in a breadth-first order |
| HnswSearch.GetNeighbors | Sunjet/Astrolobe/crates/ll-index/src/page.rs:306-372 | the binary search and the moving cursor return the specified neighbors on any bytes |
| HnswSearch.SearchInner | Sunjet/Astrolobe/crates/ll-index/src/page.rs:397-436 | over any bytes: greedy descent through every upper layer, then the gated beam, whose nodes come out with their row offsets and distances, none lost, all admitted; one distance evaluation for each node visited on each layer |
| HnswSearch.SearchBytes | Sunjet/Astrolobe/crates/ll-index/src/page.rs:374-436 | any bytes that parse can be searched: at most ef different nodes, nearest first, each an admitted row |
| HnswSearch.SerializedHolds | Sunjet/Astrolobe/crates/ll-index/src/page.rs:44-159 | ids in a serialized index lead only to ids of that index |
| HnswSearch.WalksMatch | Sunjet/Astrolobe/crates/ll-index/src/page.rs:44-372 | walks in the view are walks in the index, renamed |
| HnswSearch.SearchedRows | Sunjet/Astrolobe/crates/ll-index/src/page.rs:397-501 | with room for what the index reaches, searching the bytes finds exactly the admitted rows it reaches |
| Blooms.Build | Sunjet/Astrolobe/crates/ll-graph/src/bloom.rs:21-37 | the bits set are exactly the positions of the items; an item may be contained exactly when each of its positions is one of theirs, so every item given may be |
| Blooms.PositionsDiffer | Sunjet/Astrolobe/crates/ll-graph/src/bloom.rs:59-64 | the seven positions of an item are all different |
| Blooms.MixValue | Sunjet/Astrolobe/crates/ll-graph/src/bloom.rs:6-10 | the hash is SplitMix64's: its published first output from seed 0 |
| Blooms.SetBit | Sunjet/Astrolobe/crates/ll-graph/src/bloom.rs:29 | one bit is set and no other changes |
| EdgeIndexes.ForwardOffsets | Sunjet/Astrolobe/crates/ll-graph/src/index.rs:32-38 | counting and summing give, for each source, how many edges start below it |
| EdgeIndexes.Group | Sunjet/Astrolobe/crates/ll-graph/src/index.rs:44-58 | one rising key per distinct target, its sources between its offsets |
| EdgeIndexes.Build | Sunjet/Astrolobe/crates/ll-graph/src/index.rs:28-70 | forward and reverse rows hold exactly the given edges; the filter knows every target |
| EdgeIndexes.Dual | Sunjet/Astrolobe/crates/ll-graph/src/index.rs:100-124 | t occurs among s's targets as often as s among t's sources, and as often as the edge was given |
| EdgeIndexes.NeverDenied | Sunjet/Astrolobe/crates/ll-graph/src/index.rs:126-129 | the filter never denies a target that something points to |
| Traversals.TraverseForward | Sunjet/Astrolobe/crates/ll-graph/src/index.rs:134-161 | exactly the targets at the end of some walk of 1 to the given number of edges, despite visited set and early exit |
| Traversals.SameTargets | Sunjet/Astrolobe/crates/ll-graph/src/page.rs:184-211 | adjacencies that agree everywhere traverse alike |
| EdgePages.SerializeEdgeIndex | Sunjet/Astrolobe/crates/ll-graph/src/page.rs:28-80 | the writer produces the specified section |
| EdgePages.GetOutNeighbors | Sunjet/Astrolobe/crates/ll-graph/src/page.rs:143-154 | the view's lookup on any bytes |
| EdgePages.GetInNeighbors | Sunjet/Astrolobe/crates/ll-graph/src/page.rs:157-177 | the view's binary search and slice on any bytes |
| EdgePages.ParseSerialized | Sunjet/Astrolobe/crates/ll-graph/src/page.rs:28-136 | a serialized index parses to the view of its regions and its filter |
| EdgePages.OutAgrees | Sunjet/Astrolobe/crates/ll-graph/src/page.rs:143-154 | every source has the same targets in the view; the clamp loses nothing |
| EdgePages.InAgrees | Sunjet/Astrolobe/crates/ll-graph/src/page.rs:157-177 | every target has the same sources in the view; the binary search and the clamp lose nothing |
| EdgePages.TraversalAgrees | Sunjet/Astrolobe/crates/ll-graph/src/page.rs:184-211 | traversing the view finds what traversing the index finds |
| EdgePages.TraverseIndex | Sunjet/Astrolobe/crates/ll-graph/src/index.rs:134-161 | on a built index the traversal finds exactly the ends of its walks |
| EdgePages.TraverseView | Sunjet/Astrolobe/crates/ll-graph/src/page.rs:184-211 | on a view of any bytes likewise |
| Histograms.Build | Sunjet/Astrolobe/crates/ll-cost/src/histogram.rs:19-40 | boundaries are the values at the rounded quantiles of the sorted values |
| Histograms.IndexFacts | Sunjet/Astrolobe/crates/ll-cost/src/histogram.rs:31-35 | a quantile index lies inside the values and is the nearest to its exact place, the greater of two as near |
| Histograms.EstimateLt | Sunjet/Astrolobe/crates/ll-cost/src/histogram.rs:51-79 | the bucket scan computes the specified estimate |
| Histograms.EstimateBounded | Sunjet/Astrolobe/crates/ll-cost/src/histogram.rs:51-79 | the estimate lies between fraction(< t) and fraction(<= t), up to 1/b + 1/(2n) each way, duplicates included |
| Histograms.EstimateMonotone | Sunjet/Astrolobe/crates/ll-cost/src/histogram.rs:51-79 | a greater threshold is never estimated lower |
| Histograms.Interpolates | Sunjet/Astrolobe/crates/ll-cost/src/histogram.rs:51-79 | between two different boundaries the estimate grows evenly: each bucket stands for the same share of the values |
| Histograms.Outside | Sunjet/Astrolobe/crates/ll-cost/src/histogram.rs:51-63 | nothing is estimated below the least boundary or of no values, everything from the greatest on |
| Histograms.RangesAdd | Sunjet/Astrolobe/crates/ll-cost/src/histogram.rs:82-84 | ranges side by side add up |
| Histograms.RangeBounded | Sunjet/Astrolobe/crates/ll-cost/src/histogram.rs:82-84 | a range estimate is off by at most twice that; an empty range is estimated empty |

## Left out

- Files, `fsync`, rename and the manifest's bytes: the format works on byte sequences, the log is a sequence of records with
  rising LSNs, and truncating it is one step.
- The log's own record framing, the query executor and the text index.
- Zone-map minima, maxima and vector centroids: an arbitrary function of the page computes them; their encoding is modelled.
- The columns and index sections a flush builds out of memtable rows: a flushed segment is its visible entries.
- Compaction, which restamps the surviving rows.
- Corrupt offsets near the top of the 64-bit range: offsets are unbounded numbers, so overflow checks on them cannot fail.
- NaN, infinities and rounding; the distance kernels; quantization error; random levels and recall measurement.
- The planner, the binder, synthesis, tracing, audit logging, lifecycle transitions, the fail-open second planner call and
  token budgets: what the planner and binder propose is an arbitrary argument of a turn.
- Message wording: a question is the tool, its description and its arguments, or the set of fields asked for.
- Sessions.ConfirmedIsWhatRuns: compares the call with the arguments carried with the question; the prompt's text renders each
  with `String(value)`, which does not show what is inside an object.
- The order of keys inside nested argument objects: the source's hash ignores it, while records are ordered here, so two calls
  that differ in it alone count as different.
- Descriptions, formats, items and nested properties of declared parameters: coercion does not read them.
- Property names inherited from `Object.prototype`, dates and buffers: argument values are JSON values.
- Case folding and trimming beyond ASCII.
- The legacy confirmation fallback used without a suspension store, and the mirror of suspended plans.
- `approx_bytes` of the memtable, and scans that only filter what `visible_entries_versioned` returns.
- EngineTheorems.TornAppend: the part of a record that a failed append leaves is not a byte sequence here, only a place in the log
  after which nothing is read, because the log's framing is not modelled.
- A flush whose segment file or manifest cannot be written: the segment's effect on the running engine before the next start.
- HnswIndex.Hnsw.Insert: takes the node's level as an argument, because it is drawn at random.
- Beams.SearchLayer: starts from one entry point, which is all its callers pass.
- Executor.AwaitReads: runs each read as one atomic step in an arbitrary order, because a read touches only its own entry.
