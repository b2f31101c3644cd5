/**
 What running a plan does, as functions of the executor's state and of everything outside it:
 the answers of the tools, the clock, and the order in which parallel reads happen to run.
 */
module Execution {
  import opened Wrappers
  import opened ToolSchema
  import opened Gates
  import opened Plans
  import opened Resolver

  /** A finished call; its arguments stand for their hash. */
  datatype Entry = Entry(instructionId: string, argsHash: Args, ok: bool, result: Value, toolName: string, durationMs: nat)

  datatype ExecState = ExecState(
    ledger: seq<Entry>, completed: set<string>, outputs: map<string, Value>,
    executedToolNames: seq<string>, toolCallsExecuted: nat)

  datatype InvokeResult = InvokeResult(ok: bool, data: Value, error: Value, durationMs: nat)

  datatype Call = Call(instructionId: string, toolName: string, args: Args)

  datatype Meter = Meter(toolCalls: nat, seen: map<(string, Args), nat>)

  /** The executor with its turn's meter and the calls made so far in this run. */
  datatype Machine = Machine(state: ExecState, meter: Meter, calls: seq<Call>)

  /** Limits and surroundings of one run; `answer(k)` is the result of its `k`-th call. */
  datatype Deps = Deps(
    js: Js, gate: GateContext, approved: set<string>, maxToolCalls: nat,
    answer: nat -> InvokeResult, late: nat -> bool, pick: seq<string> -> nat)

  datatype Question = AskInfo(fields: set<string>) | AskApproval(toolName: string, description: string, args: Args)

  datatype StopReason = Denied(why: Reason) | OutOfBudget(budget: BudgetReason) | FailedProducer(capability: string) | Stalled

  datatype BudgetReason = TooManyCalls | NoProgress | TooLate

  datatype SuspensionReason = AwaitingInfo | AwaitingConfirmation

  datatype Outcome =
    | Complete
    | Suspend(reason: SuspensionReason, instruction: Instruction, missing: seq<string>, question: Question)
    | Blocked(stop: StopReason)

  datatype Step = Step(machine: Machine, outcome: Outcome)

  // ---- ledger and state ----

  function EmptyState(): ExecState {
    ExecState([], {}, map[], [], 0)
  }

  /** The state after recording one more finished call. */
  function Recorded(s: ExecState, e: Entry): ExecState {
    ExecState(s.ledger + [e], s.completed + {e.instructionId},
              if e.ok then s.outputs[e.instructionId := e.result] else s.outputs,
              s.executedToolNames + [e.toolName], s.toolCallsExecuted + 1)
  }

  /** The state that a ledger stands for. */
  function Seed(ledger: seq<Entry>): (s: ExecState)
    ensures s.ledger == ledger
  {
    if ledger == [] then EmptyState() else Recorded(Seed(ledger[..|ledger| - 1]), ledger[|ledger| - 1])
  }

  function Ids(ledger: seq<Entry>): set<string> {
    set e <- ledger :: e.instructionId
  }

  predicate DistinctEntries(ledger: seq<Entry>) {
    forall i, j :: 0 <= i < j < |ledger| ==> ledger[i].instructionId != ledger[j].instructionId
  }

  /** `ledger.find(l => l.instructionId === id)` */
  function FindEntry(ledger: seq<Entry>, id: string): (e: Option<Entry>)
    ensures e.None? <==> forall i :: 0 <= i < |ledger| ==> ledger[i].instructionId != id
    ensures e.Some? ==> e.value in ledger && e.value.instructionId == id
  {
    if ledger == [] then None
    else if ledger[0].instructionId == id then Some(ledger[0])
    else FindEntry(ledger[1..], id)
  }

  /** The first entry of the same call. */
  function FindCall(ledger: seq<Entry>, id: string, args: Args): (e: Option<Entry>)
    ensures e.Some? ==> e.value in ledger && e.value.instructionId == id && e.value.argsHash == args
  {
    if ledger == [] then None
    else if ledger[0].instructionId == id && ledger[0].argsHash == args then Some(ledger[0])
    else FindCall(ledger[1..], id, args)
  }

  // ---- arguments ----

  function FieldExact(fields: seq<Field>, name: string): Option<Value> {
    if fields == [] then None
    else if fields[0].name == name then Some(fields[0].value)
    else FieldExact(fields[1..], name)
  }

  function FieldAlike(fields: seq<Field>, norm: string): Option<Value> {
    if fields == [] then None
    else if NormalizeField(fields[0].name) == norm then Some(fields[0].value)
    else FieldAlike(fields[1..], norm)
  }

  /** A producer's field by exact, then by normalized name; otherwise the whole output. */
  function ExtractField(v: Value, field: string): Value {
    if !v.Record? then v
    else
      var exact := FieldExact(v.fields, field);
      if exact.Some? then exact.value else FieldAlike(v.fields, NormalizeField(field)).GetOr(v)
  }

  /** Field `k` is the first with this name. */
  predicate FirstNamed(fields: seq<Field>, k: nat, name: string) {
    k < |fields| && fields[k].name == name && forall j :: 0 <= j < k ==> fields[j].name != name
  }

  /** Field `k` is the first whose name normalizes to `norm`. */
  predicate FirstAlike(fields: seq<Field>, k: nat, norm: string) {
    k < |fields| && NormalizeField(fields[k].name) == norm && forall j :: 0 <= j < k ==> NormalizeField(fields[j].name) != norm
  }

  /** A field of that very name wins; failing that the first whose name normalizes alike; failing that the whole output. */
  lemma ExtractsField(fields: seq<Field>, field: string)
    ensures var v, norm := ExtractField(Value.Record(fields), field), NormalizeField(field);
            && (forall k: nat :: FirstNamed(fields, k, field) ==> v == fields[k].value)
            && ((forall k :: 0 <= k < |fields| ==> fields[k].name != field) ==>
                  && (forall k: nat :: FirstAlike(fields, k, norm) ==> v == fields[k].value)
                  && ((forall k :: 0 <= k < |fields| ==> NormalizeField(fields[k].name) != norm) ==> v == Value.Record(fields)))
  {
    hide NormalizeField;
    ExactFound(fields, field);
    AlikeFound(fields, NormalizeField(field));
  }

  lemma {:induction false} ExactFound(fields: seq<Field>, name: string)
    ensures FieldExact(fields, name).None? <==> forall k :: 0 <= k < |fields| ==> fields[k].name != name
    ensures forall k: nat :: FirstNamed(fields, k, name) ==> FieldExact(fields, name) == Some(fields[k].value)
  {
    if fields != [] {
      ExactFound(fields[1..], name);
      assert forall k :: 1 <= k < |fields| ==> fields[k] == fields[1..][k - 1];
      forall k: nat | FirstNamed(fields, k, name) && k > 0
        ensures FirstNamed(fields[1..], k - 1, name)
      {
      }
    }
  }

  lemma {:induction false} AlikeFound(fields: seq<Field>, norm: string)
    ensures FieldAlike(fields, norm).None? <==> forall k :: 0 <= k < |fields| ==> NormalizeField(fields[k].name) != norm
    ensures forall k: nat :: FirstAlike(fields, k, norm) ==> FieldAlike(fields, norm) == Some(fields[k].value)
  {
    hide NormalizeField;
    if fields != [] {
      AlikeFound(fields[1..], norm);
      assert forall k :: 1 <= k < |fields| ==> fields[k] == fields[1..][k - 1];
      forall k: nat | FirstAlike(fields, k, norm) && k > 0
        ensures FirstAlike(fields[1..], k - 1, norm)
      {
      }
    }
  }

  function SourceValue(s: ArgSource, outputs: map<string, Value>): Option<Value> {
    match s
    case Literal(v) => Some(v)
    case Output(id, field) =>
      var v := ExtractField(if id in outputs then outputs[id] else Undefined, field);
      if Absent(v) then None else Some(v)
    case Missing => None
  }

  function AssembledArgs(i: Instruction, outputs: map<string, Value>): Args {
    map param | param in i.argSources && SourceValue(i.argSources[param], outputs).Some? ::
      SourceValue(i.argSources[param], outputs).value
  }

  function MissingArgs(i: Instruction, outputs: map<string, Value>): set<string> {
    set param | param in i.argSources && SourceValue(i.argSources[param], outputs).None?
  }

  /** The concrete arguments; coercion errors are not looked at. */
  function FinalArgs(js: Js, i: Instruction, outputs: map<string, Value>): Args {
    Coerced(js, i.tool.params, AssembledArgs(i, outputs)).args
  }

  function GateOf(i: Instruction, outputs: map<string, Value>, d: Deps): Verdict {
    EvaluateGate(i.tool, FinalArgs(d.js, i, outputs), d.gate)
  }

  // ---- budgets ----

  /** `noteToolCall`: the meter counts even a refused call, unless it is over the limit. */
  function NoteToolCall(m: Meter, d: Deps, toolName: string, args: Args): (Meter, Option<BudgetReason>) {
    var calls, key := m.toolCalls + 1, (toolName, args);
    if calls > d.maxToolCalls then (m.(toolCalls := calls), Some(TooManyCalls))
    else
      var seen := (if key in m.seen then m.seen[key] else 0) + 1;
      (Meter(calls, m.seen[key := seen]),
       if seen >= 3 then Some(NoProgress) else if d.late(calls) then Some(TooLate) else None)
  }

  // ---- one instruction ----

  function EntryOf(c: Call, r: InvokeResult): Entry {
    Entry(c.instructionId, c.args, r.ok, if r.ok then r.data else r.error, c.toolName, r.durationMs)
  }

  function Invoked(m: Machine, d: Deps, c: Call): Machine {
    m.(state := Recorded(m.state, EntryOf(c, d.answer(|m.calls|))), calls := m.calls + [c])
  }

  /** Idempotency, budget, then the call itself. */
  function InvokeStep(i: Instruction, args: Args, m: Machine, d: Deps): Step {
    var prior := FindCall(m.state.ledger, i.id, args);
    if prior.Some? && prior.value.ok then
      Step(m.(state := m.state.(completed := m.state.completed + {i.id}, outputs := m.state.outputs[i.id := prior.value.result])), Complete)
    else
      var (meter, refused) := NoteToolCall(m.meter, d, i.tool.name, args);
      if refused.Some? then Step(m.(meter := meter), Blocked(OutOfBudget(refused.value)))
      else Step(Invoked(m.(meter := meter), d, Call(i.id, i.tool.name, args)), Complete)
  }

  function RunInstruction(i: Instruction, m: Machine, d: Deps): (s: Step)
    ensures m.state.completed <= s.machine.state.completed <= m.state.completed + {i.id}
    ensures s.outcome.Complete? ==> i.id in s.machine.state.completed
  {
    var args := FinalArgs(d.js, i, m.state.outputs);
    match EvaluateGate(i.tool, args, d.gate)
    case DenyFatal(why) => Step(m, Blocked(Denied(why)))
    case NeedsInfo(missing) =>
      Step(m, Suspend(AwaitingInfo, i, missing, AskInfo(AskedFor(i, m.state.outputs, missing))))
    case NeedsApproval =>
      if i.id in d.approved then InvokeStep(i, args, m, d)
      else Step(m, Suspend(AwaitingConfirmation, i, [], AskApproval(i.tool.name, i.tool.description, args)))
    case Allow => InvokeStep(i, args, m, d)
  }

  /** The fields an info question names: the arguments without a value or, if there are none, what the gate misses. */
  function AskedFor(i: Instruction, outputs: map<string, Value>, missing: seq<string>): set<string> {
    var absent := MissingArgs(i, outputs);
    if absent != {} then absent else set f <- missing
  }

  // ---- waves ----

  function IdsOf(s: seq<Instruction>): (ids: seq<string>)
    ensures |ids| == |s|
  {
    seq(|s|, k requires 0 <= k < |s| => s[k].id)
  }

  function Without(s: seq<Instruction>, k: nat): seq<Instruction>
    requires k < |s|
  {
    s[..k] + s[k + 1..]
  }

  /** The machine after some reads, and their outcomes in plan order. */
  datatype Reading = Reading(machine: Machine, outcomes: seq<Outcome>)

  /** The reads of a wave, each run as one step, in whatever order they come. */
  function RunReads(todo: seq<Instruction>, m: Machine, d: Deps): (r: Reading)
    ensures |r.outcomes| == |todo|
    decreases |todo|
  {
    if todo == [] then Reading(m, [])
    else
      var k := d.pick(IdsOf(todo)) % |todo|;
      var s := RunInstruction(todo[k], m, d);
      var rest := RunReads(Without(todo, k), s.machine, d);
      Reading(rest.machine, Spliced(rest.outcomes, k, s.outcome))
  }

  /** `o` put at place `k`. */
  function Spliced(outcomes: seq<Outcome>, k: nat, o: Outcome): (r: seq<Outcome>)
    requires k <= |outcomes|
    ensures |r| == |outcomes| + 1
  {
    outcomes[..k] + [o] + outcomes[k..]
  }

  /** The first outcome, in plan order, that stops the plan. */
  function FirstStop(outcomes: seq<Outcome>): Outcome {
    if outcomes == [] then Complete
    else if !outcomes[0].Complete? then outcomes[0]
    else FirstStop(outcomes[1..])
  }

  function RunWrites(writeSteps: seq<Instruction>, m: Machine, d: Deps): Step
    decreases |writeSteps|
  {
    if writeSteps == [] then Step(m, Complete)
    else
      var s := RunInstruction(writeSteps[0], m, d);
      if s.outcome.Complete? then RunWrites(writeSteps[1..], s.machine, d) else s
  }

  function OfEffect(s: seq<Instruction>, e: Effect): (r: seq<Instruction>)
    ensures forall x :: x in r <==> x in s && x.effect == e
  {
    if s == [] then []
    else
      var rest, x := OfEffect(s[..|s| - 1], e), s[|s| - 1];
      if x.effect == e then rest + [x] else rest
  }

  lemma {:induction false} EffectDistinct(s: seq<Instruction>, e: Effect)
    requires DistinctIds(s)
    ensures DistinctIds(OfEffect(s, e))
  {
    if s != [] {
      EffectDistinct(s[..|s| - 1], e);
      var rest, x := OfEffect(s[..|s| - 1], e), s[|s| - 1];
      assert forall i :: 0 <= i < |rest| ==> rest[i] in rest;
    }
  }

  /** Some instruction still to run needs `id`. */
  predicate HasPendingDependent(s: seq<Instruction>, completed: set<string>, id: string) {
    exists k :: 0 <= k < |s| && s[k].id !in completed && id in s[k].needs
  }

  /** The first step of the wave that failed and that a pending step depends on. */
  function FailedProducerOf(s: seq<Instruction>, wave: seq<Instruction>, state: ExecState): (f: Option<Instruction>)
    ensures f.None? ==> forall x <- wave :: !Fails(s, state, x.id)
    ensures f.Some? ==> f.value in wave && Fails(s, state, f.value.id)
  {
    if wave == [] then None
    else if Fails(s, state, wave[0].id) then Some(wave[0])
    else FailedProducerOf(s, wave[1..], state)
  }

  predicate Fails(s: seq<Instruction>, state: ExecState, id: string) {
    var e := FindEntry(state.ledger, id);
    e.Some? && !e.value.ok && HasPendingDependent(s, state.completed, id)
  }

  function RunWave(s: seq<Instruction>, wave: seq<Instruction>, m: Machine, d: Deps): Step {
    var readSteps, writeSteps := OfEffect(wave, Reads), OfEffect(wave, Writes);
    var r := RunReads(readSteps, m, d);
    var stop := FirstStop(r.outcomes);
    if !stop.Complete? then Step(r.machine, stop)
    else
      var w := RunWrites(writeSteps, r.machine, d);
      if !w.outcome.Complete? then w
      else
        var failed := FailedProducerOf(s, wave, w.machine.state);
        if failed.Some? then Step(w.machine, Blocked(FailedProducer(failed.value.capability)))
        else Step(w.machine, Complete)
  }

  // ---- completed steps only accumulate ----

  lemma {:induction false} ReadsComplete(todo: seq<Instruction>, m: Machine, d: Deps)
    ensures m.state.completed <= RunReads(todo, m, d).machine.state.completed
    ensures forall j :: 0 <= j < |todo| && RunReads(todo, m, d).outcomes[j].Complete? ==> todo[j].id in RunReads(todo, m, d).machine.state.completed
    decreases |todo|
  {
    hide RunInstruction;
    if todo != [] {
      var k := d.pick(IdsOf(todo)) % |todo|;
      var s, rest := RunInstruction(todo[k], m, d), Without(todo, k);
      ReadsComplete(rest, s.machine, d);
      forall j | 0 <= j < |todo| && RunReads(todo, m, d).outcomes[j].Complete?
        ensures todo[j].id in RunReads(todo, m, d).machine.state.completed
      {
        if j != k {
          var q := if j < k then j else j - 1;
          assert todo[j] == rest[q];
        }
      }
    }
  }

  lemma {:induction false} NoStop(outcomes: seq<Outcome>)
    ensures FirstStop(outcomes).Complete? <==> forall j :: 0 <= j < |outcomes| ==> outcomes[j].Complete?
    ensures !FirstStop(outcomes).Complete? ==> exists j :: 0 <= j < |outcomes| && FirstStop(outcomes) == outcomes[j]
  {
    if outcomes != [] {
      NoStop(outcomes[1..]);
      assert forall j :: 1 <= j < |outcomes| ==> outcomes[j] == outcomes[1..][j - 1];
    }
  }

  lemma {:induction false} WritesComplete(writeSteps: seq<Instruction>, m: Machine, d: Deps)
    ensures var s := RunWrites(writeSteps, m, d);
            && m.state.completed <= s.machine.state.completed
            && (s.outcome.Complete? ==> forall x <- writeSteps :: x.id in s.machine.state.completed)
    decreases |writeSteps|
  {
    hide RunInstruction;
    if writeSteps != [] {
      var s := RunInstruction(writeSteps[0], m, d);
      if s.outcome.Complete? {
        WritesComplete(writeSteps[1..], s.machine, d);
        assert forall x <- writeSteps :: x == writeSteps[0] || x in writeSteps[1..];
      }
    }
  }

  /** A wave that does not stop the plan completes all its steps. */
  lemma WaveCompletes(s: seq<Instruction>, wave: seq<Instruction>, m: Machine, d: Deps)
    ensures var r := RunWave(s, wave, m, d);
            && m.state.completed <= r.machine.state.completed
            && (r.outcome.Complete? ==> forall x <- wave :: x.id in r.machine.state.completed)
  {
    hide RunReads, RunWrites, Fails;
    var readSteps, writeSteps := OfEffect(wave, Reads), OfEffect(wave, Writes);
    var r := RunReads(readSteps, m, d);
    ReadsComplete(readSteps, m, d);
    NoStop(r.outcomes);
    WritesComplete(writeSteps, r.machine, d);
    forall x | x in wave
      ensures x in readSteps || x in writeSteps
    {
    }
  }

  // ---- the whole run ----

  datatype Run = Run(machine: Machine, outcome: Outcome, waves: nat)

  ghost function Remaining(s: seq<Instruction>, completed: set<string>): set<string> {
    (set x <- s :: x.id) - completed
  }

  function ExecutePlan(s: seq<Instruction>, m: Machine, d: Deps): Run
    decreases |Remaining(s, m.state.completed)|
  {
    if |m.state.completed| >= |s| then Run(m, Complete, 0)
    else
      var wave := NextWave(s, m.state.completed);
      if wave == [] then Run(m, Blocked(Stalled), 0)
      else
        var w := RunWave(s, wave, m, d);
        if !w.outcome.Complete? then Run(w.machine, w.outcome, 1)
        else
          WaveShrinks(s, m, d);
          var rest := ExecutePlan(s, w.machine, d);
          rest.(waves := rest.waves + 1)
  }

  lemma WaveShrinks(s: seq<Instruction>, m: Machine, d: Deps)
    requires NextWave(s, m.state.completed) != [] && RunWave(s, NextWave(s, m.state.completed), m, d).outcome.Complete?
    ensures var after := RunWave(s, NextWave(s, m.state.completed), m, d).machine.state.completed;
            |Remaining(s, after)| < |Remaining(s, m.state.completed)|
  {
    hide RunWave;
    var wave := NextWave(s, m.state.completed);
    WaveCompletes(s, wave, m, d);
    var after := RunWave(s, wave, m, d).machine.state.completed;
    assert wave[0] in wave;
    var before, rest := Remaining(s, m.state.completed), Remaining(s, after);
    assert wave[0].id in before && wave[0].id !in rest && rest <= before;
    Fewer(rest, before, wave[0].id);
  }

  lemma Fewer(a: set<string>, b: set<string>, x: string)
    requires a <= b && x in b && x !in a
    ensures |a| < |b|
  {
    assert b == a + (b - a);
  }
}
