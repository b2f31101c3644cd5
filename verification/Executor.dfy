/** The executor itself: its state, the budget meter and the tools, updated in place as a plan runs. */
module Executor {
  import opened Wrappers
  import opened ToolSchema
  import opened Gates
  import opened Plans
  import opened Resolver
  import opened Execution

  /** The tools behind the bridge; they answer as they please. */
  class Sdk {
    const answer: nat -> InvokeResult
    var calls: seq<Call>

    constructor (answer: nat -> InvokeResult)
      ensures this.answer == answer && calls == []
    {
      this.answer, calls := answer, [];
    }

    method Invoke(c: Call) returns (r: InvokeResult)
      modifies this
      ensures calls == old(calls) + [c] && r == answer(old(|calls|))
    {
      r := answer(|calls|);
      calls := calls + [c];
    }
  }

  class BudgetMeter {
    var toolCalls: nat
    var seenCalls: map<(string, Args), nat>

    function View(): Meter
      reads this
    {
      Meter(toolCalls, seenCalls)
    }

    constructor ()
      ensures View() == Meter(0, map[])
    {
      toolCalls, seenCalls := 0, map[];
    }

    method NoteToolCall(d: Deps, toolName: string, argsHash: Args) returns (refused: Option<BudgetReason>)
      modifies this
      ensures (View(), refused) == Execution.NoteToolCall(old(View()), d, toolName, argsHash)
    {
      toolCalls := toolCalls + 1;
      if toolCalls > d.maxToolCalls {
        return Some(TooManyCalls);
      }
      var key := (toolName, argsHash);
      var seen := (if key in seenCalls then seenCalls[key] else 0) + 1;
      seenCalls := seenCalls[key := seen];
      if seen >= 3 {
        return Some(NoProgress);
      }
      refused := if d.late(toolCalls) then Some(TooLate) else None;
    }
  }

  /** What a turn's earlier ledger stands for: only its successes count as completed. */
  function Hydrated(existing: seq<Entry>, k: nat): ExecState
    requires k <= |existing|
  {
    if k == 0 then ExecState(existing, {}, map[], [], 0)
    else
      var s, e := Hydrated(existing, k - 1), existing[k - 1];
      if e.ok then s.(completed := s.completed + {e.instructionId}, outputs := s.outputs[e.instructionId := e.result]) else s
  }

  class ExecutorState {
    var ledger: seq<Entry>
    var completed: set<string>
    var outputs: map<string, Value>
    var executedToolNames: seq<string>
    var toolCallsExecuted: nat

    function View(): ExecState
      reads this
    {
      ExecState(ledger, completed, outputs, executedToolNames, toolCallsExecuted)
    }

    /** `newExecutorState` */
    constructor (existing: seq<Entry>)
      ensures View() == Hydrated(existing, |existing|)
    {
      ledger, completed, outputs, executedToolNames, toolCallsExecuted := existing, {}, map[], [], 0;
      new;
      for k := 0 to |existing|
        invariant View() == Hydrated(existing, k)
      {
        var e := existing[k];
        if e.ok {
          completed := completed + {e.instructionId};
          outputs := outputs[e.instructionId := e.result];
        }
      }
    }
  }

  /** Empty for an empty ledger; a failed step of an earlier ledger is not completed, and may run again. */
  lemma {:induction false} HydratedFacts(existing: seq<Entry>, k: nat, id: string)
    requires k <= |existing|
    ensures Hydrated([], 0) == EmptyState()
    ensures id in Hydrated(existing, k).completed <==> exists j :: 0 <= j < k && existing[j].instructionId == id && existing[j].ok
    ensures Hydrated(existing, k).outputs.Keys == Hydrated(existing, k).completed
  {
    if k > 0 {
      HydratedFacts(existing, k - 1, id);
    }
  }

  /** Entry `j` is the last success of its instruction among the first `k`. */
  predicate LastSuccess(existing: seq<Entry>, k: nat, j: nat) {
    && j < k <= |existing| && existing[j].ok
    && forall i :: j < i < k ==> existing[i].instructionId != existing[j].instructionId || !existing[i].ok
  }

  /** The output of an instruction is the result of its last success. */
  lemma {:induction false} HydratedOutputs(existing: seq<Entry>, k: nat, j: nat)
    requires LastSuccess(existing, k, j)
    ensures var outputs := Hydrated(existing, k).outputs;
            existing[j].instructionId in outputs && outputs[existing[j].instructionId] == existing[j].result
  {
    if j < k - 1 {
      HydratedOutputs(existing, k - 1, j);
    }
  }

  /** Concrete arguments from resolved sources. */
  method AssembleArgs(i: Instruction, outputs: map<string, Value>) returns (args: Args, missing: set<string>)
    ensures args == AssembledArgs(i, outputs) && missing == MissingArgs(i, outputs)
  {
    hide ExtractField;
    args, missing := map[], {};
    var rest := i.argSources.Keys;
    while rest != {}
      invariant rest <= i.argSources.Keys
      invariant args.Keys + missing == i.argSources.Keys - rest && args.Keys !! missing
      invariant forall p <- args :: SourceValue(i.argSources[p], outputs) == Some(args[p])
      invariant forall p <- missing :: SourceValue(i.argSources[p], outputs).None?
      decreases rest
    {
      var param :| param in rest;
      var v := SourceValue(i.argSources[param], outputs);
      if v.Some? {
        args := args[param := v.value];
      } else {
        missing := missing + {param};
      }
      rest := rest - {param};
    }
    assert missing == MissingArgs(i, outputs);
    assert args == AssembledArgs(i, outputs);
  }

  /** Assemble, gate, then invoke once. */
  method RunInstruction(i: Instruction, state: ExecutorState, meter: BudgetMeter, sdk: Sdk, d: Deps) returns (outcome: Outcome)
    requires sdk.answer == d.answer
    modifies state, meter, sdk
    ensures Step(Machine(state.View(), meter.View(), sdk.calls), outcome)
         == Execution.RunInstruction(i, old(Machine(state.View(), meter.View(), sdk.calls)), d)
  {
    hide EvaluateGate, Coerced, AssembledArgs, MissingArgs, InvokeStep;
    var raw, missing := AssembleArgs(i, state.outputs);
    var coercion := CoerceArgs(d.js, i.tool.params, raw);
    var finalArgs := coercion.args;
    var verdict := EvaluateGate(i.tool, finalArgs, d.gate);
    if verdict.DenyFatal? {
      return Blocked(Denied(verdict.reason));
    }
    if verdict.NeedsInfo? {
      return Suspend(AwaitingInfo, i, verdict.missing, AskInfo(if missing != {} then missing else set f <- verdict.missing));
    }
    if verdict.NeedsApproval? && i.id !in d.approved {
      return Suspend(AwaitingConfirmation, i, [], AskApproval(i.tool.name, i.tool.description, finalArgs));
    }
    outcome := InvokeOnce(i, finalArgs, state, meter, sdk, d);
  }

  /** A completed identical call is not repeated; a new one is counted, made and recorded. */
  method InvokeOnce(i: Instruction, args: Args, state: ExecutorState, meter: BudgetMeter, sdk: Sdk, d: Deps) returns (outcome: Outcome)
    requires sdk.answer == d.answer
    modifies state, meter, sdk
    ensures Step(Machine(state.View(), meter.View(), sdk.calls), outcome)
         == InvokeStep(i, args, old(Machine(state.View(), meter.View(), sdk.calls)), d)
  {
    hide FindCall, Execution.NoteToolCall;
    var prior := FindCall(state.ledger, i.id, args);
    if prior.Some? && prior.value.ok {
      state.completed := state.completed + {i.id};
      state.outputs := state.outputs[i.id := prior.value.result];
      return Complete;
    }
    var refused := meter.NoteToolCall(d, i.tool.name, args);
    if refused.Some? {
      return Blocked(OutOfBudget(refused.value));
    }
    var c := Call(i.id, i.tool.name, args);
    var result := sdk.Invoke(c);
    state.toolCallsExecuted := state.toolCallsExecuted + 1;
    state.executedToolNames := state.executedToolNames + [i.tool.name];
    state.completed := state.completed + {i.id};
    state.ledger := state.ledger + [EntryOf(c, result)];
    if result.ok {
      state.outputs := state.outputs[i.id := result.data];
    }
    outcome := Complete;
  }

  /** The reads of a wave, all of them, in whatever order they finish. */
  method AwaitReads(readSteps: seq<Instruction>, state: ExecutorState, meter: BudgetMeter, sdk: Sdk, d: Deps) returns (outcomes: seq<Outcome>)
    requires sdk.answer == d.answer
    modifies state, meter, sdk
    ensures Reading(Machine(state.View(), meter.View(), sdk.calls), outcomes)
         == RunReads(readSteps, old(Machine(state.View(), meter.View(), sdk.calls)), d)
  {
    hide Execution.RunInstruction, RunReads;
    ghost var all := RunReads(readSteps, Machine(state.View(), meter.View(), sdk.calls), d);
    var todo := readSteps;
    var places: seq<nat> := seq<nat>(|readSteps|, p requires 0 <= p => p);
    var finished: map<nat, Outcome> := map[];
    AwaitStart(all.outcomes, places);
    while todo != []
      invariant sdk.answer == d.answer && |places| == |todo|
      invariant all.machine == RunReads(todo, Machine(state.View(), meter.View(), sdk.calls), d).machine
      invariant Awaiting(all.outcomes, places, RunReads(todo, Machine(state.View(), meter.View(), sdk.calls), d).outcomes, finished)
      decreases |todo|
    {
      var k := d.pick(IdsOf(todo)) % |todo|;
      ReadsStep(todo, Machine(state.View(), meter.View(), sdk.calls), d);
      var outcome := RunInstruction(todo[k], state, meter, sdk, d);
      AwaitOne(all.outcomes, places, RunReads(Without(todo, k), Machine(state.View(), meter.View(), sdk.calls), d).outcomes, finished, k, outcome);
      finished := finished[places[k] := outcome];
      places := places[..k] + places[k + 1..];
      todo := Without(todo, k);
    }
    NothingLeft(Machine(state.View(), meter.View(), sdk.calls), d);
    outcomes := seq(|readSteps|, p requires 0 <= p < |readSteps| && p in finished => finished[p]);
  }

  /** Each outcome is either there already, or that of a step still to run, at its place. */
  predicate Awaiting(all: seq<Outcome>, places: seq<nat>, rest: seq<Outcome>, finished: map<nat, Outcome>) {
    && |places| == |rest| && (forall j :: 0 <= j < |places| ==> places[j] < |all| && all[places[j]] == rest[j])
    && (forall p <- finished :: p < |all| && all[p] == finished[p])
    && forall p: nat :: p < |all| ==> p in finished || p in places
  }

  lemma AwaitStart(all: seq<Outcome>, places: seq<nat>)
    requires |places| == |all| && forall p :: 0 <= p < |all| ==> places[p] == p
    ensures Awaiting(all, places, all, map[])
  {
    forall p: nat | p < |all|
      ensures p in places
    {
      assert places[p] == p;
    }
  }

  lemma AwaitOne(all: seq<Outcome>, places: seq<nat>, later: seq<Outcome>, finished: map<nat, Outcome>, k: nat, o: Outcome)
    requires k <= |later| && Awaiting(all, places, Spliced(later, k, o), finished)
    ensures Awaiting(all, places[..k] + places[k + 1..], later, finished[places[k] := o])
  {
    var rest, places' := Spliced(later, k, o), places[..k] + places[k + 1..];
    forall j | 0 <= j < |later|
      ensures places'[j] < |all| && all[places'[j]] == later[j]
    {
      var i := if j < k then j else j + 1;
      assert places'[j] == places[i] && rest[i] == later[j];
    }
    forall p: nat | p < |all| && p !in finished && p != places[k]
      ensures p in places'
    {
      var i :| 0 <= i < |places| && places[i] == p;
      assert places'[if i < k then i else i - 1] == p;
    }
  }

  lemma NothingLeft(m: Machine, d: Deps)
    ensures RunReads([], m, d) == Reading(m, [])
  {
  }

  lemma ReadsStep(todo: seq<Instruction>, m: Machine, d: Deps)
    requires todo != []
    ensures var k := d.pick(IdsOf(todo)) % |todo|;
            var now := Execution.RunInstruction(todo[k], m, d);
            var later := RunReads(Without(todo, k), now.machine, d);
            RunReads(todo, m, d) == Reading(later.machine, Spliced(later.outcomes, k, now.outcome))
  {
    hide Execution.RunInstruction;
  }

  /** Writes run alone, one after another. */
  method AwaitWrites(writeSteps: seq<Instruction>, state: ExecutorState, meter: BudgetMeter, sdk: Sdk, d: Deps) returns (outcome: Outcome)
    requires sdk.answer == d.answer
    modifies state, meter, sdk
    ensures Step(Machine(state.View(), meter.View(), sdk.calls), outcome)
         == RunWrites(writeSteps, old(Machine(state.View(), meter.View(), sdk.calls)), d)
  {
    hide Execution.RunInstruction;
    ghost var all := RunWrites(writeSteps, Machine(state.View(), meter.View(), sdk.calls), d);
    for k := 0 to |writeSteps|
      invariant sdk.answer == d.answer
      invariant all == RunWrites(writeSteps[k..], Machine(state.View(), meter.View(), sdk.calls), d)
    {
      assert writeSteps[k..][1..] == writeSteps[k + 1..];
      outcome := RunInstruction(writeSteps[k], state, meter, sdk, d);
      if !outcome.Complete? {
        return;
      }
    }
    outcome := Complete;
  }

  /** The wavefront loop. */
  method ExecutePlan(s: seq<Instruction>, state: ExecutorState, meter: BudgetMeter, sdk: Sdk, d: Deps) returns (outcome: Outcome)
    requires sdk.answer == d.answer
    modifies state, meter, sdk
    ensures var r := Execution.ExecutePlan(s, old(Machine(state.View(), meter.View(), sdk.calls)), d);
            Machine(state.View(), meter.View(), sdk.calls) == r.machine && outcome == r.outcome
  {
    hide Execution.RunInstruction, RunReads, RunWrites;
    ghost var all := Execution.ExecutePlan(s, Machine(state.View(), meter.View(), sdk.calls), d);
    while |state.completed| < |s|
      invariant sdk.answer == d.answer
      invariant var rest := Execution.ExecutePlan(s, Machine(state.View(), meter.View(), sdk.calls), d);
                all.machine == rest.machine && all.outcome == rest.outcome
      decreases |Remaining(s, state.completed)|
    {
      var wave := NextWave(s, state.completed);
      if wave == [] {
        return Blocked(Stalled);
      }
      ghost var before := Machine(state.View(), meter.View(), sdk.calls);
      outcome := RunWave(s, wave, state, meter, sdk, d);
      if !outcome.Complete? {
        return;
      }
      WaveShrinks(s, before, d);
    }
    outcome := Complete;
  }

  method RunWave(s: seq<Instruction>, wave: seq<Instruction>, state: ExecutorState, meter: BudgetMeter, sdk: Sdk, d: Deps) returns (outcome: Outcome)
    requires sdk.answer == d.answer
    modifies state, meter, sdk
    ensures Step(Machine(state.View(), meter.View(), sdk.calls), outcome)
         == Execution.RunWave(s, wave, old(Machine(state.View(), meter.View(), sdk.calls)), d)
  {
    hide RunReads, RunWrites;
    var readSteps, writeSteps := OfEffect(wave, Reads), OfEffect(wave, Writes);
    ghost var m0 := Machine(state.View(), meter.View(), sdk.calls);
    var outcomes := AwaitReads(readSteps, state, meter, sdk, d);
    assert RunReads(readSteps, m0, d).outcomes == outcomes;
    var stop := FirstStop(outcomes);
    if !stop.Complete? {
      return stop;
    }
    outcome := AwaitWrites(writeSteps, state, meter, sdk, d);
    if !outcome.Complete? {
      return;
    }
    var failed := FailedProducerOf(s, wave, state.View());
    if failed.Some? {
      return Blocked(FailedProducer(failed.value.capability));
    }
  }
}
