/** The loop protection: no run makes more calls than its budget, nor the same call a third time. */
module Budgets {
  import opened Wrappers
  import opened ToolSchema
  import opened Gates
  import opened Plans
  import opened Resolver
  import opened Execution

  /** How often a tool was called with these arguments. */
  function Times(calls: seq<Call>, key: (string, Args)): nat {
    if calls == [] then 0
    else
      var last := calls[|calls| - 1];
      Times(calls[..|calls| - 1], key) + if (last.toolName, last.args) == key then 1 else 0
  }

  function SeenTimes(m: Meter, key: (string, Args)): nat {
    if key in m.seen then m.seen[key] else 0
  }

  /** The meter has counted every call, and let none through beyond the limits. */
  ghost predicate WithinBudget(m: Machine, d: Deps) {
    && |m.calls| <= m.meter.toolCalls && |m.calls| <= d.maxToolCalls
    && forall key :: Times(m.calls, key) <= SeenTimes(m.meter, key) && Times(m.calls, key) <= 2
  }

  lemma StepWithin(i: Instruction, m: Machine, d: Deps)
    requires WithinBudget(m, d)
    ensures WithinBudget(RunInstruction(i, m, d).machine, d)
  {
    hide EvaluateGate, FinalArgs, FindCall, MissingArgs, Recorded;
    var args := FinalArgs(d.js, i, m.state.outputs);
    var s := InvokeStep(i, args, m, d);
    var prior := FindCall(m.state.ledger, i.id, args);
    if !(prior.Some? && prior.value.ok) {
      CallWithin(i, args, m, d);
    }
  }

  /** A call let through is counted first, and is at most the second of its kind. */
  lemma CallWithin(i: Instruction, args: Args, m: Machine, d: Deps)
    requires WithinBudget(m, d)
    ensures var (meter, refused) := NoteToolCall(m.meter, d, i.tool.name, args);
            && WithinBudget(m.(meter := meter), d)
            && (refused.None? ==> WithinBudget(Invoked(m.(meter := meter), d, Call(i.id, i.tool.name, args)), d))
  {
    hide Recorded;
    var (meter, refused) := NoteToolCall(m.meter, d, i.tool.name, args);
    var c := Call(i.id, i.tool.name, args);
    assert (m.calls + [c])[..|m.calls|] == m.calls;
    forall key
      ensures Times(m.calls, key) <= SeenTimes(meter, key)
      ensures refused.None? ==> Times(m.calls + [c], key) <= SeenTimes(meter, key) && Times(m.calls + [c], key) <= 2
    {
      assert Times(m.calls, key) <= SeenTimes(m.meter, key);
    }
  }

  lemma {:induction false} ReadsWithin(todo: seq<Instruction>, m: Machine, d: Deps)
    requires WithinBudget(m, d)
    ensures WithinBudget(RunReads(todo, m, d).machine, d)
    decreases |todo|
  {
    hide RunInstruction, WithinBudget;
    if todo != [] {
      var k := d.pick(IdsOf(todo)) % |todo|;
      StepWithin(todo[k], m, d);
      ReadsWithin(Without(todo, k), RunInstruction(todo[k], m, d).machine, d);
    }
  }

  lemma {:induction false} WritesWithin(todo: seq<Instruction>, m: Machine, d: Deps)
    requires WithinBudget(m, d)
    ensures WithinBudget(RunWrites(todo, m, d).machine, d)
    decreases |todo|
  {
    hide RunInstruction, WithinBudget;
    if todo != [] {
      StepWithin(todo[0], m, d);
      WritesWithin(todo[1..], RunInstruction(todo[0], m, d).machine, d);
    }
  }

  lemma WaveWithin(s: seq<Instruction>, wave: seq<Instruction>, m: Machine, d: Deps)
    requires WithinBudget(m, d)
    ensures WithinBudget(RunWave(s, wave, m, d).machine, d)
  {
    hide RunReads, RunWrites, WithinBudget;
    ReadsWithin(OfEffect(wave, Reads), m, d);
    WritesWithin(OfEffect(wave, Writes), RunReads(OfEffect(wave, Reads), m, d).machine, d);
  }

  lemma {:induction false} RunWithin(s: seq<Instruction>, m: Machine, d: Deps)
    requires WithinBudget(m, d)
    ensures WithinBudget(ExecutePlan(s, m, d).machine, d)
    decreases |Remaining(s, m.state.completed)|
  {
    hide RunWave, WithinBudget;
    var wave := NextWave(s, m.state.completed);
    if |m.state.completed| < |s| && wave != [] {
      var w := RunWave(s, wave, m, d);
      WaveWithin(s, wave, m, d);
      if w.outcome.Complete? {
        WaveShrinks(s, m, d);
        RunWithin(s, w.machine, d);
      }
    }
  }

  /** From a new meter, no run exceeds the tool-call budget or repeats a call a third time, whatever plan and state it starts from. */
  lemma BudgetHolds(s: seq<Instruction>, state: ExecState, d: Deps, key: (string, Args))
    ensures var calls := ExecutePlan(s, Machine(state, Meter(0, map[]), []), d).machine.calls;
            |calls| <= d.maxToolCalls && Times(calls, key) <= 2
  {
    hide ExecutePlan;
    RunWithin(s, Machine(state, Meter(0, map[]), []), d);
  }
}
