/**
 A plan whose calls come in another order when it is parked: "w" asks for approval in the wave of "a", and
 "c", a read that needs "a", is ready by the time of the yes.
 */
module ReorderedCalls {
  import opened Wrappers
  import opened ToolSchema
  import opened Gates
  import opened Plans
  import opened Resolver
  import opened Execution
  import opened PlanRuns
  import CarriedFailures

  const LOOK: Tool := Tool("look", "", [Param("x", Full(None, None, None, None))], Read)

  function A(): Instruction { CarriedFailures.A() }

  function W(): Instruction { CarriedFailures.W() }

  function C(): Instruction { Instruction("c", "", LOOK, map["x" := Output("a", "x")], ["a"], Reads, []) }

  function Steps(): seq<Instruction> { [A(), W(), C()] }

  function Made(): Call { Call("a", "make", map[]) }

  function Sent(): Call { Call("w", "send", map[]) }

  function Looked(v: string): Call { Call("c", "look", map["x" := Text(v)]) }

  /** Room for three calls. */
  predicate Ample(d: Deps) {
    d.gate == CarriedFailures.GATE && d.maxToolCalls >= 3 && !d.late(1) && !d.late(2) && !d.late(3)
  }

  /** "make" returns `v`. */
  predicate Gives(r: InvokeResult, v: string) {
    r.ok && r.data == Text(v)
  }

  // ---- single steps ----

  /** Call `c` of step `i` is let through and not made before. */
  predicate Ready(i: Instruction, c: Call, m: Machine, d: Deps) {
    var v := GateOf(i, m.state.outputs, d);
    && c == Call(i.id, i.tool.name, FinalArgs(d.js, i, m.state.outputs))
    && (v.Allow? || (v.NeedsApproval? && i.id in d.approved))
    && FindCall(m.state.ledger, i.id, c.args).None?
    && m.meter.toolCalls < 3 && (c.toolName, c.args) !in m.meter.seen
  }

  /** The machine after one more call. */
  function Called(m: Machine, c: Call, r: InvokeResult): Machine {
    Machine(Execution.Recorded(m.state, EntryOf(c, r)), Meter(m.meter.toolCalls + 1, m.meter.seen[(c.toolName, c.args) := 1]), m.calls + [c])
  }

  lemma Calls(i: Instruction, c: Call, m: Machine, d: Deps)
    requires Ample(d) && Ready(i, c, m, d)
    ensures RunInstruction(i, m, d) == Execution.Step(Called(m, c, d.answer(|m.calls|)), Complete)
  {
    hide FinalArgs, EvaluateGate, FindCall;
  }

  /** "c" takes what "a" gave. */
  lemma TakesX(v: string, outputs: map<string, Value>, d: Deps)
    requires "a" in outputs && outputs["a"] == Text(v) && d.gate == CarriedFailures.GATE
    ensures FinalArgs(d.js, C(), outputs) == map["x" := Text(v)] && GateOf(C(), outputs, d).Allow?
  {
    hide CoercedBy, RequiredParamNames, FindMissingRequiredArgs;
    var raw := AssembledArgs(C(), outputs);
    assert ExtractField(Text(v), "x") == Text(v);
    assert SourceValue(Output("a", "x"), outputs) == Some(Text(v));
    assert raw == map["x" := Text(v)];
    CoercedPointwise(d.js, LOOK.params, raw);
    assert CoercedArg(d.js, LOOK.params[0], Text(v)) == Text(v);
    var args := FinalArgs(d.js, C(), outputs);
    assert Property(args, LOOK.params[0].name) == Text(v);
    assert args == map["x" := Text(v)];
    GatePasses(LOOK, args, d.gate) by { OnlyX(v); }
  }

  lemma OnlyX(v: string)
    ensures Supplied(LOOK, map["x" := Text(v)])
  {
    assert LOOK.params[..0] == [];
  }

  // ---- waves ----

  lemma WaveIs(completed: set<string>)
    ensures NextWave(Steps(), completed)
         == (if "a" in completed then [] else [A()]) + (if "w" in completed then [] else [W()])
            + (if "a" in completed && "c" !in completed then [C()] else [])
  {
    hide NextWave;
    CarriedFailures.WaveOfThree(A(), W(), C(), completed);
  }

  lemma OneEffect(x: Instruction, e: Effect)
    ensures OfEffect([x], e) == if x.effect == e then [x] else []
  {
    CarriedFailures.EffectMore([], x, e);
    assert [] + [x] == [x];
  }

  /** A wave of one read and one write. */
  lemma ReadThenWrite(s: seq<Instruction>, wave: seq<Instruction>, x: Instruction, y: Instruction, m: Machine, d: Deps)
    requires OfEffect(wave, Reads) == [x] && OfEffect(wave, Writes) == [y]
    requires RunInstruction(x, m, d).outcome.Complete?
    ensures var a := RunInstruction(x, m, d).machine;
            var b := RunInstruction(y, a, d);
            && (!b.outcome.Complete? ==> RunWave(s, wave, m, d) == b)
            && (b.outcome.Complete? && FailedProducerOf(s, wave, b.machine.state).None? ==>
                  RunWave(s, wave, m, d) == Execution.Step(b.machine, Complete))
  {
    hide RunInstruction, FailedProducerOf, RunReads, RunWrites;
    CarriedFailures.OneRead(x, m, d);
    var a := RunInstruction(x, m, d).machine;
    assert FirstStop([Complete]).Complete? by { assert [Complete][1..] == []; }
    assert [y] + [] == [y];
    CarriedFailures.FirstWrite(y, [], a, d);
    var b := RunInstruction(y, a, d);
    assert RunWrites([], b.machine, d) == Execution.Step(b.machine, Complete) by { NoWrite(b.machine, d); }
  }

  lemma NoWrite(m: Machine, d: Deps)
    ensures RunWrites([], m, d) == Execution.Step(m, Complete)
  {
  }

  /** A wave of one read. */
  lemma ReadAlone(s: seq<Instruction>, x: Instruction, m: Machine, d: Deps)
    requires x.effect == Reads && RunInstruction(x, m, d).outcome.Complete?
    ensures var a := RunInstruction(x, m, d).machine;
            FailedProducerOf(s, [x], a.state).None? ==> RunWave(s, [x], m, d) == Execution.Step(a, Complete)
  {
    hide RunInstruction, FailedProducerOf, RunReads;
    OneEffect(x, Reads);
    OneEffect(x, Writes);
    CarriedFailures.OneRead(x, m, d);
    var a := RunInstruction(x, m, d).machine;
    assert FirstStop([Complete]).Complete? by { assert [Complete][1..] == []; }
    NoWrite(a, d);
  }

  /** Nothing in the ledger failed that a step still to run needs. */
  lemma NoneFailed(wave: seq<Instruction>, state: ExecState)
    requires forall e <- state.ledger :: e.instructionId == "a" ==> e.ok
    ensures FailedProducerOf(Steps(), wave, state).None?
  {
    var f := FailedProducerOf(Steps(), wave, state);
    if f.Some? {
      OnlyANeeded(state.completed, f.value.id);
    }
  }

  lemma OnlyANeeded(completed: set<string>, id: string)
    ensures HasPendingDependent(Steps(), completed, id) ==> id == "a"
  {
  }

  // ---- the three runs ----

  function Start(): Machine { Fresh([], Meter(0, map[])) }

  lemma StartIs()
    ensures Start() == Machine(EmptyState(), Meter(0, map[]), [])
  {
  }

  lemma Effects()
    ensures OfEffect([A(), W()], Reads) == [A()] && OfEffect([A(), W()], Writes) == [W()]
    ensures OfEffect([W(), C()], Reads) == [C()] && OfEffect([W(), C()], Writes) == [W()]
  {
    hide OfEffect;
    CarriedFailures.TwoEffects(A(), W(), Reads);
    CarriedFailures.TwoEffects(A(), W(), Writes);
    CarriedFailures.TwoEffects(W(), C(), Reads);
    CarriedFailures.TwoEffects(W(), C(), Writes);
  }

  lemma AReady(d: Deps)
    requires d.gate == CarriedFailures.GATE
    ensures Ready(A(), Made(), Start(), d)
  {
    hide FinalArgs, EvaluateGate;
    StartIs();
    CarriedFailures.PlainArgs(A(), map[], d);
  }

  /** These steps are done, "a" with `v`, and the tools called are no others. */
  predicate At(m: Machine, v: string, done: set<string>, tools: set<string>) {
    && m.state.completed == done && ("a" in done ==> "a" in m.state.outputs && m.state.outputs["a"] == Text(v))
    && (forall e <- m.state.ledger :: e.instructionId in done && (e.instructionId == "a" ==> e.ok))
    && (forall key <- m.meter.seen :: key.0 in tools) && m.meter.toolCalls <= |done|
  }

  lemma AtMore(m: Machine, v: string, done: set<string>, tools: set<string>, c: Call, r: InvokeResult)
    requires At(m, v, done, tools) && c.instructionId !in done && (c.instructionId == "a" ==> Gives(r, v))
    ensures At(Called(m, c, r), v, done + {c.instructionId}, tools + {c.toolName})
  {
  }

  lemma WReady(m: Machine, v: string, done: set<string>, tools: set<string>, d: Deps)
    requires d.gate == CarriedFailures.GATE && "w" in d.approved && At(m, v, done, tools) && "w" !in done && "send" !in tools && |done| < 3
    ensures Ready(W(), Sent(), m, d)
  {
    hide FinalArgs, EvaluateGate;
    CarriedFailures.PlainArgs(W(), m.state.outputs, d);
  }

  lemma CReady(m: Machine, v: string, done: set<string>, tools: set<string>, d: Deps)
    requires d.gate == CarriedFailures.GATE && At(m, v, done, tools) && "a" in done && "c" !in done && "look" !in tools && |done| < 3
    ensures Ready(C(), Looked(v), m, d)
  {
    hide FinalArgs, EvaluateGate;
    TakesX(v, m.state.outputs, d);
  }

  lemma NoFailure(wave: seq<Instruction>, m: Machine, v: string, done: set<string>, tools: set<string>)
    requires At(m, v, done, tools)
    ensures FailedProducerOf(Steps(), wave, m.state).None?
  {
    NoneFailed(wave, m.state);
  }

  lemma Two(x: string, y: string)
    ensures |{x}| == 1 && |{x} + {y}| <= 2
  {
  }

  lemma CallsMore(m: Machine, c: Call, r: InvokeResult)
    ensures Called(m, c, r).calls == m.calls + [c]
  {
  }

  lemma AtStart(v: string)
    ensures At(Start(), v, {}, {})
  {
    StartIs();
  }

  /** "a" is called, and "w" asks. */
  lemma FirstRun(v: string, d: Deps)
    requires Ample(d) && "w" !in d.approved && Gives(d.answer(0), v)
    ensures var r := ExecutePlan(Steps(), Start(), d);
            && r.machine == Called(Start(), Made(), d.answer(0)) && r.outcome.Suspend? && r.outcome.instruction == W()
  {
    hide RunInstruction, RunWave, NextWave, OfEffect, FinalArgs, EvaluateGate, Ready;
    StartIs();
    WaveIs({});
    Effects();
    AReady(d);
    Calls(A(), Made(), Start(), d);
    var a := Called(Start(), Made(), d.answer(0));
    CarriedFailures.PlainArgs(W(), a.state.outputs, d);
    CarriedFailures.AsksApproval(W(), a, d);
    assert [A()] + [W()] + [] == [A(), W()];
    ReadThenWrite(Steps(), [A(), W()], A(), W(), Start(), d);
  }

  /** With the approval, the first wave calls "a" and "w". */
  lemma BothCalled(v: string, d: Deps)
    requires Ample(d) && "w" in d.approved && Gives(d.answer(0), v)
    ensures var b := Called(Called(Start(), Made(), d.answer(0)), Sent(), d.answer(1));
            && RunWave(Steps(), [A(), W()], Start(), d) == Execution.Step(b, Complete)
            && b.calls == [Made(), Sent()] && At(b, v, {"a"} + {"w"}, {"make"} + {"send"})
  {
    hide RunInstruction, RunWave, OfEffect, FinalArgs, EvaluateGate, Ready, FailedProducerOf, At, Called, Steps, A, W;
    Two("a", "w");
    CallsMore(Start(), Made(), d.answer(0));
    CallsMore(Called(Start(), Made(), d.answer(0)), Sent(), d.answer(1));
    assert [Made()] + [Sent()] == [Made(), Sent()] && [] + [Made()] == [Made()];
    StartIs();
    AtStart(v);
    Effects();
    AReady(d);
    Calls(A(), Made(), Start(), d);
    var a := Called(Start(), Made(), d.answer(0));
    AtMore(Start(), v, {}, {}, Made(), d.answer(0));
    assert {} + {"a"} == {"a"} && {} + {"make"} == {"make"};
    WReady(a, v, {"a"}, {"make"}, d);
    Calls(W(), Sent(), a, d);
    AtMore(a, v, {"a"}, {"make"}, Sent(), d.answer(1));
    ReadThenWrite(Steps(), [A(), W()], A(), W(), Start(), d);
    NoFailure([A(), W()], Called(a, Sent(), d.answer(1)), v, {"a"} + {"w"}, {"make"} + {"send"});
  }

  /** Then "c" is left. */
  lemma ThenLooked(v: string, b: Machine, d: Deps)
    requires Ample(d) && At(b, v, {"a"} + {"w"}, {"make"} + {"send"}) && |b.calls| == 2
    ensures RunWave(Steps(), [C()], b, d) == Execution.Step(Called(b, Looked(v), d.answer(2)), Complete)
    ensures Called(b, Looked(v), d.answer(2)).state.completed == {"a", "w", "c"}
  {
    hide RunInstruction, RunWave, FinalArgs, EvaluateGate, Ready, FailedProducerOf;
    CReady(b, v, {"a"} + {"w"}, {"make"} + {"send"}, d);
    Calls(C(), Looked(v), b, d);
    AtMore(b, v, {"a"} + {"w"}, {"make"} + {"send"}, Looked(v), d.answer(2));
    ReadAlone(Steps(), C(), b, d);
    NoFailure([C()], Called(b, Looked(v), d.answer(2)), v, {"a"} + {"w"} + {"c"}, {"make"} + {"send"} + {"look"});
  }

  /** With the approval from the start: "a", "w", "c". */
  lemma WholeRun(v: string, d: Deps)
    requires Ample(d) && "w" in d.approved && Gives(d.answer(0), v)
    ensures var r := ExecutePlan(Steps(), Start(), d); r.outcome.Complete? && r.machine.calls == [Made(), Sent(), Looked(v)]
  {
    hide RunWave, NextWave, ExecutePlan, Steps, Called, A, W, C;
    StartIs();
    WaveIs({});
    assert [A()] + [W()] + [] == [A(), W()];
    BothCalled(v, d);
    var b := Called(Called(Start(), Made(), d.answer(0)), Sent(), d.answer(1));
    WaveIs({"a"} + {"w"});
    assert [] + [] + [C()] == [C()];
    assert b.state.completed == {"a"} + {"w"} by { DoneAt(b, v, {"a"} + {"w"}, {"make"} + {"send"}); }
    ThenLooked(v, b, d);
    CallsMore(b, Looked(v), d.answer(2));
    Two("a", "w");
    var c := Called(b, Looked(v), d.answer(2));
    AllThree(c.state.completed);
    Done(c, d);
    OneWave(b, [C()], c, d);
    OneWave(Start(), [A(), W()], b, d);
  }

  lemma DoneAt(m: Machine, v: string, done: set<string>, tools: set<string>)
    requires At(m, v, done, tools)
    ensures m.state.completed == done
  {
  }

  lemma AllThree(completed: set<string>)
    requires completed == {"a", "w", "c"}
    ensures |completed| == 3
  {
  }

  lemma Done(m: Machine, d: Deps)
    requires |m.state.completed| >= 3
    ensures ExecutePlan(Steps(), m, d) == Execution.Run(m, Complete, 0)
  {
  }

  lemma OneWave(m: Machine, wave: seq<Instruction>, now: Machine, d: Deps)
    requires |m.state.completed| < 3 && NextWave(Steps(), m.state.completed) == wave != [] && RunWave(Steps(), wave, m, d) == Execution.Step(now, Complete)
    ensures ExecutePlan(Steps(), m, d).machine == ExecutePlan(Steps(), now, d).machine
    ensures ExecutePlan(Steps(), m, d).outcome == ExecutePlan(Steps(), now, d).outcome
  {
    hide RunWave, NextWave;
  }

  function Parked(r: InvokeResult): seq<Entry> { [EntryOf(Made(), r)] }

  lemma ParkedIs(r: InvokeResult)
    ensures Seed(Parked(r)) == Called(Start(), Made(), r).state
  {
    StartIs();
    assert Parked(r)[..0] == [] && [] + Parked(r) == Parked(r);
  }

  lemma AtParked(v: string, r: InvokeResult)
    requires Gives(r, v)
    ensures At(Fresh(Parked(r), Meter(0, map[])), v, {"a"}, {})
  {
    ParkedIs(r);
    StartIs();
  }

  /** After the yes, the wave calls "c" and "w". */
  lemma LookedAndSent(v: string, r: InvokeResult, d: Deps)
    requires Ample(d) && "w" in d.approved && Gives(r, v)
    ensures var m := Fresh(Parked(r), Meter(0, map[]));
            var b := Called(Called(m, Looked(v), d.answer(0)), Sent(), d.answer(1));
            && RunWave(Steps(), [W(), C()], m, d) == Execution.Step(b, Complete)
            && At(m, v, {"a"}, {}) && At(b, v, {"a"} + {"c"} + {"w"}, {} + {"look"} + {"send"}) && b.calls == [Looked(v), Sent()]
  {
    hide RunInstruction, RunWave, OfEffect, FinalArgs, EvaluateGate, Ready, FailedProducerOf, Seed, At, Called, Steps, W, C;
    Two("a", "c");
    Effects();
    AtParked(v, r);
    var m := Fresh(Parked(r), Meter(0, map[]));
    CallsMore(m, Looked(v), d.answer(0));
    CallsMore(Called(m, Looked(v), d.answer(0)), Sent(), d.answer(1));
    assert [Looked(v)] + [Sent()] == [Looked(v), Sent()] && [] + [Looked(v)] == [Looked(v)];
    CReady(m, v, {"a"}, {}, d);
    Calls(C(), Looked(v), m, d);
    var a := Called(m, Looked(v), d.answer(0));
    AtMore(m, v, {"a"}, {}, Looked(v), d.answer(0));
    WReady(a, v, {"a"} + {"c"}, {} + {"look"}, d);
    Calls(W(), Sent(), a, d);
    AtMore(a, v, {"a"} + {"c"}, {} + {"look"}, Sent(), d.answer(1));
    ReadThenWrite(Steps(), [W(), C()], C(), W(), m, d);
    NoFailure([W(), C()], Called(a, Sent(), d.answer(1)), v, {"a"} + {"c"} + {"w"}, {} + {"look"} + {"send"});
  }

  /** "c", which is a read, and then "w". */
  lemma SecondRun(v: string, r: InvokeResult, d: Deps)
    requires Ample(d) && "w" in d.approved && Gives(r, v)
    ensures var run := ExecutePlan(Steps(), Fresh(Parked(r), Meter(0, map[])), d); run.outcome.Complete? && run.machine.calls == [Looked(v), Sent()]
  {
    hide RunWave, NextWave, ExecutePlan, Seed, Steps;
    var m := Fresh(Parked(r), Meter(0, map[]));
    WaveIs({"a"});
    assert [] + [W()] + [C()] == [W(), C()];
    LookedAndSent(v, r, d);
    var b := Called(Called(m, Looked(v), d.answer(0)), Sent(), d.answer(1));
    AllThree(b.state.completed);
    Done(b, d);
    OneWave(m, [W(), C()], b, d);
  }

  /** At one go the order is "a", "w", "c"; with the park it is "a", then "c", then "w". */
  lemma OrderDiffers(v: string, first: Deps, second: Deps, whole: Deps)
    requires Ample(first) && Ample(second) && Ample(whole)
    requires first.approved == {} && second.approved == whole.approved == {"w"} && Gives(first.answer(0), v) && Gives(whole.answer(0), v)
    ensures var a := ExecutePlan(Steps(), Start(), first);
            var b, c := ExecutePlan(Steps(), Fresh(a.machine.state.ledger, Meter(0, map[])), second), ExecutePlan(Steps(), Start(), whole);
            && a.outcome.Suspend? && a.outcome.instruction == W() && b.outcome.Complete? && c.outcome.Complete?
            && a.machine.calls + b.machine.calls == [Made(), Looked(v), Sent()]
            && c.machine.calls == [Made(), Sent(), Looked(v)]
  {
    hide ExecutePlan, Steps;
    StartIs();
    FirstRun(v, first);
    SecondRun(v, first.answer(0), second);
    WholeRun(v, whole);
    assert [] + Parked(first.answer(0)) == Parked(first.answer(0));
    assert [] + [Made()] == [Made()] && [Made()] + [Looked(v), Sent()] == [Made(), Looked(v), Sent()];
  }
}
