/**
 A conversation in which a failure is carried over a park. Step "a" fails in the wave in which step "w"
 asks for approval; after the yes, "c", which needs "a", asks the user for the value "a" did not give,
 and is called with the answer.
 */
module CarriedFailures {
  import opened Wrappers
  import opened ToolSchema
  import opened Gates
  import opened Plans
  import opened Resolver
  import opened Execution
  import opened PlanRuns
  import opened PlanTheorems
  import opened Resume
  import opened Sessions

  // ---- the plan ----

  const MAKE: Tool := Tool("make", "", [], Read)
  const SEND: Tool := Tool("send", "", [], Write)
  const USE: Tool := Tool("use", "", [Param("x", Full(None, None, None, None))], Write)

  /** "send" asks for confirmation, nothing else does. */
  const GATE: GateContext := GateContext(SafetyConfig(false, [], map["send" := Override(None, Some(true), false)]), None, {})

  function Steps(): seq<Bound> {
    [Bound(PlanStep("a", "", map[], ["x"]), MAKE), Bound(PlanStep("w", "", map[], []), SEND), Bound(PlanStep("c", "", map[], []), USE)]
  }

  function A(): Instruction { Instruction("a", "", MAKE, map[], [], Reads, ["x"]) }

  function W(): Instruction { Instruction("w", "", SEND, map[], [], Writes, []) }

  function C(): Instruction { Instruction("c", "", USE, map["x" := Output("a", "x")], ["a"], Writes, []) }

  lemma NoParams(params: Params)
    requires params == []
    ensures RequiredParamNames(params) == []
  {
  }

  lemma OneParam()
    ensures RequiredParamNames(USE.params) == ["x"]
  {
    assert USE.params[..0] == [];
  }

  lemma FirstTwo()
    ensures Resolved(Steps(), 0) == A() && Resolved(Steps(), 1) == W()
  {
    hide RequiredParamNames, Produces, NormalizeField;
    NoParams(MAKE.params);
  }

  lemma Third()
    ensures Resolved(Steps(), 2) == C()
  {
    hide RequiredParamNames, Produces, NormalizeField;
    OneParam();
    ProducesX();
    assert Produces(Steps()[0].step.produces, NormalizeField("x"));
    assert Earliest(Steps(), NormalizeField("x"), 3) == Some(0);
    assert Wire(Steps(), 2, "x") == Output("a", "x");
    assert Producers(Steps(), 2, 1) == ["a"];
    assert Sources(Steps(), 2) == map["x" := Output("a", "x")];
  }

  /** The planner's steps resolve to this plan. */
  lemma PlanIs()
    ensures DistinctSteps(Steps()) && ResolvedAll(Steps()) == [A(), W(), C()]
  {
    hide Resolved;
    FirstTwo();
    Third();
  }

  lemma ProducesX()
    ensures Produces(["x"], NormalizeField("x"))
  {
    assert NormalizeField(["x"][0]) == NormalizeField("x");
  }

  // ---- single steps ----

  lemma CallsStep(i: Instruction, m: Machine, d: Deps)
    requires var v := GateOf(i, m.state.outputs, d); v.Allow? || (v.NeedsApproval? && i.id in d.approved)
    requires FindCall(m.state.ledger, i.id, FinalArgs(d.js, i, m.state.outputs)).None?
    requires m.meter == Meter(0, map[]) && d.maxToolCalls >= 1 && !d.late(1)
    ensures var s, c := RunInstruction(i, m, d), Call(i.id, i.tool.name, FinalArgs(d.js, i, m.state.outputs));
            && s.outcome == Complete && s.machine.calls == m.calls + [c]
            && s.machine.state == Execution.Recorded(m.state, EntryOf(c, d.answer(|m.calls|)))
  {
  }

  lemma OneRead(i: Instruction, m: Machine, d: Deps)
    ensures RunReads([i], m, d) == Reading(RunInstruction(i, m, d).machine, [RunInstruction(i, m, d).outcome])
  {
    hide RunInstruction;
    assert Without([i], 0) == [];
  }

  lemma NoRead(m: Machine, d: Deps)
    ensures RunReads([], m, d) == Reading(m, [])
  {
  }

  lemma FirstWrite(i: Instruction, more: seq<Instruction>, m: Machine, d: Deps)
    ensures var s := RunInstruction(i, m, d);
            RunWrites([i] + more, m, d) == if s.outcome.Complete? then RunWrites(more, s.machine, d) else s
  {
    hide RunInstruction;
    assert ([i] + more)[1..] == more;
  }

  /** Tools without parameters take no arguments and miss none. */
  lemma PlainArgs(i: Instruction, outputs: map<string, Value>, d: Deps)
    requires i.tool.params == [] && i.argSources == map[] && d.gate == GATE
    ensures FinalArgs(d.js, i, outputs) == map[]
    ensures i.tool == MAKE ==> GateOf(i, outputs, d).Allow?
    ensures i.tool == SEND ==> GateOf(i, outputs, d).NeedsApproval?
  {
    NoParams(i.tool.params);
    assert AssembledArgs(i, outputs) == map[];
  }

  /** Without "a"'s output, "c" misses its argument. */
  lemma MissesX(outputs: map<string, Value>, d: Deps)
    requires "a" !in outputs
    ensures FinalArgs(d.js, C(), outputs) == map[] && GateOf(C(), outputs, d) == NeedsInfo(["x"])
    ensures MissingArgs(C(), outputs) == {"x"}
  {
    hide RequiredParamNames;
    OneParam();
    assert ExtractField(Undefined, "x") == Undefined;
    assert SourceValue(C().argSources["x"], outputs).None?;
    assert AssembledArgs(C(), outputs) == map[];
    CoercedPointwise(d.js, USE.params, map[]);
    assert ["x"][..0] == [];
    assert AbsentIn(["x"], map[]) == ["x"];
  }

  /** With the answer pinned, it has it. */
  lemma HasX(i: Instruction, v: string, outputs: map<string, Value>, d: Deps)
    requires i.tool == USE && i.argSources == map["x" := Literal(Text(v))] && d.gate == GATE
    ensures FinalArgs(d.js, i, outputs) == map["x" := Text(v)] && GateOf(i, outputs, d).Allow?
  {
    hide CoercedBy, RequiredParamNames, FindMissingRequiredArgs;
    var raw := AssembledArgs(i, outputs);
    assert SourceValue(Literal(Text(v)), outputs) == Some(Text(v));
    assert raw == map["x" := Text(v)];
    CoercedPointwise(d.js, USE.params, raw);
    assert CoercedArg(d.js, USE.params[0], Text(v)) == Text(v);
    var args := FinalArgs(d.js, i, outputs);
    assert Property(args, USE.params[0].name) == Text(v);
    assert args == map["x" := Text(v)];
    GatePasses(USE, args, d.gate);
  }

  // ---- the three runs ----

  lemma WaveMore(s: seq<Instruction>, x: Instruction, completed: set<string>)
    ensures NextWave(s + [x], completed) == NextWave(s, completed) + if Ready(x, completed) then [x] else []
  {
    assert (s + [x])[..|s|] == s;
  }

  lemma EffectMore(s: seq<Instruction>, x: Instruction, e: Effect)
    ensures OfEffect(s + [x], e) == OfEffect(s, e) + if x.effect == e then [x] else []
  {
    assert (s + [x])[..|s|] == s;
  }

  lemma WaveOfThree(x: Instruction, y: Instruction, z: Instruction, completed: set<string>)
    ensures NextWave([x, y, z], completed)
         == (if Ready(x, completed) then [x] else []) + (if Ready(y, completed) then [y] else []) + (if Ready(z, completed) then [z] else [])
  {
    hide NextWave, Ready;
    NoWave(completed);
    WaveMore([], x, completed);
    WaveMore([x], y, completed);
    WaveMore([x, y], z, completed);
    assert [] + [x] == [x] && [x] + [y] == [x, y] && [x, y] + [z] == [x, y, z];
  }

  lemma WaveIs(completed: set<string>)
    requires completed == {} || completed == {"a"}
    ensures NextWave([A(), W(), C()], completed) == if completed == {} then [A(), W()] else [W(), C()]
  {
    hide NextWave;
    WaveOfThree(A(), W(), C(), completed);
    assert Ready(A(), completed) <==> completed == {};
    assert Ready(W(), completed);
    assert Ready(C(), completed) <==> "a" in completed;
  }

  lemma NoWave(completed: set<string>)
    ensures NextWave([], completed) == []
  {
  }

  lemma TwoEffects(x: Instruction, y: Instruction, e: Effect)
    ensures OfEffect([x, y], e) == (if x.effect == e then [x] else []) + (if y.effect == e then [y] else [])
  {
    EffectMore([], x, e);
    EffectMore([x], y, e);
    assert [] + [x] == [x] && [x] + [y] == [x, y];
  }

  lemma EffectsAre()
    ensures OfEffect([A(), W()], Reads) == [A()] && OfEffect([A(), W()], Writes) == [W()]
    ensures OfEffect([W(), C()], Reads) == [] && OfEffect([W(), C()], Writes) == [W(), C()]
  {
    hide OfEffect;
    TwoEffects(A(), W(), Reads);
    TwoEffects(A(), W(), Writes);
    TwoEffects(W(), C(), Reads);
    TwoEffects(W(), C(), Writes);
  }

  predicate Working(d: Deps) {
    d.gate == GATE && d.maxToolCalls >= 1 && !d.late(1)
  }

  function Failure(r: InvokeResult): Entry {
    EntryOf(Call("a", "make", map[]), r)
  }

  function Sent(r: InvokeResult): Entry {
    EntryOf(Call("w", "send", map[]), r)
  }

  /** "a" fails, and "w" asks. */
  lemma FirstRun(d: Deps)
    requires Working(d) && d.approved == {} && !d.answer(0).ok
    ensures var r := ExecutePlan([A(), W(), C()], Fresh([], NewMeter()), d);
            && r.machine.state.ledger == [Failure(d.answer(0))] && r.machine.calls == [Call("a", "make", map[])]
            && r.outcome == Suspend(AwaitingConfirmation, W(), [], AskApproval("send", "", map[]))
  {
    hide RunInstruction, RunReads, RunWrites, NextWave, OfEffect, FinalArgs, EvaluateGate;
    var s, m := [A(), W(), C()], Fresh([], NewMeter());
    WaveIs({});
    EffectsAre();
    PlainArgs(A(), m.state.outputs, d);
    CallsStep(A(), m, d);
    OneRead(A(), m, d);
    var after := RunInstruction(A(), m, d).machine;
    assert FirstStop([Complete]).Complete? by { assert [Complete][1..] == []; }
    PlainArgs(W(), after.state.outputs, d);
    AsksApproval(W(), after, d);
    assert [W()] + [] == [W()];
    FirstWrite(W(), [], after, d);
  }

  lemma AsksApproval(i: Instruction, m: Machine, d: Deps)
    requires GateOf(i, m.state.outputs, d).NeedsApproval? && i.id !in d.approved
    ensures RunInstruction(i, m, d) == Step(m, Suspend(AwaitingConfirmation, i, [],
              AskApproval(i.tool.name, i.tool.description, FinalArgs(d.js, i, m.state.outputs))))
  {
  }

  /** "w" is called, and "c" asks. */
  lemma SecondRun(e: Entry, d: Deps)
    requires Working(d) && d.approved == {"w"} && e.instructionId == "a" && !e.ok
    ensures var r := ExecutePlan([A(), W(), C()], Fresh([e], NewMeter()), d);
            && r.machine.state.ledger == [e, Sent(d.answer(0))] && r.machine.calls == [Call("w", "send", map[])]
            && r.outcome == Suspend(AwaitingInfo, C(), ["x"], AskInfo({"x"}))
  {
    hide RunInstruction, RunReads, RunWrites, RunWave, NextWave, OfEffect, FinalArgs, EvaluateGate, MissingArgs, Seed;
    var s, m := [A(), W(), C()], Fresh([e], NewMeter());
    AfterFailure(e);
    WaveIs({"a"});
    SecondWave(m, d);
    var r := RunWave(s, [W(), C()], m, d);
    assert !r.outcome.Complete?;
    assert [e] + [Sent(d.answer(0))] == [e, Sent(d.answer(0))];
  }

  lemma AfterFailure(e: Entry)
    requires e.instructionId == "a" && !e.ok
    ensures var s := Seed([e]); s.completed == {"a"} && s.outputs == map[] && s.ledger == [e]
  {
    hide Seed;
    SeedSnoc([], e);
    SeedNothing();
    assert [] + [e] == [e];
  }

  lemma SeedNothing()
    ensures Seed([]) == EmptyState()
  {
  }

  lemma SecondWave(m: Machine, d: Deps)
    requires Working(d) && d.approved == {"w"} && m.meter == NewMeter() && m.calls == []
    requires m.state.completed == {"a"} && m.state.outputs == map[] && |m.state.ledger| == 1 && m.state.ledger[0].instructionId == "a"
    ensures var r := RunWave([A(), W(), C()], [W(), C()], m, d);
            && r.machine.state.ledger == m.state.ledger + [Sent(d.answer(0))] && r.machine.calls == [Call("w", "send", map[])]
            && r.outcome == Suspend(AwaitingInfo, C(), ["x"], AskInfo({"x"}))
  {
    hide RunInstruction, RunReads, RunWrites, OfEffect, FinalArgs, EvaluateGate, MissingArgs;
    EffectsAre();
    NoRead(m, d);
    PlainArgs(W(), m.state.outputs, d);
    CallsStep(W(), m, d);
    FirstWrite(W(), [C()], m, d);
    assert [W()] + [C()] == [W(), C()];
    var after := RunInstruction(W(), m, d).machine;
    MissesX(after.state.outputs, d);
    AsksInfo(C(), after, d);
    assert [C()] + [] == [C()];
    FirstWrite(C(), [], after, d);
  }

  lemma AsksInfo(i: Instruction, m: Machine, d: Deps)
    requires GateOf(i, m.state.outputs, d).NeedsInfo? && MissingArgs(i, m.state.outputs) != {}
    ensures RunInstruction(i, m, d) == Step(m, Suspend(AwaitingInfo, i, GateOf(i, m.state.outputs, d).missing,
                                                       AskInfo(MissingArgs(i, m.state.outputs))))
  {
  }

  // ---- the conversation ----

  const REGISTRY: seq<Tool> := [MAKE, SEND, USE]

  /** A turn with this gate, this registry, and room for a call and a question. */
  predicate Ordinary(t: TurnInput) {
    t.gate == GATE && t.functions == REGISTRY && t.registryHash == "" && t.maxToolCalls >= 1 && !t.late(1) && t.maxRecoils >= 1
  }

  /** The planner proposes the steps, and "make" fails. */
  predicate Fails(t: TurnInput, goal: string) {
    Ordinary(t) && t.proposal == Some(Proposal(goal, None, Steps())) && !t.answer(0).ok
  }

  /** The user says yes in time. */
  predicate Confirms(t: TurnInput, before: TurnInput) {
    Ordinary(t) && t.message == "yes" && t.now < before.parkedAt + before.ttl
  }

  /** The user answers the next question in time. */
  predicate Answers(t: TurnInput, before: TurnInput, v: string) {
    Ordinary(t) && t.message == v && !IsDenialMessage(v) && t.now < before.parkedAt + before.ttl
  }

  function ThePlan(): seq<Instruction> { [A(), W(), C()] }

  lemma PlanOk()
    ensures WellWired(ThePlan()) && RegistryHolds(REGISTRY, ThePlan())
  {
    hide WellWired, ToolNamed;
    PlanIs();
    ResolvedWellWired(Steps());
    Registered();
  }

  lemma Registered()
    ensures forall t <- REGISTRY :: ToolNamed(REGISTRY, t.name) == Some(t)
  {
    hide ToolNamed;
    assert [] + [MAKE] == [MAKE] && [MAKE] + [SEND] == [MAKE, SEND] && [MAKE, SEND] + [USE] == REGISTRY;
    LastNamed([], MAKE);
    LastNamed([MAKE], SEND);
    LastNamed([MAKE, SEND], USE);
  }

  lemma LastNamed(registry: seq<Tool>, t: Tool)
    ensures ToolNamed(registry + [t], t.name) == Some(t)
    ensures forall name :: name != t.name ==> ToolNamed(registry + [t], name) == ToolNamed(registry, name)
  {
    assert (registry + [t])[..|registry|] == registry;
  }

  lemma Yes()
    ensures IsConfirmationMessage("yes") && !IsDenialMessage("yes")
  {
    assert Lower("yes") == "yes";
  }

  /** The payload parked over a ledger. */
  function Park(goal: string, t: TurnInput, ledger: seq<Entry>, id: string, ask: Ask): Payload {
    ToSuspensionPayload(goal, t.message, "", ThePlan(), Seed(ledger), id, ask, 0)
  }

  function FirstParked(goal: string, t: TurnInput): Parked {
    Parked(AwaitingConfirmation, Park(goal, t, [Failure(t.answer(0))], "w", Ask(None, "send", AskApproval("send", "", map[]))),
           t.parkedAt + t.ttl)
  }

  lemma AfterFirst(js: Js, goal: string, t1: TurnInput)
    requires Fails(t1, goal)
    ensures Next(js, Opened(), t1)
         == Session(Some(FirstParked(goal, t1)), ThePlan(), 1, [LifeCall(1, Call("a", "make", map[]))])
  {
    hide ExecutePlan, Steps, ResolvedAll, Seed;
    PlanIs();
    var d := DepsFor(js, t1, {});
    FirstRun(d);
    PlanOk();
    EndsStartable(ThePlan(), [], NewMeter(), d) by { NothingStarts(); }
    assert Opened().calls + Tagged(1, [Call("a", "make", map[])]) == [LifeCall(1, Call("a", "make", map[]))];
  }

  lemma NothingStarts()
    ensures WellWired(ThePlan()) ==> Startable(ThePlan(), [])
  {
  }

  function SecondLedger(t1: TurnInput, t2: TurnInput): seq<Entry> {
    [Failure(t1.answer(0)), Sent(t2.answer(0))]
  }

  function SecondParked(goal: string, t1: TurnInput, t2: TurnInput): Parked {
    Parked(AwaitingInfo, Park(goal, t1, SecondLedger(t1, t2), "c", Ask(Some("x"), "use", AskInfo({"x"}))), t2.parkedAt + t2.ttl)
  }

  lemma AfterSecond(js: Js, goal: string, t1: TurnInput, t2: TurnInput)
    requires Fails(t1, goal) && Confirms(t2, t1)
    ensures var s := Next(js, Opened(), t1);
            Next(js, s, t2) == Session(Some(SecondParked(goal, t1, t2)), ThePlan(), 1, s.calls + [LifeCall(1, Call("w", "send", map[]))])
  {
    hide ExecutePlan, Seed, IsConfirmationMessage, IsDenialMessage, RegistryHolds, RehydrateSuspension, AcceptedAnswer, WellWired;
    AfterFirst(js, goal, t1);
    Yes();
    PlanOk();
    var p, e := FirstParked(goal, t1), Failure(t1.answer(0));
    LedgerStarts([e]);
    ParkedReturns(js, goal, t1.message, "", ThePlan(), Seed([e]), 1, p.payload.ask, 0, t2.message, t2.functions);
    var d := DepsFor(js, t2, {"w"});
    SecondRun(e, d);
    EndsStartable(ThePlan(), [e], NewMeter(), d);
    assert Tagged(1, [Call("w", "send", map[])]) == [LifeCall(1, Call("w", "send", map[]))];
  }

  /** Ledgers of the first steps, one entry each. */
  predicate FirstSteps(ledger: seq<Entry>) {
    && 1 <= |ledger| <= 2 && ledger[0].instructionId == "a"
    && (|ledger| == 2 ==> ledger[1].instructionId == "w")
  }

  lemma LedgerInPlan(ledger: seq<Entry>)
    requires FirstSteps(ledger)
    ensures DistinctEntries(ledger) && Ids(ledger) <= PlanIds(ThePlan())
  {
    assert ThePlan()[0] in ThePlan() && ThePlan()[1] in ThePlan();
  }

  lemma LedgerStarts(ledger: seq<Entry>)
    requires WellWired(ThePlan()) && FirstSteps(ledger)
    ensures Startable(ThePlan(), ledger) && Sound(Seed(ledger)) && DistinctIds(ThePlan())
  {
    hide Seed, Ids, PlanIds, ThePlan, Ordered, SourcesNeeded, DistinctEntries;
    LedgerInPlan(ledger);
  }

  /** The plan with the answer in it. */
  function Answered(v: string): seq<Instruction> {
    Pinned(ThePlan(), 2, "x", Text(v))
  }

  lemma ThirdRun(ledger: seq<Entry>, v: string, d: Deps)
    requires Working(d) && |ledger| == 2 && FirstSteps(ledger)
    ensures ExecutePlan(Answered(v), Fresh(ledger, NewMeter()), d).machine.calls == [Call("c", "use", map["x" := Text(v)])]
  {
    hide ExecutePlan, Seed, WellWired, EvaluateGate;
    PlanOk();
    LedgerStarts(ledger);
    PinnedStartable(ThePlan(), ledger, 2, "x", Text(v));
    var c := Answered(v)[2];
    assert c in Answered(v);
    assert c.argSources == map["x" := Literal(Text(v))];
    HasX(c, v, Seed(ledger).outputs, d);
    forall id | id in Ids(ledger)
      ensures id == "a" || id == "w"
    {
    }
    LastStepCalled(Answered(v), ledger, c, d);
  }

  lemma AcceptsAny(js: Js, ledger: seq<Entry>, v: string)
    ensures AcceptedAnswer(js, C(), ledger, "x", v) == Some(Text(v))
  {
    hide CoercedBy, FindMissingRequiredArgs, KnownArgs, RequiredParamNames;
    var raw := map["x" := Text(v)];
    OnlyTypesReject(js, C(), ledger, "x", v);
    CoercedPointwise(js, USE.params, raw);
    assert !Rejected(js, USE.params[0], Text(v)) && CoercedArg(js, USE.params[0], Text(v)) == Text(v);
    assert Property(Coerced(js, USE.params, raw).args, USE.params[0].name) == Text(v);
  }

  lemma AfterThird(js: Js, goal: string, t1: TurnInput, t2: TurnInput, t3: TurnInput, v: string)
    requires Fails(t1, goal) && Confirms(t2, t1) && Answers(t3, t2, v)
    ensures var s := Next(js, Next(js, Opened(), t1), t2);
            Next(js, s, t3).calls == s.calls + [LifeCall(1, Call("c", "use", map["x" := Text(v)]))]
  {
    hide ExecutePlan, Seed, IsDenialMessage, RegistryHolds, RehydrateSuspension, AcceptedAnswer, WellWired, Pinned;
    AfterSecond(js, goal, t1, t2);
    PlanOk();
    var p, ledger := SecondParked(goal, t1, t2), SecondLedger(t1, t2);
    LedgerStarts(ledger);
    ParkedReturns(js, goal, t1.message, "", ThePlan(), Seed(ledger), 2, p.payload.ask, 0, t3.message, t3.functions);
    AcceptsAny(js, ledger, v);
    ThirdRun(ledger, v, DepsFor(js, t3, {}));
    assert Tagged(1, [Call("c", "use", map["x" := Text(v)])]) == [LifeCall(1, Call("c", "use", map["x" := Text(v)]))];
  }

  /**
   In one plan life, from an empty ledger: "a" is called and fails, "w" is called after the yes, and "c", which
   needs "a", is called after the answer, with the failure still in the parked ledger.
   */
  lemma FailureCarriedOver(js: Js, goal: string, t1: TurnInput, t2: TurnInput, t3: TurnInput, v: string)
    requires Fails(t1, goal) && Confirms(t2, t1) && Answers(t3, t2, v)
    ensures Conversation(js, [t1, t2, t3]).calls
         == [LifeCall(1, Call("a", "make", map[])), LifeCall(1, Call("w", "send", map[])), LifeCall(1, Call("c", "use", map["x" := Text(v)]))]
    ensures var s := Conversation(js, [t1, t2]);
            && s.parked.Some? && s.live == [A(), W(), C()] && "a" in C().needs
            && s.parked.value.payload.pendingInstructionId == "c" && Failed(s.parked.value.payload.ledger, "a")
  {
    hide Next, Seed;
    AfterFirst(js, goal, t1);
    AfterSecond(js, goal, t1, t2);
    AfterThird(js, goal, t1, t2, t3, v);
    assert [t1, t2, t3][..2] == [t1, t2] && [t1, t2][..1] == [t1] && [t1][..0] == [];
    assert Conversation(js, [t1]) == Next(js, Opened(), t1);
    assert SecondLedger(t1, t2)[0].instructionId == "a";
  }
}
