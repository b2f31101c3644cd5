/** Parking a plan as a payload, and rebuilding it with the user's answer. */
module Resume {
  import opened Wrappers
  import opened ToolSchema
  import opened Gates
  import opened Plans
  import opened Resolver
  import opened Execution
  import opened PlanRuns
  import opened PlanTheorems
  import Executor

  /** An instruction as stored: the tool by name only. */
  datatype Stored = Stored(
    id: string, capability: string, toolName: string, argSources: map<string, ArgSource>,
    needs: seq<string>, effect: Effect, produces: seq<string>)

  datatype Ask = Ask(field: Option<string>, toolName: string, question: Question)

  datatype Payload = Payload(
    goal: string, userMessage: string, registryHash: string, instructions: seq<Stored>, ledger: seq<Entry>,
    pendingInstructionId: string, ask: Ask, recoilCount: nat)

  datatype Rehydrated = Rehydrated(plan: Plan, state: ExecState, pendingInstructionId: string)

  datatype RehydrateError = StaleRegistry | ToolGone | AnswerRejected

  // ---- parking ----

  function StoredOf(i: Instruction): Stored {
    Stored(i.id, i.capability, i.tool.name, i.argSources, i.needs, i.effect, i.produces)
  }

  /** `toSuspensionPayload`: neither the nudge nor the pending call is kept. */
  function ToSuspensionPayload(goal: string, userMessage: string, registryHash: string, s: seq<Instruction>, state: ExecState,
                               pendingInstructionId: string, ask: Ask, recoilCount: nat): Payload {
    Payload(goal, userMessage, registryHash, seq(|s|, k requires 0 <= k < |s| => StoredOf(s[k])), state.ledger,
            pendingInstructionId, ask, recoilCount)
  }

  // ---- rebuilding ----

  /** The last tool of the registry with this name. */
  function ToolNamed(registry: seq<Tool>, name: string): (t: Option<Tool>)
    ensures t.Some? ==> t.value in registry && t.value.name == name
  {
    if registry == [] then None
    else if registry[|registry| - 1].name == name then Some(registry[|registry| - 1])
    else ToolNamed(registry[..|registry| - 1], name)
  }

  /** Of tools with one name the last registered counts. */
  lemma {:induction false} ToolNamedIs(registry: seq<Tool>, name: string)
    ensures ToolNamed(registry, name).None? <==> forall k :: 0 <= k < |registry| ==> registry[k].name != name
    ensures forall k :: 0 <= k < |registry| && registry[k].name == name && (forall j :: k < j < |registry| ==> registry[j].name != name) ==>
              ToolNamed(registry, name) == Some(registry[k])
  {
    if registry != [] {
      var init := registry[..|registry| - 1];
      ToolNamedIs(init, name);
      assert forall k :: 0 <= k < |init| ==> init[k] == registry[k];
    }
  }

  function Rebound(registry: seq<Tool>, stored: seq<Stored>): (s: Option<seq<Instruction>>)
    ensures s.Some? ==> |s.value| == |stored|
  {
    if stored == [] then Some([])
    else
      var before :- Rebound(registry, stored[..|stored| - 1]);
      var x := stored[|stored| - 1];
      var tool :- ToolNamed(registry, x.toolName);
      Some(before + [Instruction(x.id, x.capability, tool, x.argSources, x.needs, x.effect, x.produces)])
  }

  function FindInstruction(s: seq<Instruction>, id: string): (k: Option<nat>)
    ensures k.None? <==> forall j :: 0 <= j < |s| ==> s[j].id != id
    ensures k.Some? ==> k.value < |s| && s[k.value].id == id && forall j :: 0 <= j < k.value ==> s[j].id != id
  {
    if s == [] then None
    else if s[0].id == id then Some(0)
    else
      var k :- FindInstruction(s[1..], id);
      Some(k + 1)
  }

  /** Arguments known from literals and from the ledger's results. */
  function KnownArgs(i: Instruction, ledger: seq<Entry>): Args {
    map param | param in i.argSources && KnownArg(i.argSources[param], ledger).Some? :: KnownArg(i.argSources[param], ledger).value
  }

  function KnownArg(s: ArgSource, ledger: seq<Entry>): Option<Value> {
    match s
    case Literal(v) => Some(v)
    case Output(id, _) => var e :- FindEntry(ledger, id); if e.ok then Some(e.result) else None
    case Missing => None
  }

  /** The answer coerced to the asked parameter's type, or `None` if it does not fit. */
  function AcceptedAnswer(js: Js, i: Instruction, ledger: seq<Entry>, field: string, answer: string): Option<Value> {
    var c := Coerced(js, i.tool.params, map[field := Text(answer)]);
    var v := Property(c.args, field);
    if c.errors != [] || field in FindMissingRequiredArgs(i.tool.params, KnownArgs(i, ledger)[field := v]) then None else Some(v)
  }

  /** An answer is a text and never absent, so only its type can be wrong. */
  lemma OnlyTypesReject(js: Js, i: Instruction, ledger: seq<Entry>, field: string, answer: string)
    ensures AcceptedAnswer(js, i, ledger, field, answer).None? <==> Coerced(js, i.tool.params, map[field := Text(answer)]).errors != []
  {
    CoercionKeepsMissing(js, i.tool.params, map[field := Text(answer)], field);
  }

  /** The answer becomes a literal source of the asked parameter. */
  function Pinned(s: seq<Instruction>, k: nat, field: string, v: Value): (r: seq<Instruction>)
    requires k < |s|
    ensures |r| == |s|
  {
    s[k := s[k].(argSources := s[k].argSources[field := Literal(v)])]
  }

  /** `ask.field`, when there is one to speak of. */
  function AskedField(ask: Ask): Option<string> {
    if ask.field == Some("") then None else ask.field
  }

  function RehydrateSuspension(js: Js, p: Payload, answer: string, registry: seq<Tool>, hash: string): Result<Rehydrated, RehydrateError> {
    if hash != "" && p.registryHash != "" && hash != p.registryHash then Err(StaleRegistry)
    else
      match Rebound(registry, p.instructions)
      case None => Err(ToolGone)
      case Some(s) =>
        match FindInstruction(s, p.pendingInstructionId)
        case None => Err(ToolGone)
        case Some(k) =>
          match AskedField(p.ask)
          case None => Ok(Rehydrated(Plan(p.goal, None, s), Seed(p.ledger), p.pendingInstructionId))
          case Some(field) =>
            match AcceptedAnswer(js, s[k], p.ledger, field, answer)
            case None => Err(AnswerRejected)
            case Some(v) => Ok(Rehydrated(Plan(p.goal, None, Pinned(s, k, field, v)), Seed(p.ledger), p.pendingInstructionId))
  }

  // ---- when it fails ----

  lemma {:induction false} ReboundWhen(registry: seq<Tool>, stored: seq<Stored>)
    ensures Rebound(registry, stored).Some? <==> forall k :: 0 <= k < |stored| ==> ToolNamed(registry, stored[k].toolName).Some?
    ensures Rebound(registry, stored).Some? ==>
              forall k :: 0 <= k < |stored| ==>
                var i := Rebound(registry, stored).value[k]; i.id == stored[k].id && Some(i.tool) == ToolNamed(registry, stored[k].toolName)
  {
    hide ToolNamed;
    if stored != [] {
      var init := stored[..|stored| - 1];
      ReboundWhen(registry, init);
      assert forall k :: 0 <= k < |init| ==> init[k] == stored[k];
    }
  }

  /** The registry has changed since; only told apart when both hashes are known. */
  predicate Stale(p: Payload, hash: string) {
    hash != "" && p.registryHash != "" && hash != p.registryHash
  }

  /** A tool of the plan, or the pending step, is not there. */
  predicate Gone(p: Payload, registry: seq<Tool>) {
    || (exists k :: 0 <= k < |p.instructions| && ToolNamed(registry, p.instructions[k].toolName).None?)
    || forall k :: 0 <= k < |p.instructions| ==> p.instructions[k].id != p.pendingInstructionId
  }

  /** Step `k` is the one pending, and an answer for `field` of type text does not convert to what its tool declares. */
  predicate Unfit(js: Js, p: Payload, answer: string, registry: seq<Tool>, k: nat) {
    && k < |p.instructions| && p.instructions[k].id == p.pendingInstructionId
    && (forall j :: 0 <= j < k ==> p.instructions[j].id != p.pendingInstructionId)
    && ToolNamed(registry, p.instructions[k].toolName).Some? && AskedField(p.ask).Some?
    && Coerced(js, ToolNamed(registry, p.instructions[k].toolName).value.params, map[AskedField(p.ask).value := Text(answer)]).errors != []
  }

  /** The three ways to fail, the first that applies. */
  lemma RehydrateFails(js: Js, p: Payload, answer: string, registry: seq<Tool>, hash: string)
    ensures var r := RehydrateSuspension(js, p, answer, registry, hash);
            && (r == Err(StaleRegistry) <==> Stale(p, hash))
            && (r == Err(ToolGone) <==> !Stale(p, hash) && Gone(p, registry))
            && (r == Err(AnswerRejected) <==> !Stale(p, hash) && !Gone(p, registry) && exists k: nat :: Unfit(js, p, answer, registry, k))
            && (r.Ok? ==> r.value.state == Seed(p.ledger) && r.value.pendingInstructionId == p.pendingInstructionId && r.value.plan.goal == p.goal)
  {
    hide ToolNamed, Rebound, Coerced, AcceptedAnswer, Seed;
    ReboundWhen(registry, p.instructions);
    if !Stale(p, hash) && !Gone(p, registry) {
      var s := Rebound(registry, p.instructions).value;
      var k := FindInstruction(s, p.pendingInstructionId).value;
      if AskedField(p.ask).Some? {
        OnlyTypesReject(js, s[k], p.ledger, AskedField(p.ask).value, answer);
        assert Unfit(js, p, answer, registry, k) <==> AcceptedAnswer(js, s[k], p.ledger, AskedField(p.ask).value, answer).None?;
      }
    }
  }

  // ---- the same, step by step ----

  method CollectKnownArgs(i: Instruction, ledger: seq<Entry>) returns (known: Args)
    ensures known == KnownArgs(i, ledger)
  {
    known := map[];
    var rest := i.argSources.Keys;
    while rest != {}
      invariant rest <= i.argSources.Keys
      invariant forall p :: p in known <==> p in i.argSources && p !in rest && KnownArg(i.argSources[p], ledger).Some?
      invariant forall p <- known :: KnownArg(i.argSources[p], ledger) == Some(known[p])
      decreases rest
    {
      var param :| param in rest;
      var v := KnownArg(i.argSources[param], ledger);
      if v.Some? {
        known := known[param := v.value];
      }
      rest := rest - {param};
    }
  }

  /** A new executor state with the ledger replayed, failures included. */
  method SeedState(ledger: seq<Entry>) returns (state: Executor.ExecutorState)
    ensures fresh(state) && state.View() == Seed(ledger)
  {
    state := new Executor.ExecutorState([]);
    state.ledger := ledger;
    assert ledger[..0] == [];
    for k := 0 to |ledger|
      invariant state.View().(ledger := ledger[..k]) == Seed(ledger[..k]) && state.ledger == ledger
    {
      var e := ledger[k];
      assert ledger[..k + 1][..k] == ledger[..k];
      state.completed := state.completed + {e.instructionId};
      if e.ok {
        state.outputs := state.outputs[e.instructionId := e.result];
      }
      state.executedToolNames := state.executedToolNames + [e.toolName];
      state.toolCallsExecuted := state.toolCallsExecuted + 1;
    }
    assert ledger[..|ledger|] == ledger;
  }

  method Rebind(registry: seq<Tool>, stored: seq<Stored>) returns (s: Option<seq<Instruction>>)
    ensures s == Rebound(registry, stored)
  {
    var out: seq<Instruction> := [];
    assert stored[..0] == [];
    for k := 0 to |stored|
      invariant Rebound(registry, stored[..k]) == Some(out)
    {
      var x := stored[k];
      assert stored[..k + 1][..k] == stored[..k];
      var tool := ToolNamed(registry, x.toolName);
      if tool.None? {
        NeverRebound(registry, stored, k + 1);
        return None;
      }
      out := out + [Instruction(x.id, x.capability, tool.value, x.argSources, x.needs, x.effect, x.produces)];
    }
    assert stored[..|stored|] == stored;
    s := Some(out);
  }

  lemma {:induction false} NeverRebound(registry: seq<Tool>, stored: seq<Stored>, k: nat)
    requires k <= |stored| && Rebound(registry, stored[..k]).None?
    ensures Rebound(registry, stored).None?
    decreases |stored|
  {
    if k < |stored| {
      assert stored[..|stored| - 1][..k] == stored[..k];
      NeverRebound(registry, stored[..|stored| - 1], k);
    } else {
      assert stored[..k] == stored;
    }
  }

  method Rehydrate(js: Js, p: Payload, answer: string, registry: seq<Tool>, hash: string)
    returns (r: Result<Rehydrated, RehydrateError>, state: Option<Executor.ExecutorState>)
    ensures r == RehydrateSuspension(js, p, answer, registry, hash)
    ensures r.Ok? ==> state.Some? && fresh(state.value) && state.value.View() == r.value.state
  {
    state := None;
    if hash != "" && p.registryHash != "" && hash != p.registryHash {
      return Err(StaleRegistry), None;
    }
    var rebound := Rebind(registry, p.instructions);
    if rebound.None? {
      return Err(ToolGone), None;
    }
    var s := rebound.value;
    var k := FindInstruction(s, p.pendingInstructionId);
    if k.None? {
      return Err(ToolGone), None;
    }
    if p.ask.field.Some? && p.ask.field.value != "" {
      var field := p.ask.field.value;
      var pending := s[k.value];
      var coerced := CoerceArgs(js, pending.tool.params, map[field := Text(answer)]);
      var known := CollectKnownArgs(pending, p.ledger);
      var value := Property(coerced.args, field);
      var stillMissing := FindMissingRequiredArgs(pending.tool.params, known[field := value]);
      if coerced.errors != [] || field in stillMissing {
        return Err(AnswerRejected), None;
      }
      s := s[k.value := pending.(argSources := pending.argSources[field := Literal(value)])];
    }
    var seeded := SeedState(p.ledger);
    state := Some(seeded);
    r := Ok(Rehydrated(Plan(p.goal, None, s), seeded.View(), p.pendingInstructionId));
  }

  // ---- round trip ----

  /** The registry still has each step's tool under its name. */
  predicate RegistryHolds(registry: seq<Tool>, s: seq<Instruction>) {
    forall k :: 0 <= k < |s| ==> ToolNamed(registry, s[k].tool.name) == Some(s[k].tool)
  }

  lemma {:induction false} ReboundAgain(registry: seq<Tool>, s: seq<Instruction>, k: nat)
    requires RegistryHolds(registry, s) && k <= |s|
    ensures Rebound(registry, seq(k, j requires 0 <= j < k => StoredOf(s[j]))) == Some(s[..k])
  {
    hide ToolNamed;
    if k > 0 {
      var stored := seq(k, j requires 0 <= j < k => StoredOf(s[j]));
      assert stored[..k - 1] == seq(k - 1, j requires 0 <= j < k - 1 => StoredOf(s[j]));
      ReboundAgain(registry, s, k - 1);
      assert s[..k] == s[..k - 1] + [s[k - 1]];
    }
  }

  /** The same plan and state, with the answer, if one was asked for, pinned to step `k`. */
  function Answered(js: Js, goal: string, s: seq<Instruction>, state: ExecState, k: nat, ask: Ask, answer: string): Result<Rehydrated, RehydrateError>
    requires k < |s|
  {
    match AskedField(ask)
    case None => Ok(Rehydrated(Plan(goal, None, s), state, s[k].id))
    case Some(field) =>
      match AcceptedAnswer(js, s[k], state.ledger, field, answer)
      case None => Err(AnswerRejected)
      case Some(v) => Ok(Rehydrated(Plan(goal, None, Pinned(s, k, field, v)), state, s[k].id))
  }

  /** What a run reached, parked and rebuilt, is what it was; the answer is the only change. */
  lemma ParkedReturns(js: Js, goal: string, userMessage: string, hash: string, s: seq<Instruction>, state: ExecState, k: nat, ask: Ask,
                      recoilCount: nat, answer: string, registry: seq<Tool>)
    requires DistinctIds(s) && k < |s| && Sound(state) && RegistryHolds(registry, s)
    ensures var p := ToSuspensionPayload(goal, userMessage, hash, s, state, s[k].id, ask, recoilCount);
            RehydrateSuspension(js, p, answer, registry, hash) == Answered(js, goal, s, state, k, ask, answer)
  {
    hide AcceptedAnswer, ToolNamed, Rebound, Seed, Pinned, RegistryHolds;
    ReboundAgain(registry, s, |s|);
    assert s[..|s|] == s;
    assert FindInstruction(s, s[k].id) == Some(k);
  }

  /**
   Resuming goes on exactly where the parked run stopped, with the plan as it was or, where a value was asked
   for, with the accepted answer pinned.
   */
  lemma ResumeContinues(js: Js, goal: string, userMessage: string, hash: string, s: seq<Instruction>, start: seq<Entry>, meter0: Meter, d0: Deps,
                        k: nat, ask: Ask, recoilCount: nat, answer: string, registry: seq<Tool>, meter: Meter)
    requires Startable(s, start) && k < |s| && RegistryHolds(registry, s)
    ensures var parked := Execution.ExecutePlan(s, Fresh(start, meter0), d0).machine.state;
            var p := ToSuspensionPayload(goal, userMessage, hash, s, parked, s[k].id, ask, recoilCount);
            var r := RehydrateSuspension(js, p, answer, registry, hash);
            && (r.Ok? <==> AskedField(ask).None? || AcceptedAnswer(js, s[k], parked.ledger, AskedField(ask).value, answer).Some?)
            && (r.Ok? ==>
                  && r.value.state == parked && Machine(r.value.state, meter, []) == Fresh(parked.ledger, meter)
                  && Startable(r.value.plan.instructions, parked.ledger) && r.value.pendingInstructionId == s[k].id
                  && r.value.plan.instructions
                     == if AskedField(ask).None? then s
                        else Pinned(s, k, AskedField(ask).value, AcceptedAnswer(js, s[k], parked.ledger, AskedField(ask).value, answer).value))
  {
    hide RehydrateSuspension, RegistryHolds, Execution.ExecutePlan, Ordered, SourcesNeeded, AcceptedAnswer, Pinned, Seed;
    EndsStartable(s, start, meter0, d0);
    var parked := Execution.ExecutePlan(s, Fresh(start, meter0), d0).machine.state;
    ParkedReturns(js, goal, userMessage, hash, s, parked, k, ask, recoilCount, answer, registry);
    if AskedField(ask).Some? && AcceptedAnswer(js, s[k], parked.ledger, AskedField(ask).value, answer).Some? {
      PinnedStartable(s, parked.ledger, k, AskedField(ask).value, AcceptedAnswer(js, s[k], parked.ledger, AskedField(ask).value, answer).value);
    }
  }

  /** The accepted answer reaches the tool as accepted: the executor's own coercion does not change it. */
  lemma AnswerReachesTool(js: Js, s: seq<Instruction>, k: nat, ledger: seq<Entry>, field: string, answer: string, outputs: map<string, Value>)
    requires k < |s| && AcceptedAnswer(js, s[k], ledger, field, answer).Some?
    ensures var v := AcceptedAnswer(js, s[k], ledger, field, answer).value;
            var args := FinalArgs(js, Pinned(s, k, field, v)[k], outputs);
            !Absent(v) && field in args && args[field] == v
  {
    hide Coerced, FindMissingRequiredArgs, ExtractField;
    var v := AcceptedAnswer(js, s[k], ledger, field, answer).value;
    var i := Pinned(s, k, field, v)[k];
    var raw := AssembledArgs(i, outputs);
    assert SourceValue(i.argSources[field], outputs) == Some(v);
    AcceptedAnswerUnchanged(js, s[k].tool.params, field, Text(answer), raw);
    CoercionKeepsMissing(js, s[k].tool.params, map[field := Text(answer)], field);
  }

  /** Pinning an answer keeps the plan well wired and its ids. */
  lemma PinnedStartable(s: seq<Instruction>, start: seq<Entry>, k: nat, field: string, v: Value)
    requires Startable(s, start) && k < |s|
    ensures Startable(Pinned(s, k, field, v), start)
  {
    var r := Pinned(s, k, field, v);
    assert forall j :: 0 <= j < |s| ==> r[j].id == s[j].id && r[j].needs == s[j].needs;
    PinnedIds(s, k, field, v);
  }

  lemma PinnedIds(s: seq<Instruction>, k: nat, field: string, v: Value)
    requires k < |s|
    ensures PlanIds(Pinned(s, k, field, v)) == PlanIds(s)
  {
    var r := Pinned(s, k, field, v);
    forall id | id in PlanIds(s)
      ensures id in PlanIds(r)
    {
      var j :| 0 <= j < |s| && s[j].id == id;
      assert r[j] in r;
    }
    forall id | id in PlanIds(r)
      ensures id in PlanIds(s)
    {
      var j :| 0 <= j < |r| && r[j].id == id;
      assert s[j] in s;
    }
  }
}
