/** What the user is asked for when a value is missing, over whole conversations. */
module Questions {
  import opened Wrappers
  import opened ToolSchema
  import opened Gates
  import opened Plans
  import opened Resolver
  import opened Execution
  import opened PlanRuns
  import opened PlanTheorems
  import opened Resume
  import opened Sessions

  // ---- plans as resolution leaves them ----

  /** Every required parameter has a source, literals for them have values, and nothing else can lack one. */
  predicate Sourced(i: Instruction) {
    var required := RequiredParamNames(i.tool.params);
    && (forall name <- required :: name in i.argSources && !(i.argSources[name].Literal? && Absent(i.argSources[name].value)))
    && (forall name <- i.argSources :: name in required || i.argSources[name].Literal?)
  }

  predicate AllSourced(s: seq<Instruction>) {
    forall k :: 0 <= k < |s| ==> Sourced(s[k])
  }

  lemma ResolvedSourced(bound: seq<Bound>)
    ensures AllSourced(ResolvedAll(bound))
  {
    hide RequiredParamNames, Earliest, Producers;
  }

  lemma PinnedSourced(s: seq<Instruction>, k: nat, field: string, v: Value)
    requires AllSourced(s) && k < |s| && !Absent(v)
    ensures AllSourced(Pinned(s, k, field, v))
  {
    hide RequiredParamNames;
    assert Sourced(s[k]);
  }

  // ---- one question ----

  /** The question of a step as resolved names exactly what the gate misses. */
  lemma AsksMissing(i: Instruction, outputs: map<string, Value>, d: Deps)
    requires Sourced(i) && GateOf(i, outputs, d).NeedsInfo?
    ensures var missing := GateOf(i, outputs, d).missing;
            missing != [] && AskedFor(i, outputs, missing) == set f <- missing
  {
    hide EvaluateGate, RequiredParamNames, ExtractField, Coerced;
    var raw, args := AssembledArgs(i, outputs), FinalArgs(d.js, i, outputs);
    var missing := GateOf(i, outputs, d).missing;
    GateAsks(i.tool, args, d.gate);
    forall name | name in RequiredParamNames(i.tool.params)
      ensures Absent(Property(args, name)) <==> name in MissingArgs(i, outputs)
    {
      CoercionKeepsMissing(d.js, i.tool.params, raw, name);
      SourceGives(i, outputs, name);
    }
    if !Supplied(i.tool, args) {
      NamesAll(i, args, d);
      var name :| name in RequiredParamNames(i.tool.params) && Absent(Property(args, name));
      assert name in MissingArgs(i, outputs);
    }
  }

  lemma SourceGives(i: Instruction, outputs: map<string, Value>, name: string)
    requires Sourced(i) && name in RequiredParamNames(i.tool.params)
    ensures Absent(Property(AssembledArgs(i, outputs), name)) <==> name in MissingArgs(i, outputs)
  {
    hide ExtractField, RequiredParamNames;
  }

  /** Missing arguments are named before anything else, and all of them. */
  lemma NamesAll(i: Instruction, args: Args, d: Deps)
    requires !Supplied(i.tool, args)
    ensures var v := EvaluateGate(i.tool, args, d.gate);
            v.NeedsInfo? && forall f :: f in v.missing <==> f in RequiredParamNames(i.tool.params) && Absent(Property(args, f))
  {
    hide RequiredParamNames;
    var name :| name in RequiredParamNames(i.tool.params) && Absent(Property(args, name));
    assert name in FindMissingRequiredArgs(i.tool.params, args);
  }

  // ---- conversations ----

  /** At each turn the tools of the parked plan are still registered as they were. */
  ghost predicate ToolsKept(js: Js, turns: seq<TurnInput>) {
    forall k :: 0 <= k < |turns| ==> Kept(Conversation(js, turns[..k]), turns[k])
  }

  predicate Kept(s: Session, t: TurnInput) {
    s.parked.Some? ==> RegistryHolds(t.functions, s.live)
  }

  /** A parked plan is rebuilt as it was, but for the answer. */
  lemma ResumedSourced(js: Js, live: seq<Instruction>, p: Parked, answer: string, registry: seq<Tool>, hash: string)
    requires ParkedOk(js, live, p) && RegistryHolds(registry, live) && AllSourced(live)
    requires RehydrateSuspension(js, p.payload, answer, registry, hash).Ok?
    ensures AllSourced(RehydrateSuspension(js, p.payload, answer, registry, hash).value.plan.instructions)
  {
    hide Startable, FinalArgs, Seed, Rebound, RegistryHolds, Sourced, AllSourced, AcceptedAnswer, Pinned, ToolNamed;
    ReboundAgain(registry, live, |live|);
    assert live[..|live|] == live;
    assert p.payload.instructions == seq(|live|, j requires 0 <= j < |live| => StoredOf(live[j]));
    var k := FindInstruction(live, p.payload.pendingInstructionId).value;
    if AskedField(p.payload.ask).Some? {
      var field := AskedField(p.payload.ask).value;
      var v := AcceptedAnswer(js, live[k], p.payload.ledger, field, answer).value;
      AnswerReachesTool(js, live, k, p.payload.ledger, field, answer, map[]);
      PinnedSourced(live, k, field, v);
    }
  }

  lemma RanSourced(js: Js, s: Session, t: TurnInput)
    requires SessionInv(js, s) && Kept(s, t) && (s.parked.Some? ==> AllSourced(s.live))
    ensures var r := Turn(js, s.parked, t);
            && (r.ran.Some? ==> AllSourced(r.ran.value.instructions))
            && (r.ran.None? && r.parked.Some? ==> r.parked == s.parked)
  {
    hide ExecutePlan, Startable, RehydrateSuspension, ParkedOk, IsDenialMessage, IsConfirmationMessage, ResolvedAll, AllSourced, RegistryHolds,
      CallsOnce, Past, InLedger;
    if Resumes(js, s.parked, t) {
      var p := s.parked.value;
      if RehydrateSuspension(js, p.payload, t.message, t.functions, t.registryHash).Ok? {
        ResumedSourced(js, s.live, p, t.message, t.functions, t.registryHash);
      }
    } else if t.proposal.Some? {
      ResolvedSourced(t.proposal.value.bound);
    }
  }

  lemma {:induction false} LiveSourced(js: Js, turns: seq<TurnInput>)
    requires ToolsKept(js, turns)
    ensures var s := Conversation(js, turns); SessionInv(js, s) && (s.parked.Some? ==> AllSourced(s.live))
  {
    hide SessionInv, Kept, Turn, Resumes, AllSourced;
    ConversationKeeps(js, turns);
    if turns != [] {
      var init, t := turns[..|turns| - 1], turns[|turns| - 1];
      forall k | 0 <= k < |init|
        ensures Kept(Conversation(js, init[..k]), init[k])
      {
        assert init[..k] == turns[..k] && init[k] == turns[k];
      }
      LiveSourced(js, init);
      assert Kept(Conversation(js, turns[..|turns| - 1]), turns[|turns| - 1]);
      RanSourced(js, Conversation(js, init), t);
    }
  }

  /**
   Whenever a turn's run ends for want of a value, with the tools as they were, the user is asked for exactly
   the fields that the gate misses for that step's settled arguments, and the answer would be taken for one of them.
   */
  lemma InfoAsksMissing(js: Js, turns: seq<TurnInput>, t: TurnInput)
    requires ToolsKept(js, turns) && Kept(Conversation(js, turns), t)
    requires var r := Turn(js, Conversation(js, turns).parked, t);
             r.ran.Some? && r.ran.value.run.outcome.Suspend? && r.ran.value.run.outcome.reason.AwaitingInfo?
    ensures var r := Turn(js, Conversation(js, turns).parked, t);
            var ran, o := r.ran.value, r.ran.value.run.outcome;
            && r.reply == Asked(o.question) && o.missing != []
            && GateOf(o.instruction, ran.run.machine.state.outputs, DepsFor(js, t, ran.approved)) == NeedsInfo(o.missing)
            && o.question == AskInfo(set f <- o.missing)
            && (AskField(o).Some? ==> AskField(o).value in o.question.fields)
            && (AskField(o).None? ==> "" in o.question.fields)
  {
    hide ExecutePlan, SessionInv, Startable, Kept, Conversation, RunInv, HaltOk, GateOf, AskedFor, Resumes, Sourced;
    LiveSourced(js, turns);
    var s := Conversation(js, turns);
    EveryRunStartable(js, turns, t);
    RanSourced(js, s, t);
    Replies(js, s.parked, t);
    var ran := Turn(js, s.parked, t).ran.value;
    var d, o := DepsFor(js, t, ran.approved), ran.run.outcome;
    assert ran == RunTurn(js, t, ran.instructions, ran.start, ran.approved);
    RunHolds(ran.instructions, ran.start, NewMeter(), d);
    var k :| 0 <= k < |ran.instructions| && AskFor(ran.instructions[k], ran.run.machine, o, d);
    AsksMissing(ran.instructions[k], ran.run.machine.state.outputs, d);
    assert o.missing[0] in o.missing;
  }

  /** A run that ends with a question replies with it. */
  lemma Replies(js: Js, parked: Option<Parked>, t: TurnInput)
    ensures var r := Turn(js, parked, t); r.ran.Some? && r.ran.value.run.outcome.Suspend? ==> r.reply == Asked(r.ran.value.run.outcome.question)
  {
    hide ExecutePlan, RehydrateSuspension, IsDenialMessage, IsConfirmationMessage, ResolvedAll;
  }

  // ---- stage fields ----

  /**
   An answer to a question for a stage's field becomes an argument, which the gate does not read: the step asks
   the same again.
   */
  lemma StageAnswerIdle(s: seq<Instruction>, k: nat, field: string, v: Value, outputs: map<string, Value>, d: Deps)
    requires k < |s| && Supplied(s[k].tool, FinalArgs(d.js, s[k], outputs)) && GateOf(s[k], outputs, d).NeedsInfo?
    requires field !in RequiredParamNames(s[k].tool.params)
    ensures GateOf(Pinned(s, k, field, v)[k], outputs, d) == GateOf(s[k], outputs, d)
  {
    hide RequiredParamNames, ExtractField, Coerced;
    var i, r := s[k], Pinned(s, k, field, v)[k];
    forall name | name in RequiredParamNames(i.tool.params)
      ensures !Absent(Property(FinalArgs(d.js, r, outputs), name))
    {
      CoercionKeepsMissing(d.js, i.tool.params, AssembledArgs(i, outputs), name);
      CoercionKeepsMissing(d.js, i.tool.params, AssembledArgs(r, outputs), name);
      OtherSource(i, r, field, v, outputs, name);
    }
    SuppliedMisses(i.tool, FinalArgs(d.js, i, outputs));
    SuppliedMisses(i.tool, FinalArgs(d.js, r, outputs));
  }

  lemma OtherSource(i: Instruction, r: Instruction, field: string, v: Value, outputs: map<string, Value>, name: string)
    requires r == i.(argSources := i.argSources[field := Literal(v)]) && name != field
    ensures Property(AssembledArgs(r, outputs), name) == Property(AssembledArgs(i, outputs), name)
  {
    hide ExtractField;
  }

  lemma SuppliedMisses(tool: Tool, args: Args)
    requires Supplied(tool, args)
    ensures FindMissingRequiredArgs(tool.params, args) == []
  {
    hide RequiredParamNames;
    HasFirst(FindMissingRequiredArgs(tool.params, args));
  }

  lemma HasFirst(s: seq<string>)
    ensures s != [] ==> exists x :: x in s
  {
    if s != [] {
      assert s[0] in s;
    }
  }
}
