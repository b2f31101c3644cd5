/** What a caller may rely on after any run of a resolved plan. */
module PlanTheorems {
  import opened Wrappers
  import opened ToolSchema
  import opened Gates
  import opened Plans
  import opened Resolver
  import opened Execution
  import opened PlanRuns

  /** A plan as resolved, and a ledger of some of its steps, one entry each. */
  predicate Startable(s: seq<Instruction>, start: seq<Entry>) {
    WellWired(s) && DistinctEntries(start) && Ids(start) <= PlanIds(s)
  }

  /** Running never stalls, ends within as many waves as steps are left, and completes only when every step has been run. */
  lemma RunEnds(s: seq<Instruction>, start: seq<Entry>, meter: Meter, d: Deps)
    requires Startable(s, start)
    ensures var r := ExecutePlan(s, Fresh(start, meter), d);
            && r.outcome != Blocked(Stalled)
            && r.waves <= |s| - |start|
            && (r.outcome.Complete? ==> Ids(r.machine.state.ledger) == PlanIds(s))
  {
    hide RunInv, WaveReady, AskOk;
    FreshStarts(s, start, meter, d);
    RunKeeps(s, start, Fresh(start, meter), d);
    SeedFacts(start);
    SeedFacts(ExecutePlan(s, Fresh(start, meter), d).machine.state.ledger);
    RunSound(s, start, ExecutePlan(s, Fresh(start, meter), d).machine, d);
    LeftCount(s, start);
  }

  lemma LeftCount(s: seq<Instruction>, start: seq<Entry>)
    requires Startable(s, start)
    ensures |Remaining(s, Ids(start))| == |s| - |start|
  {
    PlanIdsCount(s);
    IdsCount(start);
    assert Remaining(s, Ids(start)) == PlanIds(s) - Ids(start);
    assert PlanIds(s) == Ids(start) + (PlanIds(s) - Ids(start));
  }

  lemma {:induction false} IdsCount(ledger: seq<Entry>)
    requires DistinctEntries(ledger)
    ensures |Ids(ledger)| == |ledger|
  {
    if ledger != [] {
      var init, last := ledger[..|ledger| - 1], ledger[|ledger| - 1];
      IdsCount(init);
      assert ledger == init + [last];
      assert Ids(ledger) == Ids(init) + {last.instructionId};
      assert last.instructionId !in Ids(init);
    }
  }

  /** A run of a startable plan keeps its invariant to the end. */
  lemma RunHolds(s: seq<Instruction>, start: seq<Entry>, meter: Meter, d: Deps)
    requires Startable(s, start)
    ensures var r := ExecutePlan(s, Fresh(start, meter), d);
            && RunInv(s, start, r.machine, d) && AskOk(s, r.machine, r.outcome, d) && HaltOk(s, start, r.machine, r.outcome)
            && r.machine.state.completed <= PlanIds(s)
  {
    hide RunInv, WaveReady, AskOk, HaltOk;
    FreshStarts(s, start, meter, d);
    RunKeeps(s, start, Fresh(start, meter), d);
  }

  /** Where the run ends, another can start: parked plans stay startable. */
  lemma EndsStartable(s: seq<Instruction>, start: seq<Entry>, meter: Meter, d: Deps)
    requires Startable(s, start)
    ensures var r := ExecutePlan(s, Fresh(start, meter), d);
            Startable(s, r.machine.state.ledger) && r.machine.state == Seed(r.machine.state.ledger)
  {
    hide AskOk;
    RunHolds(s, start, meter, d);
    SeedFacts(ExecutePlan(s, Fresh(start, meter), d).machine.state.ledger);
  }

  /** The ledger grows by exactly one entry per call; no step is called that already has an entry, and none twice. */
  lemma CalledOnce(s: seq<Instruction>, start: seq<Entry>, meter: Meter, d: Deps)
    requires Startable(s, start)
    ensures var m := ExecutePlan(s, Fresh(start, meter), d).machine;
            && |m.state.ledger| == |start| + |m.calls| && m.state.ledger[..|start|] == start
            && (forall k :: 0 <= k < |m.calls| ==>
                  && m.state.ledger[|start| + k] == EntryOf(m.calls[k], d.answer(k))
                  && m.calls[k].instructionId !in Ids(start))
            && (forall j, k :: 0 <= j < k < |m.calls| ==> m.calls[j].instructionId != m.calls[k].instructionId)
  {
    hide AskOk, Justified, Seed;
    RunHolds(s, start, meter, d);
    var m := ExecutePlan(s, Fresh(start, meter), d).machine;
    var ledger := m.state.ledger;
    forall k | 0 <= k < |m.calls|
      ensures m.calls[k].instructionId !in Ids(start)
    {
      assert ledger[|start| + k].instructionId == m.calls[k].instructionId;
      forall e | e in start
        ensures e.instructionId != m.calls[k].instructionId
      {
        var q :| 0 <= q < |start| && start[q] == e;
        assert ledger[q] == start[q];
      }
    }
    forall j, k | 0 <= j < k < |m.calls|
      ensures m.calls[j].instructionId != m.calls[k].instructionId
    {
      assert ledger[|start| + j].instructionId != ledger[|start| + k].instructionId;
    }
  }

  /** Raw arguments come from their sources: literals as they are, outputs from the named producer's success. */
  predicate DrawnFrom(i: Instruction, ledger: seq<Entry>, raw: Args) {
    && raw.Keys <= i.argSources.Keys
    && forall param <- raw ::
         match i.argSources[param]
         case Literal(v) => raw[param] == v
         case Output(id, field) =>
           !Absent(raw[param]) && exists k :: 0 <= k < |ledger| && Gives(ledger[k], id, field, raw[param])
         case Missing => false
  }

  predicate Gives(e: Entry, id: string, field: string, v: Value) {
    e.instructionId == id && e.ok && v == ExtractField(e.result, field)
  }

  lemma AssembledDrawn(i: Instruction, ledger: seq<Entry>)
    requires DistinctEntries(ledger)
    ensures DrawnFrom(i, ledger, AssembledArgs(i, Seed(ledger).outputs))
  {
    hide ExtractField, Seed;
    var outputs := Seed(ledger).outputs;
    var raw := AssembledArgs(i, outputs);
    forall param | param in raw && i.argSources[param].Output?
      ensures exists k :: 0 <= k < |ledger| && Gives(ledger[k], i.argSources[param].instructionId, i.argSources[param].field, raw[param])
    {
      var id := i.argSources[param].instructionId;
      if id !in outputs {
        assert ExtractField(Undefined, i.argSources[param].field) == Undefined by { UndefinedField(i.argSources[param].field); }
        assert false;
      }
      OutputsKnown(ledger, id);
      var k :| 0 <= k < |ledger| && ledger[k].instructionId == id && ledger[k].ok;
      SeedOutputs(ledger, k);
      assert Gives(ledger[k], id, i.argSources[param].field, raw[param]);
    }
  }

  lemma UndefinedField(field: string)
    ensures ExtractField(Undefined, field) == Undefined
  {
  }

  /** What is known of a call when it is made, over what was recorded before it. */
  ghost predicate CallSound(i: Instruction, start: seq<Entry>, before: seq<Entry>, d: Deps, c: Call, raw: Args) {
    && c.instructionId == i.id && c.toolName == i.tool.name
    && c.args == Coerced(d.js, i.tool.params, raw).args
    && DrawnFrom(i, before, raw)
    && Supplied(i.tool, c.args) && StageReady(i.tool, d.gate)
    && (forall name <- RequiredParamNames(i.tool.params) :: !Absent(Property(raw, name)))
    && (forall n <- i.needs :: Succeeded(before, n) || Failed(start, n))
    && (ArgsFit(i.tool.params, c.args) <==> Coerced(d.js, i.tool.params, raw).errors == [])
  }

  /** `CallSound` for the run's `k`-th call. */
  ghost predicate CallAt(i: Instruction, start: seq<Entry>, m: Machine, d: Deps, k: nat, raw: Args) {
    && k < |m.calls| && |start| + k <= |m.state.ledger|
    && CallSound(i, start, m.state.ledger[..|start| + k], d, m.calls[k], raw)
  }

  /**
   Every call carries all required arguments, each drawn from its source, in a stage that admits it, after
   all its producers; its declared arguments fit if and only if coercing the assembled ones met no error.
   */
  lemma CallProvenance(s: seq<Instruction>, start: seq<Entry>, meter: Meter, d: Deps, k: nat)
    requires Startable(s, start) && k < |ExecutePlan(s, Fresh(start, meter), d).machine.calls|
    ensures var m := ExecutePlan(s, Fresh(start, meter), d).machine;
            exists i, raw :: i in s && CallAt(i, start, m, d, k, raw)
  {
    hide AskOk, JustifiedBy, ExecutePlan;
    RunHolds(s, start, meter, d);
    var m := ExecutePlan(s, Fresh(start, meter), d).machine;
    var before := m.state.ledger[..|start| + k];
    var p :| 0 <= p < |s| && JustifiedBy(s[p], d, start, before, m.calls[k]);
    assert DistinctEntries(before);
    JustifiedSound(s[p], d, start, before, m.calls[k]);
    assert CallAt(s[p], start, m, d, k, AssembledArgs(s[p], Seed(before).outputs));
  }

  lemma JustifiedSound(i: Instruction, d: Deps, start: seq<Entry>, before: seq<Entry>, c: Call)
    requires JustifiedBy(i, d, start, before, c) && DistinctEntries(before)
    ensures CallSound(i, start, before, d, c, AssembledArgs(i, Seed(before).outputs))
  {
    hide EvaluateGate, Seed, Coerced, DrawnFrom, Succeeded, Failed, AssembledArgs, ArgsFit;
    var raw := AssembledArgs(i, Seed(before).outputs);
    AssembledDrawn(i, before);
    GatePasses(i.tool, c.args, d.gate);
    CoercedFitIff(d.js, i.tool.params, raw);
    forall name | name in RequiredParamNames(i.tool.params)
      ensures !Absent(Property(raw, name))
    {
      CoercionKeepsMissing(d.js, i.tool.params, raw, name);
    }
  }

  /**
   For a called step, all its producers succeeded exactly when none of them had failed before this run
   began: within one run a failure stops every dependent, across a park it does not.
   */
  lemma ProducersSucceeded(s: seq<Instruction>, start: seq<Entry>, meter: Meter, d: Deps, k: nat, i: Instruction)
    requires Startable(s, start) && k < |ExecutePlan(s, Fresh(start, meter), d).machine.calls| && i in s
    requires i.id == ExecutePlan(s, Fresh(start, meter), d).machine.calls[k].instructionId
    ensures (forall n <- i.needs :: Succeeded(ExecutePlan(s, Fresh(start, meter), d).machine.state.ledger, n))
       <==> (forall n <- i.needs :: !Failed(start, n))
  {
    hide ExecutePlan, DrawnFrom, Supplied, StageReady, Startable, Coerced, Failed, Succeeded, RunInv, AskOk;
    var m := ExecutePlan(s, Fresh(start, meter), d).machine;
    CallProvenance(s, start, meter, d, k);
    var j, raw :| j in s && CallAt(j, start, m, d, k, raw);
    StartDistinct(s, start);
    SameId(s, i, j);
    RunHolds(s, start, meter, d);
    RunGrew(s, start, m, d);
    forall n | n in i.needs
      ensures Succeeded(m.state.ledger, n) <==> !Failed(start, n)
    {
      var before := m.state.ledger[..|start| + k];
      if Succeeded(before, n) {
        SucceededStays(before, m.state.ledger, n);
      }
      NotBoth(start, m.state.ledger, n);
    }
  }

  lemma RunGrew(s: seq<Instruction>, start: seq<Entry>, m: Machine, d: Deps)
    requires RunInv(s, start, m, d)
    ensures DistinctEntries(m.state.ledger) && |start| <= |m.state.ledger| && m.state.ledger[..|start|] == start
  {
  }

  lemma NotBoth(start: seq<Entry>, ledger: seq<Entry>, n: string)
    requires DistinctEntries(ledger) && |start| <= |ledger| && ledger[..|start|] == start
    ensures Failed(start, n) ==> !Succeeded(ledger, n)
  {
    if Failed(start, n) {
      var q :| 0 <= q < |start| && start[q].instructionId == n && !start[q].ok;
      forall r | 0 <= r < |ledger| && ledger[r].instructionId == n
        ensures r == q
      {
        assert ledger[q] == start[q];
      }
      assert !ledger[q].ok by { assert ledger[q] == start[q]; }
    }
  }

  lemma StartDistinct(s: seq<Instruction>, start: seq<Entry>)
    requires Startable(s, start)
    ensures DistinctIds(s)
  {
  }

  /** A step that its gate holds back for approval is called only if the run was given that approval. */
  lemma OnlyApproved(s: seq<Instruction>, start: seq<Entry>, meter: Meter, d: Deps, k: nat, i: Instruction)
    requires Startable(s, start) && k < |ExecutePlan(s, Fresh(start, meter), d).machine.calls| && i in s
    requires i.id == ExecutePlan(s, Fresh(start, meter), d).machine.calls[k].instructionId
    requires EvaluateGate(i.tool, ExecutePlan(s, Fresh(start, meter), d).machine.calls[k].args, d.gate).NeedsApproval?
    ensures i.id in d.approved
  {
    hide AskOk, ExecutePlan, EvaluateGate, WellWired;
    RunHolds(s, start, meter, d);
    var m := ExecutePlan(s, Fresh(start, meter), d).machine;
    var p :| 0 <= p < |s| && JustifiedBy(s[p], d, start, m.state.ledger[..|start| + k], m.calls[k]);
    StartDistinct(s, start);
    SameId(s, i, s[p]);
  }

  // ---- a failure carried across a park ----

  /** The one step left is called as soon as its gate allows, whatever became of its producers in earlier runs. */
  lemma LastStepCalled(s: seq<Instruction>, start: seq<Entry>, i: Instruction, d: Deps)
    requires Startable(s, start) && i in s && i.id !in Ids(start) && |s| == |start| + 1
    requires GateOf(i, Seed(start).outputs, d).Allow? && d.maxToolCalls >= 1 && !d.late(1)
    ensures ExecutePlan(s, Fresh(start, Meter(0, map[])), d).machine.calls
         == [Call(i.id, i.tool.name, FinalArgs(d.js, i, Seed(start).outputs))]
  {
    hide Seed, FinalArgs, EvaluateGate, Coerced, WellWired, Recorded, NoteToolCall, FindCall, ExecutePlan;
    var m := Fresh(start, Meter(0, map[]));
    SeedFacts(start);
    IdsCount(start);
    LastWave(s, start, i);
    FreshStarts(s, start, Meter(0, map[]), d);
    RunSound(s, start, m, d);
    NoPriorCall(m, i, FinalArgs(d.js, i, m.state.outputs));
    FirstNoted(d, i.tool.name, FinalArgs(d.js, i, m.state.outputs));
    OneStepWave(i, m, d);
    var w := RunWave(s, [i], m, d);
    LastRun(s, m, d, i, w);
  }

  lemma FirstNoted(d: Deps, toolName: string, args: Args)
    requires d.maxToolCalls >= 1 && !d.late(1)
    ensures NoteToolCall(Meter(0, map[]), d, toolName, args).1.None?
  {
  }

  lemma LastWave(s: seq<Instruction>, start: seq<Entry>, i: Instruction)
    requires Startable(s, start) && i in s && i.id !in Ids(start) && |s| == |start| + 1
    ensures NextWave(s, Ids(start)) == [i]
  {
    hide Ordered, SourcesNeeded, Ids, PlanIds, DistinctIds;
    var wave := NextWave(s, Ids(start));
    PlanIdsCount(s);
    IdsCount(start);
    IdOf(s, i);
    SubsetSize(Ids(start) + {i.id}, PlanIds(s));
    NeedsInPlan(s, i);
    assert i in wave;
    WaveDistinct(s, Ids(start));
    forall k | 0 <= k < |wave|
      ensures wave[k] == i
    {
      assert wave[k] in wave;
      IdOf(s, wave[k]);
      SameId(s, wave[k], i);
    }
    AllSame(wave, i);
  }

  lemma AllSame(wave: seq<Instruction>, i: Instruction)
    requires DistinctIds(wave) && i in wave && forall k :: 0 <= k < |wave| ==> wave[k] == i
    ensures wave == [i]
  {
    assert |wave| > 1 ==> wave[0].id != wave[1].id;
  }

  lemma IdOf(s: seq<Instruction>, i: Instruction)
    requires i in s
    ensures i.id in PlanIds(s)
  {
  }

  /** A step needs other steps of its plan. */
  lemma NeedsInPlan(s: seq<Instruction>, i: Instruction)
    requires WellWired(s) && i in s
    ensures forall n <- i.needs :: n in PlanIds(s) && n != i.id
  {
    forall n | n in i.needs
      ensures n in PlanIds(s) && n != i.id
    {
      var k :| 0 <= k < |s| && s[k] == i;
      var j :| 0 <= j < k && s[j].id == n;
      assert s[j] in s;
    }
  }

  /** A wave of one step runs that step. */
  lemma OneStepWave(i: Instruction, m: Machine, d: Deps)
    ensures RunReads(OfEffect([i], Reads), m, d).machine == if i.effect == Reads then RunInstruction(i, m, d).machine else m
    ensures RunWrites(OfEffect([i], Writes), m, d).machine == if i.effect == Writes then RunInstruction(i, m, d).machine else m
    ensures FirstStop(RunReads(OfEffect([i], Reads), m, d).outcomes)
         == if i.effect == Reads then RunInstruction(i, m, d).outcome else Complete
    ensures OfEffect([i], if i.effect == Reads then Writes else Reads) == []
  {
    hide RunInstruction;
    assert [i][..0] == [];
    assert Without([i], 0) == [];
  }

  lemma LastRun(s: seq<Instruction>, m: Machine, d: Deps, i: Instruction, w: Step)
    requires |m.state.completed| + 1 == |s| && NextWave(s, m.state.completed) == [i] && w == RunWave(s, [i], m, d)
    requires i.id !in m.state.completed
    ensures ExecutePlan(s, m, d).machine == w.machine
  {
    hide RunWave;
    if w.outcome.Complete? {
      WaveCompletes(s, [i], m, d);
      assert i in [i];
      SubsetSize(m.state.completed + {i.id}, w.machine.state.completed);
    }
  }

  // ---- an argument that does not fit ----

  /** A step that counts, hinted with a text for its number. */
  function Miscounted(text: string): Bound {
    Bound(PlanStep("a", "", map["n" := Text(text)], []), Tool("count", "", [Param("n", Full(Some("number"), None, None, None))], Read))
  }

  /** A hint that is no number is rejected by coercion, passed on all the same, and the tool is called with it. */
  lemma MisfitCalled(text: string, d: Deps)
    requires d.js.toNumber(text) == None && d.gate == GateContext(SafetyConfig(false, [], map[]), None, {})
    requires d.maxToolCalls >= 1 && !d.late(1)
    ensures var s, args := ResolvedAll([Miscounted(text)]), map["n" := Text(text)];
            && ExecutePlan(s, Fresh([], Meter(0, map[])), d).machine.calls == [Call("a", "count", args)]
            && !ArgsFit(Miscounted(text).tool.params, args)
  {
    hide ExecutePlan, Resolved, ArgsFit, Fits;
    var bound := [Miscounted(text)];
    var s, i := ResolvedAll(bound), Resolved(bound, 0);
    assert s == [i];
    ResolvedWellWired(bound);
    MisfitStep(text);
    MisfitArgs(text, i, d);
    LastStepCalled(s, [], i, d);
  }

  lemma MisfitStep(text: string)
    ensures var i := Resolved([Miscounted(text)], 0);
            && i.id == "a" && i.tool == Miscounted(text).tool && i.argSources == map["n" := Literal(Text(text))]
  {
    hide RequiredParamNames, Producers;
    var bound := [Miscounted(text)];
    WiredOtherwise(bound, 0, "n");
    forall p | p in Resolved(bound, 0).argSources
      ensures p == "n"
    {
      WiredOtherwise(bound, 0, p);
      OnlyParam(p, Miscounted(text).tool.params);
    }
    OnlyParam("n", Miscounted(text).tool.params);
  }

  lemma OnlyParam(p: string, params: Params)
    requires |params| == 1 && NormalizeParam(params[0].spec).required
    ensures p in RequiredParamNames(params) <==> p == params[0].name
  {
    assert params[0] in params;
  }

  lemma MisfitArgs(text: string, i: Instruction, d: Deps)
    requires i.tool == Miscounted(text).tool && i.argSources == map["n" := Literal(Text(text))]
    requires d.js.toNumber(text) == None && d.gate == GateContext(SafetyConfig(false, [], map[]), None, {})
    ensures var args := map["n" := Text(text)];
            && FinalArgs(d.js, i, Seed([]).outputs) == args && GateOf(i, Seed([]).outputs, d).Allow? && !ArgsFit(i.tool.params, args)
  {
    hide CoercedBy, RequiredParamNames, FindMissingRequiredArgs, ArgsFit;
    var outputs, params := Seed([]).outputs, i.tool.params;
    var raw := AssembledArgs(i, outputs);
    assert SourceValue(Literal(Text(text)), outputs) == Some(Text(text));
    assert raw == map["n" := Text(text)];
    CoercedPointwise(d.js, params, raw);
    CoercedFitIff(d.js, params, raw);
    assert Rejected(d.js, params[0], Text(text));
    var args := FinalArgs(d.js, i, outputs);
    assert Property(args, params[0].name) == Text(text);
    assert args == map["n" := Text(text)];
    GatePasses(i.tool, args, d.gate);
  }
}
