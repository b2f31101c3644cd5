/**
 What every run of a plan keeps, from any ledger it may start with: each call is made once, by a
 step whose producers are finished, with the arguments its sources give, and past its gate.
 */
module PlanRuns {
  import opened Wrappers
  import opened ToolSchema
  import opened Gates
  import opened Plans
  import opened Resolver
  import opened Execution

  // ---- ledgers ----

  predicate Succeeded(ledger: seq<Entry>, id: string) {
    exists k :: 0 <= k < |ledger| && ledger[k].instructionId == id && ledger[k].ok
  }

  predicate Failed(ledger: seq<Entry>, id: string) {
    exists k :: 0 <= k < |ledger| && ledger[k].instructionId == id && !ledger[k].ok
  }

  /** The state is the one its ledger stands for, with one entry per instruction. */
  predicate Sound(s: ExecState) {
    s == Seed(s.ledger) && DistinctEntries(s.ledger)
  }

  lemma SeedSnoc(ledger: seq<Entry>, e: Entry)
    ensures Seed(ledger + [e]) == Recorded(Seed(ledger), e)
  {
    assert (ledger + [e])[..|ledger|] == ledger;
  }

  lemma IdsSnoc(ledger: seq<Entry>, e: Entry)
    ensures Ids(ledger + [e]) == Ids(ledger) + {e.instructionId}
  {
    forall id
      ensures id in Ids(ledger + [e]) <==> id in Ids(ledger) || id == e.instructionId
    {
      if id in Ids(ledger) {
        var k :| 0 <= k < |ledger| && ledger[k].instructionId == id;
        assert (ledger + [e])[k] == ledger[k];
      }
      assert (ledger + [e])[|ledger|] == e;
    }
  }

  lemma DistinctSnoc(ledger: seq<Entry>, e: Entry)
    requires DistinctEntries(ledger) && e.instructionId !in Ids(ledger)
    ensures DistinctEntries(ledger + [e])
  {
    forall k | 0 <= k < |ledger|
      ensures ledger[k].instructionId != e.instructionId
    {
      assert ledger[k] in ledger;
    }
  }

  lemma SeedEmpty()
    ensures Seed([]).completed == Ids([])
  {
  }

  lemma {:induction false} SeedFacts(ledger: seq<Entry>)
    ensures Seed(ledger).completed == Ids(ledger)
  {
    hide Seed, Ids;
    if ledger == [] {
      SeedEmpty();
    } else {
      var init, last := ledger[..|ledger| - 1], ledger[|ledger| - 1];
      assert ledger == init + [last];
      SeedFacts(init);
      IdsSnoc(init, last);
      SeedSnoc(init, last);
    }
  }

  /** The counters count the ledger, and the names name its tools. */
  lemma {:induction false} SeedCounts(ledger: seq<Entry>)
    ensures Seed(ledger).toolCallsExecuted == |Seed(ledger).executedToolNames| == |ledger|
    ensures forall k :: 0 <= k < |ledger| ==> Seed(ledger).executedToolNames[k] == ledger[k].toolName
  {
    if ledger != [] {
      SeedCounts(ledger[..|ledger| - 1]);
    }
  }

  /** Outputs are the results of the successful entries. */
  lemma {:induction false} SeedOutputs(ledger: seq<Entry>, k: nat)
    requires DistinctEntries(ledger) && k < |ledger|
    ensures var e, outputs := ledger[k], Seed(ledger).outputs;
            && (e.instructionId in outputs <==> e.ok)
            && (e.ok ==> outputs[e.instructionId] == e.result)
  {
    hide Seed, Succeeded;
    var init, last := ledger[..|ledger| - 1], ledger[|ledger| - 1];
    assert ledger == init + [last];
    SeedSnoc(init, last);
    if k < |init| {
      assert init[k] == ledger[k] && ledger[k].instructionId != last.instructionId;
      SeedOutputs(init, k);
    } else {
      OutputsKnown(init, last.instructionId);
      assert !Succeeded(init, last.instructionId) by { LastIsNew(init, last); }
    }
  }

  lemma LastIsNew(init: seq<Entry>, last: Entry)
    requires DistinctEntries(init + [last])
    ensures !Succeeded(init, last.instructionId)
  {
    var ledger := init + [last];
    forall k | 0 <= k < |init|
      ensures init[k].instructionId != last.instructionId
    {
      assert ledger[k] == init[k] && ledger[|init|] == last;
    }
  }

  lemma {:induction false} OutputsKnown(ledger: seq<Entry>, id: string)
    ensures id in Seed(ledger).outputs ==> Succeeded(ledger, id)
  {
    if ledger != [] {
      var init, last := ledger[..|ledger| - 1], ledger[|ledger| - 1];
      OutputsKnown(init, id);
      if Succeeded(init, id) {
        var k :| 0 <= k < |init| && init[k].instructionId == id && init[k].ok;
        assert ledger[k] == init[k];
      }
      assert ledger[|ledger| - 1] == last;
    }
  }

  /** Entries added later do not touch the outputs of finished steps. */
  lemma {:induction false} OutputsStay(ledger: seq<Entry>, more: seq<Entry>, id: string)
    requires DistinctEntries(ledger + more) && id in Ids(ledger)
    ensures var was, now := Seed(ledger).outputs, Seed(ledger + more).outputs;
            (id in now <==> id in was) && (id in was ==> now[id] == was[id])
    decreases |more|
  {
    hide Seed;
    if more == [] {
      assert ledger + more == ledger;
    } else {
      var init, last := more[..|more| - 1], more[|more| - 1];
      var all := ledger + init;
      assert ledger + more == all + [last];
      assert all == (all + [last])[..|all|];
      OutputsStay(ledger, init, id);
      SeedSnoc(all, last);
      var k :| 0 <= k < |ledger| && ledger[k].instructionId == id;
      assert (all + [last])[k] == ledger[k] && (all + [last])[|all|] == last;
    }
  }

  /** So the arguments of a step whose producers are finished are settled. */
  lemma ArgsStay(i: Instruction, ledger: seq<Entry>, more: seq<Entry>)
    requires DistinctEntries(ledger + more) && forall n <- i.needs :: n in Ids(ledger)
    requires OwnSourcesNeeded(i)
    ensures AssembledArgs(i, Seed(ledger).outputs) == AssembledArgs(i, Seed(ledger + more).outputs)
  {
    hide ExtractField, Seed, Ids;
    forall param | param in i.argSources
      ensures SourceValue(i.argSources[param], Seed(ledger).outputs) == SourceValue(i.argSources[param], Seed(ledger + more).outputs)
    {
      if i.argSources[param].Output? {
        OutputsStay(ledger, more, i.argSources[param].instructionId);
      }
    }
  }

  predicate OwnSourcesNeeded(i: Instruction) {
    forall param <- i.argSources :: i.argSources[param].Output? ==> i.argSources[param].instructionId in i.needs
  }

  // ---- what a run keeps ----

  /** The producer succeeded, or had already failed when the run began. */
  predicate NeedOk(start: seq<Entry>, ledger: seq<Entry>, n: string) {
    Succeeded(ledger, n) || Failed(start, n)
  }

  /** Instruction `i` may be called now that `before` is recorded, and `c` is its call. */
  predicate JustifiedBy(i: Instruction, d: Deps, start: seq<Entry>, before: seq<Entry>, c: Call) {
    var outputs := Seed(before).outputs;
    && c == Call(i.id, i.tool.name, FinalArgs(d.js, i, outputs))
    && i.id !in Ids(before)
    && (forall n <- i.needs :: n in Ids(before) && NeedOk(start, before, n))
    && (GateOf(i, outputs, d).Allow? || (GateOf(i, outputs, d).NeedsApproval? && i.id in d.approved))
  }

  predicate Justified(s: seq<Instruction>, d: Deps, start: seq<Entry>, before: seq<Entry>, c: Call) {
    exists k :: 0 <= k < |s| && JustifiedBy(s[k], d, start, before, c)
  }

  /** The ledger is the starting one plus an entry for each call of this run, and each call was justified when made. */
  ghost predicate RunInv(s: seq<Instruction>, start: seq<Entry>, m: Machine, d: Deps) {
    && Sound(m.state)
    && |m.state.ledger| == |start| + |m.calls| && m.state.ledger[..|start|] == start
    && forall k :: 0 <= k < |m.calls| ==>
         && m.state.ledger[|start| + k] == EntryOf(m.calls[k], d.answer(k))
         && Justified(s, d, start, m.state.ledger[..|start| + k], m.calls[k])
  }

  /** `x` is a step of the plan that can run now. */
  predicate Runnable(s: seq<Instruction>, start: seq<Entry>, m: Machine, x: Instruction) {
    && x in s && x.id !in m.state.completed
    && forall n <- x.needs :: n in m.state.completed && NeedOk(start, m.state.ledger, n)
  }

  /** `now` continues `was`: the ledger grew. */
  predicate Extends(now: Machine, was: Machine) {
    |was.state.ledger| <= |now.state.ledger| && now.state.ledger[..|was.state.ledger|] == was.state.ledger
  }

  /** `o` is how running `i` ended: a question or a refusal is about `i`, still to run, and about its settled arguments. */
  ghost predicate AskFor(i: Instruction, m: Machine, o: Outcome, d: Deps) {
    || o.Complete? || (o.Blocked? && o.stop.OutOfBudget?)
    || (&& i.id !in m.state.completed && (forall n <- i.needs :: n in m.state.completed)
        && match o
           case Suspend(AwaitingConfirmation, j, _, question) =>
             && j == i && GateOf(i, m.state.outputs, d).NeedsApproval? && i.id !in d.approved
             && question == AskApproval(i.tool.name, i.tool.description, FinalArgs(d.js, i, m.state.outputs))
           case Suspend(AwaitingInfo, j, missing, question) =>
             && j == i && GateOf(i, m.state.outputs, d) == NeedsInfo(missing)
             && question == AskInfo(AskedFor(i, m.state.outputs, missing))
           case Blocked(stop) =>
             stop.Denied? && GateOf(i, m.state.outputs, d) == DenyFatal(stop.why)
           case Complete => true)
  }

  /** A run's stop that is a question or a refusal is some step's. */
  ghost predicate AskOk(s: seq<Instruction>, m: Machine, o: Outcome, d: Deps) {
    o.Suspend? || (o.Blocked? && o.stop.Denied?) ==> exists k :: 0 <= k < |s| && AskFor(s[k], m, o, d)
  }

  /** A halt for a failed producer names one that failed in this run, with a dependent still to run. */
  ghost predicate HaltOk(s: seq<Instruction>, start: seq<Entry>, m: Machine, o: Outcome) {
    o.Blocked? && o.stop.FailedProducer? ==> exists k, n :: 0 <= k < |s| && PendingOn(s[k], start, m, n)
  }

  predicate PendingOn(x: Instruction, start: seq<Entry>, m: Machine, n: string) {
    x.id !in m.state.completed && n in x.needs && n !in Ids(start) && Failed(m.state.ledger, n)
  }

  // ---- one instruction ----

  lemma RecordSound(s: ExecState, e: Entry)
    requires Sound(s) && e.instructionId !in s.completed
    ensures Sound(Recorded(s, e))
  {
    hide Seed, Ids, DistinctEntries;
    SeedFacts(s.ledger);
    SeedSnoc(s.ledger, e);
    DistinctSnoc(s.ledger, e);
  }

  lemma InvokeKeeps(s: seq<Instruction>, start: seq<Entry>, i: Instruction, m: Machine, d: Deps)
    requires RunInv(s, start, m, d) && Runnable(s, start, m, i)
    requires var v := GateOf(i, m.state.outputs, d); v.Allow? || (v.NeedsApproval? && i.id in d.approved)
    ensures var c := Call(i.id, i.tool.name, FinalArgs(d.js, i, m.state.outputs)); RunInv(s, start, Invoked(m, d, c), d)
  {
    hide EvaluateGate, FinalArgs, Seed;
    var c := Call(i.id, i.tool.name, FinalArgs(d.js, i, m.state.outputs));
    var e, after := EntryOf(c, d.answer(|m.calls|)), Invoked(m, d, c);
    RecordSound(m.state, e);
    SeedFacts(m.state.ledger);
    var k :| 0 <= k < |s| && s[k] == i;
    assert JustifiedBy(s[k], d, start, m.state.ledger, c);
    forall q | 0 <= q < |after.calls|
      ensures after.state.ledger[|start| + q] == EntryOf(after.calls[q], d.answer(q))
      ensures Justified(s, d, start, after.state.ledger[..|start| + q], after.calls[q])
    {
      assert after.state.ledger[..|start| + q] == m.state.ledger[..|start| + q];
      assert m.state.ledger[..|m.state.ledger|] == m.state.ledger;
    }
    assert after.state.ledger[..|start|] == start;
  }

  lemma EntryInIds(ledger: seq<Entry>, e: Entry)
    requires e in ledger
    ensures e.instructionId in Ids(ledger)
  {
  }

  /** A finished step is not found in the ledger again. */
  lemma NoPriorCall(m: Machine, i: Instruction, args: Args)
    requires Sound(m.state) && i.id !in m.state.completed
    ensures FindCall(m.state.ledger, i.id, args).None?
  {
    SeedFacts(m.state.ledger);
    var e := FindCall(m.state.ledger, i.id, args);
    if e.Some? {
      EntryInIds(m.state.ledger, e.value);
    }
  }

  lemma MeterIrrelevant(s: seq<Instruction>, start: seq<Entry>, m: Machine, d: Deps, meter: Meter)
    requires RunInv(s, start, m, d)
    ensures RunInv(s, start, m.(meter := meter), d)
  {
  }

  lemma InstructionKeeps(s: seq<Instruction>, start: seq<Entry>, i: Instruction, m: Machine, d: Deps)
    requires RunInv(s, start, m, d) && Runnable(s, start, m, i)
    ensures var r := RunInstruction(i, m, d);
            && RunInv(s, start, r.machine, d) && Extends(r.machine, m)
            && (!r.outcome.Complete? ==> r.machine.state == m.state)
            && AskFor(i, r.machine, r.outcome, d)
  {
    hide EvaluateGate, FinalArgs, Seed, RunInv, FindCall, Ids, Recorded;
    RunSound(s, start, m, d);
    var args := FinalArgs(d.js, i, m.state.outputs);
    NoPriorCall(m, i, args);
    var v := EvaluateGate(i.tool, args, d.gate);
    var (meter, refused) := NoteToolCall(m.meter, d, i.tool.name, args);
    MeterIrrelevant(s, start, m, d, meter);
    if v.Allow? || (v.NeedsApproval? && i.id in d.approved) {
      InvokeKeeps(s, start, i, m.(meter := meter), d);
      RecordLedger(m.state, EntryOf(Call(i.id, i.tool.name, args), d.answer(|m.calls|)));
    }
  }

  lemma RecordLedger(s: ExecState, e: Entry)
    ensures Recorded(s, e).ledger == s.ledger + [e]
  {
  }

  lemma RunSound(s: seq<Instruction>, start: seq<Entry>, m: Machine, d: Deps)
    requires RunInv(s, start, m, d)
    ensures Sound(m.state)
  {
  }

  // ---- waves ----

  lemma SucceededStays(ledger: seq<Entry>, now: seq<Entry>, n: string)
    requires |ledger| <= |now| && now[..|ledger|] == ledger && Succeeded(ledger, n)
    ensures Succeeded(now, n)
  {
    var k :| 0 <= k < |ledger| && ledger[k].instructionId == n && ledger[k].ok;
    assert now[k] == now[..|ledger|][k];
  }

  lemma RunnableStays(s: seq<Instruction>, start: seq<Entry>, m: Machine, now: Machine, x: Instruction)
    requires Runnable(s, start, m, x) && Extends(now, m) && m.state.completed <= now.state.completed && x.id !in now.state.completed
    ensures Runnable(s, start, now, x)
  {
    hide Succeeded, Failed;
    forall n | n in x.needs
      ensures NeedOk(start, now.state.ledger, n)
    {
      assert NeedOk(start, m.state.ledger, n);
      if Succeeded(m.state.ledger, n) {
        SucceededStays(m.state.ledger, now.state.ledger, n);
      }
    }
  }

  /** A question asked during a wave is still the right one when the wave is over. */
  lemma AskStays(i: Instruction, m: Machine, now: Machine, o: Outcome, d: Deps)
    requires OwnSourcesNeeded(i) && Sound(m.state) && Sound(now.state) && Extends(now, m) && AskFor(i, m, o, d)
    requires !o.Complete? && i.id !in m.state.completed ==> i.id !in now.state.completed
    ensures AskFor(i, now, o, d)
  {
    hide EvaluateGate, Coerced, Seed, AssembledArgs, MissingArgs, DistinctEntries;
    if !o.Complete? && i.id !in m.state.completed && forall n <- i.needs :: n in m.state.completed {
      var more := now.state.ledger[|m.state.ledger|..];
      assert now.state.ledger == m.state.ledger + more;
      SeedFacts(m.state.ledger);
      SeedFacts(now.state.ledger);
      ArgsStay(i, m.state.ledger, more);
      MissingIs(i, m.state.outputs);
      MissingIs(i, now.state.outputs);
      assert Ids(m.state.ledger) <= Ids(now.state.ledger);
    }
  }

  lemma MissingIs(i: Instruction, outputs: map<string, Value>)
    ensures MissingArgs(i, outputs) == i.argSources.Keys - AssembledArgs(i, outputs).Keys
  {
  }

  lemma SourcesOwn(s: seq<Instruction>, i: Instruction)
    requires SourcesNeeded(s) && i in s
    ensures OwnSourcesNeeded(i)
  {
    var k :| 0 <= k < |s| && s[k] == i;
  }

  lemma ExtendsTrans(a: Machine, b: Machine, c: Machine)
    requires Extends(b, a) && Extends(c, b)
    ensures Extends(c, a)
  {
    assert a.state.ledger == b.state.ledger[..|a.state.ledger|] == c.state.ledger[..|b.state.ledger|][..|a.state.ledger|];
  }

  ghost predicate AllRunnable(s: seq<Instruction>, start: seq<Entry>, m: Machine, todo: seq<Instruction>) {
    forall k :: 0 <= k < |todo| ==> Runnable(s, start, m, todo[k])
  }

  lemma StepLeavesRunnable(s: seq<Instruction>, start: seq<Entry>, m: Machine, now: Machine, todo: seq<Instruction>, k: nat, rest: seq<Instruction>)
    requires DistinctIds(todo) && AllRunnable(s, start, m, todo) && k < |todo|
    requires Extends(now, m) && m.state.completed <= now.state.completed <= m.state.completed + {todo[k].id}
    requires rest == Without(todo, k)
    ensures DistinctIds(rest) && AllRunnable(s, start, now, rest)
  {
    hide NeedOk;
    forall q | 0 <= q < |rest|
      ensures Runnable(s, start, now, rest[q])
    {
      var p := if q < k then q else q + 1;
      assert rest[q] == todo[p] && todo[p].id != todo[k].id;
      RunnableStays(s, start, m, now, rest[q]);
    }
  }

  /** Each outcome is that of its read. */
  ghost predicate ReadsAsk(todo: seq<Instruction>, m: Machine, outcomes: seq<Outcome>, d: Deps) {
    |outcomes| == |todo| && forall k :: 0 <= k < |todo| ==> AskFor(todo[k], m, outcomes[k], d)
  }

  ghost predicate CompletedOf(todo: seq<Instruction>, was: set<string>, now: set<string>) {
    was <= now && forall x :: x in now ==> x in was || exists k :: 0 <= k < |todo| && todo[k].id == x
  }

  lemma StepCompleted(todo: seq<Instruction>, k: nat, was: set<string>, mid: set<string>, now: set<string>)
    requires k < |todo| && was <= mid <= was + {todo[k].id} && CompletedOf(Without(todo, k), mid, now)
    ensures CompletedOf(todo, was, now)
  {
    var rest := Without(todo, k);
    forall x | x in now && x !in was
      ensures exists q :: 0 <= q < |todo| && todo[q].id == x
    {
      if x !in mid {
        var q :| 0 <= q < |rest| && rest[q].id == x;
        assert rest[q] == todo[if q < k then q else q + 1];
      } else {
        assert todo[k].id == x;
      }
    }
  }

  lemma NotCompleted(todo: seq<Instruction>, k: nat, mid: set<string>, now: set<string>)
    requires DistinctIds(todo) && k < |todo| && todo[k].id !in mid && CompletedOf(Without(todo, k), mid, now)
    ensures todo[k].id !in now
  {
    var rest := Without(todo, k);
    forall q | 0 <= q < |rest|
      ensures rest[q].id != todo[k].id
    {
      assert rest[q] == todo[if q < k then q else q + 1];
    }
  }

  lemma StepAsks(todo: seq<Instruction>, k: nat, m: Machine, outcomes: seq<Outcome>, o: Outcome, d: Deps)
    requires k < |todo| && ReadsAsk(Without(todo, k), m, outcomes, d) && AskFor(todo[k], m, o, d)
    ensures ReadsAsk(todo, m, Spliced(outcomes, k, o), d)
  {
    hide AskFor;
    var rest := Without(todo, k);
    assert forall q :: 0 <= q < |todo| && q != k ==> todo[q] == rest[if q < k then q else q - 1];
  }

  /** All the reads of a wave, in any order. */
  lemma {:induction false} ReadsKeep(s: seq<Instruction>, start: seq<Entry>, todo: seq<Instruction>, m: Machine, d: Deps)
    requires SourcesNeeded(s) && RunInv(s, start, m, d) && DistinctIds(todo) && AllRunnable(s, start, m, todo)
    ensures var r := RunReads(todo, m, d);
            && RunInv(s, start, r.machine, d) && Extends(r.machine, m)
            && CompletedOf(todo, m.state.completed, r.machine.state.completed)
            && ReadsAsk(todo, r.machine, r.outcomes, d)
    decreases |todo|
  {
    hide RunInv, Runnable, AskFor, RunInstruction, SourcesNeeded, Sound, CompletedOf, ReadsAsk, DistinctIds, OwnSourcesNeeded;
    if todo == [] {
      NothingRead(m, d);
    } else {
      var k := d.pick(IdsOf(todo)) % |todo|;
      var t, rest := RunInstruction(todo[k], m, d), Without(todo, k);
      InstructionKeeps(s, start, todo[k], m, d);
      StepLeavesRunnable(s, start, m, t.machine, todo, k, rest);
      ReadsKeep(s, start, rest, t.machine, d);
      var r := RunReads(rest, t.machine, d);
      ExtendsTrans(m, t.machine, r.machine);
      StepCompleted(todo, k, m.state.completed, t.machine.state.completed, r.machine.state.completed);
      RunSound(s, start, t.machine, d);
      RunSound(s, start, r.machine, d);
      RunnableLeft(s, start, m, todo[k]);
      SourcesOwn(s, todo[k]);
      if todo[k].id !in t.machine.state.completed {
        NotCompleted(todo, k, t.machine.state.completed, r.machine.state.completed);
      }
      AskStays(todo[k], t.machine, r.machine, t.outcome, d);
      StepAsks(todo, k, r.machine, r.outcomes, t.outcome, d);
    }
  }

  lemma NothingRead(m: Machine, d: Deps)
    ensures CompletedOf([], m.state.completed, m.state.completed) && ReadsAsk([], m, [], d) && Extends(m, m)
  {
  }

  lemma RunnableLeft(s: seq<Instruction>, start: seq<Entry>, m: Machine, x: Instruction)
    requires Runnable(s, start, m, x)
    ensures x.id !in m.state.completed && x in s
  {
  }

  lemma {:induction false} WritesKeep(s: seq<Instruction>, start: seq<Entry>, todo: seq<Instruction>, m: Machine, d: Deps)
    requires RunInv(s, start, m, d) && DistinctIds(todo) && AllRunnable(s, start, m, todo)
    ensures var r := RunWrites(todo, m, d);
            && RunInv(s, start, r.machine, d) && Extends(r.machine, m)
            && CompletedOf(todo, m.state.completed, r.machine.state.completed)
            && AskOk(s, r.machine, r.outcome, d)
            && (r.outcome.Blocked? ==> r.outcome.stop.OutOfBudget? || r.outcome.stop.Denied?)
    decreases |todo|
  {
    hide RunInv, Runnable, RunInstruction, Sound, CompletedOf, AskOk, DistinctIds;
    NothingRead(m, d);
    if todo == [] {
      NothingAsked(s, m, d);
    } else {
      var t, rest := RunInstruction(todo[0], m, d), todo[1..];
      assert rest == Without(todo, 0);
      InstructionKeeps(s, start, todo[0], m, d);
      RunnableLeft(s, start, m, todo[0]);
      StopIs(s, todo[0], t.machine, t.outcome, d);
      if t.outcome.Complete? {
        StepLeavesRunnable(s, start, m, t.machine, todo, 0, rest);
        WritesKeep(s, start, rest, t.machine, d);
        var r := RunWrites(rest, t.machine, d);
        ExtendsTrans(m, t.machine, r.machine);
        StepCompleted(todo, 0, m.state.completed, t.machine.state.completed, r.machine.state.completed);
      } else {
        Unchanged(todo, m.state.completed);
      }
    }
  }

  lemma NothingAsked(s: seq<Instruction>, m: Machine, d: Deps)
    ensures AskOk(s, m, Complete, d) && forall stop: StopReason :: !stop.Denied? ==> AskOk(s, m, Blocked(stop), d)
    ensures CompletedOf([], m.state.completed, m.state.completed)
  {
  }

  lemma StopIs(s: seq<Instruction>, i: Instruction, m: Machine, o: Outcome, d: Deps)
    requires i in s && AskFor(i, m, o, d)
    ensures AskOk(s, m, o, d) && (o.Blocked? ==> o.stop.OutOfBudget? || o.stop.Denied?)
  {
    hide EvaluateGate, FinalArgs;
    var k :| 0 <= k < |s| && s[k] == i;
  }

  lemma Unchanged(todo: seq<Instruction>, completed: set<string>)
    ensures CompletedOf(todo, completed, completed)
  {
  }

  /** Before a wave, every finished producer of a step still to run succeeded or had failed before this run. */
  ghost predicate WaveReady(s: seq<Instruction>, start: seq<Entry>, m: Machine) {
    forall x, n | x in s && x.id !in m.state.completed && n in x.needs && n in m.state.completed ::
      NeedOk(start, m.state.ledger, n)
  }

  lemma WaveRunnable(s: seq<Instruction>, start: seq<Entry>, m: Machine, e: Effect)
    requires WaveReady(s, start, m) && DistinctIds(s)
    ensures var part := OfEffect(NextWave(s, m.state.completed), e); DistinctIds(part) && AllRunnable(s, start, m, part)
  {
    hide NeedOk;
    var wave := NextWave(s, m.state.completed);
    WaveDistinct(s, m.state.completed);
    EffectDistinct(wave, e);
    var part := OfEffect(wave, e);
    assert forall k :: 0 <= k < |part| ==> part[k] in part;
  }

  /** Writes are still to run once the reads are done. */
  lemma WritesRunnable(s: seq<Instruction>, start: seq<Entry>, m: Machine, now: Machine, readSteps: seq<Instruction>, writeSteps: seq<Instruction>)
    requires DistinctIds(s) && AllRunnable(s, start, m, readSteps) && AllRunnable(s, start, m, writeSteps)
    requires forall x <- readSteps :: x.effect == Reads
    requires forall x <- writeSteps :: x.effect == Writes
    requires Extends(now, m) && CompletedOf(readSteps, m.state.completed, now.state.completed)
    ensures AllRunnable(s, start, now, writeSteps)
  {
    hide NeedOk;
    forall q | 0 <= q < |writeSteps|
      ensures Runnable(s, start, now, writeSteps[q])
    {
      var x := writeSteps[q];
      forall k | 0 <= k < |readSteps|
        ensures readSteps[k].id != x.id
      {
        SameId(s, readSteps[k], x);
        assert readSteps[k] in readSteps && x in writeSteps;
      }
      RunnableStays(s, start, m, now, x);
    }
  }

  lemma SameId(s: seq<Instruction>, a: Instruction, b: Instruction)
    requires DistinctIds(s) && a in s && b in s
    ensures a.id == b.id ==> a == b
  {
  }

  /** A producer finished in a wave that goes on succeeded, if a step still to run needs it. */
  lemma NewProducerOk(s: seq<Instruction>, now: ExecState, wave: seq<Instruction>, x: Instruction, n: string, k: nat)
    requires FailedProducerOf(s, wave, now).None? && k < |wave| && wave[k].id == n
    requires x in s && x.id !in now.completed && n in x.needs && n in Ids(now.ledger)
    ensures Succeeded(now.ledger, n)
  {
    hide Succeeded, Ids;
    assert wave[k] in wave;
    var p :| 0 <= p < |s| && s[p] == x;
    assert HasPendingDependent(s, now.completed, n);
    FoundSucceeded(now.ledger, n);
  }

  /** A wave that goes on leaves no failed producer with a pending dependent. */
  lemma WaveLeavesReady(s: seq<Instruction>, start: seq<Entry>, m: Machine, now: Machine, wave: seq<Instruction>)
    requires WaveReady(s, start, m) && Sound(now.state) && Extends(now, m)
    requires m.state.completed <= now.state.completed
    requires forall x :: x in now.state.completed ==> x in m.state.completed || exists k :: 0 <= k < |wave| && wave[k].id == x
    requires FailedProducerOf(s, wave, now.state).None?
    ensures WaveReady(s, start, now)
  {
    hide Succeeded, Failed, FailedProducerOf, Seed, DistinctEntries;
    SeedFacts(now.state.ledger);
    forall x, n | x in s && x.id !in now.state.completed && n in x.needs && n in now.state.completed
      ensures NeedOk(start, now.state.ledger, n)
    {
      if n in m.state.completed {
        assert NeedOk(start, m.state.ledger, n);
        if Succeeded(m.state.ledger, n) {
          SucceededStays(m.state.ledger, now.state.ledger, n);
        }
      } else {
        var k :| 0 <= k < |wave| && wave[k].id == n;
        NewProducerOk(s, now.state, wave, x, n, k);
      }
    }
  }

  lemma FoundSucceeded(ledger: seq<Entry>, id: string)
    requires id in Ids(ledger)
    ensures FindEntry(ledger, id).Some?
    ensures FindEntry(ledger, id).value.ok ==> Succeeded(ledger, id)
  {
  }

  lemma BothCompleted(wave: seq<Instruction>, was: set<string>, mid: set<string>, now: set<string>)
    requires CompletedOf(OfEffect(wave, Reads), was, mid) && CompletedOf(OfEffect(wave, Writes), mid, now)
    ensures CompletedOf(wave, was, now)
  {
    forall x | x in now && x !in was
      ensures exists k :: 0 <= k < |wave| && wave[k].id == x
    {
      var part := OfEffect(wave, if x in mid then Reads else Writes);
      var k :| 0 <= k < |part| && part[k].id == x;
      assert part[k] in part;
    }
  }

  lemma SomeCompleted(wave: seq<Instruction>, e: Effect, was: set<string>, now: set<string>)
    requires CompletedOf(OfEffect(wave, e), was, now)
    ensures CompletedOf(wave, was, now)
  {
    var part := OfEffect(wave, e);
    forall x | x in now && x !in was
      ensures exists k :: 0 <= k < |wave| && wave[k].id == x
    {
      var k :| 0 <= k < |part| && part[k].id == x;
      assert part[k] in part;
    }
  }

  lemma StopAsks(s: seq<Instruction>, readSteps: seq<Instruction>, m: Machine, outcomes: seq<Outcome>, d: Deps)
    requires ReadsAsk(readSteps, m, outcomes, d) && forall x <- readSteps :: x in s
    ensures AskOk(s, m, FirstStop(outcomes), d)
    ensures var o := FirstStop(outcomes); o.Blocked? ==> o.stop.OutOfBudget? || o.stop.Denied?
  {
    hide AskFor, AskOk;
    NothingAsked(s, m, d);
    NoStop(outcomes);
    if !FirstStop(outcomes).Complete? {
      var k :| 0 <= k < |outcomes| && FirstStop(outcomes) == outcomes[k];
      assert readSteps[k] in readSteps;
      StopIs(s, readSteps[k], m, outcomes[k], d);
    }
  }

  /** A halt names a producer that failed in this very wave. */
  lemma HaltNames(s: seq<Instruction>, start: seq<Entry>, m: Machine, now: Machine, wave: seq<Instruction>)
    requires Ids(start) <= m.state.completed && forall x <- wave :: x.id !in m.state.completed
    requires FailedProducerOf(s, wave, now.state).Some?
    ensures forall capability :: HaltOk(s, start, now, Blocked(FailedProducer(capability)))
  {
    var f := FailedProducerOf(s, wave, now.state).value;
    var e := FindEntry(now.state.ledger, f.id).value;
    var q :| 0 <= q < |now.state.ledger| && now.state.ledger[q] == e;
    assert Failed(now.state.ledger, f.id);
    var k :| 0 <= k < |s| && s[k].id !in now.state.completed && f.id in s[k].needs;
    assert PendingOn(s[k], start, now, f.id);
  }

  lemma NoHalt(s: seq<Instruction>, start: seq<Entry>, m: Machine, o: Outcome)
    requires o.Blocked? ==> o.stop.OutOfBudget? || o.stop.Denied? || o.stop.Stalled?
    ensures HaltOk(s, start, m, o)
  {
  }

  /** The starting ledger's steps are completed. */
  lemma StartCompleted(s: seq<Instruction>, start: seq<Entry>, m: Machine, d: Deps)
    requires RunInv(s, start, m, d)
    ensures Ids(start) <= m.state.completed
  {
    SeedFacts(m.state.ledger);
    forall id | id in Ids(start)
      ensures id in Ids(m.state.ledger)
    {
      var k :| 0 <= k < |start| && start[k].instructionId == id;
      assert m.state.ledger[k] == start[k];
    }
  }

  lemma WaveKeeps(s: seq<Instruction>, start: seq<Entry>, m: Machine, d: Deps)
    requires WellWired(s) && RunInv(s, start, m, d) && WaveReady(s, start, m)
    ensures var wave := NextWave(s, m.state.completed);
            var r := RunWave(s, wave, m, d);
            && RunInv(s, start, r.machine, d) && AskOk(s, r.machine, r.outcome, d) && HaltOk(s, start, r.machine, r.outcome)
            && CompletedOf(wave, m.state.completed, r.machine.state.completed)
            && (r.outcome.Complete? ==> WaveReady(s, start, r.machine))
            && r.outcome != Blocked(Stalled)
  {
    hide RunInv, WaveReady, AskOk, ReadsAsk, Sound, AllRunnable, FailedProducerOf, RunReads, RunWrites, CompletedOf, DistinctIds, Ordered, SourcesNeeded, HaltOk;
    var wave := NextWave(s, m.state.completed);
    var readSteps, writeSteps := OfEffect(wave, Reads), OfEffect(wave, Writes);
    WaveRunnable(s, start, m, Reads);
    WaveRunnable(s, start, m, Writes);
    var r := RunReads(readSteps, m, d);
    ReadsKeep(s, start, readSteps, m, d);
    StopAsks(s, readSteps, r.machine, r.outcomes, d);
    if FirstStop(r.outcomes).Complete? {
      WritesRunnable(s, start, m, r.machine, readSteps, writeSteps);
      WritesKeep(s, start, writeSteps, r.machine, d);
      var w := RunWrites(writeSteps, r.machine, d);
      NoHalt(s, start, w.machine, w.outcome);
      BothCompleted(wave, m.state.completed, r.machine.state.completed, w.machine.state.completed);
      ExtendsTrans(m, r.machine, w.machine);
      RunSound(s, start, w.machine, d);
      NothingAsked(s, w.machine, d);
      CompletedMeans(wave, m.state.completed, w.machine.state.completed);
      if FailedProducerOf(s, wave, w.machine.state).None? {
        WaveLeavesReady(s, start, m, w.machine, wave);
      } else {
        StartCompleted(s, start, m, d);
        HaltNames(s, start, m, w.machine, wave);
      }
    } else {
      NoHalt(s, start, r.machine, FirstStop(r.outcomes));
      SomeCompleted(wave, Reads, m.state.completed, r.machine.state.completed);
    }
  }

  lemma CompletedMeans(todo: seq<Instruction>, was: set<string>, now: set<string>)
    requires CompletedOf(todo, was, now)
    ensures was <= now && forall x :: x in now ==> x in was || exists k :: 0 <= k < |todo| && todo[k].id == x
  {
  }

  // ---- the whole run ----

  function PlanIds(s: seq<Instruction>): set<string> {
    set x <- s :: x.id
  }

  lemma {:induction false} PlanIdsCount(s: seq<Instruction>)
    requires DistinctIds(s)
    ensures |PlanIds(s)| == |s|
  {
    if s != [] {
      var init, last := s[..|s| - 1], s[|s| - 1];
      PlanIdsCount(init);
      assert s == init + [last];
      assert PlanIds(s) == PlanIds(init) + {last.id};
      assert last.id !in PlanIds(init);
    }
  }

  lemma SubsetSize(a: set<string>, b: set<string>)
    requires a <= b
    ensures |a| <= |b| && (|a| == |b| ==> a == b)
  {
    assert b == a + (b - a);
  }

  /** As long as a step of the plan is left, some step can run. */
  lemma NeverStalls(s: seq<Instruction>, completed: set<string>)
    requires WellWired(s) && completed <= PlanIds(s)
    ensures |completed| < |s| ==> NextWave(s, completed) != []
    ensures |completed| >= |s| ==> completed == PlanIds(s)
  {
    PlanIdsCount(s);
    SubsetSize(completed, PlanIds(s));
    if |completed| < |s| {
      var k := FirstLeft(s, completed);
      WaveNotEmpty(s, completed, k);
    }
  }

  lemma FirstLeft(s: seq<Instruction>, completed: set<string>) returns (k: nat)
    requires |completed| < |s| == |PlanIds(s)|
    ensures k < |s| && s[k].id !in completed && forall j :: 0 <= j < k ==> s[j].id in completed
  {
    k := 0;
    while k < |s| && s[k].id in completed
      invariant k <= |s| && forall j :: 0 <= j < k ==> s[j].id in completed
    {
      k := k + 1;
    }
    if k == |s| {
      SubsetSize(PlanIds(s), completed);
      assert false;
    }
  }

  /** A run keeps its invariant, never stalls, takes no more waves than steps are left, and completes only when all steps are. */
  lemma {:induction false} RunKeeps(s: seq<Instruction>, start: seq<Entry>, m: Machine, d: Deps)
    requires WellWired(s) && RunInv(s, start, m, d) && WaveReady(s, start, m) && m.state.completed <= PlanIds(s)
    ensures var r := ExecutePlan(s, m, d);
            && RunInv(s, start, r.machine, d) && AskOk(s, r.machine, r.outcome, d) && HaltOk(s, start, r.machine, r.outcome)
            && r.machine.state.completed <= PlanIds(s)
            && r.outcome != Blocked(Stalled)
            && (r.outcome.Complete? ==> r.machine.state.completed == PlanIds(s))
            && r.waves <= |Remaining(s, m.state.completed)|
    decreases |Remaining(s, m.state.completed)|
  {
    hide RunInv, WaveReady, AskOk, HaltOk, RunWave, WellWired, NextWave, Remaining;
    NeverStalls(s, m.state.completed);
    NothingAsked(s, m, d);
    NoHalt(s, start, m, Complete);
    if |m.state.completed| < |s| {
      var wave := NextWave(s, m.state.completed);
      var w := RunWave(s, wave, m, d);
      WaveKeeps(s, start, m, d);
      WaveInside(s, m.state.completed, w.machine.state.completed);
      SomeLeft(s, m.state.completed);
      if w.outcome.Complete? {
        WaveShrinks(s, m, d);
        RunKeeps(s, start, w.machine, d);
      }
    }
  }

  lemma SomeLeft(s: seq<Instruction>, completed: set<string>)
    requires NextWave(s, completed) != []
    ensures |Remaining(s, completed)| >= 1
  {
    var wave := NextWave(s, completed);
    assert wave[0] in wave;
    assert wave[0].id in Remaining(s, completed);
  }

  lemma WaveInside(s: seq<Instruction>, was: set<string>, now: set<string>)
    requires was <= PlanIds(s) && CompletedOf(NextWave(s, was), was, now)
    ensures now <= PlanIds(s)
  {
    var wave := NextWave(s, was);
    forall x | x in now
      ensures x in PlanIds(s)
    {
      if x !in was {
        var k :| 0 <= k < |wave| && wave[k].id == x;
        assert wave[k] in wave;
      }
    }
  }

  /** The machine at the start of a run over a ledger. */
  function Fresh(ledger: seq<Entry>, meter: Meter): Machine {
    Machine(Seed(ledger), meter, [])
  }

  lemma FreshStarts(s: seq<Instruction>, start: seq<Entry>, meter: Meter, d: Deps)
    requires DistinctEntries(start) && Ids(start) <= PlanIds(s)
    ensures RunInv(s, start, Fresh(start, meter), d) && WaveReady(s, start, Fresh(start, meter))
    ensures Fresh(start, meter).state.completed <= PlanIds(s)
  {
    hide Seed;
    SeedFacts(start);
    forall n | n in Ids(start)
      ensures NeedOk(start, start, n)
    {
      var k :| 0 <= k < |start| && start[k].instructionId == n;
      assert start[k].ok ==> Succeeded(start, n);
    }
  }
}
