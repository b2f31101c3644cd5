/** When the loop protection stays out of the way: a budget with room for the plan never stops it. */
module BudgetRoom {
  import opened Wrappers
  import opened ToolSchema
  import opened Gates
  import opened Plans
  import opened Resolver
  import opened Execution
  import opened PlanRuns
  import opened PlanTheorems
  import opened Budgets

  /** The meter has counted the calls made, and nothing else. */
  ghost predicate Exact(m: Machine) {
    m.meter.toolCalls == |m.calls| && forall key :: SeenTimes(m.meter, key) == Times(m.calls, key)
  }

  /** No three steps use the same tool. */
  predicate ToolsVary(s: seq<Instruction>) {
    forall i, j, k :: 0 <= i < j < k < |s| ==> !(s[i].tool.name == s[j].tool.name == s[k].tool.name)
  }

  /** The budget has room for every step left, and time for them. */
  ghost predicate Room(s: seq<Instruction>, start: seq<Entry>, d: Deps) {
    && ToolsVary(s) && |s| - |start| <= d.maxToolCalls
    && forall n: nat :: n <= |s| - |start| ==> !d.late(n)
  }

  /** A call is refused exactly when it is one too many, the third of its kind, or too late; the first reason counts. */
  lemma NotedIff(m: Machine, d: Deps, toolName: string, args: Args)
    requires Exact(m)
    ensures var (meter, refused) := NoteToolCall(m.meter, d, toolName, args);
            && (refused == Some(TooManyCalls) <==> |m.calls| >= d.maxToolCalls)
            && (refused == Some(NoProgress) <==> |m.calls| < d.maxToolCalls && Times(m.calls, (toolName, args)) >= 2)
            && (refused == Some(TooLate) <==>
                  |m.calls| < d.maxToolCalls && Times(m.calls, (toolName, args)) < 2 && d.late(|m.calls| + 1))
            && (refused.None? <==> |m.calls| < d.maxToolCalls && Times(m.calls, (toolName, args)) < 2 && !d.late(|m.calls| + 1))
  {
    assert SeenTimes(m.meter, (toolName, args)) == Times(m.calls, (toolName, args));
  }

  /** A call let through is counted once. */
  lemma CountedOnce(m: Machine, d: Deps, c: Call)
    requires Exact(m) && NoteToolCall(m.meter, d, c.toolName, c.args).1.None?
    ensures Exact(Invoked(m.(meter := NoteToolCall(m.meter, d, c.toolName, c.args).0), d, c))
  {
    hide Recorded;
    assert (m.calls + [c])[..|m.calls|] == m.calls;
    forall key
      ensures SeenTimes(NoteToolCall(m.meter, d, c.toolName, c.args).0, key) == Times(m.calls + [c], key)
    {
      assert SeenTimes(m.meter, key) == Times(m.calls, key);
    }
  }

  /** Two calls of a kind. */
  lemma {:induction false} TwoOf(calls: seq<Call>, key: (string, Args)) returns (p: nat, q: nat)
    requires Times(calls, key) >= 2
    ensures p < q < |calls| && calls[p].toolName == calls[q].toolName == key.0
  {
    var init, last := calls[..|calls| - 1], calls[|calls| - 1];
    if (last.toolName, last.args) == key {
      p := OneOf(init, key);
      q := |init|;
    } else {
      p, q := TwoOf(init, key);
    }
  }

  lemma {:induction false} OneOf(calls: seq<Call>, key: (string, Args)) returns (p: nat)
    requires Times(calls, key) >= 1
    ensures p < |calls| && calls[p].toolName == key.0
  {
    var init, last := calls[..|calls| - 1], calls[|calls| - 1];
    if (last.toolName, last.args) == key {
      p := |init|;
    } else {
      p := OneOf(init, key);
    }
  }

  /** The step that made a call. */
  lemma CallerOf(s: seq<Instruction>, start: seq<Entry>, m: Machine, d: Deps, k: nat) returns (p: nat)
    requires RunInv(s, start, m, d) && k < |m.calls|
    ensures p < |s| && s[p].id == m.calls[k].instructionId && s[p].tool.name == m.calls[k].toolName
    ensures |start| + k < |m.state.ledger| && m.state.ledger[|start| + k].instructionId == s[p].id
  {
    hide EvaluateGate, FinalArgs, Seed;
    assert Justified(s, d, start, m.state.ledger[..|start| + k], m.calls[k]);
    p :| 0 <= p < |s| && JustifiedBy(s[p], d, start, m.state.ledger[..|start| + k], m.calls[k]);
  }

  lemma LedgerInPlan(s: seq<Instruction>, start: seq<Entry>, m: Machine, d: Deps)
    requires Startable(s, start) && RunInv(s, start, m, d)
    ensures Ids(m.state.ledger) <= PlanIds(s)
  {
    hide RunInv;
    RunGrew(s, start, m, d);
    var ledger := m.state.ledger;
    forall id | id in Ids(ledger)
      ensures id in PlanIds(s)
    {
      var k :| 0 <= k < |ledger| && ledger[k].instructionId == id;
      if k < |start| {
        assert ledger[..|start|][k] in start;
      } else {
        RunCounts(s, start, m, d);
        var p := CallerOf(s, start, m, d, k - |start|);
        assert s[p] in s;
      }
    }
  }

  lemma RunCounts(s: seq<Instruction>, start: seq<Entry>, m: Machine, d: Deps)
    requires RunInv(s, start, m, d)
    ensures |m.state.ledger| == |start| + |m.calls| && DistinctEntries(m.state.ledger) && m.state.completed == Ids(m.state.ledger)
  {
    SeedFacts(m.state.ledger);
  }

  /** There is room for one more call than were made. */
  lemma RoomLeft(s: seq<Instruction>, start: seq<Entry>, m: Machine, d: Deps, i: Instruction)
    requires Startable(s, start) && RunInv(s, start, m, d) && i in s && i.id !in m.state.completed
    ensures |m.calls| + 1 <= |s| - |start|
  {
    hide RunInv, Ids, PlanIds, Startable;
    LedgerInPlan(s, start, m, d);
    RunCounts(s, start, m, d);
    IdsCount(m.state.ledger);
    StartDistinct(s, start);
    PlanIdsCount(s);
    IdOf(s, i);
    SubsetSize(Ids(m.state.ledger) + {i.id}, PlanIds(s));
  }

  /** A tool that at most one other step uses was called at most once before. */
  lemma CalledBefore(s: seq<Instruction>, start: seq<Entry>, m: Machine, d: Deps, i: Instruction, args: Args)
    requires Startable(s, start) && RunInv(s, start, m, d) && ToolsVary(s) && i in s && i.id !in m.state.completed
    ensures Times(m.calls, (i.tool.name, args)) < 2
  {
    hide RunInv, Times, Startable;
    if Times(m.calls, (i.tool.name, args)) >= 2 {
      var p, q := TwoOf(m.calls, (i.tool.name, args));
      var a := CallerOf(s, start, m, d, p);
      var b := CallerOf(s, start, m, d, q);
      RunCounts(s, start, m, d);
      var c :| 0 <= c < |s| && s[c] == i;
      assert false;
    }
  }

  // ---- no step is refused ----

  predicate Refused(o: Outcome) {
    o.Blocked? && o.stop.OutOfBudget?
  }

  lemma StepFits(s: seq<Instruction>, start: seq<Entry>, i: Instruction, m: Machine, d: Deps)
    requires Startable(s, start) && Room(s, start, d) && RunInv(s, start, m, d) && Runnable(s, start, m, i) && Exact(m)
    ensures Exact(RunInstruction(i, m, d).machine) && !Refused(RunInstruction(i, m, d).outcome)
  {
    hide EvaluateGate, FinalArgs, Seed, RunInv, FindCall, Recorded, Startable, Exact, NoteToolCall, Invoked;
    var args := FinalArgs(d.js, i, m.state.outputs);
    RunSound(s, start, m, d);
    NoPriorCall(m, i, args);
    RoomLeft(s, start, m, d, i);
    CalledBefore(s, start, m, d, i, args);
    NotedIff(m, d, i.tool.name, args);
    assert NoteToolCall(m.meter, d, i.tool.name, args).1.None?;
    CountedOnce(m, d, Call(i.id, i.tool.name, args));
    StepIs(i, m, d);
  }

  /** What running a step comes to when no entry and no budget is in the way. */
  lemma StepIs(i: Instruction, m: Machine, d: Deps)
    requires var args := FinalArgs(d.js, i, m.state.outputs);
             FindCall(m.state.ledger, i.id, args).None? && NoteToolCall(m.meter, d, i.tool.name, args).1.None?
    ensures var args, r := FinalArgs(d.js, i, m.state.outputs), RunInstruction(i, m, d);
            if r.outcome.Complete?
            then r.machine == Invoked(m.(meter := NoteToolCall(m.meter, d, i.tool.name, args).0), d, Call(i.id, i.tool.name, args))
            else r.machine == m && !Refused(r.outcome)
  {
    hide EvaluateGate, FinalArgs, Recorded, FindCall, NoteToolCall;
  }

  lemma {:induction false} ReadsFit(s: seq<Instruction>, start: seq<Entry>, todo: seq<Instruction>, m: Machine, d: Deps)
    requires Startable(s, start) && Room(s, start, d) && RunInv(s, start, m, d) && DistinctIds(todo) && AllRunnable(s, start, m, todo) && Exact(m)
    ensures var r := RunReads(todo, m, d);
            Exact(r.machine) && forall k :: 0 <= k < |r.outcomes| ==> !Refused(r.outcomes[k])
    decreases |todo|
  {
    hide RunInv, Runnable, RunInstruction, Sound, DistinctIds, Startable, Exact, Room;
    if todo != [] {
      var k := d.pick(IdsOf(todo)) % |todo|;
      var t, rest := RunInstruction(todo[k], m, d), Without(todo, k);
      StepFits(s, start, todo[k], m, d);
      InstructionKeeps(s, start, todo[k], m, d);
      StepLeavesRunnable(s, start, m, t.machine, todo, k, rest);
      ReadsFit(s, start, rest, t.machine, d);
    }
  }

  lemma {:induction false} WritesFit(s: seq<Instruction>, start: seq<Entry>, todo: seq<Instruction>, m: Machine, d: Deps)
    requires Startable(s, start) && Room(s, start, d) && RunInv(s, start, m, d) && DistinctIds(todo) && AllRunnable(s, start, m, todo) && Exact(m)
    ensures Exact(RunWrites(todo, m, d).machine) && !Refused(RunWrites(todo, m, d).outcome)
    decreases |todo|
  {
    hide RunInv, Runnable, RunInstruction, Sound, DistinctIds, Startable, Exact, Room;
    if todo != [] {
      var t, rest := RunInstruction(todo[0], m, d), todo[1..];
      assert rest == Without(todo, 0);
      StepFits(s, start, todo[0], m, d);
      InstructionKeeps(s, start, todo[0], m, d);
      if t.outcome.Complete? {
        StepLeavesRunnable(s, start, m, t.machine, todo, 0, rest);
        WritesFit(s, start, rest, t.machine, d);
      }
    }
  }

  lemma WaveFits(s: seq<Instruction>, start: seq<Entry>, m: Machine, d: Deps)
    requires Startable(s, start) && Room(s, start, d) && RunInv(s, start, m, d) && WaveReady(s, start, m) && Exact(m)
    ensures var w := RunWave(s, NextWave(s, m.state.completed), m, d); Exact(w.machine) && !Refused(w.outcome)
  {
    hide RunInv, WaveReady, AllRunnable, FailedProducerOf, RunReads, RunWrites, Exact, Room, CompletedOf, ReadsAsk, Sound;
    var wave := NextWave(s, m.state.completed);
    var readSteps, writeSteps := OfEffect(wave, Reads), OfEffect(wave, Writes);
    WaveRunnable(s, start, m, Reads);
    WaveRunnable(s, start, m, Writes);
    ReadsFit(s, start, readSteps, m, d);
    ReadsKeep(s, start, readSteps, m, d);
    var r := RunReads(readSteps, m, d);
    NoStop(r.outcomes);
    WritesRunnable(s, start, m, r.machine, readSteps, writeSteps);
    WritesFit(s, start, writeSteps, r.machine, d);
  }

  lemma {:induction false} RunFits(s: seq<Instruction>, start: seq<Entry>, m: Machine, d: Deps)
    requires Startable(s, start) && Room(s, start, d) && RunInv(s, start, m, d) && WaveReady(s, start, m) && Exact(m)
    ensures Exact(ExecutePlan(s, m, d).machine) && !Refused(ExecutePlan(s, m, d).outcome)
    decreases |Remaining(s, m.state.completed)|
  {
    hide RunInv, WaveReady, RunWave, Exact, Room, AskOk, HaltOk, CompletedOf, Remaining, Ordered, SourcesNeeded;
    var wave := NextWave(s, m.state.completed);
    if |m.state.completed| < |s| && wave != [] {
      var w := RunWave(s, wave, m, d);
      WaveFits(s, start, m, d);
      WaveKeeps(s, start, m, d);
      if w.outcome.Complete? {
        WaveShrinks(s, m, d);
        RunFits(s, start, w.machine, d);
      }
    }
  }

  /** With room for the steps left, no three of them on one tool, and in time, the budget stops nothing and counts exactly the calls made. */
  lemma BudgetSuffices(s: seq<Instruction>, start: seq<Entry>, d: Deps)
    requires Startable(s, start) && Room(s, start, d)
    ensures var r := ExecutePlan(s, Fresh(start, Meter(0, map[])), d); !Refused(r.outcome) && r.machine.meter.toolCalls == |r.machine.calls|
  {
    hide ExecutePlan, RunInv, WaveReady, Room;
    FreshStarts(s, start, Meter(0, map[]), d);
    RunFits(s, start, Fresh(start, Meter(0, map[])), d);
  }
}
