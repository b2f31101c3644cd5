/** In which order a wave runs its steps, and where it stops. */
module WaveOrder {
  import opened Wrappers
  import opened ToolSchema
  import opened Gates
  import opened Plans
  import opened Resolver
  import opened Execution

  // ---- reads before writes, in plan order ----

  lemma {:induction false} FirstStopIs(outcomes: seq<Outcome>, k: nat)
    requires k < |outcomes| && !outcomes[k].Complete? && forall j :: 0 <= j < k ==> outcomes[j].Complete?
    ensures FirstStop(outcomes) == outcomes[k]
  {
    if k > 0 {
      FirstStopIs(outcomes[1..], k - 1);
    }
  }

  /** If a read of the wave does not complete, no write is run, and the first such read in plan order says why. */
  lemma ReadStopsWave(s: seq<Instruction>, wave: seq<Instruction>, m: Machine, d: Deps, k: nat)
    requires var outcomes := RunReads(OfEffect(wave, Reads), m, d).outcomes;
             k < |outcomes| && !outcomes[k].Complete? && forall j :: 0 <= j < k ==> outcomes[j].Complete?
    ensures var r := RunReads(OfEffect(wave, Reads), m, d); RunWave(s, wave, m, d) == Execution.Step(r.machine, r.outcomes[k])
  {
    hide RunReads;
    FirstStopIs(RunReads(OfEffect(wave, Reads), m, d).outcomes, k);
  }

  /** The machine after the first `n` writes, run one after another. */
  function AfterWrites(writeSteps: seq<Instruction>, n: nat, m: Machine, d: Deps): Machine
    requires n <= |writeSteps|
  {
    if n == 0 then m else RunInstruction(writeSteps[n - 1], AfterWrites(writeSteps, n - 1, m, d), d).machine
  }

  /** All of the first `n` writes complete. */
  predicate WritesGoOn(writeSteps: seq<Instruction>, n: nat, m: Machine, d: Deps)
    requires n <= |writeSteps|
  {
    forall j :: 0 <= j < n ==> RunInstruction(writeSteps[j], AfterWrites(writeSteps, j, m, d), d).outcome.Complete?
  }

  lemma {:induction false} WritesShift(writeSteps: seq<Instruction>, n: nat, m: Machine, d: Deps)
    requires 1 <= n <= |writeSteps|
    ensures AfterWrites(writeSteps, n, m, d) == AfterWrites(writeSteps[1..], n - 1, RunInstruction(writeSteps[0], m, d).machine, d)
  {
    hide RunInstruction;
    if n > 1 {
      WritesShift(writeSteps, n - 1, m, d);
      assert writeSteps[1..][n - 2] == writeSteps[n - 1];
    }
  }

  /** Writes run in plan order, each where the last one left off, up to the first that does not complete, and none after it. */
  lemma {:induction false} WritesInOrder(writeSteps: seq<Instruction>, n: nat, m: Machine, d: Deps)
    requires n <= |writeSteps| && WritesGoOn(writeSteps, n, m, d)
    ensures n == |writeSteps| ==> RunWrites(writeSteps, m, d) == Execution.Step(AfterWrites(writeSteps, n, m, d), Complete)
    ensures n < |writeSteps| && !RunInstruction(writeSteps[n], AfterWrites(writeSteps, n, m, d), d).outcome.Complete? ==>
              RunWrites(writeSteps, m, d) == RunInstruction(writeSteps[n], AfterWrites(writeSteps, n, m, d), d)
    decreases |writeSteps|
  {
    hide RunInstruction;
    if n > 0 {
      assert RunInstruction(writeSteps[0], AfterWrites(writeSteps, 0, m, d), d).outcome.Complete?;
      var rest, now := writeSteps[1..], RunInstruction(writeSteps[0], m, d).machine;
      forall j | 0 <= j < n - 1
        ensures RunInstruction(rest[j], AfterWrites(rest, j, now, d), d).outcome.Complete?
      {
        WritesShift(writeSteps, j + 1, m, d);
        assert RunInstruction(writeSteps[j + 1], AfterWrites(writeSteps, j + 1, m, d), d).outcome.Complete?;
      }
      WritesInOrder(rest, n - 1, now, d);
      WritesShift(writeSteps, n, m, d);
    }
  }

  // ---- a finished call is not repeated ----

  /** Entry `k` is the first of this very call. */
  predicate FirstEntry(ledger: seq<Entry>, k: nat, id: string, args: Args) {
    && k < |ledger| && ledger[k].instructionId == id && ledger[k].argsHash == args
    && forall j :: 0 <= j < k ==> !(ledger[j].instructionId == id && ledger[j].argsHash == args)
  }

  lemma {:induction false} FoundFirst(ledger: seq<Entry>, k: nat, id: string, args: Args)
    requires FirstEntry(ledger, k, id, args)
    ensures FindCall(ledger, id, args) == Some(ledger[k])
  {
    if k > 0 {
      assert forall j :: 1 <= j < |ledger| ==> ledger[1..][j - 1] == ledger[j];
      FoundFirst(ledger[1..], k - 1, id, args);
    }
  }

  lemma {:induction false} FoundNone(ledger: seq<Entry>, id: string, args: Args)
    requires forall j :: 0 <= j < |ledger| ==> !(ledger[j].instructionId == id && ledger[j].argsHash == args)
    ensures FindCall(ledger, id, args).None?
  {
    if ledger != [] {
      assert forall j :: 1 <= j < |ledger| ==> ledger[1..][j - 1] == ledger[j];
      FoundNone(ledger[1..], id, args);
    }
  }

  /** If the ledger's first entry of a call is a success, its result is used again: nothing is called, counted or recorded. */
  lemma NotRepeated(i: Instruction, args: Args, m: Machine, d: Deps, k: nat)
    requires FirstEntry(m.state.ledger, k, i.id, args) && m.state.ledger[k].ok
    ensures var r := InvokeStep(i, args, m, d);
            && r.outcome == Complete && r.machine.calls == m.calls && r.machine.meter == m.meter
            && r.machine.state == m.state.(completed := m.state.completed + {i.id}, outputs := m.state.outputs[i.id := m.state.ledger[k].result])
  {
    FoundFirst(m.state.ledger, k, i.id, args);
  }

  /** Otherwise it is made, if the budget allows, and recorded as it came out. */
  lemma MadeOnce(i: Instruction, args: Args, m: Machine, d: Deps)
    requires forall k: nat :: FirstEntry(m.state.ledger, k, i.id, args) ==> !m.state.ledger[k].ok
    requires NoteToolCall(m.meter, d, i.tool.name, args).1.None?
    ensures var r, answer := InvokeStep(i, args, m, d), d.answer(|m.calls|);
            && r.outcome == Complete && r.machine.calls == m.calls + [Call(i.id, i.tool.name, args)]
            && r.machine.state.ledger
               == m.state.ledger + [Entry(i.id, args, answer.ok, if answer.ok then answer.data else answer.error, i.tool.name, answer.durationMs)]
            && r.machine.state.completed == m.state.completed + {i.id}
            && r.machine.state.outputs == if answer.ok then m.state.outputs[i.id := answer.data] else m.state.outputs
  {
    hide NoteToolCall;
    FirstOrNone(m.state.ledger, i.id, args);
  }

  lemma {:induction false} FirstOrNone(ledger: seq<Entry>, id: string, args: Args)
    ensures FindCall(ledger, id, args).Some? ==> exists k: nat :: FirstEntry(ledger, k, id, args) && ledger[k] == FindCall(ledger, id, args).value
  {
    if ledger != [] && FindCall(ledger, id, args).Some? {
      if ledger[0].instructionId == id && ledger[0].argsHash == args {
        assert FirstEntry(ledger, 0, id, args);
      } else {
        FirstOrNone(ledger[1..], id, args);
        var k: nat :| FirstEntry(ledger[1..], k, id, args) && ledger[1..][k] == FindCall(ledger[1..], id, args).value;
        assert forall j :: 1 <= j < |ledger| ==> ledger[1..][j - 1] == ledger[j];
        assert FirstEntry(ledger, k + 1, id, args);
      }
    }
  }
}
