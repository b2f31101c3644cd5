/**
 A plan parked and resumed against the same plan run at one go with the approval or the answer at hand
 from the start. Tools answer a call by its contents here, so that the two can be compared.
 */
module Interruptions {
  import opened Wrappers
  import opened ToolSchema
  import opened Gates
  import opened Plans
  import opened Resolver
  import opened Execution
  import opened PlanRuns
  import opened PlanTheorems
  import opened Resume

  /** What a run happens in: its gate, the approvals given, and what each call returns. */
  datatype Setting = Setting(js: Js, gate: GateContext, approved: set<string>, tool: Call -> InvokeResult)

  function CallIn(t: Setting, i: Instruction, ledger: seq<Entry>): Call {
    Call(i.id, i.tool.name, FinalArgs(t.js, i, Seed(ledger).outputs))
  }

  function EntryIn(t: Setting, i: Instruction, ledger: seq<Entry>): Entry {
    EntryOf(CallIn(t, i, ledger), t.tool(CallIn(t, i, ledger)))
  }

  /** The gate lets step `i` through. */
  predicate PassesIn(t: Setting, i: Instruction, ledger: seq<Entry>) {
    var v := EvaluateGate(i.tool, CallIn(t, i, ledger).args, t.gate);
    v.Allow? || (v.NeedsApproval? && i.id in t.approved)
  }

  /** These calls were made in this setting. */
  ghost predicate RunsIn(t: Setting, d: Deps, calls: seq<Call>) {
    && d.js == t.js && d.gate == t.gate && d.approved == t.approved
    && forall q :: 0 <= q < |calls| ==> d.answer(q) == t.tool(calls[q])
  }

  // ---- what a ledger tells of the runs that made it ----

  /** Step `i` was called after all it needs, past its gate, and has the entry that its call gives. */
  predicate StepTraced(t: Setting, i: Instruction, ledger: seq<Entry>) {
    (forall n <- i.needs :: n in Ids(ledger)) && EntryIn(t, i, ledger) in ledger && PassesIn(t, i, ledger)
  }

  predicate Added(i: Instruction, start: seq<Entry>, ledger: seq<Entry>) {
    i.id in Ids(ledger) && i.id !in Ids(start)
  }

  predicate Continues(start: seq<Entry>, ledger: seq<Entry>) {
    |start| <= |ledger| && ledger[..|start|] == start
  }

  /** The entries after `start` are those of steps of the plan, called in this setting. */
  ghost predicate Traced(t: Setting, s: seq<Instruction>, start: seq<Entry>, ledger: seq<Entry>) {
    && Startable(s, ledger) && Continues(start, ledger)
    && forall i <- s :: Added(i, start, ledger) ==> StepTraced(t, i, ledger)
  }

  /** No step was called after a producer of its failed, unless that was before `start`. */
  ghost predicate Heeded(s: seq<Instruction>, start: seq<Entry>, ledger: seq<Entry>) {
    forall i <- s :: Added(i, start, ledger) ==> forall n <- i.needs :: NeedOk(start, ledger, n)
  }

  lemma IdsOver(start: seq<Entry>, ledger: seq<Entry>)
    requires Continues(start, ledger)
    ensures Ids(start) <= Ids(ledger)
  {
    forall id | id in Ids(start)
      ensures id in Ids(ledger)
    {
      var k :| 0 <= k < |start| && start[k].instructionId == id;
      assert ledger[k] == start[k];
    }
  }

  /** Later entries change nothing for a step that has all it needs. */
  lemma CallStays(t: Setting, i: Instruction, before: seq<Entry>, ledger: seq<Entry>)
    requires Continues(before, ledger) && DistinctEntries(ledger) && OwnSourcesNeeded(i) && forall n <- i.needs :: n in Ids(before)
    ensures CallIn(t, i, ledger) == CallIn(t, i, before)
  {
    hide Seed, AssembledArgs, Coerced;
    assert ledger == before + ledger[|before|..];
    ArgsStay(i, before, ledger[|before|..]);
  }

  lemma OwnSources(s: seq<Instruction>, i: Instruction)
    requires WellWired(s) && i in s
    ensures OwnSourcesNeeded(i)
  {
  }

  lemma CallOfStep(s: seq<Instruction>, start: seq<Entry>, m: Machine, d: Deps, i: Instruction) returns (q: nat)
    requires Startable(s, start) && RunInv(s, start, m, d) && i in s && Added(i, start, m.state.ledger)
    ensures q < |m.calls| && |start| + q < |m.state.ledger| && m.state.ledger[|start| + q] == EntryOf(m.calls[q], d.answer(q))
    ensures JustifiedBy(i, d, start, m.state.ledger[..|start| + q], m.calls[q])
  {
    hide Seed, JustifiedBy, WellWired;
    var ledger := m.state.ledger;
    var p :| 0 <= p < |ledger| && ledger[p].instructionId == i.id;
    q := p - |start|;
    var k :| 0 <= k < |s| && JustifiedBy(s[k], d, start, ledger[..|start| + q], m.calls[q]);
    StartDistinct(s, start);
    JustifiedId(s[k], d, start, ledger[..|start| + q], m.calls[q]);
    SameId(s, i, s[k]);
  }

  lemma JustifiedId(i: Instruction, d: Deps, start: seq<Entry>, before: seq<Entry>, c: Call)
    requires JustifiedBy(i, d, start, before, c)
    ensures c.instructionId == i.id
  {
  }

  lemma StepOfRun(t: Setting, s: seq<Instruction>, start: seq<Entry>, m: Machine, d: Deps, i: Instruction)
    requires Startable(s, start) && RunInv(s, start, m, d) && RunsIn(t, d, m.calls) && i in s && Added(i, start, m.state.ledger)
    ensures StepTraced(t, i, m.state.ledger) && forall n <- i.needs :: NeedOk(start, m.state.ledger, n)
  {
    hide Seed, EvaluateGate, FinalArgs, RunInv, Startable, OwnSourcesNeeded, Succeeded;
    var q := CallOfStep(s, start, m, d, i);
    var ledger := m.state.ledger;
    var before := ledger[..|start| + q];
    RunGrew(s, start, m, d);
    OwnSources(s, i) by { StartWired(s, start); }
    CallStays(t, i, before, ledger);
    IdsOver(before, ledger);
    forall n | n in i.needs
      ensures NeedOk(start, ledger, n)
    {
      if Succeeded(before, n) {
        SucceededStays(before, ledger, n);
      }
    }
  }

  lemma StartWired(s: seq<Instruction>, start: seq<Entry>)
    requires Startable(s, start)
    ensures WellWired(s)
  {
  }

  /** A run's ledger is traced to its plan. */
  lemma RunTraced(t: Setting, s: seq<Instruction>, start: seq<Entry>, meter: Meter, d: Deps)
    requires Startable(s, start) && RunsIn(t, d, ExecutePlan(s, Fresh(start, meter), d).machine.calls)
    ensures var ledger := ExecutePlan(s, Fresh(start, meter), d).machine.state.ledger;
            Traced(t, s, start, ledger) && Heeded(s, start, ledger)
  {
    hide ExecutePlan, RunInv, AskOk, HaltOk, RunsIn, Startable, StepTraced, NeedOk, Added;
    RunHolds(s, start, meter, d);
    EndsStartable(s, start, meter, d);
    var m := ExecutePlan(s, Fresh(start, meter), d).machine;
    RunGrew(s, start, m, d);
    forall i | i in s && Added(i, start, m.state.ledger)
      ensures StepTraced(t, i, m.state.ledger) && forall n <- i.needs :: NeedOk(start, m.state.ledger, n)
    {
      StepOfRun(t, s, start, m, d, i);
    }
  }

  // ---- how a run ends ----

  /** Step `i` is held up: its gate does not let it through, or a producer of its failed after `start`. */
  ghost predicate HeldUp(t: Setting, i: Instruction, start: seq<Entry>, ledger: seq<Entry>) {
    && i.id !in Ids(ledger)
    && (|| ((forall n <- i.needs :: n in Ids(ledger)) && !PassesIn(t, i, ledger))
        || exists n <- i.needs :: n !in Ids(start) && Failed(ledger, n))
  }

  ghost predicate StopsAt(t: Setting, s: seq<Instruction>, start: seq<Entry>, ledger: seq<Entry>) {
    exists k :: 0 <= k < |s| && HeldUp(t, s[k], start, ledger)
  }

  /** Budgets aside, a run that does not complete is held up. */
  lemma RunStops(t: Setting, s: seq<Instruction>, start: seq<Entry>, meter: Meter, d: Deps)
    requires Startable(s, start) && RunsIn(t, d, ExecutePlan(s, Fresh(start, meter), d).machine.calls)
    requires var o := ExecutePlan(s, Fresh(start, meter), d).outcome; !(o.Blocked? && o.stop.OutOfBudget?)
    ensures var r := ExecutePlan(s, Fresh(start, meter), d);
            if r.outcome.Complete? then Ids(r.machine.state.ledger) == PlanIds(s) else StopsAt(t, s, start, r.machine.state.ledger)
  {
    hide ExecutePlan, RunInv, Startable, Failed, EvaluateGate, FinalArgs, Seed;
    RunHolds(s, start, meter, d);
    RunEnds(s, start, meter, d);
    var r := ExecutePlan(s, Fresh(start, meter), d);
    RunSound(s, start, r.machine, d);
    SeedFacts(r.machine.state.ledger);
    if r.outcome.Suspend? || (r.outcome.Blocked? && r.outcome.stop.Denied?) {
      var k :| 0 <= k < |s| && AskFor(s[k], r.machine, r.outcome, d);
      assert HeldUp(t, s[k], start, r.machine.state.ledger);
    } else if r.outcome.Blocked? {
      var k, n :| 0 <= k < |s| && PendingOn(s[k], start, r.machine, n);
      assert HeldUp(t, s[k], start, r.machine.state.ledger);
    }
  }

  // ---- two ledgers of one plan ----

  predicate AgreeOn(id: string, a: seq<Entry>, b: seq<Entry>) {
    forall e, f :: e in a && f in b && e.instructionId == f.instructionId == id ==> e == f
  }

  lemma SameOutput(id: string, a: seq<Entry>, b: seq<Entry>)
    requires DistinctEntries(a) && DistinctEntries(b) && id in Ids(a) && id in Ids(b) && AgreeOn(id, a, b)
    ensures var x, y := Seed(a).outputs, Seed(b).outputs; (id in x <==> id in y) && (id in x ==> x[id] == y[id])
  {
    hide Seed;
    var j :| 0 <= j < |a| && a[j].instructionId == id;
    var k :| 0 <= k < |b| && b[k].instructionId == id;
    SeedOutputs(a, j);
    SeedOutputs(b, k);
  }

  /** A step whose producers agree makes the same call. */
  lemma SameCallIn(t: Setting, u: Setting, i: Instruction, a: seq<Entry>, b: seq<Entry>)
    requires t.js == u.js && OwnSourcesNeeded(i) && DistinctEntries(a) && DistinctEntries(b)
    requires forall n <- i.needs :: n in Ids(a) && n in Ids(b) && AgreeOn(n, a, b)
    ensures CallIn(t, i, a) == CallIn(u, i, b)
  {
    hide ExtractField, Seed, Ids, Coerced, AgreeOn, DistinctEntries;
    forall param | param in i.argSources
      ensures SourceValue(i.argSources[param], Seed(a).outputs) == SourceValue(i.argSources[param], Seed(b).outputs)
    {
      if i.argSources[param].Output? {
        SameOutput(i.argSources[param].instructionId, a, b);
      }
    }
    assert AssembledArgs(i, Seed(a).outputs) == AssembledArgs(i, Seed(b).outputs);
  }

  lemma OneEntry(ledger: seq<Entry>, e: Entry, f: Entry)
    requires DistinctEntries(ledger) && e in ledger && f in ledger && e.instructionId == f.instructionId
    ensures e == f
  {
  }

  /** Entries of the start are the same in all that continues it. */
  lemma StartAgrees(start: seq<Entry>, a: seq<Entry>, b: seq<Entry>, id: string)
    requires DistinctEntries(a) && DistinctEntries(b) && Continues(start, a) && Continues(start, b) && id in Ids(start)
    ensures AgreeOn(id, a, b)
  {
    var k :| 0 <= k < |start| && start[k].instructionId == id;
    assert a[k] == start[k] && b[k] == start[k];
    forall e, f | e in a && f in b && e.instructionId == f.instructionId == id
      ensures e == f
    {
      OneEntry(a, e, a[k]);
      OneEntry(b, f, b[k]);
    }
  }

  /** Whatever the two runs did, a step called in both was called alike and returned alike. */
  lemma {:induction false} TracesAgree(t: Setting, s: seq<Instruction>, start: seq<Entry>, a: seq<Entry>, b: seq<Entry>, k: nat)
    requires Traced(t, s, start, a) && Traced(t, s, start, b) && k < |s|
    ensures AgreeOn(s[k].id, a, b)
    decreases k
  {
    hide AgreeOn, StepTraced, Ids, SourcesNeeded, DistinctEntries, Continues, Seed;
    var i := s[k];
    if i.id in Ids(start) {
      StartAgrees(start, a, b, i.id);
    } else if i.id in Ids(a) && i.id in Ids(b) {
      assert i in s;
      forall n | n in i.needs
        ensures AgreeOn(n, a, b)
      {
        var j :| 0 <= j < k && s[j].id == n;
        TracesAgree(t, s, start, a, b, j);
      }
      OwnSources(s, i);
      StepsAgree(t, i, a, b);
    } else {
      NoneAgree(i.id, a, b);
    }
  }

  lemma NoneAgree(id: string, a: seq<Entry>, b: seq<Entry>)
    requires id !in Ids(a) || id !in Ids(b)
    ensures AgreeOn(id, a, b)
  {
  }

  lemma StepsAgree(t: Setting, i: Instruction, a: seq<Entry>, b: seq<Entry>)
    requires StepTraced(t, i, a) && StepTraced(t, i, b) && DistinctEntries(a) && DistinctEntries(b) && OwnSourcesNeeded(i)
    requires forall n <- i.needs :: AgreeOn(n, a, b)
    ensures AgreeOn(i.id, a, b)
  {
    hide DistinctEntries, FinalArgs, Seed, PassesIn, Ids;
    SameCallIn(t, t, i, a, b);
    forall e, f | e in a && f in b && e.instructionId == f.instructionId == i.id
      ensures e == f
    {
      OneEntry(a, e, EntryIn(t, i, a));
      OneEntry(b, f, EntryIn(t, i, b));
    }
  }

  lemma AllAgree(t: Setting, s: seq<Instruction>, start: seq<Entry>, a: seq<Entry>, b: seq<Entry>)
    requires Traced(t, s, start, a) && Traced(t, s, start, b)
    ensures forall id :: AgreeOn(id, a, b)
  {
    hide StepTraced, AgreeOn, DistinctEntries, WellWired, Continues;
    forall id
      ensures AgreeOn(id, a, b)
    {
      if id in Ids(a) && id in Ids(b) {
        var k :| 0 <= k < |s| && s[k].id == id;
        TracesAgree(t, s, start, a, b, k);
      } else {
        NoneAgree(id, a, b);
      }
    }
  }

  // ---- one run after another ----

  /** Plans that differ in step `k` only, and there only in what it draws its arguments from. */
  predicate SameBut(s: seq<Instruction>, r: seq<Instruction>, k: nat) {
    && |r| == |s| && k < |s| && r[k].id == s[k].id && r[k].needs == s[k].needs
    && forall j :: 0 <= j < |s| && j != k ==> r[j] == s[j]
  }

  predicate SameSteps(s: seq<Instruction>, r: seq<Instruction>) {
    |r| == |s| && forall j :: 0 <= j < |s| ==> r[j].id == s[j].id && r[j].needs == s[j].needs
  }

  ghost predicate SameTools(t: Setting, u: Setting) {
    t.js == u.js && t.gate == u.gate && t.tool == u.tool
  }

  /** The approvals of both. */
  function Both(t: Setting, u: Setting): Setting {
    u.(approved := t.approved + u.approved)
  }

  lemma StepStays(t: Setting, u: Setting, i: Instruction, mid: seq<Entry>, ledger: seq<Entry>)
    requires StepTraced(t, i, mid) && SameTools(t, u) && t.approved <= u.approved && OwnSourcesNeeded(i)
    requires Continues(mid, ledger) && DistinctEntries(ledger)
    ensures StepTraced(u, i, ledger)
  {
    hide Seed, FinalArgs, EvaluateGate, OwnSourcesNeeded;
    CallStays(t, i, mid, ledger);
    IdsOver(mid, ledger);
    var q :| 0 <= q < |mid| && mid[q] == EntryIn(t, i, mid);
    assert ledger[q] == mid[q];
    assert CallIn(u, i, ledger) == CallIn(t, i, ledger);
  }

  /** A run that continues another, traced as one. */
  lemma ComposeTraced(t: Setting, u: Setting, s: seq<Instruction>, r: seq<Instruction>, k: nat, start: seq<Entry>, mid: seq<Entry>, ledger: seq<Entry>)
    requires Traced(t, s, start, mid) && Traced(u, r, mid, ledger) && SameBut(s, r, k) && s[k].id !in Ids(mid) && SameTools(t, u)
    ensures Traced(Both(t, u), r, start, ledger)
  {
    hide StepTraced, Ids, DistinctEntries, WellWired, OwnSourcesNeeded;
    assert ledger[..|start|] == start by { assert ledger[..|mid|][..|start|] == start; }
    forall i | i in r && Added(i, start, ledger)
      ensures StepTraced(Both(t, u), i, ledger)
    {
      OwnSources(r, i);
      if i.id in Ids(mid) {
        var j :| 0 <= j < |r| && r[j] == i;
        assert s[j] in s;
        StepStays(t, Both(t, u), i, mid, ledger);
      } else {
        assert Continues(ledger, ledger) by { assert ledger[..|ledger|] == ledger; }
        StepStays(u, Both(t, u), i, ledger, ledger);
      }
    }
  }

  /** Step `i` is still to run, and a producer of its failed since `start`. */
  predicate FailurePending(i: Instruction, start: seq<Entry>, ledger: seq<Entry>) {
    i.id !in Ids(ledger) && exists n <- i.needs :: n !in Ids(start) && Failed(ledger, n)
  }

  /** No step still to run has a producer that failed since `start`. */
  predicate Clean(s: seq<Instruction>, start: seq<Entry>, ledger: seq<Entry>) {
    forall k :: 0 <= k < |s| ==> !FailurePending(s[k], start, ledger)
  }

  lemma FailedInStart(start: seq<Entry>, ledger: seq<Entry>, n: string)
    requires Continues(start, ledger) && DistinctEntries(ledger) && Failed(ledger, n) && n in Ids(start)
    ensures Failed(start, n)
  {
    var q :| 0 <= q < |ledger| && ledger[q].instructionId == n && !ledger[q].ok;
    var p :| 0 <= p < |start| && start[p].instructionId == n;
    assert ledger[p] == start[p];
  }

  lemma ComposeHeeded(s: seq<Instruction>, r: seq<Instruction>, k: nat, start: seq<Entry>, mid: seq<Entry>, ledger: seq<Entry>)
    requires Heeded(s, start, mid) && Heeded(r, mid, ledger) && SameBut(s, r, k) && s[k].id !in Ids(mid) && Clean(s, start, mid)
    requires Continues(start, mid) && Continues(mid, ledger) && DistinctEntries(ledger)
    ensures Heeded(r, start, ledger)
  {
    hide Ids, Succeeded, Failed;
    assert DistinctEntries(mid) by { assert forall q :: 0 <= q < |mid| ==> ledger[q] == mid[q]; }
    forall i, n | i in r && Added(i, start, ledger) && n in i.needs
      ensures NeedOk(start, ledger, n)
    {
      var j :| 0 <= j < |r| && r[j] == i;
      assert s[j] in s && s[j].needs == i.needs && s[j].id == i.id;
      if i.id in Ids(mid) {
        assert NeedOk(start, mid, n);
        if Succeeded(mid, n) {
          SucceededStays(mid, ledger, n);
        }
      } else {
        assert NeedOk(mid, ledger, n);
        if Failed(mid, n) {
          assert !FailurePending(s[j], start, mid);
          FailedInStart(start, mid, n);
        }
      }
    }
  }

  // ---- a completed run shows that another does not stop ----

  /** What a completed run called after success cannot be held up in another. */
  lemma NotHeldUp(t: Setting, u: Setting, s: seq<Instruction>, start: seq<Entry>, base: seq<Entry>, full: seq<Entry>, ledger: seq<Entry>, k: nat)
    requires Traced(t, s, start, full) && Heeded(s, start, full) && Ids(full) == PlanIds(s) && Traced(t, s, start, ledger)
    requires SameTools(t, u) && Continues(base, ledger) && Continues(start, base) && k < |s|
    requires s[k].id in t.approved && s[k].id !in Ids(ledger) ==> s[k].id in u.approved
    ensures !HeldUp(u, s[k], base, ledger)
  {
    hide Seed, FinalArgs, EvaluateGate, AgreeOn, Succeeded, Failed, OwnSourcesNeeded, DistinctEntries, Continues, WellWired, Ids;
    var i := s[k];
    assert i in s && i.id in PlanIds(s);
    IdsOver(start, ledger) by { ContinuesTrans(start, base, ledger); }
    IdsOver(start, base);
    AllAgree(t, s, start, full, ledger);
    OwnSources(s, i);
    if HeldUp(u, i, base, ledger) {
      assert StepTraced(t, i, full);
      if n :| n in i.needs && n !in Ids(base) && Failed(ledger, n) {
        assert NeedOk(start, full, n);
        Disagree(full, start, ledger, n);
        assert false;
      }
      SameCallIn(t, u, i, full, ledger);
      assert false;
    }
  }

  lemma ContinuesTrans(a: seq<Entry>, b: seq<Entry>, c: seq<Entry>)
    requires Continues(a, b) && Continues(b, c)
    ensures Continues(a, c)
  {
    assert c[..|b|][..|a|] == a;
  }

  /** A producer that failed in one and succeeded in the other. */
  lemma Disagree(full: seq<Entry>, start: seq<Entry>, ledger: seq<Entry>, n: string)
    requires NeedOk(start, full, n) && n !in Ids(start) && Failed(ledger, n)
    ensures !AgreeOn(n, full, ledger)
  {
    assert !Failed(start, n);
    var j :| 0 <= j < |full| && full[j].instructionId == n && full[j].ok;
    var k :| 0 <= k < |ledger| && ledger[k].instructionId == n && !ledger[k].ok;
    assert full[j] in full && ledger[k] in ledger;
  }

  lemma NoStop(t: Setting, u: Setting, s: seq<Instruction>, start: seq<Entry>, base: seq<Entry>, full: seq<Entry>, ledger: seq<Entry>)
    requires Traced(t, s, start, full) && Heeded(s, start, full) && Ids(full) == PlanIds(s) && Traced(t, s, start, ledger)
    requires SameTools(t, u) && Continues(base, ledger) && Continues(start, base)
    requires forall id <- t.approved :: id in Ids(ledger) || id in u.approved
    ensures !StopsAt(u, s, base, ledger)
  {
    hide Traced, Heeded, Continues, HeldUp, SameTools;
    forall k | 0 <= k < |s|
      ensures !HeldUp(u, s[k], base, ledger)
    {
      NotHeldUp(t, u, s, start, base, full, ledger, k);
    }
  }

  /** A completed run called no step after a failure, so no run that agrees with it leaves a failure pending. */
  lemma CompleteIsClean(t: Setting, s: seq<Instruction>, r: seq<Instruction>, start: seq<Entry>, mid: seq<Entry>, full: seq<Entry>, ledger: seq<Entry>)
    requires Traced(t, r, start, full) && Heeded(r, start, full) && Ids(full) == PlanIds(r) && Traced(t, r, start, ledger)
    requires SameSteps(s, r) && Continues(start, mid) && Continues(mid, ledger)
    ensures Clean(s, start, mid)
  {
    hide AgreeOn, Ids, Succeeded, DistinctEntries, WellWired, StepTraced;
    AllAgree(t, r, start, full, ledger);
    IdsOver(start, mid);
    forall j | 0 <= j < |s|
      ensures !FailurePending(s[j], start, mid)
    {
      assert r[j] in r && r[j].id in PlanIds(r) && r[j].id == s[j].id && r[j].needs == s[j].needs;
      if FailurePending(s[j], start, mid) {
        var n :| n in s[j].needs && n !in Ids(start) && Failed(mid, n);
        assert NeedOk(start, full, n);
        FailedStays(mid, ledger, n);
        Disagree(full, start, ledger, n);
        assert false;
      }
    }
  }

  lemma FailedStays(mid: seq<Entry>, ledger: seq<Entry>, n: string)
    requires Continues(mid, ledger) && Failed(mid, n)
    ensures Failed(ledger, n)
  {
    var q :| 0 <= q < |mid| && mid[q].instructionId == n && !mid[q].ok;
    assert ledger[q] == mid[q];
  }

  // ---- calls and entries ----

  function CallOf(e: Entry): Call {
    Call(e.instructionId, e.toolName, e.argsHash)
  }

  function CallsOf(ledger: seq<Entry>): seq<Call> {
    seq(|ledger|, k requires 0 <= k < |ledger| => CallOf(ledger[k]))
  }

  /** A run's calls are read off the entries it added. */
  lemma CallsAre(s: seq<Instruction>, start: seq<Entry>, meter: Meter, d: Deps)
    requires Startable(s, start)
    ensures var m := ExecutePlan(s, Fresh(start, meter), d).machine;
            |start| <= |m.state.ledger| && m.calls == CallsOf(m.state.ledger[|start|..])
  {
    hide ExecutePlan, Startable, Seed;
    CalledOnce(s, start, meter, d);
  }

  lemma {:induction false} OnceEach(ledger: seq<Entry>, e: Entry)
    requires DistinctEntries(ledger)
    ensures multiset(ledger)[e] == if e in ledger then 1 else 0
  {
    if ledger != [] {
      var init, last := ledger[..|ledger| - 1], ledger[|ledger| - 1];
      OnceEach(init, e);
      assert ledger == init + [last];
      assert last !in init;
    }
  }

  /** Ledgers of the same steps that agree are rearrangements of each other. */
  lemma SameEntries(a: seq<Entry>, b: seq<Entry>)
    requires DistinctEntries(a) && DistinctEntries(b) && Ids(a) == Ids(b) && forall id :: AgreeOn(id, a, b)
    ensures multiset(a) == multiset(b)
  {
    hide AgreeOn, DistinctEntries;
    EntriesIn(a, b);
    EntriesIn(b, a);
    forall e: Entry
      ensures multiset(a)[e] == multiset(b)[e]
    {
      OnceEach(a, e);
      OnceEach(b, e);
    }
  }

  lemma EntriesIn(a: seq<Entry>, b: seq<Entry>)
    requires Ids(a) <= Ids(b) && forall id :: AgreeOn(id, a, b) || AgreeOn(id, b, a)
    ensures forall e <- a :: e in b
  {
    forall e | e in a
      ensures e in b
    {
      assert e.instructionId in Ids(a);
      var k :| 0 <= k < |b| && b[k].instructionId == e.instructionId;
      assert AgreeOn(e.instructionId, a, b) || AgreeOn(e.instructionId, b, a);
    }
  }

  function Out(ledger: seq<Entry>, k: nat): seq<Entry>
    requires k < |ledger|
  {
    ledger[..k] + ledger[k + 1..]
  }

  lemma TakeOut(ledger: seq<Entry>, k: nat)
    requires k < |ledger|
    ensures multiset(ledger) == multiset(Out(ledger, k)) + multiset{ledger[k]}
    ensures multiset(CallsOf(ledger)) == multiset(CallsOf(Out(ledger, k))) + multiset{CallOf(ledger[k])}
  {
    hide CallOf;
    var x, y, e := ledger[..k], ledger[k + 1..], ledger[k];
    assert ledger == x + [e] + y;
    assert CallsOf(ledger) == CallsOf(x) + [CallOf(e)] + CallsOf(y);
    assert CallsOf(Out(ledger, k)) == CallsOf(x) + CallsOf(y);
  }

  lemma {:induction false} SameCalls(a: seq<Entry>, b: seq<Entry>)
    requires multiset(a) == multiset(b)
    ensures multiset(CallsOf(a)) == multiset(CallsOf(b))
    decreases |a|
  {
    hide CallsOf, Out;
    if a == [] {
      assert |multiset(b)| == 0;
    } else {
      assert a[0] in multiset(b);
      var k :| 0 <= k < |b| && b[k] == a[0];
      TakeOut(a, 0);
      TakeOut(b, k);
      assert |Out(a, 0)| < |a| by { OutLess(a, 0); }
      assert multiset(Out(a, 0)) == multiset(a) - multiset{a[0]};
      assert multiset(Out(b, k)) == multiset(b) - multiset{a[0]};
      SameCalls(Out(a, 0), Out(b, k));
    }
  }

  lemma OutLess(a: seq<Entry>, k: nat)
    requires k < |a|
    ensures |Out(a, k)| < |a|
  {
  }

  lemma AddedCalls(start: seq<Entry>, mid: seq<Entry>, a: seq<Entry>, b: seq<Entry>)
    requires Continues(start, a) && Continues(start, mid) && Continues(mid, b) && multiset(a) == multiset(b)
    ensures multiset(CallsOf(a[|start|..])) == multiset(CallsOf(mid[|start|..]) + CallsOf(b[|mid|..]))
  {
    hide CallsOf;
    var x, y := a[|start|..], mid[|start|..] + b[|mid|..];
    assert a == start + x;
    assert b == start + y by {
      assert mid == start + mid[|start|..] && b == mid + b[|mid|..];
    }
    assert multiset(a) == multiset(start) + multiset(x);
    assert multiset(b) == multiset(start) + multiset(y);
    assert multiset(x) == multiset(a) - multiset(start);
    assert multiset(y) == multiset(b) - multiset(start);
    SameCalls(x, y);
    CallsJoined(mid[|start|..], b[|mid|..]);
  }

  lemma CallsJoined(a: seq<Entry>, b: seq<Entry>)
    ensures CallsOf(a + b) == CallsOf(a) + CallsOf(b)
  {
  }

  /** One turn's meter and surroundings. */
  datatype Leg = Leg(meter: Meter, d: Deps)

  function Ran(s: seq<Instruction>, start: seq<Entry>, leg: Leg): Execution.Run {
    ExecutePlan(s, Fresh(start, leg.meter), leg.d)
  }

  /** The run was made in setting `t`, and no budget stopped it. */
  ghost predicate RanIn(t: Setting, s: seq<Instruction>, start: seq<Entry>, leg: Leg) {
    var r := Ran(s, start, leg);
    RunsIn(t, leg.d, r.machine.calls) && !(r.outcome.Blocked? && r.outcome.stop.OutOfBudget?)
  }

  /** A run of `s` stops to ask about step `k`. */
  predicate ParksAt(s: seq<Instruction>, start: seq<Entry>, leg: Leg, k: nat) {
    k < |s| && Ran(s, start, leg).outcome.Suspend? && Ran(s, start, leg).outcome.instruction == s[k]
  }

  lemma ParkedPending(s: seq<Instruction>, start: seq<Entry>, leg: Leg, k: nat)
    requires Startable(s, start) && ParksAt(s, start, leg, k)
    ensures s[k].id !in Ids(Ran(s, start, leg).machine.state.ledger)
  {
    hide ExecutePlan, RunInv, Startable, HaltOk, GateOf, FinalArgs, Seed;
    RunHolds(s, start, leg.meter, leg.d);
    var m := Ran(s, start, leg).machine;
    RunSound(s, start, m, leg.d);
    SeedFacts(m.state.ledger);
  }

  lemma SameIds(s: seq<Instruction>, r: seq<Instruction>, k: nat)
    requires SameBut(s, r, k)
    ensures PlanIds(r) == PlanIds(s)
  {
    assert forall j :: 0 <= j < |s| ==> s[j] in s && r[j] in r && s[j].id == r[j].id;
    forall id | id in PlanIds(s)
      ensures id in PlanIds(r)
    {
      var j :| 0 <= j < |s| && s[j].id == id;
    }
    forall id | id in PlanIds(r)
      ensures id in PlanIds(s)
    {
      var j :| 0 <= j < |r| && r[j].id == id;
    }
  }

  // ---- any number of parks ----

  /** A run of `s` that parks about step `k`. */
  datatype Park = Park(s: seq<Instruction>, t: Setting, leg: Leg, k: nat)

  /** The ledger after these runs. */
  function LedgerOf(start: seq<Entry>, parks: seq<Park>): seq<Entry> {
    if parks == [] then start
    else
      var p := parks[|parks| - 1];
      Ran(p.s, LedgerOf(start, parks[..|parks| - 1]), p.leg).machine.state.ledger
  }

  function CallsMade(start: seq<Entry>, parks: seq<Park>): seq<Call> {
    if parks == [] then []
    else
      var p, before := parks[|parks| - 1], parks[..|parks| - 1];
      CallsMade(start, before) + Ran(p.s, LedgerOf(start, before), p.leg).machine.calls
  }

  /** All the approvals given. */
  function SettingOf(parks: seq<Park>): Setting
    requires parks != []
  {
    if |parks| == 1 then parks[0].t else Both(SettingOf(parks[..|parks| - 1]), parks[|parks| - 1].t)
  }

  /** One park after another, each run going on with the last one's plan, but for the step it parked about, in the same surroundings. */
  ghost predicate ParksInTurn(start: seq<Entry>, parks: seq<Park>) {
    parks != [] ==>
      var p, before := parks[|parks| - 1], parks[..|parks| - 1];
      && ParksInTurn(start, before) && ParksAt(p.s, LedgerOf(start, before), p.leg, p.k) && RanIn(p.t, p.s, LedgerOf(start, before), p.leg)
      && (if before == [] then Startable(p.s, start) else GoesOn(before[|before| - 1], p.s, p.t))
  }

  /** The plan `r`, in setting `u`, goes on where `p` parked. */
  ghost predicate GoesOn(p: Park, r: seq<Instruction>, u: Setting) {
    SameBut(p.s, r, p.k) && WellWired(r) && SameTools(p.t, u)
  }

  /** At no park was a step left pending behind a failure. */
  predicate AllClean(start: seq<Entry>, parks: seq<Park>) {
    forall j :: 0 <= j < |parks| ==> CleanAt(start, parks, j)
  }

  predicate CleanAt(start: seq<Entry>, parks: seq<Park>, j: nat)
    requires j < |parks|
  {
    Clean(parks[j].s, start, LedgerOf(start, parks[..j + 1]))
  }

  lemma CleanBefore(start: seq<Entry>, parks: seq<Park>)
    requires parks != []
    ensures AllClean(start, parks) <==>
              AllClean(start, parks[..|parks| - 1]) && Clean(parks[|parks| - 1].s, start, LedgerOf(start, parks))
  {
    hide Clean, LedgerOf;
    var before := parks[..|parks| - 1];
    forall j | 0 <= j < |before|
      ensures CleanAt(start, before, j) <==> CleanAt(start, parks, j)
    {
      assert before[..j + 1] == parks[..j + 1];
    }
    assert parks[..|parks|] == parks;
    assert CleanAt(start, parks, |parks| - 1) <==> Clean(parks[|parks| - 1].s, start, LedgerOf(start, parks));
  }

  /** What one more run of a plan leaves, after a ledger traced to a plan that differs in the parked step only. */
  lemma OneMore(t: Setting, s: seq<Instruction>, k: nat, start: seq<Entry>, mid: seq<Entry>, u: Setting, r: seq<Instruction>, leg: Leg)
    requires Traced(t, s, start, mid) && SameBut(s, r, k) && WellWired(r) && s[k].id !in Ids(mid) && SameTools(t, u) && RanIn(u, r, mid, leg)
    ensures var ledger := Ran(r, mid, leg).machine.state.ledger;
            && Startable(r, mid) && Startable(r, ledger) && Continues(mid, ledger) && Continues(start, ledger)
            && Traced(Both(t, u), r, start, ledger) && Traced(u, r, mid, ledger) && Heeded(r, mid, ledger)
            && (Heeded(s, start, mid) && Clean(s, start, mid) ==> Heeded(r, start, ledger))
  {
    hide ExecutePlan, StepTraced, RunsIn, Heeded, WellWired, DistinctEntries, Ids, Continues, SameTools, Clean;
    SameIds(s, r, k);
    RunTraced(u, r, mid, leg.meter, leg.d);
    var ledger := Ran(r, mid, leg).machine.state.ledger;
    ComposeTraced(t, u, s, r, k, start, mid, ledger);
    if Heeded(s, start, mid) && Clean(s, start, mid) {
      ComposeHeeded(s, r, k, start, mid, ledger);
    }
  }

  /** Whatever the parks, the ledger is traced to the plan as it stands, and heeds failures if every park but the last was clean. */
  lemma {:induction false} ParksTraced(start: seq<Entry>, parks: seq<Park>)
    requires parks != [] && ParksInTurn(start, parks)
    ensures var p, ledger := parks[|parks| - 1], LedgerOf(start, parks);
            && Traced(SettingOf(parks), p.s, start, ledger) && p.k < |p.s| && p.s[p.k].id !in Ids(ledger)
            && SameTools(SettingOf(parks), p.t)
            && (AllClean(start, parks[..|parks| - 1]) ==> Heeded(p.s, start, ledger))
  {
    hide Ran, Traced, RunsIn, Heeded, WellWired, Ids, Clean, AllClean, Startable, RanIn, SameBut;
    var p, before := parks[|parks| - 1], parks[..|parks| - 1];
    if before == [] {
      FirstPark(start, p);
    } else {
      var q := before[|before| - 1];
      ParksTraced(start, before);
      ToolsTrans(SettingOf(before), q.t, p.t);
      OneMore(SettingOf(before), q.s, q.k, start, LedgerOf(start, before), p.t, p.s, p.leg);
      ParkedPending(p.s, LedgerOf(start, before), p.leg, p.k);
      CleanBefore(start, before);
    }
  }

  lemma FirstPark(start: seq<Entry>, p: Park)
    requires Startable(p.s, start) && ParksAt(p.s, start, p.leg, p.k) && RanIn(p.t, p.s, start, p.leg)
    ensures var ledger := Ran(p.s, start, p.leg).machine.state.ledger;
            Traced(p.t, p.s, start, ledger) && Heeded(p.s, start, ledger) && p.s[p.k].id !in Ids(ledger)
  {
    hide ExecutePlan, RunsIn, Startable, Traced, Heeded, Ids;
    RunTraced(p.t, p.s, start, p.leg.meter, p.leg.d);
    ParkedPending(p.s, start, p.leg, p.k);
  }

  lemma ToolsTrans(t: Setting, u: Setting, v: Setting)
    requires SameTools(t, u) && SameTools(u, v)
    ensures SameTools(t, v) && SameTools(Both(t, v), v)
  {
  }

  /** Every parked ledger lies between the start and what it grew to; every plan has the same steps. */
  lemma {:induction false} ParksBetween(start: seq<Entry>, parks: seq<Park>, j: nat)
    requires ParksInTurn(start, parks) && j < |parks|
    ensures Continues(start, LedgerOf(start, parks[..j + 1])) && Continues(LedgerOf(start, parks[..j + 1]), LedgerOf(start, parks))
    ensures SameSteps(parks[j].s, parks[|parks| - 1].s)
    decreases |parks|
  {
    hide Ran, Traced, RunsIn, Heeded, WellWired, Ids, Clean, AllClean, Startable, RanIn, Continues, ParksAt;
    var p, before := parks[|parks| - 1], parks[..|parks| - 1];
    ParksTraced(start, parks);
    TracedContinues(SettingOf(parks), p.s, start, LedgerOf(start, parks));
    if j == |parks| - 1 {
      assert parks[..j + 1] == parks;
      SelfContinues(LedgerOf(start, parks));
    } else {
      var q := before[|before| - 1];
      assert before[..j + 1] == parks[..j + 1];
      ParksBetween(start, before, j);
      ParksTraced(start, before);
      ToolsTrans(SettingOf(before), q.t, p.t);
      OneMore(SettingOf(before), q.s, q.k, start, LedgerOf(start, before), p.t, p.s, p.leg);
      ContinuesTrans(LedgerOf(start, parks[..j + 1]), LedgerOf(start, before), LedgerOf(start, parks));
    }
  }

  lemma TracedContinues(t: Setting, s: seq<Instruction>, start: seq<Entry>, ledger: seq<Entry>)
    requires Traced(t, s, start, ledger)
    ensures Continues(start, ledger) && Startable(s, ledger) && Startable(s, start)
  {
    IdsOver(start, ledger);
    assert forall k :: 0 <= k < |start| ==> ledger[k] == start[k];
  }

  lemma {:induction false} CallsMadeAre(start: seq<Entry>, parks: seq<Park>)
    requires ParksInTurn(start, parks)
    ensures Continues(start, LedgerOf(start, parks)) && CallsMade(start, parks) == CallsOf(LedgerOf(start, parks)[|start|..])
  {
    hide Ran, Traced, RunsIn, Heeded, WellWired, Ids, Startable, RanIn, ParksAt, CallsOf, SameBut;
    if parks == [] {
      assert start[|start|..] == [] && CallsOf([]) == [] by { NoCalls(); }
    } else {
      var p, before := parks[|parks| - 1], parks[..|parks| - 1];
      var mid, ledger := LedgerOf(start, before), LedgerOf(start, parks);
      CallsMadeAre(start, before);
      ParksTraced(start, parks);
      TracedContinues(SettingOf(parks), p.s, start, ledger);
      RunOn(start, parks);
      assert ledger[|start|..] == mid[|start|..] + ledger[|mid|..];
      CallsJoined(mid[|start|..], ledger[|mid|..]);
    }
  }

  lemma NoCalls()
    ensures CallsOf([]) == []
  {
  }

  /** The last run starts from a ledger of its own plan's steps, and goes on from it. */
  lemma RunOn(start: seq<Entry>, parks: seq<Park>)
    requires parks != [] && ParksInTurn(start, parks)
    ensures var p, mid := parks[|parks| - 1], LedgerOf(start, parks[..|parks| - 1]);
            && Continues(mid, LedgerOf(start, parks))
            && Ran(p.s, mid, p.leg).machine.calls == CallsOf(LedgerOf(start, parks)[|mid|..])
  {
    hide Ran, Traced, RunsIn, Heeded, WellWired, Ids, Startable, RanIn, ParksAt, CallsOf, SameBut, Continues;
    var p, before := parks[|parks| - 1], parks[..|parks| - 1];
    if before == [] {
      ParksTraced(start, parks);
      TracedContinues(SettingOf(parks), p.s, start, LedgerOf(start, parks));
    } else {
      var q := before[|before| - 1];
      ParksTraced(start, before);
      ToolsTrans(SettingOf(before), q.t, p.t);
      OneMore(SettingOf(before), q.s, q.k, start, LedgerOf(start, before), p.t, p.s, p.leg);
    }
    RanCalls(p.s, LedgerOf(start, before), p.leg);
  }

  // ---- the theorem ----

  /**
   A plan parked any number of times, each time about a step whose answer or approval the next run has,
   against its last form `r` run at one go with all the answers and approvals from the start. Whatever step
   both call gets the same call and the same result. The single run completes if and only if the last
   resumed one does and no park left a step pending behind a failure; and then the calls and the ledger are
   the same, in some order.
   */
  lemma ParkedAsUninterrupted(start: seq<Entry>, parks: seq<Park>, u: Setting, r: seq<Instruction>, last: Leg, whole: Leg)
    requires parks != [] && ParksInTurn(start, parks) && GoesOn(parks[|parks| - 1], r, u)
    requires RanIn(u, r, LedgerOf(start, parks), last) && RanIn(Both(SettingOf(parks), u), r, start, whole)
    requires forall id <- SettingOf(parks).approved :: id in Ids(LedgerOf(start, parks)) || id in u.approved
    ensures var b, c := Ran(r, LedgerOf(start, parks), last), Ran(r, start, whole);
            && (forall id :: AgreeOn(id, b.machine.state.ledger, c.machine.state.ledger))
            && (c.outcome.Complete? <==> b.outcome.Complete? && AllClean(start, parks))
            && (c.outcome.Complete? ==>
                  && multiset(b.machine.state.ledger) == multiset(c.machine.state.ledger)
                  && multiset(CallsMade(start, parks) + b.machine.calls) == multiset(c.machine.calls))
  {
    hide Ran, StepTraced, RunsIn, Heeded, WellWired, DistinctEntries, Ids, Continues, SameTools, Clean, PlanIds, AgreeOn, StopsAt,
      CallsOf, CallsMade, ParksInTurn, AllClean, RanIn, LedgerOf, SettingOf, SameBut;
    var t, p, mid := SettingOf(parks), parks[|parks| - 1], LedgerOf(start, parks);
    var w := Both(t, u);
    ParksTraced(start, parks);
    TracedContinues(t, p.s, start, mid);
    ToolsTrans(t, p.t, u);
    OneMore(t, p.s, p.k, start, mid, u, r, last);
    var ledger, full := Ran(r, mid, last).machine.state.ledger, Ran(r, start, whole).machine.state.ledger;
    WholeTraced(w, p.s, r, p.k, start, whole);
    AllAgree(w, r, start, ledger, full);
    EndsAt(u, r, mid, last);
    EndsAt(w, r, start, whole);
    CleanBefore(start, parks);
    if Ran(r, start, whole).outcome.Complete? {
      ApprovalsLeft(t, u, mid, ledger);
      NoStop(w, u, r, start, mid, full, ledger);
      AllParksClean(start, parks, w, r, full, ledger);
      SameEntries(ledger, full);
      CallsMadeAre(start, parks);
      RanCalls(r, mid, last);
      RanCalls(r, start, whole);
      AddedCalls(start, mid, full, ledger);
    }
    if Ran(r, mid, last).outcome.Complete? && AllClean(start, parks) {
      SelfContinues(start);
      SelfTools(w);
      NoStop(w, w, r, start, start, ledger, full);
    }
  }

  lemma WholeTraced(w: Setting, s: seq<Instruction>, r: seq<Instruction>, k: nat, start: seq<Entry>, whole: Leg)
    requires Startable(s, start) && SameBut(s, r, k) && WellWired(r) && RanIn(w, r, start, whole)
    ensures var full := Ran(r, start, whole).machine.state.ledger;
            Startable(r, start) && Traced(w, r, start, full) && Heeded(r, start, full)
  {
    hide ExecutePlan, RunsIn, WellWired, DistinctEntries, Ids, Traced, Heeded;
    SameIds(s, r, k);
    RunTraced(w, r, start, whole.meter, whole.d);
  }

  lemma AllParksClean(start: seq<Entry>, parks: seq<Park>, w: Setting, r: seq<Instruction>, full: seq<Entry>, ledger: seq<Entry>)
    requires parks != [] && ParksInTurn(start, parks) && SameBut(parks[|parks| - 1].s, r, parks[|parks| - 1].k)
    requires Traced(w, r, start, full) && Heeded(r, start, full) && Ids(full) == PlanIds(r) && Traced(w, r, start, ledger)
    requires Continues(LedgerOf(start, parks), ledger)
    ensures AllClean(start, parks)
  {
    hide Traced, Heeded, Continues, Clean, ParksInTurn, LedgerOf, Ids, PlanIds;
    forall j | 0 <= j < |parks|
      ensures CleanAt(start, parks, j)
    {
      ParksBetween(start, parks, j);
      ContinuesTrans(LedgerOf(start, parks[..j + 1]), LedgerOf(start, parks), ledger);
      assert SameSteps(parks[j].s, r);
      CompleteIsClean(w, parks[j].s, r, start, LedgerOf(start, parks[..j + 1]), full, ledger);
    }
  }

  lemma EndsAt(t: Setting, s: seq<Instruction>, start: seq<Entry>, leg: Leg)
    requires Startable(s, start) && RanIn(t, s, start, leg)
    ensures var r := Ran(s, start, leg);
            if r.outcome.Complete? then Ids(r.machine.state.ledger) == PlanIds(s) else StopsAt(t, s, start, r.machine.state.ledger)
  {
    hide ExecutePlan, RunsIn, Startable, StopsAt;
    RunStops(t, s, start, leg.meter, leg.d);
  }

  lemma RanCalls(s: seq<Instruction>, start: seq<Entry>, leg: Leg)
    requires Startable(s, start)
    ensures var m := Ran(s, start, leg).machine; |start| <= |m.state.ledger| && m.calls == CallsOf(m.state.ledger[|start|..])
  {
    hide ExecutePlan, Startable, CallsOf;
    CallsAre(s, start, leg.meter, leg.d);
  }

  lemma SelfTools(t: Setting)
    ensures SameTools(t, t)
  {
  }

  lemma SelfContinues(start: seq<Entry>)
    ensures Continues(start, start)
  {
  }

  lemma ApprovalsLeft(t: Setting, u: Setting, mid: seq<Entry>, ledger: seq<Entry>)
    requires Continues(mid, ledger) && forall id <- t.approved :: id in Ids(mid) || id in u.approved
    ensures forall id <- Both(t, u).approved :: id in Ids(ledger) || id in u.approved
  {
    hide Ids;
    IdsOver(mid, ledger);
  }

  // ---- through the payload ----

  lemma SameButItself(s: seq<Instruction>, k: nat)
    requires k < |s|
    ensures SameBut(s, s, k)
  {
  }

  /**
   One park, through the stored payload: the plan that is rebuilt from it, with the yes or the answer, does
   what it would have done with that at hand from the start.
   */
  lemma ResumedAsUninterrupted(js: Js, goal: string, userMessage: string, hash: string, start: seq<Entry>, p: Park, ask: Ask, recoilCount: nat,
                               answer: string, registry: seq<Tool>, u: Setting, last: Leg, whole: Leg)
    requires Startable(p.s, start) && ParksAt(p.s, start, p.leg, p.k) && RegistryHolds(registry, p.s) && SameTools(p.t, u)
    requires var a := Ran(p.s, start, p.leg);
             var x := RehydrateSuspension(js, ToSuspensionPayload(goal, userMessage, hash, p.s, a.machine.state, p.s[p.k].id, ask, recoilCount),
                                          answer, registry, hash);
             && x.Ok? && RanIn(p.t, p.s, start, p.leg)
             && RanIn(u, x.value.plan.instructions, a.machine.state.ledger, last) && RanIn(Both(p.t, u), x.value.plan.instructions, start, whole)
             && forall id <- p.t.approved :: id in Ids(a.machine.state.ledger) || id in u.approved
    ensures var a := Ran(p.s, start, p.leg);
            var x := RehydrateSuspension(js, ToSuspensionPayload(goal, userMessage, hash, p.s, a.machine.state, p.s[p.k].id, ask, recoilCount),
                                         answer, registry, hash).value;
            var b := ExecutePlan(x.plan.instructions, Machine(x.state, last.meter, []), last.d);
            var c := Ran(x.plan.instructions, start, whole);
            && (c.outcome.Complete? <==> b.outcome.Complete? && Clean(p.s, start, a.machine.state.ledger))
            && (c.outcome.Complete? ==>
                  && multiset(b.machine.state.ledger) == multiset(c.machine.state.ledger)
                  && multiset(a.machine.calls + b.machine.calls) == multiset(c.machine.calls))
  {
    hide ExecutePlan, RehydrateSuspension, RunsIn, Ordered, SourcesNeeded, SameTools, Clean, AgreeOn, Pinned, AcceptedAnswer, SameBut;
    var a := Ran(p.s, start, p.leg);
    ResumeContinues(js, goal, userMessage, hash, p.s, start, p.leg.meter, p.leg.d, p.k, ask, recoilCount, answer, registry, last.meter);
    var x := RehydrateSuspension(js, ToSuspensionPayload(goal, userMessage, hash, p.s, a.machine.state, p.s[p.k].id, ask, recoilCount),
                                 answer, registry, hash).value;
    SameButItself(p.s, p.k);
    OneParkInTurn(start, p);
    if AskedField(ask).Some? {
      PinnedSameBut(p.s, p.k, AskedField(ask).value, AcceptedAnswer(js, p.s[p.k], a.machine.state.ledger, AskedField(ask).value, answer).value);
    }
    ParkedAsUninterrupted(start, [p], u, x.plan.instructions, last, whole);
    assert [] + a.machine.calls == a.machine.calls;
  }

  lemma PinnedSameBut(s: seq<Instruction>, k: nat, field: string, v: Value)
    requires k < |s|
    ensures SameBut(s, Pinned(s, k, field, v), k)
  {
  }

  lemma OneParkInTurn(start: seq<Entry>, p: Park)
    requires Startable(p.s, start) && ParksAt(p.s, start, p.leg, p.k) && RanIn(p.t, p.s, start, p.leg)
    ensures ParksInTurn(start, [p]) && LedgerOf(start, [p]) == Ran(p.s, start, p.leg).machine.state.ledger && SettingOf([p]) == p.t
    ensures CallsMade(start, [p]) == Ran(p.s, start, p.leg).machine.calls
    ensures AllClean(start, [p]) <==> Clean(p.s, start, Ran(p.s, start, p.leg).machine.state.ledger)
  {
    hide Ran, Startable, RanIn, Clean;
    assert [p][..0] == [];
    assert LedgerOf(start, [p]) == Ran(p.s, start, p.leg).machine.state.ledger;
    CleanBefore(start, [p]);
    assert [] + Ran(p.s, start, p.leg).machine.calls == Ran(p.s, start, p.leg).machine.calls;
  }
}
