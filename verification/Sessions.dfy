/**
 The conversation around a plan: park it with a question, take the next message as the answer,
 resume, and never do anything twice or without the yes it was asked for.
 */
module Sessions {
  import opened Wrappers
  import opened ToolSchema
  import opened Gates
  import opened Plans
  import opened Resolver
  import opened Execution
  import opened PlanRuns
  import opened PlanTheorems
  import opened Resume

  // ---- messages ----

  function Lower(s: string): string {
    seq(|s|, k requires 0 <= k < |s| => LowerChar(s[k]))
  }

  const CONFIRMATIONS: set<string> := {"yes", "y", "yeah", "yep", "confirm", "proceed", "ok", "okay", "sure", "go ahead"}
  const DENIALS: set<string> := {"no", "n", "nope", "cancel", "stop", "deny", "don't", "do not"}

  predicate IsConfirmationMessage(message: string) { Lower(Trim(message)) in CONFIRMATIONS }

  predicate IsDenialMessage(message: string) { Lower(Trim(message)) in DENIALS }

  // ---- one turn ----

  datatype Parked = Parked(reason: SuspensionReason, payload: Payload, expiresAt: int)

  /** What the planner and binder propose when they are asked. */
  datatype Proposal = Proposal(goal: string, nudge: Option<string>, bound: seq<Bound>)

  /** A message and everything around it: the clock, the registry, the gate's context, the tools' answers. */
  datatype TurnInput = TurnInput(
    message: string, now: int, parkedAt: int, ttl: nat, functions: seq<Tool>, registryHash: string, gate: GateContext,
    maxRecoils: nat, maxToolCalls: nat, answer: nat -> InvokeResult, late: nat -> bool, pick: seq<string> -> nat,
    proposal: Option<Proposal>)

  datatype Reply =
    | NoPlan
    | Tangled
    | Abandoned(reason: SuspensionReason)
    | Asked(question: Question)
    | Stopped(stop: StopReason)
    | Synthesis(goal: string, ledger: seq<Entry>)

  /** A run made in a turn. */
  datatype Ran = Ran(instructions: seq<Instruction>, start: seq<Entry>, approved: set<string>, run: Run)

  datatype TurnResult = TurnResult(parked: Option<Parked>, reply: Reply, ran: Option<Ran>)

  function DepsFor(js: Js, t: TurnInput, approved: set<string>): Deps {
    Deps(js, t.gate, approved, t.maxToolCalls, t.answer, t.late, t.pick)
  }

  /** The field an answer would be taken for. */
  function AskField(o: Outcome): Option<string>
    requires o.Suspend?
  {
    if o.reason.AwaitingInfo? && o.missing != [] && o.missing[0] != "" then Some(o.missing[0]) else None
  }

  /** Where the turn ends: park and ask, or say how it went. */
  function FinishTurn(t: TurnInput, goal: string, userMessage: string, recoilCount: nat, ran: Ran): TurnResult {
    var m, o := ran.run.machine, ran.run.outcome;
    match o
    case Suspend(reason, i, _, question) =>
      var payload := ToSuspensionPayload(goal, userMessage, t.registryHash, ran.instructions, m.state, i.id,
                                         Ask(AskField(o), i.tool.name, question), recoilCount);
      var parked := if reason.AwaitingConfirmation? || recoilCount < t.maxRecoils then Some(Parked(reason, payload, t.parkedAt + t.ttl)) else None;
      TurnResult(parked, Asked(question), Some(ran))
    case Blocked(stop) =>
      TurnResult(None, if stop.OutOfBudget? && m.state.ledger != [] then Synthesis(goal, m.state.ledger) else Stopped(stop), Some(ran))
    case Complete =>
      TurnResult(None, Synthesis(goal, m.state.ledger), Some(ran))
  }

  function NewMeter(): Meter { Meter(0, map[]) }

  function RunTurn(js: Js, t: TurnInput, s: seq<Instruction>, start: seq<Entry>, approved: set<string>): Ran {
    Ran(s, start, approved, ExecutePlan(s, Fresh(start, NewMeter()), DepsFor(js, t, approved)))
  }

  /** `resumeSuspended`; `None` when the parked plan had to be dropped. */
  function ResumeTurn(js: Js, p: Parked, t: TurnInput): Option<TurnResult> {
    if IsDenialMessage(t.message) then Some(TurnResult(None, Abandoned(p.reason), None))
    else if p.reason.AwaitingConfirmation? && !IsConfirmationMessage(t.message) then
      Some(TurnResult(Some(p), Asked(p.payload.ask.question), None))
    else
      match RehydrateSuspension(js, p.payload, t.message, t.functions, t.registryHash)
      case Ok(r) =>
        var approved := if p.reason.AwaitingConfirmation? then {r.pendingInstructionId} else {};
        var recoils := if p.reason.AwaitingConfirmation? then p.payload.recoilCount else p.payload.recoilCount + 1;
        Some(FinishTurn(t, r.plan.goal, p.payload.userMessage, recoils, RunTurn(js, t, r.plan.instructions, r.state.ledger, approved)))
      case Err(e) =>
        if e.AnswerRejected? && p.reason.AwaitingInfo? then Some(TurnResult(Some(p), Asked(p.payload.ask.question), None)) else None
  }

  /** Plan, bind, resolve, run. */
  function FreshTurn(js: Js, t: TurnInput): TurnResult {
    match t.proposal
    case None => TurnResult(None, NoPlan, None)
    case Some(p) =>
      if !DistinctSteps(p.bound) then TurnResult(None, Tangled, None)
      else FinishTurn(t, p.goal, t.message, 0, RunTurn(js, t, ResolvedAll(p.bound), [], {}))
  }

  /** The parked plan, unless it has expired. */
  function Unexpired(parked: Option<Parked>, now: int): Option<Parked> {
    if parked.Some? && parked.value.expiresAt <= now then None else parked
  }

  function Resumes(js: Js, parked: Option<Parked>, t: TurnInput): bool {
    var p := Unexpired(parked, t.now);
    p.Some? && ResumeTurn(js, p.value, t).Some?
  }

  /** `runHarness` */
  function Turn(js: Js, parked: Option<Parked>, t: TurnInput): TurnResult {
    if Resumes(js, parked, t) then ResumeTurn(js, parked.value, t).value else FreshTurn(js, t)
  }

  // ---- whole conversations ----

  /** A call, and the plan life it belongs to. */
  datatype LifeCall = LifeCall(life: nat, call: Call)

  /** The parked plan; the instructions as last run; how many plans were started; every call ever made. */
  datatype Session = Session(parked: Option<Parked>, live: seq<Instruction>, life: nat, calls: seq<LifeCall>)

  function Opened(): Session {
    Session(None, [], 0, [])
  }

  function Tagged(life: nat, calls: seq<Call>): (r: seq<LifeCall>)
    ensures |r| == |calls|
  {
    seq(|calls|, k requires 0 <= k < |calls| => LifeCall(life, calls[k]))
  }

  function Next(js: Js, s: Session, t: TurnInput): Session {
    var r := Turn(js, s.parked, t);
    var life := if Resumes(js, s.parked, t) then s.life else s.life + 1;
    if r.ran.None? then s.(parked := r.parked, life := life)
    else Session(r.parked, r.ran.value.instructions, life, s.calls + Tagged(life, r.ran.value.run.machine.calls))
  }

  function Conversation(js: Js, turns: seq<TurnInput>): Session {
    if turns == [] then Opened() else Next(js, Conversation(js, turns[..|turns| - 1]), turns[|turns| - 1])
  }

  // ---- what every conversation keeps ----

  /** No step of one plan life is called twice. */
  predicate CallsOnce(calls: seq<LifeCall>) {
    forall j, k :: 0 <= j < k < |calls| && calls[j].life == calls[k].life ==> calls[j].call.instructionId != calls[k].call.instructionId
  }

  /** All of life `life`'s calls are in the ledger. */
  predicate InLedger(calls: seq<LifeCall>, life: nat, ledger: seq<Entry>) {
    forall k :: 0 <= k < |calls| && calls[k].life == life ==> calls[k].call.instructionId in Ids(ledger)
  }

  predicate Past(calls: seq<LifeCall>, life: nat) {
    forall k :: 0 <= k < |calls| ==> calls[k].life <= life
  }

  /** Step `k` waits for its answer, and a confirmation asks about exactly the arguments it would get now. */
  predicate Pending(js: Js, s: seq<Instruction>, k: nat, p: Parked) {
    && k < |s| && s[k].id == p.payload.pendingInstructionId && s[k].id !in Ids(p.payload.ledger)
    && (forall n <- s[k].needs :: n in Ids(p.payload.ledger))
    && (p.reason.AwaitingConfirmation? ==>
          && AskedField(p.payload.ask).None?
          && p.payload.ask.question == AskApproval(s[k].tool.name, s[k].tool.description, FinalArgs(js, s[k], Seed(p.payload.ledger).outputs)))
  }

  /** The payload is the live plan, parked. */
  ghost predicate ParkedOk(js: Js, s: seq<Instruction>, p: Parked) {
    && Startable(s, p.payload.ledger)
    && |p.payload.instructions| == |s|
    && (forall k :: 0 <= k < |s| ==> p.payload.instructions[k] == StoredOf(s[k]))
    && exists k :: Pending(js, s, k, p)
  }

  ghost predicate SessionInv(js: Js, s: Session) {
    && CallsOnce(s.calls) && Past(s.calls, s.life)
    && (s.parked.Some? ==> ParkedOk(js, s.live, s.parked.value) && InLedger(s.calls, s.life, s.parked.value.payload.ledger))
  }

  // ---- finishing a run ----

  /** Whatever a run of a startable plan leaves parked is well formed. */
  lemma FinishKeeps(js: Js, t: TurnInput, goal: string, userMessage: string, recoilCount: nat, s: seq<Instruction>, start: seq<Entry>, approved: set<string>)
    requires Startable(s, start)
    ensures var ran := RunTurn(js, t, s, start, approved);
            var r := FinishTurn(t, goal, userMessage, recoilCount, ran);
            && r.ran == Some(ran)
            && (r.parked.Some? ==> ParkedOk(js, s, r.parked.value) && r.parked.value.payload.ledger == ran.run.machine.state.ledger)
  {
    hide ExecutePlan, RunInv, Startable, AskOk, Pending, FinalArgs, Seed, GateOf;
    var d := DepsFor(js, t, approved);
    var ran := RunTurn(js, t, s, start, approved);
    RunHolds(s, start, NewMeter(), d);
    EndsStartable(s, start, NewMeter(), d);
    var r := FinishTurn(t, goal, userMessage, recoilCount, ran);
    if r.parked.Some? {
      var k := AskedPending(js, s, d, ran.run, r.parked.value);
    }
  }

  lemma AskedPending(js: Js, s: seq<Instruction>, d: Deps, run: Run, p: Parked) returns (k: nat)
    requires run.outcome.Suspend? && AskOk(s, run.machine, run.outcome, d) && d.js == js
    requires run.machine.state == Seed(run.machine.state.ledger)
    requires p.payload.ledger == run.machine.state.ledger && p.payload.pendingInstructionId == run.outcome.instruction.id
    requires p.reason == run.outcome.reason && p.payload.ask.question == run.outcome.question && p.payload.ask.field == AskField(run.outcome)
    ensures Pending(js, s, k, p)
  {
    hide FinalArgs, Seed, GateOf;
    SeedFacts(run.machine.state.ledger);
    k :| 0 <= k < |s| && s[k] == run.outcome.instruction;
  }

  // ---- resuming ----

  /** Rebound instructions are the stored ones, tool aside. */
  lemma {:induction false} ReboundSame(registry: seq<Tool>, stored: seq<Stored>, k: nat)
    requires Rebound(registry, stored).Some? && k < |stored|
    ensures var i := Rebound(registry, stored).value[k];
            && i.id == stored[k].id && i.needs == stored[k].needs && i.argSources == stored[k].argSources
            && Some(i.tool) == ToolNamed(registry, stored[k].toolName)
  {
    if k < |stored| - 1 {
      ReboundSame(registry, stored[..|stored| - 1], k);
    }
  }

  /** Plans that agree on ids and needs, and take outputs only where the other does, are startable alike. */
  lemma StartableAlike(s: seq<Instruction>, r: seq<Instruction>, start: seq<Entry>)
    requires Startable(s, start) && |r| == |s|
    requires forall k :: 0 <= k < |s| ==> r[k].id == s[k].id && r[k].needs == s[k].needs && r[k].argSources == s[k].argSources
    ensures Startable(r, start)
  {
    assert forall k :: 0 <= k < |s| ==> s[k] in s && r[k] in r;
    forall id | id in PlanIds(s)
      ensures id in PlanIds(r)
    {
      var k :| 0 <= k < |s| && s[k].id == id;
    }
  }

  /** A parked plan resumes as a startable plan over its own ledger. */
  lemma ResumeStarts(js: Js, live: seq<Instruction>, p: Parked, answer: string, registry: seq<Tool>, hash: string)
    requires ParkedOk(js, live, p) && RehydrateSuspension(js, p.payload, answer, registry, hash).Ok?
    ensures var r := RehydrateSuspension(js, p.payload, answer, registry, hash).value;
            && r.state.ledger == p.payload.ledger && Startable(r.plan.instructions, r.state.ledger)
            && r.pendingInstructionId == p.payload.pendingInstructionId
            && (p.reason.AwaitingConfirmation? ==> Rebound(registry, p.payload.instructions) == Some(r.plan.instructions))
  {
    hide Startable, FinalArgs, Seed, AcceptedAnswer, Rebound, Pinned;
    var s := Rebound(registry, p.payload.instructions).value;
    forall k | 0 <= k < |s|
      ensures s[k].id == live[k].id && s[k].needs == live[k].needs && s[k].argSources == live[k].argSources
    {
      ReboundSame(registry, p.payload.instructions, k);
    }
    StartableAlike(live, s, p.payload.ledger);
    var k := FindInstruction(s, p.payload.pendingInstructionId).value;
    if AskedField(p.payload.ask).Some? {
      var field := AskedField(p.payload.ask).value;
      var v := AcceptedAnswer(js, s[k], p.payload.ledger, field, answer).value;
      PinnedStartable(s, p.payload.ledger, k, field, v);
    }
  }

  // ---- calls ----

  /** The calls of one more run join those already made. */
  lemma CallsJoin(calls: seq<LifeCall>, life: nat, s: seq<Instruction>, start: seq<Entry>, d: Deps)
    requires Startable(s, start) && CallsOnce(calls) && Past(calls, life) && InLedger(calls, life, start)
    ensures var m := ExecutePlan(s, Fresh(start, NewMeter()), d).machine;
            var after := calls + Tagged(life, m.calls);
            CallsOnce(after) && Past(after, life) && InLedger(after, life, m.state.ledger)
  {
    hide ExecutePlan, Startable, Seed;
    var m := ExecutePlan(s, Fresh(start, NewMeter()), d).machine;
    CalledOnce(s, start, NewMeter(), d);
    var after := calls + Tagged(life, m.calls);
    forall k | 0 <= k < |m.calls|
      ensures m.calls[k].instructionId in Ids(m.state.ledger)
    {
      assert m.state.ledger[|start| + k] in m.state.ledger;
    }
    IdsGrow(start, m.state.ledger);
  }

  lemma IdsGrow(a: seq<Entry>, b: seq<Entry>)
    requires |a| <= |b| && b[..|a|] == a
    ensures Ids(a) <= Ids(b)
  {
    forall id | id in Ids(a)
      ensures id in Ids(b)
    {
      var k :| 0 <= k < |a| && a[k].instructionId == id;
      assert b[k] == a[k];
    }
  }

  // ---- every turn keeps it ----

  lemma ResumeKeeps(js: Js, s: Session, t: TurnInput)
    requires SessionInv(js, s) && Resumes(js, s.parked, t)
    ensures SessionInv(js, Next(js, s, t))
  {
    hide ExecutePlan, Startable, RehydrateSuspension, ParkedOk, CallsOnce, Past, InLedger, FinishTurn, IsDenialMessage, IsConfirmationMessage;
    var p := s.parked.value;
    var r := RehydrateSuspension(js, p.payload, t.message, t.functions, t.registryHash);
    if r.Ok? && !IsDenialMessage(t.message) && (p.reason.AwaitingConfirmation? ==> IsConfirmationMessage(t.message)) {
      var approved := if p.reason.AwaitingConfirmation? then {r.value.pendingInstructionId} else {};
      var recoils := if p.reason.AwaitingConfirmation? then p.payload.recoilCount else p.payload.recoilCount + 1;
      ResumeStarts(js, s.live, p, t.message, t.functions, t.registryHash);
      FinishKeeps(js, t, r.value.plan.goal, p.payload.userMessage, recoils, r.value.plan.instructions, r.value.state.ledger, approved);
      CallsJoin(s.calls, s.life, r.value.plan.instructions, r.value.state.ledger, DepsFor(js, t, approved));
    }
  }

  lemma FreshKeeps(js: Js, s: Session, t: TurnInput)
    requires SessionInv(js, s) && !Resumes(js, s.parked, t)
    ensures SessionInv(js, Next(js, s, t))
  {
    hide ExecutePlan, Startable, ParkedOk, FinishTurn, ResolvedAll;
    if t.proposal.Some? && DistinctSteps(t.proposal.value.bound) {
      var plan := ResolvedAll(t.proposal.value.bound);
      FreshStartable(t.proposal.value.bound);
      FinishKeeps(js, t, t.proposal.value.goal, t.message, 0, plan, [], {});
      CallsJoin(s.calls, s.life + 1, plan, [], DepsFor(js, t, {}));
    }
  }

  lemma FreshStartable(bound: seq<Bound>)
    requires DistinctSteps(bound)
    ensures Startable(ResolvedAll(bound), [])
  {
    ResolvedWellWired(bound);
  }

  lemma NextKeeps(js: Js, s: Session, t: TurnInput)
    requires SessionInv(js, s)
    ensures SessionInv(js, Next(js, s, t))
  {
    if Resumes(js, s.parked, t) {
      ResumeKeeps(js, s, t);
    } else {
      FreshKeeps(js, s, t);
    }
  }

  lemma {:induction false} ConversationKeeps(js: Js, turns: seq<TurnInput>)
    ensures SessionInv(js, Conversation(js, turns))
  {
    if turns != [] {
      ConversationKeeps(js, turns[..|turns| - 1]);
      NextKeeps(js, Conversation(js, turns[..|turns| - 1]), turns[|turns| - 1]);
    }
  }

  /** Over a plan's whole life, with any number of parks and resumes, each instruction is called at most once, whether it succeeded or failed. */
  lemma AtMostOnce(js: Js, turns: seq<TurnInput>, j: nat, k: nat)
    requires j < k < |Conversation(js, turns).calls|
    ensures var calls := Conversation(js, turns).calls;
            calls[j].life == calls[k].life ==> calls[j].call.instructionId != calls[k].call.instructionId
  {
    hide Conversation, ParkedOk;
    ConversationKeeps(js, turns);
  }

  // ---- what was confirmed is what runs ----

  /** Whatever is parked, the user was last shown its question. */
  lemma ParkedWasAsked(js: Js, parked: Option<Parked>, t: TurnInput)
    ensures var r := Turn(js, parked, t); r.parked.Some? ==> r.reply == Asked(r.parked.value.payload.ask.question)
  {
    hide ExecutePlan, RehydrateSuspension;
  }

  /** The parked question was about step `i`, in just these words. */
  predicate AskedAbout(p: Parked, i: Instruction, c: Call) {
    p.payload.ask.question == AskApproval(c.toolName, i.tool.description, c.args)
  }

  /** With its tools still registered, the call of the pending step is the one the question showed. */
  lemma SameCall(js: Js, live: seq<Instruction>, p: Parked, t: TurnInput, approved: set<string>, n: nat, i: Instruction)
    requires ParkedOk(js, live, p) && p.reason.AwaitingConfirmation?
    requires var m := RunTurn(js, t, live, p.payload.ledger, approved).run.machine;
             n < |m.calls| && m.calls[n].instructionId == p.payload.pendingInstructionId == i.id && i in live
    ensures AskedAbout(p, i, RunTurn(js, t, live, p.payload.ledger, approved).run.machine.calls[n])
  {
    hide ExecutePlan, AskOk, GateOf, Seed, WellWired, FinalArgs, JustifiedBy, DistinctEntries, Pending, AskedAbout;
    var start, d := p.payload.ledger, DepsFor(js, t, approved);
    var m := RunTurn(js, t, live, start, approved).run.machine;
    RunHolds(live, start, NewMeter(), d);
    var before := m.state.ledger[..|start| + n];
    var q :| 0 <= q < |live| && JustifiedBy(live[q], d, start, before, m.calls[n]);
    var k: nat :| Pending(js, live, k, p);
    assert before[..|start|] == start;
    Before(m.state.ledger, |start| + n);
    SameAsAsked(js, live, p, d, i, q, k, before, m.calls[n]);
  }

  lemma Before(ledger: seq<Entry>, n: nat)
    requires DistinctEntries(ledger) && n <= |ledger|
    ensures DistinctEntries(ledger[..n])
  {
  }

  lemma SameAsAsked(js: Js, live: seq<Instruction>, p: Parked, d: Deps, i: Instruction, q: nat, k: nat, before: seq<Entry>, c: Call)
    requires WellWired(live) && p.reason.AwaitingConfirmation? && d.js == js && i in live
    requires q < |live| && JustifiedBy(live[q], d, p.payload.ledger, before, c) && Pending(js, live, k, p)
    requires |p.payload.ledger| <= |before| && before[..|p.payload.ledger|] == p.payload.ledger && DistinctEntries(before)
    requires c.instructionId == p.payload.pendingInstructionId == i.id
    ensures AskedAbout(p, i, c)
  {
    hide GateOf, Seed, FinalArgs, Ordered, SourcesNeeded, DistinctEntries, NeedOk;
    SameId(live, i, live[q]);
    SameId(live, i, live[k]);
    SettledArgs(js, live, k, p.payload.ledger, before);
  }

  lemma SettledArgs(js: Js, live: seq<Instruction>, q: nat, start: seq<Entry>, before: seq<Entry>)
    requires WellWired(live) && q < |live| && |start| <= |before| && before[..|start|] == start
    requires DistinctEntries(before) && forall n <- live[q].needs :: n in Ids(start)
    ensures FinalArgs(js, live[q], Seed(before).outputs) == FinalArgs(js, live[q], Seed(start).outputs)
  {
    hide Seed, AssembledArgs, Coerced;
    assert before == start + before[|start|..];
    ArgsStay(live[q], start, before[|start|..]);
  }

  /** With the registry unchanged, the plan resumed is the plan parked. */
  lemma SamePlan(js: Js, live: seq<Instruction>, p: Parked, answer: string, registry: seq<Tool>, hash: string)
    requires ParkedOk(js, live, p) && p.reason.AwaitingConfirmation? && RegistryHolds(registry, live)
    requires RehydrateSuspension(js, p.payload, answer, registry, hash).Ok?
    ensures RehydrateSuspension(js, p.payload, answer, registry, hash).value.plan.instructions == live
  {
    hide Startable, FinalArgs, Seed, Rebound, RegistryHolds;
    ResumeStarts(js, live, p, answer, registry, hash);
    ReboundAgain(registry, live, |live|);
    assert live[..|live|] == live;
    assert p.payload.instructions == seq(|live|, j requires 0 <= j < |live| => StoredOf(live[j]));
  }

  /**
   A step that its gate holds back for approval is called only in the turn of a yes to the question
   about that very step; with the registry unchanged, with exactly the arguments the question showed.
   */
  lemma ConfirmedIsWhatRuns(js: Js, turns: seq<TurnInput>, t: TurnInput, n: nat, i: Instruction)
    requires var r := Turn(js, Conversation(js, turns).parked, t);
             && r.ran.Some? && n < |r.ran.value.run.machine.calls| && i in r.ran.value.instructions
             && i.id == r.ran.value.run.machine.calls[n].instructionId
             && EvaluateGate(i.tool, r.ran.value.run.machine.calls[n].args, t.gate).NeedsApproval?
    ensures var s := Conversation(js, turns);
            && s.parked.Some? && s.parked.value.reason.AwaitingConfirmation? && t.now < s.parked.value.expiresAt
            && IsConfirmationMessage(t.message) && !IsDenialMessage(t.message)
            && s.parked.value.payload.pendingInstructionId == i.id
            && (RegistryHolds(t.functions, s.live) ==>
                  AskedAbout(s.parked.value, i, Turn(js, s.parked, t).ran.value.run.machine.calls[n]))
  {
    hide ExecutePlan, Startable, RehydrateSuspension, ParkedOk, IsDenialMessage, IsConfirmationMessage, EvaluateGate, Conversation,
      AskedAbout, RegistryHolds;
    var s := Conversation(js, turns);
    ConversationKeeps(js, turns);
    if !Resumes(js, s.parked, t) {
      var plan := ResolvedAll(t.proposal.value.bound);
      FreshStartable(t.proposal.value.bound);
      OnlyApproved(plan, [], NewMeter(), DepsFor(js, t, {}), n, i);
    } else {
      var p := s.parked.value;
      var r := RehydrateSuspension(js, p.payload, t.message, t.functions, t.registryHash).value;
      var approved := if p.reason.AwaitingConfirmation? then {r.pendingInstructionId} else {};
      ResumeStarts(js, s.live, p, t.message, t.functions, t.registryHash);
      OnlyApproved(r.plan.instructions, r.state.ledger, NewMeter(), DepsFor(js, t, approved), n, i);
      if RegistryHolds(t.functions, s.live) {
        SamePlan(js, s.live, p, t.message, t.functions, t.registryHash);
        SameCall(js, s.live, p, t, approved, n, i);
      }
    }
  }

  /** Every run of every conversation starts from a well wired plan and a ledger of its steps, so all that is proved of runs holds of it. */
  lemma EveryRunStartable(js: Js, turns: seq<TurnInput>, t: TurnInput)
    requires Turn(js, Conversation(js, turns).parked, t).ran.Some?
    ensures var ran := Turn(js, Conversation(js, turns).parked, t).ran.value;
            && Startable(ran.instructions, ran.start) && ran == RunTurn(js, t, ran.instructions, ran.start, ran.approved)
            && ran.run.outcome != Blocked(Stalled) && ran.run.waves <= |ran.instructions| - |ran.start|
  {
    hide ExecutePlan, Startable, RehydrateSuspension, ParkedOk, IsDenialMessage, IsConfirmationMessage, Conversation, ResolvedAll;
    var s := Conversation(js, turns);
    ConversationKeeps(js, turns);
    if !Resumes(js, s.parked, t) {
      FreshStartable(t.proposal.value.bound);
      RunEnds(ResolvedAll(t.proposal.value.bound), [], NewMeter(), DepsFor(js, t, {}));
    } else {
      var p := s.parked.value;
      var r := RehydrateSuspension(js, p.payload, t.message, t.functions, t.registryHash).value;
      var approved := if p.reason.AwaitingConfirmation? then {r.pendingInstructionId} else {};
      ResumeStarts(js, s.live, p, t.message, t.functions, t.registryHash);
      RunEnds(r.plan.instructions, r.state.ledger, NewMeter(), DepsFor(js, t, approved));
    }
  }
}
