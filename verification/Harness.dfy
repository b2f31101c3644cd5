/** The suspension store, and the turn that takes a message, resumes or plans, runs, and parks. */
module Harness {
  import opened Wrappers
  import opened ToolSchema
  import opened Gates
  import opened Plans
  import opened Execution
  import opened Sessions
  import R = Resolver
  import S = Resume
  import X = Executor

  function Lookup<T>(m: map<string, T>, key: string): Option<T> {
    if key in m then Some(m[key]) else None
  }

  /** One parked plan per session. */
  class SuspensionStore {
    const ttl: nat
    var records: map<string, Parked>

    constructor (ttl: nat)
      ensures this.ttl == ttl && records == map[]
    {
      this.ttl, records := ttl, map[];
    }

    /** Replaces whatever the session had parked. */
    method Suspend(sessionId: string, reason: SuspensionReason, payload: S.Payload, now: int)
      modifies this
      ensures records == old(records)[sessionId := Parked(reason, payload, now + ttl)]
    {
      records := records - {sessionId};
      records := records[sessionId := Parked(reason, payload, now + ttl)];
    }

    /** An expired record is cleared on the way. */
    method Get(sessionId: string, now: int) returns (p: Option<Parked>)
      modifies this
      ensures p == Unexpired(Lookup(old(records), sessionId), now)
      ensures records == if p.Some? then old(records) else old(records) - {sessionId}
    {
      if sessionId !in records {
        assert records == records - {sessionId};
        return None;
      }
      var row := records[sessionId];
      if row.expiresAt <= now {
        Clear(sessionId);
        return None;
      }
      p := Some(row);
    }

    method Clear(sessionId: string)
      modifies this
      ensures records == old(records) - {sessionId}
    {
      records := records - {sessionId};
    }
  }

  /** The session's record is `parked`; every other session's is as it was. */
  predicate Slot(now: map<string, Parked>, was: map<string, Parked>, sessionId: string, parked: Option<Parked>) {
    Lookup(now, sessionId) == parked && now - {sessionId} == was - {sessionId}
  }

  /** `finishTurn`: the store is empty for this session when it starts. */
  method Finish(store: SuspensionStore, sessionId: string, t: TurnInput, goal: string, userMessage: string, recoilCount: nat,
                s: seq<Instruction>, state: X.ExecutorState, outcome: Outcome, ghost ran: Ran) returns (reply: Reply)
    requires t.ttl == store.ttl && sessionId !in store.records
    requires ran.instructions == s && ran.run.machine.state == state.View() && ran.run.outcome == outcome
    modifies store
    ensures var r := FinishTurn(t, goal, userMessage, recoilCount, ran);
            reply == r.reply && Slot(store.records, old(store.records), sessionId, r.parked)
  {
    if outcome.Suspend? {
      var withinRecoilBudget := outcome.reason.AwaitingConfirmation? || recoilCount < t.maxRecoils;
      if withinRecoilBudget {
        var ask := S.Ask(AskField(outcome), outcome.instruction.tool.name, outcome.question);
        var payload := S.ToSuspensionPayload(goal, userMessage, t.registryHash, s, state.View(), outcome.instruction.id, ask, recoilCount);
        store.Suspend(sessionId, outcome.reason, payload, t.parkedAt);
      }
      return Asked(outcome.question);
    }
    if outcome.Blocked? {
      if !outcome.stop.OutOfBudget? || state.ledger == [] {
        return Stopped(outcome.stop);
      }
      return Synthesis(goal, state.ledger);
    }
    reply := Synthesis(goal, state.ledger);
  }

  /** Run a plan on a prepared state, then finish the turn. */
  method RunAndFinish(js: Js, store: SuspensionStore, sessionId: string, t: TurnInput, sdk: X.Sdk, goal: string, userMessage: string,
                      recoilCount: nat, s: seq<Instruction>, state: X.ExecutorState, approved: set<string>) returns (reply: Reply)
    requires t.ttl == store.ttl && sessionId !in store.records
    requires sdk.answer == t.answer && sdk.calls == [] && state.View() == Seed(state.ledger)
    modifies store, sdk, state
    ensures var ran := RunTurn(js, t, s, old(state.ledger), approved);
            var r := FinishTurn(t, goal, userMessage, recoilCount, ran);
            && reply == r.reply && sdk.calls == ran.run.machine.calls
            && Slot(store.records, old(store.records), sessionId, r.parked)
  {
    hide ExecutePlan, FinishTurn, Seed;
    var meter := new X.BudgetMeter();
    ghost var ran := RunTurn(js, t, s, state.ledger, approved);
    var outcome := X.ExecutePlan(s, state, meter, sdk, DepsFor(js, t, approved));
    reply := Finish(store, sessionId, t, goal, userMessage, recoilCount, s, state, outcome, ran);
  }

  /** What the calls of a turn are: those of its run, if it made one. */
  function CallsOf(r: TurnResult): seq<Call> {
    if r.ran.None? then [] else r.ran.value.run.machine.calls
  }

  /** `resumeSuspended`: `None` when the parked plan was dropped and the message is to be planned afresh. */
  method ResumeSuspended(js: Js, store: SuspensionStore, sessionId: string, suspended: Parked, t: TurnInput, sdk: X.Sdk) returns (reply: Option<Reply>)
    requires t.ttl == store.ttl && Lookup(store.records, sessionId) == Some(suspended)
    requires sdk.answer == t.answer && sdk.calls == []
    modifies store, sdk
    ensures var r := ResumeTurn(js, suspended, t);
            && (reply.None? <==> r.None?)
            && (r.None? ==> sdk.calls == [] && Slot(store.records, old(store.records), sessionId, None))
            && (r.Some? ==> && reply.value == r.value.reply && sdk.calls == CallsOf(r.value)
                            && Slot(store.records, old(store.records), sessionId, r.value.parked))
  {
    hide ExecutePlan, FinishTurn, S.RehydrateSuspension, IsDenialMessage, IsConfirmationMessage, Seed;
    if IsDenialMessage(t.message) {
      store.Clear(sessionId);
      return Some(Abandoned(suspended.reason));
    }
    if suspended.reason.AwaitingConfirmation? && !IsConfirmationMessage(t.message) {
      return Some(Asked(suspended.payload.ask.question));
    }
    var resumed, state := S.Rehydrate(js, suspended.payload, t.message, t.functions, t.registryHash);
    if resumed.Err? {
      if suspended.reason.AwaitingInfo? && resumed.error.AnswerRejected? {
        return Some(Asked(suspended.payload.ask.question));
      }
      store.Clear(sessionId);
      return None;
    }
    store.Clear(sessionId);
    SeededState(js, suspended.payload, t.message, t.functions, t.registryHash);
    var plan := resumed.value.plan;
    var approved, recoils := {}, suspended.payload.recoilCount + 1;
    if suspended.reason.AwaitingConfirmation? {
      approved, recoils := {resumed.value.pendingInstructionId}, suspended.payload.recoilCount;
    }
    FinishRan(t, plan.goal, suspended.payload.userMessage, recoils, RunTurn(js, t, plan.instructions, state.value.ledger, approved));
    var said := RunAndFinish(js, store, sessionId, t, sdk, plan.goal, suspended.payload.userMessage, recoils, plan.instructions, state.value, approved);
    reply := Some(said);
  }

  lemma SeededState(js: Js, p: S.Payload, answer: string, registry: seq<Tool>, hash: string)
    requires S.RehydrateSuspension(js, p, answer, registry, hash).Ok?
    ensures var state := S.RehydrateSuspension(js, p, answer, registry, hash).value.state; state == Seed(state.ledger)
  {
  }

  lemma FinishRan(t: TurnInput, goal: string, userMessage: string, recoilCount: nat, ran: Ran)
    ensures FinishTurn(t, goal, userMessage, recoilCount, ran).ran == Some(ran)
  {
  }

  /** `runHarness`: a parked plan takes the message first; otherwise what the planner proposes is resolved and run. */
  method RunHarness(js: Js, store: SuspensionStore, sessionId: string, t: TurnInput, sdk: X.Sdk) returns (reply: Reply)
    requires t.ttl == store.ttl
    requires sdk.answer == t.answer && sdk.calls == []
    modifies store, sdk
    ensures var r := Turn(js, Lookup(old(store.records), sessionId), t);
            reply == r.reply && sdk.calls == CallsOf(r) && Slot(store.records, old(store.records), sessionId, r.parked)
  {
    hide ExecutePlan, FinishTurn, ResumeTurn, Seed;
    var suspended := store.Get(sessionId, t.now);
    if suspended.Some? {
      var resumed := ResumeSuspended(js, store, sessionId, suspended.value, t, sdk);
      if resumed.Some? {
        return resumed.value;
      }
    }
    if t.proposal.None? {
      return NoPlan;
    }
    var p := t.proposal.value;
    var resolved := R.ResolvePlan(p.goal, p.nudge, p.bound);
    if resolved.Err? {
      return Tangled;
    }
    var state := new X.ExecutorState([]);
    FinishRan(t, p.goal, t.message, 0, RunTurn(js, t, resolved.value.instructions, [], {}));
    EmptySeed();
    reply := RunAndFinish(js, store, sessionId, t, sdk, p.goal, t.message, 0, resolved.value.instructions, state, {});
  }

  lemma EmptySeed()
    ensures Seed([]) == X.Hydrated([], 0)
  {
  }
}
