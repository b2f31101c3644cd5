/** What a turn replies after a run, and what of a plan survives its parks. */
module Replies {
  import opened Wrappers
  import opened ToolSchema
  import opened Gates
  import opened Plans
  import opened Resolver
  import opened Execution
  import opened PlanRuns
  import opened Resume
  import opened Sessions

  // ---- replies ----

  /** A finished plan is summed up, and so is one that the budget cut short after some calls; a question is asked, a refusal explained. */
  predicate ReplyFits(reply: Reply, goal: string, run: Execution.Run) {
    var done := run.machine.state.ledger;
    match run.outcome
    case Complete => reply == Synthesis(goal, done)
    case Suspend(_, _, _, question) => reply == Asked(question)
    case Blocked(stop) => reply == if stop.OutOfBudget? && |done| > 0 then Synthesis(goal, done) else Stopped(stop)
  }

  /** The turn that a session's live plan began in. */
  function Origin(js: Js, turns: seq<TurnInput>): Option<TurnInput> {
    if turns == [] then None
    else
      var init, t := turns[..|turns| - 1], turns[|turns| - 1];
      if Resumes(js, Conversation(js, init).parked, t) then Origin(js, init) else Some(t)
  }

  /** The payload is about the goal and the message that the plan began with. */
  predicate About(p: Payload, origin: Option<TurnInput>) {
    origin.Some? && origin.value.proposal.Some? && p.goal == origin.value.proposal.value.goal && p.userMessage == origin.value.message
  }

  /** What a run leaves parked and what is replied carry the goal and the message it was run for. */
  lemma Finished(t: TurnInput, goal: string, userMessage: string, recoilCount: nat, ran: Ran)
    ensures var r := FinishTurn(t, goal, userMessage, recoilCount, ran);
            && r.ran == Some(ran) && ReplyFits(r.reply, goal, ran.run)
            && (r.parked.Some? ==> r.parked.value.payload.goal == goal && r.parked.value.payload.userMessage == userMessage)
  {
  }

  lemma RanAbout(js: Js, parked: Option<Parked>, t: TurnInput, origin: Option<TurnInput>)
    requires parked.Some? ==> About(parked.value.payload, origin)
    ensures var r, from := Turn(js, parked, t), if Resumes(js, parked, t) then origin else Some(t);
            && (r.parked.Some? ==> About(r.parked.value.payload, from))
            && (r.ran.Some? ==> from.Some? && from.value.proposal.Some? && ReplyFits(r.reply, from.value.proposal.value.goal, r.ran.value.run))
  {
    hide ExecutePlan, IsDenialMessage, IsConfirmationMessage, ResolvedAll, RehydrateSuspension, FinishTurn, ReplyFits;
    forall goal, userMessage, recoilCount, ran
      ensures var r := FinishTurn(t, goal, userMessage, recoilCount, ran);
              && r.ran == Some(ran) && ReplyFits(r.reply, goal, ran.run)
              && (r.parked.Some? ==> r.parked.value.payload.goal == goal && r.parked.value.payload.userMessage == userMessage)
    {
      Finished(t, goal, userMessage, recoilCount, ran);
    }
    if parked.Some? {
      RehydrateFails(js, parked.value.payload, t.message, t.functions, t.registryHash);
    }
  }

  lemma {:induction false} ParkedAbout(js: Js, turns: seq<TurnInput>)
    ensures var s := Conversation(js, turns); s.parked.Some? ==> About(s.parked.value.payload, Origin(js, turns))
  {
    hide Turn, Resumes;
    if turns != [] {
      var init, t := turns[..|turns| - 1], turns[|turns| - 1];
      ParkedAbout(js, init);
      RanAbout(js, Conversation(js, init).parked, t, Origin(js, init));
    }
  }

  /** Whatever happened in between, a run's reply fits its outcome, and is about the goal its plan began with. */
  lemma RepliesFit(js: Js, turns: seq<TurnInput>, t: TurnInput)
    requires Turn(js, Conversation(js, turns).parked, t).ran.Some?
    ensures var r, from := Turn(js, Conversation(js, turns).parked, t), Origin(js, turns + [t]);
            from.Some? && from.value.proposal.Some? && ReplyFits(r.reply, from.value.proposal.value.goal, r.ran.value.run)
  {
    hide Turn, Resumes, Conversation, ReplyFits;
    ParkedAbout(js, turns);
    RanAbout(js, Conversation(js, turns).parked, t, Origin(js, turns));
    assert (turns + [t])[..|turns|] == turns;
  }

  /** What else a turn can reply: that no plan was proposed, that its steps' ids clash, or what comes of an answer that runs nothing. */
  lemma FreshReplies(js: Js, t: TurnInput)
    ensures var r := Turn(js, None, t);
            && (t.proposal.None? <==> r.reply == NoPlan)
            && (t.proposal.Some? && !DistinctSteps(t.proposal.value.bound) <==> r.reply == Tangled)
            && (r.ran.Some? <==> t.proposal.Some? && DistinctSteps(t.proposal.value.bound))
            && (r.ran.Some? ==> r.ran.value == RunTurn(js, t, ResolvedAll(t.proposal.value.bound), [], {}))
  {
    hide ExecutePlan, RehydrateSuspension, ResolvedAll;
  }
}
