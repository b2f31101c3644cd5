/** How often one plan asks the user for a missing value. */
module Recoils {
  import opened Wrappers
  import opened Plans
  import opened Resolver
  import opened Execution
  import opened PlanRuns
  import opened PlanTheorems
  import opened Resume
  import opened Sessions

  /** A run ends by asking for a value; that question is parked; a parked question's answer is taken. */
  datatype Happening = InfoAsked | InfoParked | AnswerTaken

  predicate Happens(js: ToolSchema.Js, s: Session, t: TurnInput, h: Happening) {
    var r := Turn(js, s.parked, t);
    && r.ran.Some?
    && match h
       case InfoAsked => r.ran.value.run.outcome.Suspend? && r.ran.value.run.outcome.reason.AwaitingInfo?
       case InfoParked => r.parked.Some? && r.parked.value.reason.AwaitingInfo?
       case AnswerTaken => Resumes(js, s.parked, t) && s.parked.value.reason.AwaitingInfo?
  }

  /** How many turns of plan life `life` had it happen. */
  function Count(js: ToolSchema.Js, turns: seq<TurnInput>, life: nat, h: Happening): nat {
    if turns == [] then 0
    else
      var before, t := turns[..|turns| - 1], turns[|turns| - 1];
      var s := Conversation(js, before);
      Count(js, before, life, h) + if Next(js, s, t).life == life && Happens(js, s, t, h) then 1 else 0
  }

  /** The counts of one life, with at most `max` questions parked. */
  predicate Within(asked: nat, parked: nat, taken: nat, max: nat) {
    parked <= max && taken <= parked <= taken + 1 && parked <= asked <= taken + 1
  }

  /** While a plan is parked its recoil count is the number of answers taken, one behind the questions if it waits for another. */
  predicate ParkedCounts(p: Parked, asked: nat, parked: nat, taken: nat) {
    p.payload.recoilCount == taken && asked == parked == taken + if p.reason.AwaitingInfo? then 1 else 0
  }

  predicate CountsOk(js: ToolSchema.Js, turns: seq<TurnInput>, life: nat, max: nat) {
    var s := Conversation(js, turns);
    var asked, parked, taken := Count(js, turns, life, InfoAsked), Count(js, turns, life, InfoParked), Count(js, turns, life, AnswerTaken);
    && Within(asked, parked, taken, max)
    && (life > s.life ==> asked == 0)
    && (life == s.life && s.parked.Some? ==> ParkedCounts(s.parked.value, asked, parked, taken))
  }

  /** One turn of the live plan, over a parked plan or none. */
  lemma TurnCounts(js: ToolSchema.Js, s: Session, t: TurnInput)
    ensures var r := Turn(js, s.parked, t);
            var before := if Resumes(js, s.parked, t) then s.parked.value.payload.recoilCount else 0;
            var taken := before + if Happens(js, s, t, AnswerTaken) then 1 else 0;
            && (r.ran.Some? && r.parked.Some? ==> r.parked.value.payload.recoilCount == taken)
            && (Happens(js, s, t, InfoParked) <==> Happens(js, s, t, InfoAsked) && taken < t.maxRecoils)
            && (r.ran.Some? && r.parked.Some? && Happens(js, s, t, InfoAsked) ==> r.parked.value.reason.AwaitingInfo?)
            && (r.ran.None? && r.parked.Some? ==> Resumes(js, s.parked, t) && r.parked == s.parked)
  {
    hide ExecutePlan, RehydrateSuspension, IsDenialMessage, IsConfirmationMessage, ResolvedAll;
  }

  lemma CountNext(js: ToolSchema.Js, before: seq<TurnInput>, t: TurnInput, life: nat, h: Happening)
    ensures var s := Conversation(js, before);
            var now := if Next(js, s, t).life == life && Happens(js, s, t, h) then 1 else 0;
            Count(js, before + [t], life, h) == Count(js, before, life, h) + now
  {
    hide Conversation, Next, Happens;
    assert (before + [t])[..|before|] == before;
  }

  lemma CountsNext(js: ToolSchema.Js, before: seq<TurnInput>, t: TurnInput, life: nat, max: nat)
    requires CountsOk(js, before, life, max) && t.maxRecoils <= max
    ensures CountsOk(js, before + [t], life, max)
  {
    hide Turn, Resumes, Happens, Conversation, Count;
    var s := Conversation(js, before);
    assert Conversation(js, before + [t]) == Next(js, s, t) by { ConversationNext(js, before, t); }
    CountNext(js, before, t, life, InfoAsked);
    CountNext(js, before, t, life, InfoParked);
    CountNext(js, before, t, life, AnswerTaken);
    TurnCounts(js, s, t);
    TakenMeans(js, s, t);
  }

  lemma ConversationNext(js: ToolSchema.Js, before: seq<TurnInput>, t: TurnInput)
    ensures Conversation(js, before + [t]) == Next(js, Conversation(js, before), t)
  {
    hide Next;
    assert (before + [t])[..|before|] == before;
  }

  lemma TakenMeans(js: ToolSchema.Js, s: Session, t: TurnInput)
    ensures Resumes(js, s.parked, t) ==> s.parked.Some?
    ensures Happens(js, s, t, AnswerTaken) <==> Resumes(js, s.parked, t) && Turn(js, s.parked, t).ran.Some? && s.parked.value.reason.AwaitingInfo?
    ensures var r := Turn(js, s.parked, t); Happens(js, s, t, InfoParked) <==> r.ran.Some? && r.parked.Some? && r.parked.value.reason.AwaitingInfo?
    ensures forall h :: Happens(js, s, t, h) ==> Turn(js, s.parked, t).ran.Some?
  {
    hide ResumeTurn, FreshTurn;
  }

  lemma {:induction false} CountsHold(js: ToolSchema.Js, turns: seq<TurnInput>, life: nat, max: nat)
    requires forall t <- turns :: t.maxRecoils <= max
    ensures CountsOk(js, turns, life, max)
  {
    if turns != [] {
      var before, t := turns[..|turns| - 1], turns[|turns| - 1];
      CountsHold(js, before, life, max);
      CountsNext(js, before, t, life, max);
      assert before + [t] == turns;
    }
  }

  /**
   Whatever the conversation, one plan parks at most the budget's number of info questions, takes at most
   one answer to each, and ends at most one more run with a question, which is asked but not parked.
   */
  lemma RecoilsBounded(js: ToolSchema.Js, turns: seq<TurnInput>, life: nat, max: nat)
    requires forall t <- turns :: t.maxRecoils <= max
    ensures var parked, taken := Count(js, turns, life, InfoParked), Count(js, turns, life, AnswerTaken);
            parked <= max && taken <= parked <= taken + 1 && parked <= Count(js, turns, life, InfoAsked) <= taken + 1
  {
    hide Conversation, Count;
    CountsHold(js, turns, life, max);
  }

  /** A parked plan's recoil count is the number of answers it has taken; the run's next question is parked exactly while that is below the budget. */
  lemma ParkedWithinBudget(js: ToolSchema.Js, turns: seq<TurnInput>, t: TurnInput)
    ensures var s := Conversation(js, turns); s.parked.Some? ==> s.parked.value.payload.recoilCount == Count(js, turns, s.life, AnswerTaken)
    ensures var s := Conversation(js, turns);
            Happens(js, s, t, InfoParked) <==>
              Happens(js, s, t, InfoAsked) && Count(js, turns + [t], Next(js, s, t).life, AnswerTaken) < t.maxRecoils
  {
    hide Conversation, Count, Turn, Resumes, Happens;
    var s, max := Conversation(js, turns), Largest(turns);
    CountsHold(js, turns, s.life, max);
    CountsHold(js, turns, s.life + 1, max);
    CountNext(js, turns, t, Next(js, s, t).life, AnswerTaken);
    TurnCounts(js, s, t);
    TakenMeans(js, s, t);
  }

  /** A budget as large as any turn's. */
  function Largest(turns: seq<TurnInput>): (max: nat)
    ensures forall t <- turns :: t.maxRecoils <= max
  {
    if turns == [] then 0
    else
      var max, t := Largest(turns[..|turns| - 1]), turns[|turns| - 1];
      assert turns == turns[..|turns| - 1] + [t];
      if t.maxRecoils > max then t.maxRecoils else max
  }
}
