/** Saying no: a parked plan is given up for good, whatever it was waiting for. */
module Denials {
  import opened Wrappers
  import opened ToolSchema
  import opened Gates
  import opened Plans
  import opened Execution
  import opened PlanRuns
  import opened PlanTheorems
  import opened Resume
  import opened FieldNames
  import opened Sessions

  // ---- what counts as a yes or a no ----

  /** The message is one of the words, in any case, with any space around it. */
  predicate Says(message: string, words: set<string>) {
    exists w <- words :: AlikeAll(Trim(message), w)
  }

  /** A text without capitals. */
  predicate InSmall(w: string) {
    forall i :: 0 <= i < |w| ==> !('A' <= w[i] <= 'Z')
  }

  lemma LowerAlike(s: string, w: string)
    requires InSmall(w)
    ensures Lower(s) == w <==> AlikeAll(s, w)
  {
    hide Alike;
    if |s| == |w| {
      forall i | 0 <= i < |s|
        ensures Alike(s[i], w[i]) <==> LowerChar(s[i]) == w[i]
      {
        SmallAlike(s[i], w[i]);
      }
    }
  }

  lemma SmallAlike(c: char, d: char)
    requires !('A' <= d <= 'Z')
    ensures Alike(c, d) <==> LowerChar(c) == d
  {
    forall i: nat | i < 26
      ensures CAPITALS[i] as int == 'A' as int + i && SMALL[i] as int == 'a' as int + i
    {
      Letters(i);
    }
    if 'A' <= c <= 'Z' && LowerChar(c) == d {
      assert CAPITALS[c as int - 'A' as int] == c;
    }
  }

  lemma SaysOneOf(message: string)
    ensures IsConfirmationMessage(message) <==> Says(message, CONFIRMATIONS)
    ensures IsDenialMessage(message) <==> Says(message, DENIALS)
  {
    hide Trim, AlikeAll, Lower;
    forall w | w in CONFIRMATIONS + DENIALS
      ensures Lower(Trim(message)) == w <==> AlikeAll(Trim(message), w)
    {
      AllSmall(w);
      LowerAlike(Trim(message), w);
    }
  }

  lemma AllSmall(w: string)
    requires w in CONFIRMATIONS + DENIALS
    ensures InSmall(w)
  {
  }

  /** No message says both. */
  lemma NeverBoth(message: string)
    ensures !(IsConfirmationMessage(message) && IsDenialMessage(message))
  {
    hide Lower, Trim;
    assert CONFIRMATIONS !! DENIALS by { Apart(); }
  }

  lemma Apart()
    ensures CONFIRMATIONS !! DENIALS
  {
  }

  // ---- what a no does ----

  /** The session holds an unexpired question, and the message says no. */
  predicate Declines(s: Session, t: TurnInput) {
    s.parked.Some? && t.now < s.parked.value.expiresAt && IsDenialMessage(t.message)
  }

  lemma DeclinedTurn(js: Js, s: Session, t: TurnInput)
    requires Declines(s, t)
    ensures Turn(js, s.parked, t) == TurnResult(None, Abandoned(s.parked.value.reason), None)
    ensures Next(js, s, t) == s.(parked := None)
  {
    hide ExecutePlan, RehydrateSuspension, IsDenialMessage, IsConfirmationMessage;
  }

  /** Calls already made stay as they are; the life counter never goes back. */
  lemma CallsGrow(js: Js, s: Session, t: TurnInput)
    ensures var n := Next(js, s, t);
            && s.life <= n.life && |s.calls| <= |n.calls| && n.calls[..|s.calls|] == s.calls
            && forall k :: |s.calls| <= k < |n.calls| ==> n.calls[k].life == n.life
    ensures s.parked.None? ==> Next(js, s, t).life == s.life + 1
  {
    hide Turn, Resumes;
    NothingResumes(js, s, t);
  }

  lemma NothingResumes(js: Js, s: Session, t: TurnInput)
    ensures s.parked.None? ==> !Resumes(js, s.parked, t)
  {
    hide ResumeTurn;
  }

  /** Nothing more is called for life `life`. */
  predicate Over(s: Session, calls: seq<LifeCall>, life: nat) {
    && (s.life == life ==> s.parked.None?) && life <= s.life
    && |calls| <= |s.calls| && s.calls[..|calls|] == calls
    && forall k :: |calls| <= k < |s.calls| ==> s.calls[k].life > life
  }

  lemma StaysOver(js: Js, s: Session, t: TurnInput, calls: seq<LifeCall>, life: nat)
    requires Over(s, calls, life)
    ensures Over(Next(js, s, t), calls, life)
  {
    hide Next;
    CallsGrow(js, s, t);
    var n := Next(js, s, t);
    assert n.calls[..|calls|] == n.calls[..|s.calls|][..|calls|];
    forall k | |calls| <= k < |n.calls|
      ensures n.calls[k].life > life
    {
      if k < |s.calls| {
        assert n.calls[k] == n.calls[..|s.calls|][k];
      }
    }
  }

  lemma {:induction false} EndsFor(js: Js, turns: seq<TurnInput>, more: seq<TurnInput>, calls: seq<LifeCall>, life: nat)
    requires Over(Conversation(js, turns), calls, life)
    ensures Over(Conversation(js, turns + more), calls, life)
    decreases |more|
  {
    hide Next, Over;
    if more == [] {
      assert turns + more == turns;
    } else {
      var init, t := more[..|more| - 1], more[|more| - 1];
      EndsFor(js, turns, init, calls, life);
      assert (turns + more)[..|turns + more| - 1] == turns + init;
      StaysOver(js, Conversation(js, turns + init), t, calls, life);
    }
  }

  /**
   A no to an open question, whether for a value or for approval, is answered by giving the plan up: nothing is
   called and nothing stays parked, and however the conversation goes on, no call is ever added to that plan.
   */
  lemma DenialAbandons(js: Js, turns: seq<TurnInput>, t: TurnInput, more: seq<TurnInput>)
    requires Declines(Conversation(js, turns), t)
    ensures var s, n, later := Conversation(js, turns), Conversation(js, turns + [t]), Conversation(js, turns + [t] + more);
            && Turn(js, s.parked, t).reply == Abandoned(s.parked.value.reason) && n.parked.None? && n.calls == s.calls
            && |s.calls| <= |later.calls| && later.calls[..|s.calls|] == s.calls
            && forall k :: |s.calls| <= k < |later.calls| ==> later.calls[k].life > s.life
  {
    hide Next, Turn, IsDenialMessage;
    var s := Conversation(js, turns);
    DeclinedTurn(js, s, t);
    assert (turns + [t])[..|turns|] == turns;
    assert s.calls[..|s.calls|] == s.calls;
    EndsFor(js, turns + [t], more, s.calls, s.life);
  }

  // ---- the other answers ----

  /** Anything but a yes to a request for approval leaves it open, and asks again; a value that does not fit likewise. */
  lemma AsksAgain(js: Js, s: Session, t: TurnInput)
    requires s.parked.Some? && t.now < s.parked.value.expiresAt && !IsDenialMessage(t.message)
    requires var p := s.parked.value;
             if p.reason.AwaitingConfirmation? then !IsConfirmationMessage(t.message)
             else RehydrateSuspension(js, p.payload, t.message, t.functions, t.registryHash) == Err(AnswerRejected)
    ensures Turn(js, s.parked, t) == TurnResult(s.parked, Asked(s.parked.value.payload.ask.question), None)
    ensures Next(js, s, t) == s
  {
    hide ExecutePlan, RehydrateSuspension, IsDenialMessage, IsConfirmationMessage;
  }

  /** A plan that has expired, or that cannot be rebuilt, is given up, and the message is planned for afresh. */
  lemma StartsAfresh(js: Js, s: Session, t: TurnInput)
    requires s.parked.Some?
    requires || s.parked.value.expiresAt <= t.now
             || (&& !IsDenialMessage(t.message) && (s.parked.value.reason.AwaitingConfirmation? ==> IsConfirmationMessage(t.message))
                 && RehydrateSuspension(js, s.parked.value.payload, t.message, t.functions, t.registryHash).Err?
                 && (s.parked.value.reason.AwaitingInfo? ==>
                       RehydrateSuspension(js, s.parked.value.payload, t.message, t.functions, t.registryHash) != Err(AnswerRejected)))
    ensures Turn(js, s.parked, t) == Turn(js, None, t) && Next(js, s, t).life == s.life + 1
  {
    hide ExecutePlan, RehydrateSuspension, IsDenialMessage, IsConfirmationMessage, FreshTurn;
  }
}
