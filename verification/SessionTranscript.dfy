/** What the history of a run holds: the tail of all that was said, and how the journal tells it. */
module SessionTranscript {
  import opened Wrappers
  import opened Chat
  import opened History
  import opened Compaction
  import opened Session
  import opened SessionSafety
  import opened SessionTails
  import opened SessionTurns
  import opened Wording
  import opened Sequences

  // ---------------------------------------------------------------- what is said

  /** The session after a user's text. */
  function Begun(s: State, text: string): State {
    s.(history := s.history + [Message(User, text, [], [], None, None, None)], log := s.log + [UserRecord(text)])
  }

  /** What a turn adds to the history behind the one its answer was given to. */
  ghost function TurnAdds(c: Config, s: State, t: Turn): seq<Message> {
    if t.cancelled then []
    else
      match Ask(AutoCompacted(c, s, t.summary), t).answer
      case Replied(r) =>
        if r.calls == [] then [ReplyMessage(Continue(r, t.continuations, MAX_LENGTH_CONTINUATIONS))]
        else BatchAndReminder(r, t)
      case _ => []
  }

  ghost function TurnsAdd(c: Config, s: State, turns: seq<Turn>, left: nat, last: Option<Reply>): seq<Message>
    decreases left
  {
    if left == 0 then if last.None? then [] else [ReplyMessage(last.value)]
    else if turns == [] then []
    else
      TurnAdds(c, s, turns[0]) +
      match TakeTurn(c, s, turns[0])
      case GoesOn(s1) => TurnsAdd(c, s1, turns[1..], left - 1, last)
      case Ends(_, _) => []
  }

  /** All that was said since the last clear or reset, after one more step: compaction plays no part in it. */
  ghost function StepAdds(c: Config, s: State, a: Action, full: seq<Message>): seq<Message> {
    match a
    case DoSend(input, script) =>
      if !script.capable || !script.accepted then full
      else
        full + ([Message(User, input, [], [], None, None, None)]
                + TurnsAdd(c, Begun(s, input), script.turns, c.maxTurns, script.last))
    case DoInject(source, content) =>
      full + [Message(User, INJECTED_HEAD + source + INJECTED_MIDDLE + content, [], [], None, None, None)]
    case DoRestore(lines) => full + RestoredMessages(lines)
    case DoClear => []
    case DoReset => []
    case DoCompact(_) => full
  }

  ghost function Transcript(c: Config, s: State, actions: seq<Action>, full: seq<Message>): seq<Message>
    decreases |actions|
  {
    if actions == [] then full
    else Transcript(c, Step(c, s, actions[0]), actions[1..], StepAdds(c, s, actions[0], full))
  }

  // ---------------------------------------------------------------- the history is a tail of it

  lemma TurnAppends(c: Config, s: State, t: Turn)
    ensures var s' := TakeTurn(c, s, t).state;
            if t.cancelled then s' == s
            else s'.history == Ask(AutoCompacted(c, s, t.summary), t).state.history + TurnAdds(c, s, t)
                 && s'.summaries == Ask(AutoCompacted(c, s, t.summary), t).state.summaries
  {
    TurnIs(c, s, t);
    if !t.cancelled {
      hide Ask, AutoCompacted, Pieces, AllExecuted, Joined, CutShort, Continue, BatchMessages, BatchRecords, PushBatch;
      var asked := Ask(AutoCompacted(c, s, t.summary), t);
      hide TurnTaken, BatchAndReminder;
      if asked.answer.Replied? {
        if asked.answer.reply.calls != [] {
          TakenAppends(c, asked.state, asked.answer.reply, t, TakeTurn(c, s, t));
        }
      }
    }
  }

  lemma TakenAppends(c: Config, s: State, r: Reply, t: Turn, out: TurnResult)
    requires r.calls != [] && TurnTaken(c, s, Replied(r), t, out)
    ensures out.state.history == s.history + BatchAndReminder(r, t) && out.state.summaries == s.summaries
  {
    hide BatchAndReminder;
  }

  /** No prune and no fold in a turn: every message is still there, and no summary was asked for. */
  ghost predicate QuietTurn(c: Config, s: State, t: Turn) {
    !t.cancelled ==>
      var s0 := AutoCompacted(c, s, t.summary);
      |s0.history| == |s.history| && Ask(s0, t).state.summaries == s.summaries
  }

  lemma TurnLeavesTail(c: Config, s: State, t: Turn, full: seq<Message>)
    requires NoSystem(full) && TailOf(full, s.history)
    ensures TailOf(full + TurnAdds(c, s, t), TakeTurn(c, s, t).state.history)
    ensures NoSystem(full + TurnAdds(c, s, t))
    ensures QuietTurn(c, s, t) && Shortens(full, s.history) ==>
              Shortens(full + TurnAdds(c, s, t), TakeTurn(c, s, t).state.history)
  {
    hide TailOf, Shortens, AutoCompacted, Ask, TakeTurn;
    TurnAppends(c, s, t);
    AddsNoSystem(c, s, t);
    hide NoSystem;
    NoSystemConcat(full, TurnAdds(c, s, t));
    hide TurnAdds;
    if t.cancelled {
      assert TurnAdds(c, s, t) == [] by { CancelledAddsNothing(c, s, t); }
      assert full + [] == full;
    } else {
      TailHasNoSystem(full, s.history);
      var s0 := AutoCompacted(c, s, t.summary);
      var s1 := Ask(s0, t).state;
      CompactedLeavesTail(c, s, t.summary);
      AskLeavesTail(s0, t);
      TailOfTail(full, s.history, s0.history);
      TailOfTail(full, s0.history, s1.history);
      TailGrows(full, s1.history, TurnAdds(c, s, t));
      if QuietTurn(c, s, t) && Shortens(full, s.history) {
        ShortensTwice(full, s.history, s0.history);
        ShortensGrow(full, s0.history, TurnAdds(c, s, t));
      }
    }
  }

  lemma CancelledAddsNothing(c: Config, s: State, t: Turn)
    requires t.cancelled
    ensures TurnAdds(c, s, t) == []
  {
  }

  lemma ShortensTwice(f: seq<Message>, g: seq<Message>, h: seq<Message>)
    requires Shortens(f, g) && Shortens(g, h)
    ensures Shortens(f, h)
  {
    forall i | 0 <= i < |f| ensures SameButCut(f[i], h[i]) {
      assert SameButCut(f[i], g[i]) && SameButCut(g[i], h[i]);
    }
  }

  lemma ShortensGrow(f: seq<Message>, h: seq<Message>, more: seq<Message>)
    requires Shortens(f, h)
    ensures Shortens(f + more, h + more)
  {
  }

  lemma NoSystemConcat(a: seq<Message>, b: seq<Message>)
    ensures NoSystem(a + b) <==> NoSystem(a) && NoSystem(b)
  {
    assert (forall m | m in a :: m in a + b) && forall m | m in b :: m in a + b;
  }

  lemma AddsNoSystem(c: Config, s: State, t: Turn)
    ensures NoSystem(TurnAdds(c, s, t))
  {
    hide Ask, AutoCompacted, Pieces, AllExecuted, Continue;
    if !t.cancelled {
      var answer := Ask(AutoCompacted(c, s, t.summary), t).answer;
      if answer.Replied? && answer.reply.calls != [] {
        BatchIs(answer.reply.calls, t.outcomes);
        BatchAnswers(answer.reply.calls, t.outcomes);
      }
    }
  }

  ghost predicate QuietTurns(c: Config, s: State, turns: seq<Turn>, left: nat)
    decreases left
  {
    left > 0 && turns != [] ==>
      && QuietTurn(c, s, turns[0])
      && match TakeTurn(c, s, turns[0])
         case GoesOn(s1) => QuietTurns(c, s1, turns[1..], left - 1)
         case Ends(_, _) => true
  }

  /** Nothing is pruned or folded in a step. */
  ghost predicate QuietStep(c: Config, s: State, a: Action) {
    match a
    case DoSend(input, script) =>
      script.capable && script.accepted ==> QuietTurns(c, Begun(s, input), script.turns, c.maxTurns)
    case DoCompact(summary) => CompactNow(s, summary).summaries == s.summaries
    case _ => true
  }

  ghost predicate QuietRun(c: Config, s: State, actions: seq<Action>)
    decreases |actions|
  {
    actions != [] ==> QuietStep(c, s, actions[0]) && QuietRun(c, Step(c, s, actions[0]), actions[1..])
  }

  /** The history is a tail of what was said, and all of it as long as nothing was pruned or folded. */
  ghost predicate Remembers(full: seq<Message>, h: seq<Message>, quiet: bool) {
    NoSystem(full) && TailOf(full, h) && (quiet ==> Shortens(full, h))
  }

  lemma RemembersMore(full: seq<Message>, h: seq<Message>, quiet: bool, more: seq<Message>)
    requires Remembers(full, h, quiet) && NoSystem(more)
    ensures Remembers(full + more, h + more, quiet)
  {
    hide TailOf, Shortens, NoSystem;
    TailGrows(full, h, more);
    NoSystemConcat(full, more);
    if quiet {
      ShortensGrow(full, h, more);
    }
  }

  lemma TurnRemembers(c: Config, s: State, t: Turn, full: seq<Message>, quiet: bool)
    requires Remembers(full, s.history, quiet) && (quiet ==> QuietTurn(c, s, t))
    ensures Remembers(full + TurnAdds(c, s, t), TakeTurn(c, s, t).state.history, quiet)
  {
    hide TailOf, Shortens, NoSystem, QuietTurn, TurnAdds, TakeTurn;
    TurnLeavesTail(c, s, t, full);
  }

  lemma LimitRemembers(s: State, last: Option<Reply>, full: seq<Message>, quiet: bool)
    requires Remembers(full, s.history, quiet)
    ensures Remembers(full + if last.None? then [] else [ReplyMessage(last.value)], LimitExit(s, last).state.history, quiet)
  {
    hide Remembers;
    if last.None? {
      assert full + [] == full;
    } else {
      RemembersMore(full, s.history, quiet, [ReplyMessage(last.value)]);
    }
  }

  lemma {:induction false} TurnsRemember(c: Config, s: State, turns: seq<Turn>, left: nat, last: Option<Reply>,
                                         full: seq<Message>, quiet: bool)
    requires Remembers(full, s.history, quiet) && (quiet ==> QuietTurns(c, s, turns, left))
    ensures Remembers(full + TurnsAdd(c, s, turns, left, last), RunTurns(c, s, turns, left, last).state.history, quiet)
    decreases left
  {
    hide Remembers, TakeTurn, TurnAdds, LimitExit, QuietTurn;
    if left == 0 {
      LimitRemembers(s, last, full, quiet);
    } else if turns == [] {
      assert full + [] == full;
    } else {
      TurnRemembers(c, s, turns[0], full, quiet);
      var adds := TurnAdds(c, s, turns[0]);
      var turn := TakeTurn(c, s, turns[0]);
      if turn.GoesOn? {
        TurnsRemember(c, turn.state, turns[1..], left - 1, last, full + adds, quiet);
        ConcatAssoc(full, adds, TurnsAdd(c, turn.state, turns[1..], left - 1, last));
      } else {
        assert adds + [] == adds;
      }
    }
  }

  lemma SendRemembers(c: Config, s: State, input: string, script: Script, full: seq<Message>, quiet: bool)
    requires Remembers(full, s.history, quiet) && (quiet ==> QuietStep(c, s, DoSend(input, script)))
    ensures Remembers(StepAdds(c, s, DoSend(input, script), full), Send(c, s, input, script).state.history, quiet)
  {
    hide Remembers, RunTurns, QuietTurns, TurnsAdd;
    if script.capable && script.accepted {
      var first := [Message(User, input, [], [], None, None, None)];
      RemembersMore(full, s.history, quiet, first);
      TurnsRemember(c, Begun(s, input), script.turns, c.maxTurns, script.last, full + first, quiet);
      ConcatAssoc(full, first, TurnsAdd(c, Begun(s, input), script.turns, c.maxTurns, script.last));
    }
  }

  lemma {:induction false} RestoredHasNoSystem(lines: seq<Line>)
    ensures NoSystem(RestoredMessages(lines))
  {
    if lines != [] && !lines[0].Garbage? {
      RestoredHasNoSystem(lines[1..]);
      NoSystemConcat(RestoredMessage(lines[0]), RestoredMessages(lines[1..]));
    }
  }

  lemma CommandRemembers(s: State, summary: Option<string>, full: seq<Message>, quiet: bool)
    requires Remembers(full, s.history, quiet) && (quiet ==> CompactNow(s, summary).summaries == s.summaries)
    ensures Remembers(full, CompactNow(s, summary).history, quiet)
  {
    hide TailOf, Shortens, NoSystem, CompactNow;
    CommandLeavesTail(s, summary);
    TailOfTail(full, s.history, CompactNow(s, summary).history);
    if quiet {
      ShortensTwice(full, s.history, CompactNow(s, summary).history);
    }
  }

  lemma NothingSaid(quiet: bool)
    ensures Remembers([], [], quiet)
  {
    ShortensItself([]);
  }

  lemma StepRemembers(c: Config, s: State, a: Action, full: seq<Message>, quiet: bool)
    requires Remembers(full, s.history, quiet) && (quiet ==> QuietStep(c, s, a))
    ensures Remembers(StepAdds(c, s, a, full), Step(c, s, a).history, quiet)
  {
    hide Remembers, CompactNow;
    match a {
      case DoSend(input, script) =>
        SendRemembers(c, s, input, script, full, quiet);
      case DoInject(source, content) =>
        RemembersMore(full, s.history, quiet,
                      [Message(User, INJECTED_HEAD + source + INJECTED_MIDDLE + content, [], [], None, None, None)]);
      case DoRestore(lines) =>
        RestoredHasNoSystem(lines);
        RemembersMore(full, s.history, quiet, RestoredMessages(lines));
      case DoCompact(summary) => CommandRemembers(s, summary, full, quiet);
      case _ => NothingSaid(quiet);
    }
  }

  lemma {:induction false} RunRemembers(c: Config, s: State, actions: seq<Action>, full: seq<Message>, quiet: bool)
    requires Remembers(full, s.history, quiet) && (quiet ==> QuietRun(c, s, actions))
    ensures Remembers(Transcript(c, s, actions, full), RunActions(c, s, actions).history, quiet)
    decreases |actions|
  {
    if actions != [] {
      hide Remembers, Step, StepAdds, QuietStep;
      StepRemembers(c, s, actions[0], full, quiet);
      RunRemembers(c, Step(c, s, actions[0]), actions[1..], StepAdds(c, s, actions[0], full), quiet);
    }
  }

  /**
   Over every run the history is the tail of all that was said since the last clear or reset, with one plain note in the
   place of the rest or none; only texts of tool results are cut. Without a prune or a fold it is all of it.
   */
  lemma {:induction false} HistoryIsTail(c: Config, actions: seq<Action>)
    ensures var s := RunActions(c, INITIAL, actions);
            var full := Transcript(c, INITIAL, actions, []);
            && NoSystem(s.history) && TailOf(full, s.history)
            && (QuietRun(c, INITIAL, actions) ==> Shortens(full, s.history))
  {
    hide TailOf, Shortens, RunActions, Transcript, QuietRun;
    NothingSaid(QuietRun(c, INITIAL, actions));
    RunRemembers(c, INITIAL, actions, [], QuietRun(c, INITIAL, actions));
    TailHasNoSystem(Transcript(c, INITIAL, actions, []), RunActions(c, INITIAL, actions).history);
  }
}
