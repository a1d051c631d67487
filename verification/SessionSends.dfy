/** One send from the outside: what its first request asks, and what it leaves behind. */
module SessionSends {
  import opened Wrappers
  import opened Chat
  import opened History
  import opened Compaction
  import opened CompactionPass
  import opened Session
  import opened SessionSafety
  import opened SessionTails
  import opened SessionTranscript
  import opened SessionTurns
  import opened Wording

  // ---------------------------------------------------------------- the last message is never lost

  predicate EndsIn(h: seq<Message>, m: Message) {
    h != [] && h[|h| - 1] == m
  }

  /** Whatever is cut, pruned or folded, a history keeps its last message as it is when it is no tool result. */
  lemma PassKeepsLast(t: Thresholds, h: seq<Message>, futile: bool, summary: Option<string>, m: Message)
    requires NoSystem(h) && EndsIn(h, m) && !m.role.Tool?
    ensures EndsIn(AutoCompact(t, h, futile, summary).history, m)
  {
    hide AutoCompact, TotalTokens, ThirdLevel, CutOld, LeastCut;
    var cut, gone := AutoCompactIs(t, h, futile, summary);
    if TotalTokens(h) > t.l1 {
      CutKeepsLast(h, cut);
      assert gone < |cut| by { CutLeavesSome(cut, t.budget, gone); }
      var note, k := ThirdLevelKeepsSuffix(t, cut, gone, futile, summary, AutoCompact(t, h, futile, summary));
      assert cut[k..][|cut| - k - 1] == cut[|cut| - 1];
    }
  }

  lemma CutKeepsLast(h: seq<Message>, cut: seq<Message>)
    requires CutOld(h, cut) && h != [] && !h[|h| - 1].role.Tool?
    ensures cut != [] && cut[|cut| - 1] == h[|h| - 1]
  {
  }

  lemma CutLeavesSome(g: seq<Message>, budget: nat, k: nat)
    requires LeastCut(g, budget, k) && g != []
    ensures k < |g|
  {
    var j := |g| - 1;
    var weight := TotalTokens(g[j..]);
    assert j < k ==> weight > budget && |g| - j > 6;
  }

  // ---------------------------------------------------------------- the first request

  /** The first request between two states is built from a tail of `full` that ends in its last message. */
  ghost predicate FirstAsks(before: seq<seq<Message>>, after: seq<seq<Message>>, full: seq<Message>, m: Message) {
    before < after && EndsIn(after[|before|], m) && TailOf(full, after[|before|])
  }

  lemma AskAsksFirst(s: State, t: Turn)
    ensures s.assembled + [s.history] <= Ask(s, t).state.assembled
  {
    hide CanFold, FoldedAt;
    var n := AskIs(s, t);
    assert seq(n + 1, _ => s.history)[0] == s.history;
  }

  lemma TurnAsksFirst(c: Config, s: State, t: Turn, m: Message)
    requires NoSystem(s.history) && EndsIn(s.history, m) && !m.role.Tool? && !t.cancelled
    ensures FirstAsks(s.assembled, TakeTurn(c, s, t).state.assembled, s.history, m)
  {
    hide AutoCompact, Ask, TailOf, NoSystem, Continue, PushAnswer, PushBatch, PushReminder, BatchStopped;
    var s0 := AutoCompacted(c, s, t.summary);
    PassKeepsLast(c.thresholds, s.history, s.futile, t.summary, m);
    CompactedLeavesTail(c, s, t.summary);
    hide AutoCompacted;
    AskAsksFirst(s0, t);
    TurnOnlyAsksMore(c, s, t);
  }

  lemma TurnOnlyAsksMore(c: Config, s: State, t: Turn)
    ensures var s' := TakeTurn(c, s, t).state;
            if t.cancelled then s' == s else Ask(AutoCompacted(c, s, t.summary), t).state.assembled <= s'.assembled
    ensures s.assembled <= TakeTurn(c, s, t).state.assembled
  {
    if !t.cancelled {
      hide AutoCompact, Ask, Continue, ContinuationRequests, BatchStopped, BatchMessages, BatchRecords, Repeat;
      AskAsksFirst(AutoCompacted(c, s, t.summary), t);
    }
  }

  lemma {:induction false} TurnsOnlyAskMore(c: Config, s: State, turns: seq<Turn>, left: nat, last: Option<Reply>)
    ensures s.assembled <= RunTurns(c, s, turns, left, last).state.assembled
    decreases left
  {
    hide TakeTurn;
    if left > 0 && turns != [] {
      TurnOnlyAsksMore(c, s, turns[0]);
      var turn := TakeTurn(c, s, turns[0]);
      if turn.GoesOn? {
        TurnsOnlyAskMore(c, turn.state, turns[1..], left - 1, last);
      }
    }
  }

  lemma PrefixGoesOn(a: seq<seq<Message>>, b: seq<seq<Message>>, d: seq<seq<Message>>, full: seq<Message>, m: Message)
    requires FirstAsks(a, b, full, m) && b <= d
    ensures FirstAsks(a, d, full, m)
  {
    hide TailOf;
  }

  lemma {:induction false} TurnsAskFirst(c: Config, s: State, turns: seq<Turn>, left: nat, last: Option<Reply>, m: Message)
    requires NoSystem(s.history) && EndsIn(s.history, m) && !m.role.Tool?
    ensures var after := RunTurns(c, s, turns, left, last).state.assembled;
            if left == 0 || (turns != [] && !turns[0].cancelled) then FirstAsks(s.assembled, after, s.history, m)
            else after == s.assembled
  {
    hide TakeTurn, NoSystem, TailOf, FirstAsks;
    var after := RunTurns(c, s, turns, left, last).state.assembled;
    if left == 0 {
      ShortensItself(s.history);
      FirstIs(s.assembled, after, s.history, m);
    } else if turns != [] {
      if turns[0].cancelled {
        TurnOnlyAsksMore(c, s, turns[0]);
        CancelledTurn(c, s, turns[0]);
      } else {
        TurnAsksFirst(c, s, turns[0], m);
        var turn := TakeTurn(c, s, turns[0]);
        if turn.GoesOn? {
          TurnsOnlyAskMore(c, turn.state, turns[1..], left - 1, last);
          PrefixGoesOn(s.assembled, turn.state.assembled, after, s.history, m);
        }
      }
    }
  }

  lemma FirstIs(before: seq<seq<Message>>, after: seq<seq<Message>>, h: seq<Message>, m: Message)
    requires after == before + [h] && EndsIn(h, m) && TailOf(h, h)
    ensures FirstAsks(before, after, h, m)
  {
  }

  lemma CancelledTurn(c: Config, s: State, t: Turn)
    requires t.cancelled
    ensures TakeTurn(c, s, t) == Ends(s, UserCancelled)
  {
  }

  /**
   A send that gets under way asks the model its input: the first request it builds is a tail of the history with the
   input behind it, and ends in the input, however heavy the history is. It builds none exactly when it is refused or the
   user cancels before the first turn.
   */
  lemma InputIsAsked(c: Config, s: State, input: string, script: Script)
    requires NoSystem(s.history)
    ensures var after := Send(c, s, input, script).state.assembled;
            var m := Message(User, input, [], [], None, None, None);
            if script.capable && script.accepted
               && (c.maxTurns == 0 || (script.turns != [] && !script.turns[0].cancelled))
            then FirstAsks(s.assembled, after, s.history + [m], m)
            else after == s.assembled
  {
    hide RunTurns, FirstAsks;
    if script.capable && script.accepted {
      var m := Message(User, input, [], [], None, None, None);
      NoSystemConcat(s.history, [m]);
      TurnsAskFirst(c, Begun(s, input), script.turns, c.maxTurns, script.last, m);
    }
  }

  // ---------------------------------------------------------------- the last message

  /** The history is the one the last request was built from, and `m` behind it. */
  ghost predicate AnsweredBy(s: State, m: Message) {
    s.assembled != [] && s.history == s.assembled[|s.assembled| - 1] + [m]
  }

  ghost predicate RecordedAs(s: State, content: string) {
    s.log != [] && s.log[|s.log| - 1] == AssistantRecord(content, None)
  }

  /** What an exit with an answer leaves: the answer as the last message, behind what the model was asked. */
  ghost predicate Leaves(s: State, e: Exit, last: Option<Reply>) {
    match e
    case FinalAnswer(content) =>
      RecordedAs(s, content)
      && exists reasoning, finish :: AnsweredBy(s, Message(Assistant, content, [], [], None, reasoning, finish))
    case LimitAnswered(r) =>
      last == Some(r) && RecordedAs(s, r.content)
      && AnsweredBy(s, Message(Assistant, r.content, [], r.calls, None, r.reasoning, r.finish))
    case _ => true
  }

  lemma TurnLeaves(c: Config, s: State, t: Turn, last: Option<Reply>)
    ensures var out := TakeTurn(c, s, t); out.Ends? ==> Leaves(out.state, out.exit, last)
  {
    TurnIs(c, s, t);
    if !t.cancelled {
      hide Ask, AutoCompacted, BatchTaken, AnswerTaken, TakeTurn, Leaves;
      var s0 := AutoCompacted(c, s, t.summary);
      var asked := Ask(s0, t);
      ReplyToLast(s0, t);
      var out := TakeTurn(c, s, t);
      if asked.answer.Replied? && asked.answer.reply.calls == [] {
        AnswerLeaves(asked.state, asked.answer.reply, t, out, last);
      } else if out.Ends? {
        NoAnswerLeaves(c, asked.state, asked.answer, t, out, last);
      }
    }
  }

  lemma NoAnswerLeaves(c: Config, s: State, answer: Attempt, t: Turn, out: TurnResult, last: Option<Reply>)
    requires TurnTaken(c, s, answer, t, out) && out.Ends? && (answer.Replied? ==> answer.reply.calls != [])
    ensures Leaves(out.state, out.exit, last)
  {
    hide AllExecuted, BatchAndReminder;
  }

  lemma AnswerLeaves(s: State, r: Reply, t: Turn, out: TurnResult, last: Option<Reply>)
    requires AnswerTaken(s, r, t, out) && s.assembled != [] && s.assembled[|s.assembled| - 1] == s.history
    ensures out.Ends? && Leaves(out.state, out.exit, last)
  {
    hide Joined, CutShort;
    var k: nat, full: Reply :| AnswerWith(s, r, t, out, k, full);
    assert AnsweredBy(out.state, Message(Assistant, full.content, [], [], None, full.reasoning, full.finish));
  }

  lemma {:induction false} TurnsLeave(c: Config, s: State, turns: seq<Turn>, left: nat, last: Option<Reply>)
    ensures var Sent(s', e) := RunTurns(c, s, turns, left, last); Leaves(s', e, last)
    decreases left
  {
    hide TakeTurn;
    if left > 0 && turns != [] {
      hide Leaves;
      TurnLeaves(c, s, turns[0], last);
      var turn := TakeTurn(c, s, turns[0]);
      if turn.GoesOn? {
        TurnsLeave(c, turn.state, turns[1..], left - 1, last);
      }
    }
  }

  /**
   What a send returns is what it leaves: after a final answer the history ends in one assistant message with that text
   and no calls, behind exactly what the model was asked last; at the limit in the final reply as it came. The journal
   ends in the same text. A refused send leaves everything as it was.
   */
  lemma {:induction false} SendLeaves(c: Config, s: State, input: string, script: Script)
    ensures var Sent(s', e) := Send(c, s, input, script);
            && Leaves(s', e, script.last)
            && (e.Refused? <==> !script.capable || !script.accepted) && (e.Refused? ==> s' == s)
  {
    hide RunTurns, Leaves;
    if script.capable && script.accepted {
      TurnsLeave(c, PushUser(s, input), script.turns, c.maxTurns, script.last);
      TurnsNotRefused(c, PushUser(s, input), script.turns, c.maxTurns, script.last);
    } else {
      NothingLeft(s, script.last);
    }
  }

  lemma NothingLeft(s: State, last: Option<Reply>)
    ensures Leaves(s, Refused, last)
  {
  }

  lemma {:induction false} TurnsNotRefused(c: Config, s: State, turns: seq<Turn>, left: nat, last: Option<Reply>)
    ensures !RunTurns(c, s, turns, left, last).exit.Refused?
    decreases left
  {
    hide TakeTurn;
    if left > 0 && turns != [] {
      TurnNeverLimits(c, s, turns[0]);
      var turn := TakeTurn(c, s, turns[0]);
      if turn.GoesOn? {
        TurnsNotRefused(c, turn.state, turns[1..], left - 1, last);
      }
    }
  }

  /**
   Restoring goes line by line: a user or assistant line with a text gives one message with that text, any other line
   none, and a line that is not JSON ends it.
   */
  lemma {:induction false} RestoreIs(line: Line, rest: seq<Line>)
    ensures RestoredMessages([]) == []
    ensures RestoredMessages([line] + rest) ==
            (match line
             case Skipped => RestoredMessages(rest)
             case Garbage => []
             case Entry(UserLine, text) =>
               (if text == "" then [] else [Message(User, text, [], [], None, None, None)]) + RestoredMessages(rest)
             case Entry(AssistantLine, text) =>
               (if text == "" then [] else [Message(Assistant, text, [], [], None, None, None)]) + RestoredMessages(rest)
             case Entry(OtherLine, _) => RestoredMessages(rest))
  {
    assert ([line] + rest)[1..] == rest;
  }

  /** An injected text is one more user message that ends in it, and one more record. */
  lemma InjectionIs(c: Config, s: State, source: string, content: string)
    ensures var text := INJECTED_HEAD + source + INJECTED_MIDDLE + content;
            Step(c, s, DoInject(source, content)) ==
            s.(history := s.history + [Message(User, text, [], [], None, None, None)], log := s.log + [UserRecord(text)])
  {
  }
}
