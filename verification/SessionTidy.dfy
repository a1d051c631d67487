/** Runs in which no fold tears a batch: which batches allow it, and what holds then (src/agent.rs). */
module SessionTidy {
  import opened Wrappers
  import opened Chat
  import opened History
  import opened Compaction
  import opened Session
  import opened SessionSafety
  import opened SessionFolds

  // ---------------------------------------------------------------- histories that a fold does not tear

  /** No result follows the last user message before the next assistant message. */
  predicate Foldable(h: seq<Message>) {
    LastUser(h).Some? ==> Answers(h[LastUser(h).value..]) == []
  }

  ghost predicate Whole(h: seq<Message>) {
    Tidy(h) && NoSystem(h) && Foldable(h)
  }

  ghost predicate WholeSoFar(s: State) {
    Whole(s.history) && forall h | h in s.assembled :: Whole(h)
  }

  lemma PlainKeepsFoldable(h: seq<Message>, m: Message)
    requires Foldable(h) && !m.role.Tool?
    ensures Foldable(h + [m])
  {
    assert [m][1..] == [] && Answers([m]) == [];
    hide Answers;
    LastOfOne(m);
    LastUserConcat(h, [m]);
    hide LastUser;
    if m.role.User? {
      assert (h + [m])[|h|..] == [m];
    } else if LastUser(h).Some? {
      var p := LastUser(h).value;
      assert (h + [m])[p..] == h[p..] + [m];
      AnswersConcat(h[p..], [m]);
    }
  }

  lemma LastOfOne(m: Message)
    ensures LastUser([m]) == if m.role.User? then Some(0) else None
  {
    assert [m][..0] == [];
  }

  lemma PlainKeeps(h: seq<Message>, m: Message)
    requires Whole(h) && (m.role.User? || (m.role.Assistant? && m.toolCalls == []))
    ensures Whole(h + [m])
  {
    hide Foldable, Tidy;
    PlainKeepsFoldable(h, m);
    AppendPlain(h, m);
  }

  lemma SuffixKeeps(h: seq<Message>, k: nat)
    requires Whole(h) && k <= |h|
    ensures Whole(h[k..])
  {
    hide Tidy, Answers, LastUser;
    Suffix(h, k);
    assert h == h[..k] + h[k..];
    LastUserConcat(h[..k], h[k..]);
    if LastUser(h[k..]).Some? {
      var p := LastUser(h[k..]).value;
      assert h[k..][p..] == h[k + p..];
    }
  }

  lemma {:induction false} SameLastUser(a: seq<Message>, b: seq<Message>)
    requires SameShape(a, b)
    ensures LastUser(a) == LastUser(b)
  {
    if a != [] {
      assert SameSlot(a[|a| - 1], b[|b| - 1]);
      SameLastUser(a[..|a| - 1], b[..|b| - 1]);
    }
  }

  lemma {:induction false} MaskKeeps(h: seq<Message>)
    requires Whole(h)
    ensures Whole(Mask(h))
  {
    hide Tidy, Answers, Mask, LastUser;
    MaskKeepsShape(h);
    MaskKeepsNoSystem(h);
    SameLastUser(h, Mask(h));
    if LastUser(h).Some? {
      var p := LastUser(h).value;
      assert SameShape(h[p..], Mask(h)[p..]);
      hide SameShape;
      ShapeDecides(h[p..], Mask(h)[p..]);
    }
  }

  lemma {:induction false} PruneKeeps(h: seq<Message>, budget: nat)
    requires Whole(h)
    ensures Whole(Prune(h, budget))
  {
    hide Tidy, Foldable;
    PruneCutsPrefix(h, budget);
    SuffixKeeps(h, PruneLength(h, budget));
  }

  lemma FoldKeepsWhole(h: seq<Message>, summary: Option<string>)
    requires Whole(h)
    ensures var f := FoldHistory(h, summary); f.Folded? ==> Whole(f.history) && !Strands(f)
  {
    var f := FoldHistory(h, summary);
    hide Tidy, Answers;
    FoldKeepsPairs(h, summary);
    if f.Folded? {
      var note, tail := f.history[0], h[f.count..];
      FoldKeepsTail(h, summary);
      LastUserIs(h);
      assert f.history == [note] + tail && f.history[1..] == tail;
      LastFromFirst(tail);
      LastUserConcat([note], tail);
      hide LastUser, FoldHistory;
    }
  }

  /** A text whose only user message is its first. */
  lemma {:induction false} LastFromFirst(h: seq<Message>)
    requires h != [] && h[0].role.User? && forall i | 0 < i < |h| :: !h[i].role.User?
    ensures LastUser(h) == Some(0)
  {
    LastUserIs(h);
  }

  // ---------------------------------------------------------------- batches a fold does not tear

  /** After the batch either a reminder follows, or the images, if any, come from the last call too. */
  ghost predicate Gentle(r: Reply, outcomes: seq<CallOutcome>, reminder: Option<string>) {
    || r.calls == []
    || (reminder.Some? && !BatchStopped(r.calls, outcomes))
    || !EarlierImages(r.calls, outcomes)
    || LastImages(r.calls, outcomes)
  }

  lemma {:induction false} BatchKeepsTidy(h: seq<Message>, r: Reply, outcomes: seq<CallOutcome>)
    requires r.calls != [] && Tidy(h) && NoSystem(h)
    ensures var h' := h + [ReplyMessage(r)] + BatchMessages(r.calls, outcomes); Tidy(h') && NoSystem(h')
  {
    AppendBatch(h, r, outcomes);
  }

  lemma {:induction false} BatchKeepsFoldable(h: seq<Message>, r: Reply, outcomes: seq<CallOutcome>)
    requires r.calls != [] && Foldable(h)
    requires !EarlierImages(r.calls, outcomes) || LastImages(r.calls, outcomes)
    ensures Foldable(h + [ReplyMessage(r)] + BatchMessages(r.calls, outcomes))
  {
    hide LastUser, Answers, BatchMessages, EarlierImages, SomeImages, LastImages;
    var b := BatchMessages(r.calls, outcomes);
    var front := h + [ReplyMessage(r)];
    BatchTail(r.calls, outcomes);
    SomeOrEarlier(r.calls, outcomes);
    OneAssistant(r);
    LastUserConcat(front, b);
    LastUserConcat(h, [ReplyMessage(r)]);
    if LastUser(b).Some? {
      assert (front + b)[|front| + LastUser(b).value..] == b[LastUser(b).value..];
    } else if LastUser(h).Some? {
      var p := LastUser(h).value;
      assert (front + b)[p..] == h[p..] + ([ReplyMessage(r)] + b);
      AssistantFirst(r, b);
      AnswersConcat(h[p..], [ReplyMessage(r)] + b);
    }
  }

  /** What a turn with a gentle batch leaves, whether it ends the send or goes on with or without a reminder. */
  lemma BatchKeepsWhole(c: Config, s: State, r: Reply, t: Turn)
    requires r.calls != [] && Gentle(r, t.outcomes, t.reminder) && WholeSoFar(s)
    ensures var s1 := PushBatch(c, s, r, t.outcomes);
            WholeSoFar(if BatchStopped(r.calls, t.outcomes) then s1 else PushReminder(s1, t.reminder))
  {
    hide Tidy, Foldable, BatchMessages, BatchStopped, EarlierImages, LastImages, BatchRecords;
    var h := s.history + [ReplyMessage(r)] + BatchMessages(r.calls, t.outcomes);
    BatchKeepsTidy(s.history, r, t.outcomes);
    if !EarlierImages(r.calls, t.outcomes) || LastImages(r.calls, t.outcomes) {
      BatchKeepsFoldable(s.history, r, t.outcomes);
      if t.reminder.Some? {
        PlainKeeps(h, UserMessage(t.reminder.value));
      }
    } else {
      UserMakesWhole(h, t.reminder.value);
    }
  }

  lemma {:induction false} UserMakesWhole(h: seq<Message>, text: string)
    requires Tidy(h) && NoSystem(h)
    ensures Whole(h + [UserMessage(text)])
  {
    var m := UserMessage(text);
    AppendPlain(h, m);
    hide Tidy;
    assert [m][1..] == [] && Answers([m]) == [];
    hide Answers;
    assert LastUser(h + [m]) == Some(|h|) && (h + [m])[|h|..] == [m];
  }

  /** The condition is exact, batch by batch: a fold right after the turn tears the batch when it is not gentle. */
  lemma {:induction false} BatchTearsIff(h: seq<Message>, r: Reply, outcomes: seq<CallOutcome>, reminder: Option<string>,
                                         summary: string)
    requires Whole(h) && r.calls != []
    ensures var pushed := if BatchStopped(r.calls, outcomes) then None else reminder;
            var whole := h + [ReplyMessage(r)] + BatchMessages(r.calls, outcomes) + AfterBatch(pushed, []);
            Strands(FoldHistory(whole, Some(summary))) <==> !Gentle(r, outcomes, reminder)
  {
    var pushed := if BatchStopped(r.calls, outcomes) then None else reminder;
    hide Whole, FoldHistory, BatchMessages, BatchStopped, EarlierImages, LastImages, SomeImages, Strands;
    FoldTearsIff(h, r, outcomes, pushed, [], summary);
    SomeOrEarlier(r.calls, outcomes);
    FoldKeepsWhole(h, Some(summary));
    NotFolded(h, summary);
  }

  lemma NotFolded(h: seq<Message>, summary: string)
    ensures !FoldHistory(h, Some(summary)).Folded? ==> !Strands(FoldHistory(h, Some(summary)))
  {
  }

  // ---------------------------------------------------------------- a turn

  ghost predicate GentleAttempt(a: Attempt, t: Turn) {
    a.Replied? ==> Gentle(a.reply, t.outcomes, t.reminder)
  }

  ghost predicate GentleTurn(t: Turn) {
    && GentleAttempt(t.first, t) && GentleAttempt(t.second, t)
    && forall r | r in t.retries && r.Resent? :: GentleAttempt(r.attempt, t)
  }

  lemma GentleAnswer(s: State, t: Turn)
    requires GentleTurn(t)
    ensures GentleAttempt(Ask(s, t).answer, t)
  {
    hide Ask, Gentle;
    AskAnswers(s, t);
    var answer := Ask(s, t).answer;
    if Resent(answer) in t.retries {
      assert Resent(answer).Resent?;
    }
  }

  lemma CompactedKeepsWhole(c: Config, s: State, summary: Option<string>)
    requires WholeSoFar(s)
    ensures WholeSoFar(AutoCompacted(c, s, summary))
  {
    hide Whole, Prune, Mask, FoldHistory;
    MaskKeeps(s.history);
    PruneKeeps(Mask(s.history), c.thresholds.budget);
    FoldKeepsWhole(Prune(Mask(s.history), c.thresholds.budget), summary);
  }

  lemma AskedHistory(s: State, t: Turn)
    ensures var h, f := Ask(s, t).state.history, FoldHistory(s.history, t.rescue);
            h == s.history || (f.Folded? && h == f.history)
  {
    hide Patience, FoldHistory;
    PatienceKeeps(Assemble(s), t.first, t.retries);
  }

  lemma AskKeepsWhole(s: State, t: Turn)
    requires WholeSoFar(s)
    ensures WholeSoFar(Ask(s, t).state)
  {
    hide Whole, Ask, FoldHistory;
    AskKeeps(s, t);
    AskedHistory(s, t);
    FoldKeepsWhole(s.history, t.rescue);
  }

  lemma AnswerKeepsWhole(s: State, r: Reply, parts: seq<Attempt>)
    requires r.calls == [] && WholeSoFar(s)
    ensures WholeSoFar(PushAnswer(s, r, parts))
  {
    hide Whole, Continue, ContinuationRequests;
    ContinueExtends(r, parts, MAX_LENGTH_CONTINUATIONS);
    RepeatIs(s.history, ContinuationRequests(r, parts, MAX_LENGTH_CONTINUATIONS));
    PlainKeeps(s.history, ReplyMessage(Continue(r, parts, MAX_LENGTH_CONTINUATIONS)));
  }

  lemma TurnKeepsWhole(c: Config, s: State, t: Turn)
    requires WholeSoFar(s) && GentleTurn(t)
    ensures WholeSoFar(TakeTurn(c, s, t).state)
  {
    if !t.cancelled {
      hide WholeSoFar, AutoCompacted, Ask, PushAnswer, PushBatch, PushReminder, Gentle, GentleTurn;
      var s0 := AutoCompacted(c, s, t.summary);
      CompactedKeepsWhole(c, s, t.summary);
      AskKeepsWhole(s0, t);
      GentleAnswer(s0, t);
      var asked := Ask(s0, t);
      if asked.answer.Replied? {
        if asked.answer.reply.calls == [] {
          AnswerKeepsWhole(asked.state, asked.answer.reply, t.continuations);
        } else {
          BatchKeepsWhole(c, asked.state, asked.answer.reply, t);
        }
      }
    }
  }

  // ---------------------------------------------------------------- every run

  ghost predicate GentleAction(a: Action) {
    PlainLast(a) && (a.DoSend? ==> forall t | t in a.script.turns :: GentleTurn(t))
  }

  lemma LimitKeepsWhole(s: State, last: Option<Reply>)
    requires WholeSoFar(s) && (last.Some? ==> last.value.calls == [])
    ensures WholeSoFar(LimitExit(s, last).state)
  {
    hide Whole;
    if last.Some? {
      PlainKeeps(s.history, ReplyMessage(last.value));
    }
  }

  lemma {:induction false} TurnsKeepWhole(c: Config, s: State, turns: seq<Turn>, left: nat, last: Option<Reply>)
    requires WholeSoFar(s) && (forall t | t in turns :: GentleTurn(t)) && (last.Some? ==> last.value.calls == [])
    ensures WholeSoFar(RunTurns(c, s, turns, left, last).state)
    decreases left
  {
    hide WholeSoFar, TakeTurn, LimitExit, GentleTurn;
    if left == 0 {
      LimitKeepsWhole(s, last);
    } else if turns != [] {
      TurnKeepsWhole(c, s, turns[0]);
      if TakeTurn(c, s, turns[0]).GoesOn? {
        TurnsKeepWhole(c, TakeTurn(c, s, turns[0]).state, turns[1..], left - 1, last);
      }
    }
  }

  lemma {:induction false} RestoreKeepsWhole(h: seq<Message>, lines: seq<Line>)
    requires Whole(h)
    ensures Whole(h + RestoredMessages(lines))
    decreases |lines|
  {
    hide Whole;
    if lines == [] || lines[0].Garbage? {
      assert h + [] == h;
    } else {
      var m, rest := RestoredMessage(lines[0]), RestoredMessages(lines[1..]);
      assert h + (m + rest) == (h + m) + rest;
      if m == [] {
        assert h + m == h;
      } else {
        PlainKeeps(h, m[0]);
      }
      RestoreKeepsWhole(h + m, lines[1..]);
    }
  }

  lemma UserKeepsWhole(s: State, text: string)
    requires WholeSoFar(s)
    ensures WholeSoFar(PushUser(s, text))
  {
    hide Whole;
    PlainKeeps(s.history, UserMessage(text));
  }

  lemma CompactNowKeepsWhole(s: State, summary: Option<string>)
    requires WholeSoFar(s)
    ensures WholeSoFar(CompactNow(s, summary))
  {
    hide Whole, Mask, FoldHistory;
    MaskKeeps(s.history);
    FoldKeepsWhole(Mask(s.history), summary);
  }

  lemma StepKeepsWhole(c: Config, s: State, a: Action)
    requires WholeSoFar(s) && GentleAction(a)
    ensures WholeSoFar(Step(c, s, a))
  {
    hide CompactNow, RunTurns, GentleTurn;
    match a {
      case DoSend(input, script) =>
        hide WholeSoFar;
        UserKeepsWhole(s, input);
        TurnsKeepWhole(c, PushUser(s, input), script.turns, c.maxTurns, script.last);
      case DoInject(source, content) => UserKeepsWhole(s, InjectedText(source, content));
      case DoRestore(lines) => RestoreKeepsWhole(s.history, lines);
      case DoCompact(summary) => CompactNowKeepsWhole(s, summary);
      case _ =>
        assert LastUser([]) == None && Tidy([]);
    }
  }

  lemma {:induction false} RunKeepsWhole(c: Config, s: State, actions: seq<Action>)
    requires WholeSoFar(s) && forall a | a in actions :: GentleAction(a)
    ensures WholeSoFar(RunActions(c, s, actions))
    decreases |actions|
  {
    if actions != [] {
      hide WholeSoFar, Step, GentleAction;
      StepKeepsWhole(c, s, actions[0]);
      RunKeepsWhole(c, Step(c, s, actions[0]), actions[1..]);
    }
  }

  /**
   Every run in which each batch either returns no image before its last call, or an image from its last call too, or
   is followed by a reminder: no fold tears a batch, and in no history of the run, nor in any a request was built from,
   does a result stand behind an assistant message that did not ask for it.
   */
  lemma {:induction false} GentleRunsStayWhole(c: Config, actions: seq<Action>, summary: Option<string>)
    requires forall a | a in actions :: GentleAction(a)
    ensures var s := RunActions(c, INITIAL, actions);
            forall h | h in s.assembled + [s.history] ::
              Tidy(h) && OrphansLead(h) && !Strands(FoldHistory(h, summary))
  {
    assert Tidy([]) && LastUser([]) == None;
    hide Foldable, Tidy, RunActions, FoldHistory, OrphansLead, GentleAction;
    RunKeepsWhole(c, INITIAL, actions);
    var s := RunActions(c, INITIAL, actions);
    forall h | h in s.assembled + [s.history]
      ensures Tidy(h) && OrphansLead(h) && !Strands(FoldHistory(h, summary))
    {
      TidyLeads(h);
      FoldKeepsWhole(h, summary);
    }
  }
}
