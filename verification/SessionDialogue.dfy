/** How the journal of a run tells what its history holds. */
module SessionDialogue {
  import opened Wrappers
  import opened Chat
  import opened Session
  import opened SessionBounds
  import opened SessionJournal
  import opened SessionSafety
  import opened SessionTails
  import opened SessionTranscript
  import opened SessionTurns
  import opened Sequences
  import opened Wording

  // ---------------------------------------------------------------- texts

  /** The non-empty texts of users and model, in order; image messages are neither. */
  function Texts(h: seq<Message>): seq<Message> {
    if h == [] then []
    else
      var m := h[|h| - 1];
      Texts(h[..|h| - 1]) +
      if m.role.User? && m.images == [] then UserSays(m.content)
      else if m.role.Assistant? then ModelSays(m.content)
      else []
  }

  /** `all` is `told` with the `extra` messages put in between, the order of each kept. */
  ghost predicate Weaves(all: seq<Message>, told: seq<Message>, extra: seq<Message>) {
    if all == [] then told == [] && extra == []
    else
      var init, last := all[..|all| - 1], all[|all| - 1];
      || (told != [] && told[|told| - 1] == last && Weaves(init, told[..|told| - 1], extra))
      || (extra != [] && extra[|extra| - 1] == last && Weaves(init, told, extra[..|extra| - 1]))
  }

  /** A reminder is what a script's turn says behind its batch; the journal does not record it. */
  ghost predicate FromReminders(extra: seq<Message>, turns: seq<Turn>) {
    forall m | m in extra ::
      exists t :: t in turns && t.reminder.Some? && m == Message(User, t.reminder.value, [], [], None, None, None)
  }

  lemma {:induction false} TextsConcat(a: seq<Message>, b: seq<Message>)
    ensures Texts(a + b) == Texts(a) + Texts(b)
  {
    if b == [] {
      assert a + b == a;
    } else {
      assert (a + b)[..|a + b| - 1] == a + b[..|b| - 1];
      TextsConcat(a, b[..|b| - 1]);
    }
  }

  lemma TextOfOne(m: Message)
    ensures Texts([m]) == if m.role.User? && m.images == [] then UserSays(m.content)
                          else if m.role.Assistant? then ModelSays(m.content) else []
  {
    assert [m][..0] == [];
  }

  lemma {:induction false} WeavesConcat(a: seq<Message>, told: seq<Message>, extra: seq<Message>,
                                        b: seq<Message>, told2: seq<Message>, extra2: seq<Message>)
    requires Weaves(a, told, extra) && Weaves(b, told2, extra2)
    ensures Weaves(a + b, told + told2, extra + extra2)
    decreases |b|
  {
    if b == [] {
      assert a + b == a && told + told2 == told && extra + extra2 == extra;
    } else {
      var init := b[..|b| - 1];
      assert (a + b)[..|a + b| - 1] == a + init;
      if told2 != [] && told2[|told2| - 1] == b[|b| - 1] && Weaves(init, told2[..|told2| - 1], extra2) {
        WeavesConcat(a, told, extra, init, told2[..|told2| - 1], extra2);
        assert (told + told2)[..|told + told2| - 1] == told + told2[..|told2| - 1];
      } else {
        WeavesConcat(a, told, extra, init, told2, extra2[..|extra2| - 1]);
        assert (extra + extra2)[..|extra + extra2| - 1] == extra + extra2[..|extra2| - 1];
      }
    }
  }

  lemma {:induction false} WeavesTold(told: seq<Message>)
    ensures Weaves(told, told, [])
  {
    if told != [] {
      WeavesTold(told[..|told| - 1]);
    }
  }

  lemma {:induction false} WeavesExtra(extra: seq<Message>)
    ensures Weaves(extra, [], extra)
  {
    if extra != [] {
      WeavesExtra(extra[..|extra| - 1]);
    }
  }

  /** Nothing put in between: both say the same. */
  lemma {:induction false} WeavesAlone(all: seq<Message>, told: seq<Message>)
    requires Weaves(all, told, [])
    ensures all == told
  {
    if all != [] {
      WeavesAlone(all[..|all| - 1], told[..|told| - 1]);
    }
  }

  lemma {:induction false} PiecesSilent(calls: seq<ToolCall>, outcomes: seq<CallOutcome>, n: nat)
    requires n <= |calls|
    ensures Texts(Pieces(calls, outcomes, n)) == []
  {
    hide Texts, Piece;
    NoTexts();
    if n > 0 {
      PiecesSilent(calls, outcomes, n - 1);
      PieceSilent(calls, outcomes, n - 1);
      TextsConcat(Pieces(calls, outcomes, n - 1), Piece(calls, outcomes, n - 1));
    }
  }

  lemma PieceSilent(calls: seq<ToolCall>, outcomes: seq<CallOutcome>, k: nat)
    requires k < |calls|
    ensures Texts(Piece(calls, outcomes, k)) == []
  {
    hide ToldCall, Shown, Texts;
    var result := Message(Tool, ToldCall(outcomes, k), [], [], Some(calls[k].id), None, None);
    var images := if Executed(outcomes, k) then outcomes[k].images else [];
    TextOfOne(result);
    ShownSilent(calls[k].name, images);
    TextsConcat([result], Shown(calls[k].name, images));
  }

  lemma ShownSilent(name: string, images: seq<string>)
    ensures Texts(Shown(name, images)) == []
  {
    if images != [] {
      TextOfOne(Shown(name, images)[0]);
    }
  }

  /** What a turn adds is what the journal is told of it, and its reminder. */
  lemma TurnWeaves(c: Config, s: State, t: Turn) returns (extra: seq<Message>)
    ensures Weaves(Texts(TurnAdds(c, s, t)), TurnSays(c, s, t), extra) && FromReminders(extra, [t])
  {
    hide Ask, AutoCompacted, Continue, Pieces, AllExecuted, Texts, ModelSays, UserSays;
    extra := [];
    var adds := TurnAdds(c, s, t);
    assert Texts([]) == [] by { NoTexts(); }
    if !t.cancelled {
      var answer := Ask(AutoCompacted(c, s, t.summary), t).answer;
      if answer.Replied? {
        if answer.reply.calls == [] {
          TextOfOne(adds[0]);
          WeavesTold(Texts(adds));
        } else {
          extra := BatchWeaves(answer.reply, t);
        }
      }
    }
  }

  lemma NoTexts()
    ensures Texts([]) == []
  {
  }

  lemma BatchWeaves(r: Reply, t: Turn) returns (extra: seq<Message>)
    ensures Weaves(Texts(BatchAndReminder(r, t)), ModelSays(r.content), extra) && FromReminders(extra, [t])
  {
    hide Pieces, AllExecuted, Texts, Weaves, ModelSays, UserSays;
    var reply := Message(Assistant, r.content, [], r.calls, None, r.reasoning, r.finish);
    var pieces := Pieces(r.calls, t.outcomes, |r.calls|);
    PiecesSilent(r.calls, t.outcomes, |r.calls|);
    ReplyText(reply, pieces);
    WeavesTold(ModelSays(r.content));
    if AllExecuted(r.calls, t.outcomes) && t.reminder.Some? {
      var reminder := Message(User, t.reminder.value, [], [], None, None, None);
      extra := UserSays(t.reminder.value);
      TextOfOne(reminder);
      TextsConcat([reply] + pieces, [reminder]);
      WeavesBehind(ModelSays(r.content), extra);
      ReminderSays(t);
    } else {
      extra := [];
      assert [reply] + pieces + [] == [reply] + pieces;
    }
  }

  lemma {:induction false} ReplyText(reply: Message, pieces: seq<Message>)
    requires reply.role.Assistant? && Texts(pieces) == []
    ensures Texts([reply] + pieces) == ModelSays(reply.content)
  {
    TextOfOne(reply);
    TextsConcat([reply], pieces);
  }

  lemma {:induction false} WeavesBehind(told: seq<Message>, extra: seq<Message>)
    ensures Weaves(told + extra, told, extra)
  {
    WeavesTold(told);
    WeavesExtra(extra);
    WeavesConcat(told, told, [], extra, [], extra);
    assert told + [] == told && [] + extra == extra;
  }

  lemma ReminderSays(t: Turn)
    requires t.reminder.Some?
    ensures FromReminders(UserSays(t.reminder.value), [t])
  {
    assert t in [t];
  }

  lemma FromMore(extra: seq<Message>, extra2: seq<Message>, turns: seq<Turn>, turns2: seq<Turn>)
    requires FromReminders(extra, turns) && FromReminders(extra2, turns2)
    ensures FromReminders(extra + extra2, turns + turns2)
  {
    forall m | m in extra + extra2
      ensures exists t :: t in turns + turns2 && t.reminder.Some?
                          && m == Message(User, t.reminder.value, [], [], None, None, None)
    {
      if m in extra {
        var t :| t in turns && t.reminder.Some? && m == Message(User, t.reminder.value, [], [], None, None, None);
        assert t in turns + turns2;
      } else {
        var t :| t in turns2 && t.reminder.Some? && m == Message(User, t.reminder.value, [], [], None, None, None);
        assert t in turns + turns2;
      }
    }
  }

  /** Two parts that weave, one behind the other. */
  lemma {:induction false} WeaveBoth(a: seq<Message>, told: seq<Message>, extra: seq<Message>, turns: seq<Turn>,
                  b: seq<Message>, told2: seq<Message>, extra2: seq<Message>, turns2: seq<Turn>)
    requires Weaves(Texts(a), told, extra) && FromReminders(extra, turns)
    requires Weaves(Texts(b), told2, extra2) && FromReminders(extra2, turns2)
    ensures Weaves(Texts(a + b), told + told2, extra + extra2) && FromReminders(extra + extra2, turns + turns2)
  {
    hide Texts, Weaves, FromReminders;
    TextsConcat(a, b);
    WeavesConcat(Texts(a), told, extra, Texts(b), told2, extra2);
    FromMore(extra, extra2, turns, turns2);
  }

  lemma NothingWoven(turns: seq<Turn>)
    ensures Weaves(Texts([]), [], []) && FromReminders([], turns)
  {
  }

  lemma LastWeaves(last: Option<Reply>)
    ensures Weaves(Texts(if last.None? then [] else [ReplyMessage(last.value)]),
                   if last.None? then [] else ModelSays(last.value.content), [])
  {
    hide Texts, ModelSays;
    if last.None? {
      NothingWoven([]);
    } else {
      TextOfOne(ReplyMessage(last.value));
      WeavesTold(ModelSays(last.value.content));
    }
  }

  lemma {:induction false} TurnsWeave(c: Config, s: State, turns: seq<Turn>, left: nat, last: Option<Reply>)
    returns (extra: seq<Message>)
    ensures Weaves(Texts(TurnsAdd(c, s, turns, left, last)), TurnsSay(c, s, turns, left, last), extra)
    ensures FromReminders(extra, turns)
    decreases left
  {
    hide Texts, Weaves, TakeTurn, TurnAdds, TurnSays, ModelSays, FromReminders;
    NothingWoven(turns);
    extra := [];
    if left == 0 {
      LastWeaves(last);
    } else if turns != [] {
      var own := TurnWeaves(c, s, turns[0]);
      var adds, says := TurnAdds(c, s, turns[0]), TurnSays(c, s, turns[0]);
      var turn := TakeTurn(c, s, turns[0]);
      assert turns == [turns[0]] + turns[1..];
      if turn.GoesOn? {
        var more := TurnsWeave(c, turn.state, turns[1..], left - 1, last);
        WeaveBoth(adds, says, own, [turns[0]], TurnsAdd(c, turn.state, turns[1..], left - 1, last),
                  TurnsSay(c, turn.state, turns[1..], left - 1, last), more, turns[1..]);
        extra := own + more;
      } else {
        NothingWoven(turns[1..]);
        WeaveBoth(adds, says, own, [turns[0]], [], [], [], turns[1..]);
        extra := own + [];
      }
    }
  }

  // ---------------------------------------------------------------- the journal of a run

  /** What the journal's conversation gained. */
  function Gained(before: seq<Record>, after: seq<Record>): seq<Message> {
    var known, now := Conversation(before), Conversation(after);
    if |known| <= |now| then now[|known|..] else []
  }

  /** What journal and restored lines tell since the last clear or reset, after one more step. */
  function StepTold(c: Config, s: State, a: Action, told: seq<Message>): seq<Message> {
    match a
    case DoSend(_, _) => told + Gained(s.log, Step(c, s, a).log)
    case DoInject(_, _) => told + Gained(s.log, Step(c, s, a).log)
    case DoRestore(lines) => told + RestoredMessages(lines)
    case DoClear => []
    case DoReset => []
    case DoCompact(_) => told
  }

  function RunTold(c: Config, s: State, actions: seq<Action>, told: seq<Message>): seq<Message>
    decreases |actions|
  {
    if actions == [] then told
    else RunTold(c, Step(c, s, actions[0]), actions[1..], StepTold(c, s, actions[0], told))
  }

  /** The turns of an action's script. */
  function ScriptOf(a: Action): seq<Turn> {
    if a.DoSend? then a.script.turns else []
  }

  function TurnsOf(actions: seq<Action>): seq<Turn> {
    if actions == [] then [] else ScriptOf(actions[0]) + TurnsOf(actions[1..])
  }

  lemma GainedIs(c: Config, s: State, a: Action, gain: seq<Message>)
    requires StepSays(c, s, a, Conversation(s.log)) == Conversation(s.log) + gain
    ensures Gained(s.log, Step(c, s, a).log) == gain
  {
    hide Step, StepSays, Conversation;
    StepConversation(c, s, a);
  }

  lemma UserText(text: string)
    ensures Texts([Message(User, text, [], [], None, None, None)]) == UserSays(text)
  {
    TextOfOne(Message(User, text, [], [], None, None, None));
  }

  lemma {:induction false} RestoredTexts(lines: seq<Line>)
    ensures Texts(RestoredMessages(lines)) == RestoredMessages(lines)
  {
    if lines != [] && !lines[0].Garbage? {
      RestoredTexts(lines[1..]);
      hide Texts;
      TextsConcat(RestoredMessage(lines[0]), RestoredMessages(lines[1..]));
      RestoredText(lines[0]);
    }
  }

  lemma RestoredText(line: Line)
    ensures Texts(RestoredMessage(line)) == RestoredMessage(line)
  {
    hide Texts;
    NoTexts();
    if RestoredMessage(line) != [] {
      TextOfOne(RestoredMessage(line)[0]);
    }
  }

  lemma SendWeaves(c: Config, s: State, input: string, script: Script) returns (gain: seq<Message>, extra: seq<Message>)
    requires script.capable && script.accepted
    ensures var adds := [Message(User, input, [], [], None, None, None)]
                        + TurnsAdd(c, Begun(s, input), script.turns, c.maxTurns, script.last);
            Weaves(Texts(adds), gain, extra) && FromReminders(extra, script.turns)
    ensures Gained(s.log, Step(c, s, DoSend(input, script)).log) == gain
  {
    hide Texts, Weaves, UserSays, TurnsAdd, TurnsSay, FromReminders, Conversation, Gained, Step;
    var first := [Message(User, input, [], [], None, None, None)];
    var more := TurnsWeave(c, Begun(s, input), script.turns, c.maxTurns, script.last);
    var says := TurnsSay(c, Begun(s, input), script.turns, c.maxTurns, script.last);
    UserText(input);
    WeavesTold(UserSays(input));
    NothingWoven([]);
    gain, extra := UserSays(input) + says, [] + more;
    WeaveBoth(first, UserSays(input), [], [], TurnsAdd(c, Begun(s, input), script.turns, c.maxTurns, script.last), says,
              more, script.turns);
    assert [] + script.turns == script.turns;
    GainedIs(c, s, DoSend(input, script), gain);
  }

  lemma StepWeaves(c: Config, s: State, a: Action, full: seq<Message>, told: seq<Message>, extra: seq<Message>,
                   turns: seq<Turn>)
    returns (more: seq<Message>)
    requires Weaves(Texts(full), told, extra) && FromReminders(extra, turns)
    ensures Weaves(Texts(StepAdds(c, s, a, full)), StepTold(c, s, a, told), more)
    ensures FromReminders(more, turns + ScriptOf(a))
  {
    hide Texts, Weaves, UserSays, TurnsAdd, FromReminders, Conversation, Gained, RunTurns, CompactNow;
    assert turns + [] == turns && told + [] == told;
    match a {
      case DoSend(input, script) =>
        if script.capable && script.accepted {
          var gain, own := SendWeaves(c, s, input, script);
          var adds := [Message(User, input, [], [], None, None, None)]
                      + TurnsAdd(c, Begun(s, input), script.turns, c.maxTurns, script.last);
          WeaveBoth(full, told, extra, turns, adds, gain, own, script.turns);
          more := extra + own;
        } else {
          more := extra + [];
          RefusedGains(c, s, a);
          NothingWoven(script.turns);
          FromMore(extra, [], turns, script.turns);
          assert extra + [] == extra;
        }
      case DoInject(source, content) =>
        more := extra + [];
        InjectionWeaves(c, s, source, content, full, told, extra, turns);
      case DoRestore(lines) =>
        more := extra + [];
        RestoredTexts(lines);
        WeavesTold(RestoredMessages(lines));
        NothingWoven([]);
        WeaveBoth(full, told, extra, turns, RestoredMessages(lines), RestoredMessages(lines), [], []);
      case DoCompact(_) => more := extra;
      case _ =>
        more := [];
        NothingWoven(turns);
    }
  }

  lemma RefusedGains(c: Config, s: State, a: Action)
    requires a.DoSend? && (!a.script.capable || !a.script.accepted)
    ensures Gained(s.log, Step(c, s, a).log) == []
  {
  }

  lemma {:induction false} InjectionWeaves(c: Config, s: State, source: string, content: string, full: seq<Message>, told: seq<Message>,
                        extra: seq<Message>, turns: seq<Turn>)
    requires Weaves(Texts(full), told, extra) && FromReminders(extra, turns)
    ensures var a := DoInject(source, content);
            Weaves(Texts(StepAdds(c, s, a, full)), StepTold(c, s, a, told), extra + [])
    ensures FromReminders(extra + [], turns + [])
  {
    hide Texts, Weaves, UserSays, FromReminders, Conversation, Gained;
    var a, text := DoInject(source, content), INJECTED_HEAD + source + INJECTED_MIDDLE + content;
    assert InjectedText(source, content) == text;
    hide InjectedText;
    UserText(text);
    WeavesTold(UserSays(text));
    NothingWoven([]);
    WeaveBoth(full, told, extra, turns, [Message(User, text, [], [], None, None, None)], UserSays(text), [], []);
    GainedIs(c, s, a, UserSays(text));
  }

  lemma {:induction false} RunWeaves(c: Config, s: State, actions: seq<Action>, full: seq<Message>, told: seq<Message>,
                                     extra: seq<Message>, turns: seq<Turn>)
    returns (more: seq<Message>)
    requires Weaves(Texts(full), told, extra) && FromReminders(extra, turns)
    ensures Weaves(Texts(Transcript(c, s, actions, full)), RunTold(c, s, actions, told), more)
    ensures FromReminders(more, turns + TurnsOf(actions))
    decreases |actions|
  {
    hide Texts, Weaves, FromReminders, Step, StepAdds, StepTold, ScriptOf;
    if actions == [] {
      more := extra;
      assert turns + [] == turns;
    } else {
      var own := StepWeaves(c, s, actions[0], full, told, extra, turns);
      more := RunWeaves(c, Step(c, s, actions[0]), actions[1..], StepAdds(c, s, actions[0], full),
                        StepTold(c, s, actions[0], told), own, turns + ScriptOf(actions[0]));
      ConcatAssoc(turns, ScriptOf(actions[0]), TurnsOf(actions[1..]));
    }
  }

  /**
   Over every run the texts of users and model in the transcript are what the journal gained and what was restored since
   the last clear or reset, in order; reminders are put in between and nothing else.
   */
  lemma {:induction false} JournalTellsTranscript(c: Config, actions: seq<Action>) returns (reminders: seq<Message>)
    ensures Weaves(Texts(Transcript(c, INITIAL, actions, [])), RunTold(c, INITIAL, actions, []), reminders)
    ensures FromReminders(reminders, TurnsOf(actions))
  {
    hide Texts, Weaves, FromReminders, Transcript, RunTold, TurnsOf;
    NothingWoven([]);
    reminders := RunWeaves(c, INITIAL, actions, [], [], [], []);
    assert [] + TurnsOf(actions) == TurnsOf(actions);
  }

  lemma {:induction false} TextsOfShortened(a: seq<Message>, b: seq<Message>)
    requires Shortens(a, b)
    ensures Texts(a) == Texts(b)
  {
    if a != [] {
      ShortensButLast(a, b);
      TextsOfShortened(a[..|a| - 1], b[..|b| - 1]);
    }
  }

  lemma ShortensButLast(a: seq<Message>, b: seq<Message>)
    requires a != [] && Shortens(a, b)
    ensures Shortens(a[..|a| - 1], b[..|b| - 1]) && SameButCut(a[|a| - 1], b[|b| - 1])
  {
    hide SameButCut;
  }

  lemma FirstIsMember(s: seq<Message>)
    requires s != []
    ensures s[0] in s
  {
  }

  lemma {:induction false} NoReminders(extra: seq<Message>, turns: seq<Turn>)
    requires FromReminders(extra, turns) && forall t | t in turns :: t.reminder.None?
    ensures extra == []
  {
    if extra != [] {
      FirstIsMember(extra);
    }
  }

  /**
   Without a prune or a fold the history itself says what journal and restored lines tell, with the reminders in between;
   without reminders it says exactly that.
   */
  lemma {:induction false} QuietHistoryTells(c: Config, actions: seq<Action>)
    requires QuietRun(c, INITIAL, actions)
    ensures var texts := Texts(RunActions(c, INITIAL, actions).history);
            var told := RunTold(c, INITIAL, actions, []);
            && (exists reminders :: Weaves(texts, told, reminders) && FromReminders(reminders, TurnsOf(actions)))
            && ((forall t | t in TurnsOf(actions) :: t.reminder.None?) ==> texts == told)
  {
    hide Texts, Weaves, FromReminders, Transcript, RunTold, TurnsOf, RunActions, Shortens, TailOf;
    HistoryIsTail(c, actions);
    TextsOfShortened(Transcript(c, INITIAL, actions, []), RunActions(c, INITIAL, actions).history);
    var reminders := JournalTellsTranscript(c, actions);
    if forall t | t in TurnsOf(actions) :: t.reminder.None? {
      NoReminders(reminders, TurnsOf(actions));
      WeavesAlone(Texts(RunActions(c, INITIAL, actions).history), RunTold(c, INITIAL, actions, []));
    }
  }
}
