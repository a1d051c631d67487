/** The journal of a session: what it records of the calls, and what restoring it gives back. */
module SessionJournal {
  import opened Wrappers
  import opened Chat
  import opened ToolPairs
  import opened Compaction
  import opened Session
  import opened SessionSafety

  // ---------------------------------------------------------------- records of calls and results

  /** Ids of the tool records before the next assistant record, in order. */
  function LoggedAnswers(log: seq<Record>): seq<CallId> {
    if log == [] || log[0].AssistantRecord? then []
    else if log[0].ToolRecord? then [Some(log[0].callId)] + LoggedAnswers(log[1..])
    else LoggedAnswers(log[1..])
  }

  /** After every assistant record come exactly the tool records of the calls it names, in their order. */
  ghost predicate CallsLogged(log: seq<Record>) {
    log != [] ==>
      (log[0].AssistantRecord? ==> LoggedAnswers(log[1..]) == Redaction.IdsOf(log[0].logged)) && CallsLogged(log[1..])
  }

  /** Besides, there is no tool record before the first assistant record. */
  ghost predicate JournalPaired(log: seq<Record>) {
    LoggedAnswers(log) == [] && CallsLogged(log)
  }

  lemma {:induction false} LogConcat(a: seq<Record>, b: seq<Record>)
    requires LoggedAnswers(b) == []
    ensures LoggedAnswers(a + b) == LoggedAnswers(a)
    ensures CallsLogged(a + b) <==> CallsLogged(a) && CallsLogged(b)
  {
    if a == [] {
      assert a + b == b;
    } else {
      assert (a + b)[1..] == a[1..] + b;
      LogConcat(a[1..], b);
    }
  }

  lemma LogAppend(log: seq<Record>, entry: Record)
    requires entry.UserRecord? || (entry.AssistantRecord? && entry.logged.None?)
    ensures JournalPaired(log + [entry]) <==> JournalPaired(log)
  {
    assert [entry][1..] == [];
    LogConcat(log, [entry]);
  }

  lemma {:induction false} BatchLogged(calls: seq<ToolCall>, outcomes: seq<CallOutcome>)
    ensures LoggedAnswers(BatchRecords(calls, outcomes)) == CallIds(calls)
    ensures CallsLogged(BatchRecords(calls, outcomes))
  {
    if calls == [] {
    } else if Stops(outcomes) {
      CancelLogged(calls);
    } else {
      BatchLogged(calls[1..], outcomes[1..]);
      assert BatchRecords(calls, outcomes)[1..] == BatchRecords(calls[1..], outcomes[1..]);
    }
  }

  lemma {:induction false} CancelLogged(calls: seq<ToolCall>)
    ensures LoggedAnswers(CancelRecords(calls)) == CallIds(calls)
    ensures CallsLogged(CancelRecords(calls))
  {
    if calls != [] {
      CancelLogged(calls[1..]);
      assert CancelRecords(calls)[1..] == CancelRecords(calls[1..]);
    }
  }

  lemma PushBatchLogs(c: Config, s: State, r: Reply, outcomes: seq<CallOutcome>)
    ensures JournalPaired(PushBatch(c, s, r, outcomes).log) <==>
            JournalPaired(s.log) && Redaction.KeepsIds(c.redactor, r.calls)
  {
    hide Redaction.LoggedCalls;
    var head := AssistantRecord(r.content, Redaction.LoggedCalls(c.redactor, r.calls));
    var tail := BatchRecords(r.calls, outcomes);
    BatchLogged(r.calls, outcomes);
    assert ([head] + tail)[1..] == tail;
    LogConcat(s.log, [head] + tail);
    assert s.log + [head] + tail == s.log + ([head] + tail);
  }

  // ---------------------------------------------------------------- the batches of a run

  /** The batch of calls a turn logs, if any. */
  function TurnBatches(c: Config, s: State, t: Turn): seq<seq<ToolCall>> {
    if t.cancelled then []
    else
      var answer := Ask(AutoCompacted(c, s, t.summary), t).answer;
      if answer.Replied? && answer.reply.calls != [] then [answer.reply.calls] else []
  }

  function TurnsBatches(c: Config, s: State, turns: seq<Turn>, left: nat): seq<seq<ToolCall>>
    decreases left
  {
    if left == 0 || turns == [] then []
    else
      TurnBatches(c, s, turns[0]) +
      match TakeTurn(c, s, turns[0])
      case GoesOn(s1) => TurnsBatches(c, s1, turns[1..], left - 1)
      case Ends(_, _) => []
  }

  /** The batches logged since the last reset, after one more step. */
  function StepBatches(c: Config, s: State, a: Action, sofar: seq<seq<ToolCall>>): seq<seq<ToolCall>> {
    match a
    case DoSend(input, script) =>
      if !script.capable || !script.accepted then sofar
      else sofar + TurnsBatches(c, PushUser(s, input), script.turns, c.maxTurns)
    case DoReset => []
    case _ => sofar
  }

  function RunBatches(c: Config, s: State, actions: seq<Action>, sofar: seq<seq<ToolCall>>): seq<seq<ToolCall>>
    decreases |actions|
  {
    if actions == [] then sofar
    else RunBatches(c, Step(c, s, actions[0]), actions[1..], StepBatches(c, s, actions[0], sofar))
  }

  /** Redaction leaves every batch its list of ids. */
  ghost predicate AllKept(c: Config, batches: seq<seq<ToolCall>>) {
    forall b | b in batches :: Redaction.KeepsIds(c.redactor, b)
  }

  lemma AllKeptConcat(c: Config, a: seq<seq<ToolCall>>, b: seq<seq<ToolCall>>)
    ensures AllKept(c, a + b) <==> AllKept(c, a) && AllKept(c, b)
  {
    hide Redaction.KeepsIds;
    assert (forall x | x in a :: x in a + b) && forall x | x in b :: x in a + b;
  }

  lemma TurnLogs(c: Config, s: State, t: Turn)
    ensures JournalPaired(TakeTurn(c, s, t).state.log) <==> JournalPaired(s.log) && AllKept(c, TurnBatches(c, s, t))
  {
    hide JournalPaired, AutoCompact, Redaction.KeepsIds;
    if !t.cancelled {
      hide Ask;
      AskKeeps(AutoCompacted(c, s, t.summary), t);
      var Asked(s1, answer) := Ask(AutoCompacted(c, s, t.summary), t);
      if answer.Replied? {
        if answer.reply.calls == [] {
          hide Continue;
          var text := Continue(answer.reply, t.continuations, MAX_LENGTH_CONTINUATIONS).content;
          LogAppend(s1.log, AssistantRecord(text, None));
        } else {
          hide PushBatch;
          PushBatchLogs(c, s1, answer.reply, t.outcomes);
        }
      }
    }
  }

  lemma {:induction false} TurnsLog(c: Config, s: State, turns: seq<Turn>, left: nat, last: Option<Reply>)
    ensures JournalPaired(RunTurns(c, s, turns, left, last).state.log) <==>
            JournalPaired(s.log) && AllKept(c, TurnsBatches(c, s, turns, left))
    decreases left
  {
    hide TakeTurn, TurnBatches, JournalPaired, Redaction.KeepsIds;
    if left == 0 {
      if last.Some? {
        LogAppend(s.log, AssistantRecord(last.value.content, None));
      }
    } else if turns != [] {
      TurnLogs(c, s, turns[0]);
      if TakeTurn(c, s, turns[0]).GoesOn? {
        var s1 := TakeTurn(c, s, turns[0]).state;
        AllKeptConcat(c, TurnBatches(c, s, turns[0]), TurnsBatches(c, s1, turns[1..], left - 1));
        TurnsLog(c, s1, turns[1..], left - 1, last);
      } else {
        assert TurnsBatches(c, s, turns, left) == TurnBatches(c, s, turns[0]);
      }
    }
  }

  lemma StepLogs(c: Config, s: State, a: Action, sofar: seq<seq<ToolCall>>)
    requires JournalPaired(s.log) <==> AllKept(c, sofar)
    ensures JournalPaired(Step(c, s, a).log) <==> AllKept(c, StepBatches(c, s, a, sofar))
  {
    match a {
      case DoSend(input, script) =>
        hide JournalPaired, AllKept, RunTurns, TurnsBatches;
        LogAppend(s.log, UserRecord(input));
        TurnsLog(c, PushUser(s, input), script.turns, c.maxTurns, script.last);
        AllKeptConcat(c, sofar, TurnsBatches(c, PushUser(s, input), script.turns, c.maxTurns));
      case DoInject(source, content) => LogAppend(s.log, UserRecord(InjectedText(source, content)));
      case _ =>
    }
  }

  lemma {:induction false} RunLogs(c: Config, s: State, actions: seq<Action>, sofar: seq<seq<ToolCall>>)
    requires JournalPaired(s.log) <==> AllKept(c, sofar)
    ensures JournalPaired(RunActions(c, s, actions).log) <==> AllKept(c, RunBatches(c, s, actions, sofar))
    decreases |actions|
  {
    if actions != [] {
      hide JournalPaired, AllKept, Step, StepBatches;
      StepLogs(c, s, actions[0], sofar);
      RunLogs(c, Step(c, s, actions[0]), actions[1..], StepBatches(c, s, actions[0], sofar));
    }
  }

  /**
   Over every run, on every exit path of every send: each call named in the journal has exactly one later tool record,
   in call order and with nothing between them that is not named, if and only if redaction leaves every batch logged
   since the last reset its list of ids.
   */
  lemma {:induction false} EveryRunLogsEveryCall(c: Config, s: State, actions: seq<Action>)
    requires JournalPaired(s.log)
    ensures JournalPaired(RunActions(c, s, actions).log) <==> AllKept(c, RunBatches(c, s, actions, []))
  {
    hide JournalPaired, RunActions, RunBatches, Redaction.KeepsIds;
    RunLogs(c, s, actions, []);
  }

  // ---------------------------------------------------------------- the results, whatever redaction does

  function ResultId(entry: Record): seq<CallId> {
    if entry.ToolRecord? then [Some(entry.callId)] else []
  }

  function ResultIds(log: seq<Record>): seq<CallId> {
    if log == [] then [] else ResultId(log[0]) + ResultIds(log[1..])
  }

  function AllIds(batches: seq<seq<ToolCall>>): seq<CallId> {
    if batches == [] then [] else CallIds(batches[0]) + AllIds(batches[1..])
  }

  lemma {:induction false} ResultIdsConcat(a: seq<Record>, b: seq<Record>)
    ensures ResultIds(a + b) == ResultIds(a) + ResultIds(b)
  {
    hide ResultId;
    if a == [] {
      assert a + b == b;
    } else {
      assert (a + b)[1..] == a[1..] + b;
      ResultIdsConcat(a[1..], b);
    }
  }

  lemma {:induction false} AllIdsConcat(a: seq<seq<ToolCall>>, b: seq<seq<ToolCall>>)
    ensures AllIds(a + b) == AllIds(a) + AllIds(b)
  {
    if a == [] {
      assert a + b == b;
    } else {
      assert (a + b)[1..] == a[1..] + b;
      AllIdsConcat(a[1..], b);
    }
  }

  lemma {:induction false} NoResultAdded(log: seq<Record>, entry: Record)
    requires !entry.ToolRecord?
    ensures ResultIds(log + [entry]) == ResultIds(log)
  {
    assert [entry][1..] == [];
    ResultIdsConcat(log, [entry]);
  }

  lemma {:induction false} BatchResultIds(calls: seq<ToolCall>, outcomes: seq<CallOutcome>)
    ensures ResultIds(BatchRecords(calls, outcomes)) == CallIds(calls)
  {
    if calls == [] {
    } else if Stops(outcomes) {
      CancelResultIds(calls);
    } else {
      BatchResultIds(calls[1..], outcomes[1..]);
      assert BatchRecords(calls, outcomes)[1..] == BatchRecords(calls[1..], outcomes[1..]);
    }
  }

  lemma {:induction false} CancelResultIds(calls: seq<ToolCall>)
    ensures ResultIds(CancelRecords(calls)) == CallIds(calls)
  {
    if calls != [] {
      CancelResultIds(calls[1..]);
      assert CancelRecords(calls)[1..] == CancelRecords(calls[1..]);
    }
  }

  lemma PushBatchResults(c: Config, s: State, r: Reply, outcomes: seq<CallOutcome>)
    ensures ResultIds(PushBatch(c, s, r, outcomes).log) == ResultIds(s.log) + CallIds(r.calls)
  {
    hide Redaction.LoggedCalls, ResultIds, BatchRecords;
    var head := AssistantRecord(r.content, Redaction.LoggedCalls(c.redactor, r.calls));
    NoResultAdded(s.log, head);
    BatchResultIds(r.calls, outcomes);
    ResultIdsConcat(s.log + [head], BatchRecords(r.calls, outcomes));
  }

  lemma TurnResults(c: Config, s: State, t: Turn)
    ensures ResultIds(TakeTurn(c, s, t).state.log) == ResultIds(s.log) + AllIds(TurnBatches(c, s, t))
  {
    hide ResultIds, AutoCompact;
    if !t.cancelled {
      hide Ask;
      AskKeeps(AutoCompacted(c, s, t.summary), t);
      var Asked(s1, answer) := Ask(AutoCompacted(c, s, t.summary), t);
      if answer.Replied? {
        if answer.reply.calls == [] {
          hide Continue;
          var text := Continue(answer.reply, t.continuations, MAX_LENGTH_CONTINUATIONS).content;
          NoResultAdded(s1.log, AssistantRecord(text, None));
        } else {
          hide PushBatch;
          PushBatchResults(c, s1, answer.reply, t.outcomes);
          assert [answer.reply.calls][1..] == [];
        }
      }
    }
  }

  lemma {:induction false} TurnsResults(c: Config, s: State, turns: seq<Turn>, left: nat, last: Option<Reply>)
    ensures ResultIds(RunTurns(c, s, turns, left, last).state.log)
         == ResultIds(s.log) + AllIds(TurnsBatches(c, s, turns, left))
    decreases left
  {
    hide TakeTurn, TurnBatches, ResultIds;
    assert AllIds([]) == [];
    hide AllIds;
    if left == 0 {
      if last.Some? {
        NoResultAdded(s.log, AssistantRecord(last.value.content, None));
      }
    } else if turns != [] {
      TurnResults(c, s, turns[0]);
      if TakeTurn(c, s, turns[0]).GoesOn? {
        var s1 := TakeTurn(c, s, turns[0]).state;
        AllIdsConcat(TurnBatches(c, s, turns[0]), TurnsBatches(c, s1, turns[1..], left - 1));
        TurnsResults(c, s1, turns[1..], left - 1, last);
      } else {
        assert TurnsBatches(c, s, turns, left) == TurnBatches(c, s, turns[0]);
      }
    }
  }

  lemma {:induction false} StepResults(c: Config, s: State, a: Action, sofar: seq<seq<ToolCall>>)
    requires ResultIds(s.log) == AllIds(sofar)
    ensures ResultIds(Step(c, s, a).log) == AllIds(StepBatches(c, s, a, sofar))
  {
    match a {
      case DoSend(input, script) =>
        hide ResultIds, AllIds, RunTurns, TurnsBatches;
        NoResultAdded(s.log, UserRecord(input));
        TurnsResults(c, PushUser(s, input), script.turns, c.maxTurns, script.last);
        AllIdsConcat(sofar, TurnsBatches(c, PushUser(s, input), script.turns, c.maxTurns));
      case DoInject(source, content) => NoResultAdded(s.log, UserRecord(InjectedText(source, content)));
      case _ =>
    }
  }

  /** Whatever redaction does, the tool records since the last reset are those of the calls, once each and in order. */
  lemma {:induction false} EveryRunLogsEveryResult(c: Config, s: State, actions: seq<Action>, sofar: seq<seq<ToolCall>>)
    requires ResultIds(s.log) == AllIds(sofar)
    ensures ResultIds(RunActions(c, s, actions).log) == AllIds(RunBatches(c, s, actions, sofar))
    decreases |actions|
  {
    if actions != [] {
      hide ResultIds, AllIds, Step, StepBatches;
      StepResults(c, s, actions[0], sofar);
      EveryRunLogsEveryResult(c, Step(c, s, actions[0]), actions[1..], StepBatches(c, s, actions[0], sofar));
    }
  }

  // ---------------------------------------------------------------- restoring a journal

  /** The journal file: a header of `#` lines, then one line for each record. */
  function JournalLines(header: nat, log: seq<Record>): seq<Line> {
    if header == 0 then RecordLines(log) else [Skipped] + JournalLines(header - 1, log)
  }

  function RecordLines(log: seq<Record>): seq<Line> {
    if log == [] then [] else [RecordLine(log[0])] + RecordLines(log[1..])
  }

  function RecordLine(entry: Record): Line {
    match entry
    case UserRecord(content) => Entry(UserLine, content)
    case AssistantRecord(content, _) => Entry(AssistantLine, content)
    case ToolRecord(_, content, _, _) => Entry(OtherLine, content)
  }

  function UserSays(text: string): seq<Message> {
    if text == "" then [] else [UserMessage(text)]
  }

  function ModelSays(text: string): seq<Message> {
    if text == "" then [] else [AssistantMessage(text, [])]
  }

  /** The non-empty user and assistant texts of a journal, in order. */
  function Conversation(log: seq<Record>): seq<Message> {
    if log == [] then []
    else
      match log[0]
      case UserRecord(content) => UserSays(content) + Conversation(log[1..])
      case AssistantRecord(content, _) => ModelSays(content) + Conversation(log[1..])
      case ToolRecord(_, _, _, _) => Conversation(log[1..])
  }

  lemma {:induction false} ConversationConcat(a: seq<Record>, b: seq<Record>)
    ensures Conversation(a + b) == Conversation(a) + Conversation(b)
  {
    if a == [] {
      assert a + b == b;
    } else {
      assert (a + b)[1..] == a[1..] + b;
      ConversationConcat(a[1..], b);
    }
  }

  lemma {:induction false} ToolRecordsSaySilent(calls: seq<ToolCall>, outcomes: seq<CallOutcome>)
    ensures Conversation(BatchRecords(calls, outcomes)) == []
    ensures Conversation(CancelRecords(calls)) == []
  {
    if calls != [] {
      ToolRecordsSaySilent(calls[1..], if outcomes == [] then [] else outcomes[1..]);
      if !Stops(outcomes) {
        assert BatchRecords(calls, outcomes)[1..] == BatchRecords(calls[1..], outcomes[1..]);
      }
      assert CancelRecords(calls)[1..] == CancelRecords(calls[1..]);
    }
  }

  lemma {:induction false} RestoreRecords(log: seq<Record>)
    ensures RestoredMessages(RecordLines(log)) == Conversation(log)
    ensures forall m | m in Conversation(log) ::
              m.content != [] && m.toolCalls == [] && (m.role.User? || m.role.Assistant?)
  {
    if log != [] {
      RestoreRecords(log[1..]);
      var lines := RecordLines(log);
      assert lines[0] == RecordLine(log[0]) && lines[1..] == RecordLines(log[1..]);
      assert RestoredMessages(lines) == RestoredMessage(lines[0]) + Conversation(log[1..]);
    }
  }

  /** Restoring a session's own journal gives back its conversation, without a tool message or a call. */
  lemma {:induction false} RestoreGivesConversation(header: nat, log: seq<Record>)
    ensures RestoredMessages(JournalLines(header, log)) == Conversation(log)
    ensures forall m | m in Conversation(log) ::
              m.content != [] && m.toolCalls == [] && (m.role.User? || m.role.Assistant?)
  {
    if header == 0 {
      RestoreRecords(log);
    } else {
      RestoreGivesConversation(header - 1, log);
      assert JournalLines(header, log)[1..] == JournalLines(header - 1, log);
    }
  }

  lemma {:induction false} UserSaidOnce(log: seq<Record>, content: string)
    ensures Conversation(log + [UserRecord(content)]) == Conversation(log) + UserSays(content)
  {
    var entry := UserRecord(content);
    assert [entry][1..] == [];
    ConversationConcat(log, [entry]);
  }

  lemma {:induction false} ModelSaidOnce(log: seq<Record>, content: string, logged: Option<seq<ToolCall>>)
    ensures Conversation(log + [AssistantRecord(content, logged)]) == Conversation(log) + ModelSays(content)
  {
    var entry := AssistantRecord(content, logged);
    assert [entry][1..] == [];
    ConversationConcat(log, [entry]);
  }

  lemma BatchSaysOnce(c: Config, s: State, r: Reply, outcomes: seq<CallOutcome>)
    ensures Conversation(PushBatch(c, s, r, outcomes).log) == Conversation(s.log) + ModelSays(r.content)
  {
    hide Conversation, ModelSays, Redaction.LoggedCalls;
    var logged := Redaction.LoggedCalls(c.redactor, r.calls);
    ModelSaidOnce(s.log, r.content, logged);
    ToolRecordsSaySilent(r.calls, outcomes);
    ConversationConcat(s.log + [AssistantRecord(r.content, logged)], BatchRecords(r.calls, outcomes));
  }

  // ---------------------------------------------------------------- the conversation of a run

  /** What the model says in answer to a turn: its reply, joined with the continuations when no call is asked for. */
  function AnswerSays(answer: Attempt, parts: seq<Attempt>): seq<Message> {
    if !answer.Replied? then []
    else if answer.reply.calls == [] then ModelSays(Continue(answer.reply, parts, MAX_LENGTH_CONTINUATIONS).content)
    else ModelSays(answer.reply.content)
  }

  /** One text a turn at most: retries, summaries, reminders and tool results are no part of the conversation. */
  function TurnSays(c: Config, s: State, t: Turn): seq<Message> {
    if t.cancelled then [] else AnswerSays(Ask(AutoCompacted(c, s, t.summary), t).answer, t.continuations)
  }

  function TurnsSay(c: Config, s: State, turns: seq<Turn>, left: nat, last: Option<Reply>): seq<Message>
    decreases left
  {
    if left == 0 then if last.None? then [] else ModelSays(last.value.content)
    else if turns == [] then []
    else
      TurnSays(c, s, turns[0]) +
      match TakeTurn(c, s, turns[0])
      case GoesOn(s1) => TurnsSay(c, s1, turns[1..], left - 1, last)
      case Ends(_, _) => []
  }

  /** The conversation after one more step. */
  function StepSays(c: Config, s: State, a: Action, sofar: seq<Message>): seq<Message> {
    match a
    case DoSend(input, script) =>
      if !script.capable || !script.accepted then sofar
      else sofar + UserSays(input) + TurnsSay(c, PushUser(s, input), script.turns, c.maxTurns, script.last)
    case DoInject(source, content) => sofar + UserSays(InjectedText(source, content))
    case DoReset => []
    case _ => sofar
  }

  function RunSays(c: Config, s: State, actions: seq<Action>, sofar: seq<Message>): seq<Message>
    decreases |actions|
  {
    if actions == [] then sofar
    else RunSays(c, Step(c, s, actions[0]), actions[1..], StepSays(c, s, actions[0], sofar))
  }

  lemma TurnConversation(c: Config, s: State, t: Turn)
    ensures Conversation(TakeTurn(c, s, t).state.log) == Conversation(s.log) + TurnSays(c, s, t)
  {
    hide Conversation, ModelSays, AutoCompact;
    if !t.cancelled {
      hide Ask;
      AskKeeps(AutoCompacted(c, s, t.summary), t);
      var asked := Ask(AutoCompacted(c, s, t.summary), t);
      assert asked.state.log == s.log;
      if asked.answer.Replied? {
        var r := asked.answer.reply;
        if r.calls == [] {
          hide Continue;
          ModelSaidOnce(s.log, Continue(r, t.continuations, MAX_LENGTH_CONTINUATIONS).content, None);
        } else {
          BatchSaysOnce(c, asked.state, r, t.outcomes);
        }
      }
    }
  }

  lemma {:induction false} TurnsConversation(c: Config, s: State, turns: seq<Turn>, left: nat, last: Option<Reply>)
    ensures Conversation(RunTurns(c, s, turns, left, last).state.log)
         == Conversation(s.log) + TurnsSay(c, s, turns, left, last)
    decreases left
  {
    hide TakeTurn, TurnSays, Conversation, ModelSays;
    if left == 0 {
      if last.Some? {
        ModelSaidOnce(s.log, last.value.content, None);
      }
    } else if turns != [] {
      TurnConversation(c, s, turns[0]);
      if TakeTurn(c, s, turns[0]).GoesOn? {
        TurnsConversation(c, TakeTurn(c, s, turns[0]).state, turns[1..], left - 1, last);
      }
    }
  }

  lemma StepConversation(c: Config, s: State, a: Action)
    ensures Conversation(Step(c, s, a).log) == StepSays(c, s, a, Conversation(s.log))
  {
    hide Conversation, UserSays, RunTurns, TurnsSay, InjectedText;
    match a {
      case DoSend(input, script) =>
        UserSaidOnce(s.log, input);
        TurnsConversation(c, PushUser(s, input), script.turns, c.maxTurns, script.last);
      case DoInject(source, content) =>
        UserSaidOnce(s.log, InjectedText(source, content));
      case DoReset =>
        assert Conversation([]) == [] by { EmptyConversation(); }
      case _ =>
    }
  }

  lemma EmptyConversation()
    ensures Conversation([]) == []
  {
  }

  /**
   Over a whole run the journal holds the inputs, the injected texts and the joined replies of its steps, in order, and
   nothing else that is said; compaction, retries and restored messages leave no trace in it.
   */
  lemma {:induction false} RunConversation(c: Config, s: State, actions: seq<Action>)
    ensures Conversation(RunActions(c, s, actions).log) == RunSays(c, s, actions, Conversation(s.log))
    decreases |actions|
  {
    if actions != [] {
      hide Conversation, Step, StepSays;
      StepConversation(c, s, actions[0]);
      RunConversation(c, Step(c, s, actions[0]), actions[1..]);
    }
  }

  /** Restoring the journal of a run into a new session gives the conversation of that run as its history. */
  lemma {:induction false} RestoredRun(c: Config, header: nat, actions: seq<Action>)
    ensures var lines := JournalLines(header, RunActions(c, INITIAL, actions).log);
            Step(c, INITIAL, DoRestore(lines)).history == RunSays(c, INITIAL, actions, [])
  {
    hide RunActions, RunSays;
    RunConversation(c, INITIAL, actions);
    RestoreGivesConversation(header, RunActions(c, INITIAL, actions).log);
  }

  // ---------------------------------------------------------------- the flag that stops the summariser

  lemma TurnFutile(c: Config, s: State, t: Turn)
    requires s.futile
    ensures var s' := TakeTurn(c, s, t).state; s'.futile && s'.summaries == s.summaries
  {
    if !t.cancelled {
      AutoCompactFutile(c.thresholds, s.history, s.futile, t.summary);
      var s0 := AutoCompacted(c, s, t.summary);
      hide Ask;
      AskKeeps(s0, t);
      var Asked(s1, answer) := Ask(s0, t);
      assert s1.futile && s1.summaries == s.summaries;
    }
  }

  lemma {:induction false} TurnsFutile(c: Config, s: State, turns: seq<Turn>, left: nat, last: Option<Reply>)
    requires s.futile
    ensures var s' := RunTurns(c, s, turns, left, last).state; s'.futile && s'.summaries == s.summaries
    decreases left
  {
    hide TakeTurn;
    if left > 0 && turns != [] {
      TurnFutile(c, s, turns[0]);
      TurnsFutile(c, TakeTurn(c, s, turns[0]).state, turns[1..], left - 1, last);
    }
  }

  /** Once folding has proved useless the summariser is asked no more, until a clear, a reset or an explicit command. */
  lemma {:induction false} FutileIsFinal(c: Config, s: State, actions: seq<Action>)
    requires s.futile
    requires forall a | a in actions :: !a.DoClear? && !a.DoReset? && !a.DoCompact?
    ensures var s' := RunActions(c, s, actions); s'.futile && s'.summaries == s.summaries
    decreases |actions|
  {
    if actions != [] {
      if actions[0].DoSend? {
        TurnsFutile(c, PushUser(s, actions[0].input), actions[0].script.turns, c.maxTurns, actions[0].script.last);
      }
      FutileIsFinal(c, Step(c, s, actions[0]), actions[1..]);
    }
  }
}
