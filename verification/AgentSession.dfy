/**
 The session object: its methods update the history, the flag and the journal in place, each
 against the state function of module Session.
 */
module AgentSessions {
  import opened Wrappers
  import opened Chat
  import opened ToolPairs
  import opened History
  import opened Compaction
  import opened Session
  import opened Wording
  import opened Sequences

  // ---------------------------------------------------------------- one iteration of each loop

  lemma BatchFrom(calls: seq<ToolCall>, outcomes: seq<CallOutcome>, k: nat)
    requires k < |calls| && k <= |outcomes|
    ensures Stops(outcomes[k..]) <==> k == |outcomes| || outcomes[k].CallInterrupted?
    ensures Stops(outcomes[k..]) ==>
              && BatchMessages(calls[k..], outcomes[k..]) == CancelMessages(calls[k..])
              && BatchRecords(calls[k..], outcomes[k..]) == CancelRecords(calls[k..])
              && BatchStopped(calls[k..], outcomes[k..])
    ensures !Stops(outcomes[k..]) ==>
              && BatchMessages(calls[k..], outcomes[k..])
                 == OutputMessages(calls[k], outcomes[k]) + BatchMessages(calls[k + 1..], outcomes[k + 1..])
              && BatchRecords(calls[k..], outcomes[k..])
                 == [OutputRecord(calls[k], outcomes[k])] + BatchRecords(calls[k + 1..], outcomes[k + 1..])
              && BatchStopped(calls[k..], outcomes[k..]) == BatchStopped(calls[k + 1..], outcomes[k + 1..])
  {
    assert calls[k..][1..] == calls[k + 1..];
    assert k < |outcomes| ==> outcomes[k..][1..] == outcomes[k + 1..];
  }

  lemma {:induction false} PatienceFrom(s: State, attempt: Attempt, retries: seq<Retry>, n: nat)
    requires n < |retries| && attempt.Failed? && attempt.network
    ensures Patience(s, attempt, retries[n..]) ==
            if retries[n].PauseCancelled? then Asked(s, Interrupted)
            else Patience(Assemble(s), retries[n].attempt, retries[n + 1..])
  {
    assert retries[n..][1..] == retries[n + 1..];
  }

  lemma {:induction false} TurnFrom(c: Config, s: State, script: Script, k: nat)
    requires k < c.maxTurns && k < |script.turns|
    ensures var turn := TakeTurn(c, s, script.turns[k]);
            RunTurns(c, s, script.turns[k..], c.maxTurns - k, script.last) ==
            if turn.Ends? then Sent(turn.state, turn.exit)
            else RunTurns(c, turn.state, script.turns[k + 1..], c.maxTurns - (k + 1), script.last)
  {
    assert script.turns[k..][1..] == script.turns[k + 1..];
  }

  lemma RestoredFrom(lines: seq<Line>, k: nat)
    requires k < |lines|
    ensures RestoredMessages(lines[k..]) ==
            if lines[k].Garbage? then [] else RestoredMessage(lines[k]) + RestoredMessages(lines[k + 1..])
  {
    assert lines[k..][1..] == lines[k + 1..];
  }

  // ---------------------------------------------------------------- reading a history

  /** Positions of the tool results. */
  method FindToolResults(h: seq<Message>) returns (idx: seq<nat>)
    ensures idx == ToolPositions(h, |h|)
  {
    idx := [];
    for i := 0 to |h|
      invariant idx == ToolPositions(h, i)
    {
      if h[i].role.Tool? {
        idx := idx + [i];
      }
    }
  }

  /** The weight of a history, summed up message by message. */
  method Total(h: seq<Message>) returns (total: nat)
    ensures total == TotalTokens(h)
  {
    total := 0;
    var i := 0;
    assert h[0..] == h;
    while i < |h|
      invariant i <= |h|
      invariant total + TotalTokens(h[i..]) == TotalTokens(h)
    {
      assert h[i..][1..] == h[i + 1..];
      total := total + RoughTokens(h[i]);
      i := i + 1;
    }
  }

  class AgentSession {
    const config: Config
    const systemPrompt: string
    var history: seq<Message>
    var l3Futile: bool
    var log: seq<Record>
    ghost var summaries: nat
    ghost var assembled: seq<seq<Message>>

    ghost function View(): State
      reads this
    {
      State(history, l3Futile, log, summaries, assembled)
    }

    constructor (limits: Limits, maxTurns: nat, redactor: Redaction.Redactor, systemPrompt: string)
      ensures View() == INITIAL
      ensures config == Config(ThresholdsOf(limits), maxTurns, redactor) && this.systemPrompt == systemPrompt
    {
      config, this.systemPrompt := Config(ThresholdsOf(limits), maxTurns, redactor), systemPrompt;
      history, l3Futile, log, summaries, assembled := [], false, [], 0, [];
    }

    // -------------------------------------------------------------- compaction

    /** Shortens the texts at the given positions, in place. */
    method ShortenAt(idx: seq<nat>) returns (truncated: nat)
      requires forall p | 0 <= p < |idx| :: idx[p] < |history|
      requires Increasing(idx)
      modifies this`history
      ensures ShortenedAt(old(history), history, idx)
      ensures truncated == LongCount(old(history), idx)
    {
      truncated := 0;
      ghost var h := history;
      for p := 0 to |idx|
        invariant ShortenedAt(h, history, idx[..p])
        invariant truncated == LongCount(h, idx[..p])
      {
        var i := idx[p];
        assert i !in idx[..p];
        assert idx[..p + 1] == idx[..p] + [i] && idx[..p + 1][..p] == idx[..p];
        if |history[i].content| > COMPACT_TOOL_CHARS {
          history := history[i := history[i].(content := history[i].content[..COMPACT_TOOL_CHARS] + CUT_MARK)];
          truncated := truncated + 1;
        }
      }
      assert idx[..|idx|] == idx;
    }

    method MaskOldToolResults() returns (truncated: nat)
      modifies this`history
      ensures history == Mask(old(history))
      ensures truncated == MaskCount(old(history), |old(history)|)
    {
      var idx := FindToolResults(history);
      var cut := if |idx| < COMPACT_KEEP_TOOL then 0 else |idx| - COMPACT_KEEP_TOOL;
      PositionsIncrease(history, |history|);
      truncated := ShortenAt(idx[..cut]);
      ShortenedIsMask(old(history), history, cut);
    }

    /** The pruning loop; `total` stays the true sum, so the saturating subtraction never saturates. */
    method PruneToBudget(budget: nat) returns (removed: nat)
      modifies this`history
      ensures history == Prune(old(history), budget)
      ensures removed == |old(history)| - |history|
    {
      var total := Total(history);
      removed := 0;
      while total > budget && |history| > COMPACT_KEEP_TAIL
        invariant removed + |history| == |old(history)|
        invariant total == TotalTokens(history)
        invariant Prune(old(history), budget) == Prune(history, budget)
        decreases |history|
      {
        var pos := FirstRemovable(history);
        if pos.None? {
          break;
        }
        TotalWithout(history, pos.value);
        var weight := RoughTokens(history[pos.value]);
        total := if total < weight then 0 else total - weight;
        history := Without(history, pos.value);
        removed := removed + 1;
      }
    }

    method L3Summarize(summary: Option<string>) returns (result: Fold)
      modifies this`history, this`summaries
      ensures result == FoldHistory(old(history), summary)
      ensures history == if result.Folded? then result.history else old(history)
      ensures summaries == old(summaries) + if result.NothingToFold? then 0 else 1
    {
      var boundary := LastUser(history);
      if boundary.None? || boundary.value == 0 {
        return NothingToFold;
      }
      summaries := summaries + 1;
      if summary.None? {
        return SummariserFailed;
      }
      history := [SummaryNote(boundary.value, summary.value)] + history[boundary.value..];
      return Folded(history, boundary.value);
    }

    method FoldWhenHeavy(summary: Option<string>)
      modifies this`history, this`l3Futile, this`summaries
      ensures summaries >= old(summaries)
      ensures Compacted(history, l3Futile, summaries - old(summaries))
           == FoldIfHeavy(config.thresholds, old(history), old(l3Futile), summary)
    {
      var total := Total(history);
      if total > config.thresholds.l3 && !l3Futile {
        var result := L3Summarize(summary);
        if result.Folded? {
          var after := Total(history);
          if after > config.thresholds.l3 {
            l3Futile := true;
          }
        } else {
          l3Futile := true;
        }
      }
    }

    /** Automatic compaction before a request. */
    method CompactHistory(summary: Option<string>)
      modifies this`history, this`l3Futile, this`summaries
      ensures View() == AutoCompacted(config, old(View()), summary)
    {
      var total := Total(history);
      if total <= config.thresholds.l1 {
        return;
      }
      var truncated := MaskOldToolResults();
      var removed := PruneToBudget(config.thresholds.budget);
      FoldWhenHeavy(summary);
    }

    /** Compaction on command: weights before and after, and what was folded and masked. */
    method CompactOnCommand(summary: Option<string>)
      returns (ok: bool, before: nat, after: nat, folded: nat, truncated: nat)
      modifies this`history, this`summaries
      ensures View() == CompactNow(old(View()), summary)
      ensures before == TotalTokens(old(history))
      ensures truncated == MaskCount(old(history), |old(history)|)
      ensures var r := FoldHistory(Mask(old(history)), summary);
              && (ok <==> !r.SummariserFailed?)
              && (ok ==> after == TotalTokens(history) && folded == if r.Folded? then r.count else 0)
    {
      hide Mask, MaskCount, TotalTokens, FoldHistory;
      before := Total(history);
      truncated := MaskOldToolResults();
      var result := L3Summarize(summary);
      ok, after := !result.SummariserFailed?, 0;
      folded := if result.Folded? then result.count else 0;
      if ok {
        after := Total(history);
      }
    }

    // -------------------------------------------------------------- one turn

    /** A request carries a repaired copy; the history itself is not touched. */
    method BuildRequest() returns (messages: seq<Message>, synthesized: nat, dropped: nat)
      modifies this`assembled
      ensures View() == Assemble(old(View()))
      ensures Repaired(messages, synthesized, dropped) == Sanitize(RequestMessages(systemPrompt, history))
      ensures messages == [Message(System, systemPrompt, [], [], None, None, None)] + Sanitize(history).messages
      ensures ClosesAll(messages) && NoStray(messages, [])
    {
      RequestShape(systemPrompt, history);
      assembled := assembled + [history];
      messages, synthesized, dropped := SanitizeToolPairs(RequestMessages(systemPrompt, history));
      SanitizeMeetsContract(RequestMessages(systemPrompt, history));
    }

    /** The one retry: a request built anew. */
    method AskAgain(t: Turn) returns (answer: Attempt)
      modifies this`assembled
      ensures assembled == old(assembled) + [history]
      ensures answer == t.second
    {
      var _, _, _ := BuildRequest();
      answer := t.second;
    }

    /** Waits out network errors: each retry builds the request anew and sends it, until the script's budget is over. */
    method NetworkPatience(first: Attempt, retries: seq<Retry>) returns (answer: Attempt)
      modifies this`assembled
      ensures Asked(View(), answer) == Patience(old(View()), first, retries)
    {
      answer := first;
      if !first.Failed? || !first.network {
        return;
      }
      var n := 0;
      ghost var waited := Patience(View(), first, retries);
      assert retries[0..] == retries;
      while true
        invariant n <= |retries| && answer.Failed? && answer.network
        invariant waited == Patience(View(), answer, retries[n..])
        decreases |retries| - n
      {
        if n == |retries| {
          return;
        }
        PatienceFrom(View(), answer, retries, n);
        if retries[n].PauseCancelled? {
          return Interrupted;
        }
        var _, _, _ := BuildRequest();
        answer := retries[n].attempt;
        n := n + 1;
        if !answer.Failed? || !answer.network {
          return;
        }
      }
    }

    /** The reply of a turn: one attempt, waited for if the network fails, and one retry after a recoverable failure. */
    method RequestReply(t: Turn) returns (answer: Attempt)
      modifies this`history, this`summaries, this`assembled
      ensures Asked(View(), answer) == Ask(old(View()), t)
    {
      hide Patience, Sanitize, RequestMessages, ClosesAll, NoStray;
      var _, _, _ := BuildRequest();
      answer := NetworkPatience(t.first, t.retries);
      match answer
      case Interrupted =>
      case Replied(_) =>
      case Failed(_, overflow, toolPair) =>
        if overflow && !l3Futile {
          var result := L3Summarize(t.rescue);
          if !result.SummariserFailed? {
            answer := AskAgain(t);
          }
        } else if toolPair {
          answer := AskAgain(t);
        }
    }

    /** Continues a final answer cut at the token limit; the history is not touched. */
    method ContinueOnLength(reply: Reply, parts: seq<Attempt>) returns (full: Reply)
      modifies this`assembled
      ensures full == Continue(reply, parts, MAX_LENGTH_CONTINUATIONS)
      ensures assembled == old(assembled) + Repeat(history, ContinuationRequests(reply, parts, MAX_LENGTH_CONTINUATIONS))
    {
      hide Join, WantsContinuation;
      full := reply;
      var continuations := 0;
      while WantsContinuation(full) && continuations < MAX_LENGTH_CONTINUATIONS
        invariant continuations <= MAX_LENGTH_CONTINUATIONS && continuations <= |parts|
        invariant Continue(reply, parts, MAX_LENGTH_CONTINUATIONS)
               == Continue(full, parts[continuations..], MAX_LENGTH_CONTINUATIONS - continuations)
        invariant old(assembled) + Repeat(history, ContinuationRequests(reply, parts, MAX_LENGTH_CONTINUATIONS))
               == assembled + Repeat(history,
                    ContinuationRequests(full, parts[continuations..], MAX_LENGTH_CONTINUATIONS - continuations))
      {
        var _, _, _ := BuildRequest();
        if continuations == |parts| || !parts[continuations].Replied? {
          break;
        }
        var part := parts[continuations].reply;
        if part.calls != [] {
          break;
        }
        full := Join(full, part);
        continuations := continuations + 1;
      }
    }

    /** Cancels call `from` and every later one: each gets the result "interrupted". */
    method CancelPendingTools(calls: seq<ToolCall>, from: nat)
      requires from <= |calls|
      modifies this`history, this`log
      ensures history == old(history) + CancelMessages(calls[from..])
      ensures log == old(log) + CancelRecords(calls[from..])
    {
      var idx := from;
      while idx < |calls|
        invariant from <= idx <= |calls|
        invariant old(history) + CancelMessages(calls[from..]) == history + CancelMessages(calls[idx..])
        invariant old(log) + CancelRecords(calls[from..]) == log + CancelRecords(calls[idx..])
      {
        assert calls[idx..][1..] == calls[idx + 1..];
        log := log + [ToolRecord(calls[idx].id, CANCELLED, true, true)];
        history := history + [ToolResult(calls[idx].id, CANCELLED)];
        idx := idx + 1;
      }
    }

    /** The result of one call; images go into a user message of their own. */
    method PushOutput(call: ToolCall, out: CallOutcome)
      requires out.Output?
      modifies this`history, this`log
      ensures history == old(history) + OutputMessages(call, out)
      ensures log == old(log) + [OutputRecord(call, out)]
    {
      log := log + [OutputRecord(call, out)];
      history := history + [ToolResult(call.id, TruncateChars(out.content, TOOL_RESULT_MAX_CHARS))];
      if out.images != [] {
        history := history + [ImageMessage(call.name, out.images)];
      }
    }

    /** Runs the calls of a reply in order; a cancellation answers all the rest. */
    method RunCalls(calls: seq<ToolCall>, outcomes: seq<CallOutcome>) returns (stopped: bool)
      modifies this`history, this`log
      ensures history == old(history) + BatchMessages(calls, outcomes)
      ensures log == old(log) + BatchRecords(calls, outcomes)
      ensures stopped == BatchStopped(calls, outcomes)
    {
      ghost var allMessages := history + BatchMessages(calls, outcomes);
      ghost var allRecords := log + BatchRecords(calls, outcomes);
      assert calls[0..] == calls && outcomes[0..] == outcomes;
      for idx := 0 to |calls|
        invariant idx <= |outcomes|
        invariant allMessages == history + BatchMessages(calls[idx..], outcomes[idx..])
        invariant allRecords == log + BatchRecords(calls[idx..], outcomes[idx..])
        invariant BatchStopped(calls, outcomes) == BatchStopped(calls[idx..], outcomes[idx..])
      {
        BatchFrom(calls, outcomes, idx);
        if idx == |outcomes| || outcomes[idx].CallInterrupted? {
          CancelPendingTools(calls, idx);
          return true;
        }
        ConcatAssoc(history, OutputMessages(calls[idx], outcomes[idx]),
                    BatchMessages(calls[idx + 1..], outcomes[idx + 1..]));
        ConcatAssoc(log, [OutputRecord(calls[idx], outcomes[idx])], BatchRecords(calls[idx + 1..], outcomes[idx + 1..]));
        PushOutput(calls[idx], outcomes[idx]);
      }
      return false;
    }

    method RunTurn(t: Turn) returns (exit: Option<Exit>)
      modifies this
      ensures TakeTurn(config, old(View()), t) == if exit.Some? then Ends(View(), exit.value) else GoesOn(View())
    {
      if t.cancelled {
        return Some(UserCancelled);
      }
      CompactHistory(t.summary);
      var answer := RequestReply(t);
      if answer.Interrupted? {
        return Some(UserCancelled);
      }
      if answer.Failed? {
        return Some(ModelFailed);
      }
      var reply := answer.reply;
      if reply.calls == [] {
        reply := ContinueOnLength(reply, t.continuations);
        history := history + [ReplyMessage(reply)];
        log := log + [AssistantRecord(reply.content, None)];
        return Some(FinalAnswer(reply.content));
      }
      log := log + [AssistantRecord(reply.content, Redaction.LoggedCalls(config.redactor, reply.calls))];
      history := history + [ReplyMessage(reply)];
      var stopped := RunCalls(reply.calls, t.outcomes);
      if stopped {
        return Some(UserCancelled);
      }
      if t.reminder.Some? {
        history := history + [UserMessage(t.reminder.value)];
      }
      return None;
    }

    // -------------------------------------------------------------- the steps

    /** Turn `k` of a script, seen from the result of all the turns. */
    method NextTurn(script: Script, k: nat, ghost all: Sent) returns (exit: Option<Exit>)
      requires k < config.maxTurns && k < |script.turns|
      requires all == RunTurns(config, View(), script.turns[k..], config.maxTurns - k, script.last)
      modifies this
      ensures exit.Some? ==> all == Sent(View(), exit.value)
      ensures exit.None? ==>
                all == RunTurns(config, View(), script.turns[k + 1..], config.maxTurns - (k + 1), script.last)
    {
      TurnFrom(config, View(), script, k);
      exit := RunTurn(script.turns[k]);
    }

    method TurnLoop(script: Script) returns (exit: Exit)
      modifies this
      ensures Sent(View(), exit) == RunTurns(config, old(View()), script.turns, config.maxTurns, script.last)
    {
      hide TakeTurn;
      ghost var all := RunTurns(config, View(), script.turns, config.maxTurns, script.last);
      assert script.turns[0..] == script.turns;
      for turn := 0 to config.maxTurns
        invariant turn <= |script.turns|
        invariant all == RunTurns(config, View(), script.turns[turn..], config.maxTurns - turn, script.last)
      {
        if turn == |script.turns| {
          return UserCancelled;
        }
        var ended := NextTurn(script, turn, all);
        if ended.Some? {
          return ended.value;
        }
      }
      exit := FinishAtLimit(script.last);
    }

    method FinishAtLimit(last: Option<Reply>) returns (exit: Exit)
      modifies this
      ensures Sent(View(), exit) == LimitExit(old(View()), last)
    {
      var _, _, _ := BuildRequest();
      if last.None? {
        return ModelFailed;
      }
      log := log + [AssistantRecord(last.value.content, None)];
      history := history + [ReplyMessage(last.value)];
      return LimitAnswered(last.value);
    }

    method SendInput(input: string, script: Script) returns (exit: Exit)
      modifies this
      ensures Sent(View(), exit) == Send(config, old(View()), input, script)
    {
      if !script.capable || !script.accepted {
        return Refused;
      }
      history := history + [UserMessage(input)];
      log := log + [UserRecord(input)];
      assert View() == PushUser(old(View()), input);
      exit := TurnLoop(script);
    }

    method InjectContext(source: string, content: string)
      modifies this`history, this`log
      ensures View() == Step(config, old(View()), DoInject(source, content))
      ensures var text := INJECTED_HEAD + source + INJECTED_MIDDLE + content;
              && history == old(history) + [Message(User, text, [], [], None, None, None)]
              && log == old(log) + [UserRecord(text)]
    {
      var text := InjectedText(source, content);
      history := history + [UserMessage(text)];
      log := log + [UserRecord(text)];
    }

    method RestoreLine(line: Line) returns (pushed: bool)
      modifies this`history
      ensures history == old(history) + RestoredMessage(line)
      ensures pushed <==> RestoredMessage(line) != []
    {
      pushed := false;
      if line.Entry? && line.content != [] {
        match line.kind {
          case UserLine =>
            history := history + [UserMessage(line.content)];
            pushed := true;
          case AssistantLine =>
            history := history + [AssistantMessage(line.content, [])];
            pushed := true;
          case OtherLine =>
        }
      }
    }

    /** Restores a journal line by line; a line that is not JSON stops it, what came before stays. */
    method RestoreFromLog(lines: seq<Line>) returns (ok: bool, restored: nat)
      modifies this`history
      ensures View() == Step(config, old(View()), DoRestore(lines))
      ensures ok <==> Garbage !in lines
      ensures restored == |RestoredMessages(lines)|
    {
      restored := 0;
      ghost var all := history + RestoredMessages(lines);
      assert lines[0..] == lines;
      for n := 0 to |lines|
        invariant all == history + RestoredMessages(lines[n..])
        invariant |history| == |old(history)| + restored
        invariant Garbage !in lines[..n]
      {
        RestoredFrom(lines, n);
        assert lines[..n + 1] == lines[..n] + [lines[n]];
        if lines[n].Garbage? {
          return false, restored;
        }
        ConcatAssoc(history, RestoredMessage(lines[n]), RestoredMessages(lines[n + 1..]));
        var pushed := RestoreLine(lines[n]);
        if pushed {
          restored := restored + 1;
        }
      }
      return true, restored;
    }

    method Clear()
      modifies this`history, this`l3Futile
      ensures View() == Step(config, old(View()), DoClear)
      ensures history == [] && !l3Futile && log == old(log)
    {
      history := [];
      l3Futile := false;
    }

    /** A new session in place: the journal starts anew as well. */
    method Reset()
      modifies this`history, this`l3Futile, this`log
      ensures View() == Step(config, old(View()), DoReset)
      ensures history == [] && !l3Futile && log == []
    {
      log := [];
      history := [];
      l3Futile := false;
    }
  }
}
