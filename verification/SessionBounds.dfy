/** What every call of a batch is told, and how much a send may ask of the model. */
module SessionBounds {
  import opened Wrappers
  import opened Chat
  import opened Compaction
  import opened Session
  import opened SessionSafety
  import opened Text
  import opened Wording

  // ---------------------------------------------------------------- the results of a batch

  /** The tool results of a history, in order. */
  function Results(h: seq<Message>): seq<Message> {
    if h == [] then [] else (if h[0].role.Tool? then [h[0]] else []) + Results(h[1..])
  }

  /** A result longer than 8192 characters is cut there and marked. */
  ghost function Limited(text: string): string {
    if |text| <= 8192 then text else text[..8192] + TRUNCATED_HEAD + "8192" + TRUNCATED_TAIL
  }

  lemma LimitedIs(text: string)
    ensures TruncateChars(text, TOOL_RESULT_MAX_CHARS) == Limited(text)
  {
    assert Decimal(8192) == "8192" by {
      assert Decimal(8) == "8" && Decimal(81) == "81" && Decimal(819) == "819";
    }
  }

  /** Call `k` is told its output, cut to the limit, or that it was cancelled when it or an earlier call was interrupted. */
  ghost function ToldCall(outcomes: seq<CallOutcome>, k: nat): string {
    if Executed(outcomes, k) then Limited(outcomes[k].content) else CANCELLED
  }

  ghost predicate Tells(calls: seq<ToolCall>, outcomes: seq<CallOutcome>, results: seq<Message>) {
    |results| == |calls|
    && forall k | 0 <= k < |calls| :: results[k] == ToolResult(calls[k].id, ToldCall(outcomes, k))
  }

  ghost predicate LogsCall(calls: seq<ToolCall>, outcomes: seq<CallOutcome>, k: nat, entry: Record)
    requires k < |calls|
  {
    && entry.ToolRecord? && entry.callId == calls[k].id && entry.content == ToldCall(outcomes, k)
    && (entry.cancelled <==> !Executed(outcomes, k))
    && entry.isError == (!Executed(outcomes, k) || outcomes[k].isError)
  }

  ghost predicate Logs(calls: seq<ToolCall>, outcomes: seq<CallOutcome>, records: seq<Record>) {
    |records| == |calls| && forall k | 0 <= k < |calls| :: LogsCall(calls, outcomes, k, records[k])
  }

  lemma ExecutedShift(outcomes: seq<CallOutcome>, k: nat)
    requires !Stops(outcomes)
    ensures Executed(outcomes, 0)
    ensures Executed(outcomes, k + 1) <==> Executed(outcomes[1..], k)
  {
    var rest := outcomes[1..];
    if Executed(rest, k) {
      forall j | 0 <= j <= k + 1 ensures outcomes[j].Output? {
        if j > 0 {
          assert rest[j - 1].Output?;
        }
      }
    }
    if Executed(outcomes, k + 1) {
      assert forall j | 0 <= j <= k :: rest[j] == outcomes[j + 1];
    }
  }

  lemma {:induction false} CancelledBatch(calls: seq<ToolCall>, outcomes: seq<CallOutcome>)
    requires Stops(outcomes)
    ensures Tells(calls, outcomes, Results(CancelMessages(calls))) && Logs(calls, outcomes, CancelRecords(calls))
  {
    hide Executed, Stops, CancelMessages, CancelRecords;
    NothingExecuted(outcomes);
    CancelledAt(calls);
  }

  lemma {:induction false} CancelledAt(calls: seq<ToolCall>)
    ensures Results(CancelMessages(calls)) == CancelMessages(calls)
    ensures |CancelMessages(calls)| == |CancelRecords(calls)| == |calls|
    ensures forall k | 0 <= k < |calls| :: CancelMessages(calls)[k] == ToolResult(calls[k].id, CANCELLED)
    ensures forall k | 0 <= k < |calls| :: CancelRecords(calls)[k] == ToolRecord(calls[k].id, CANCELLED, true, true)
  {
    if calls != [] {
      CancelledAt(calls[1..]);
      assert CancelMessages(calls)[1..] == CancelMessages(calls[1..]);
    }
  }

  lemma NothingExecuted(outcomes: seq<CallOutcome>)
    requires Stops(outcomes)
    ensures forall k: nat :: !Executed(outcomes, k)
  {
  }

  lemma ToldLater(outcomes: seq<CallOutcome>, k: nat)
    requires !Stops(outcomes)
    ensures ToldCall(outcomes, k + 1) == ToldCall(outcomes[1..], k)
    ensures Executed(outcomes, k + 1) <==> Executed(outcomes[1..], k)
    ensures Executed(outcomes, k + 1) ==> outcomes[k + 1] == outcomes[1..][k]
  {
    hide Limited;
    ExecutedShift(outcomes, k);
  }

  lemma TellsNext(calls: seq<ToolCall>, outcomes: seq<CallOutcome>, rest: seq<Message>)
    requires calls != [] && !Stops(outcomes) && Tells(calls[1..], outcomes[1..], rest)
    ensures var told := ToolResult(calls[0].id, TruncateChars(outcomes[0].content, TOOL_RESULT_MAX_CHARS));
            Tells(calls, outcomes, [told] + rest)
  {
    FirstTold(outcomes);
    hide TruncateChars, Executed, Limited, ToldCall, Stops;
    forall k: nat | k + 1 < |calls| ensures rest[k] == ToolResult(calls[k + 1].id, ToldCall(outcomes, k + 1)) {
      ToldLater(outcomes, k);
    }
  }

  lemma FirstTold(outcomes: seq<CallOutcome>)
    requires !Stops(outcomes)
    ensures ToldCall(outcomes, 0) == TruncateChars(outcomes[0].content, TOOL_RESULT_MAX_CHARS)
  {
    hide TruncateChars, Limited;
    LimitedIs(outcomes[0].content);
    ExecutedShift(outcomes, 0);
  }

  lemma LogsLater(calls: seq<ToolCall>, outcomes: seq<CallOutcome>, k: nat, entry: Record)
    requires !Stops(outcomes) && k + 1 < |calls| && LogsCall(calls[1..], outcomes[1..], k, entry)
    ensures LogsCall(calls, outcomes, k + 1, entry)
  {
    hide ToldCall;
    ToldLater(outcomes, k);
  }

  lemma LogsNext(calls: seq<ToolCall>, outcomes: seq<CallOutcome>, rest: seq<Record>)
    requires calls != [] && !Stops(outcomes) && Logs(calls[1..], outcomes[1..], rest)
    ensures Logs(calls, outcomes, [OutputRecord(calls[0], outcomes[0])] + rest)
  {
    hide TruncateChars, Limited;
    LimitedIs(outcomes[0].content);
    ExecutedShift(outcomes, 0);
    assert LogsCall(calls, outcomes, 0, OutputRecord(calls[0], outcomes[0]));
    hide LogsCall;
    var all := [OutputRecord(calls[0], outcomes[0])] + rest;
    forall k: nat | 0 < k < |calls| ensures LogsCall(calls, outcomes, k, all[k]) {
      assert all[k] == rest[k - 1];
      LogsLater(calls, outcomes, k - 1, rest[k - 1]);
    }
  }

  /**
   The results of a batch and its journal records, call by call: the history and the journal tell each call the same,
   whether the batch ran to its end or was cancelled on the way.
   */
  lemma {:induction false} BatchTellsEveryCall(calls: seq<ToolCall>, outcomes: seq<CallOutcome>)
    ensures Tells(calls, outcomes, Results(BatchMessages(calls, outcomes)))
    ensures Logs(calls, outcomes, BatchRecords(calls, outcomes))
  {
    if calls == [] {
    } else if Stops(outcomes) {
      CancelledBatch(calls, outcomes);
    } else {
      hide OutputMessages, OutputRecord, Tells, Logs, Results, TruncateChars;
      BatchTellsEveryCall(calls[1..], outcomes[1..]);
      ResultsOfOutput(calls[0], outcomes[0], BatchMessages(calls[1..], outcomes[1..]));
      TellsNext(calls, outcomes, Results(BatchMessages(calls[1..], outcomes[1..])));
      LogsNext(calls, outcomes, BatchRecords(calls[1..], outcomes[1..]));
    }
  }

  lemma {:induction false} ResultsOfOutput(call: ToolCall, out: CallOutcome, rest: seq<Message>)
    requires out.Output?
    ensures Results(OutputMessages(call, out) + rest)
         == [ToolResult(call.id, TruncateChars(out.content, TOOL_RESULT_MAX_CHARS))] + Results(rest)
  {
    hide TruncateChars, ImageMessage;
    var b := OutputMessages(call, out) + rest;
    ImageIsUser(call.name, out.images);
    if out.images == [] {
      assert b[1..] == rest;
    } else {
      assert b[1..] == [ImageMessage(call.name, out.images)] + rest;
      assert b[1..][1..] == rest;
    }
  }

  lemma ImageIsUser(name: string, images: seq<string>)
    ensures ImageMessage(name, images).role.User?
  {
  }

  // ---------------------------------------------------------------- how often the model is asked

  /** Requests built and summaries asked for on the way from one state to the other. */
  ghost predicate Within(s: State, s': State, requests: nat, summaries: nat) {
    |s.assembled| <= |s'.assembled| <= |s.assembled| + requests
    && s.summaries <= s'.summaries <= s.summaries + summaries
  }

  lemma {:induction false} RepeatLength(h: seq<Message>, n: nat)
    ensures |Repeat(h, n)| == n
  {
    if n > 0 {
      RepeatLength(h, n - 1);
    }
  }

  lemma AskCost(s: State, t: Turn)
    ensures Within(s, Ask(s, t).state, 2 + |t.retries|, 1)
  {
    hide FoldHistory, Patience;
    PatienceKeeps(Assemble(s), t.first, t.retries);
  }

  lemma CompactCost(c: Config, s: State, summary: Option<string>)
    ensures Within(s, AutoCompacted(c, s, summary), 0, 1)
  {
    hide AutoCompact;
    AutoCompactFutile(c.thresholds, s.history, s.futile, summary);
  }

  lemma AnswerCost(s: State, r: Reply, parts: seq<Attempt>)
    ensures Within(s, PushAnswer(s, r, parts), MAX_LENGTH_CONTINUATIONS, 0)
  {
    hide Continue;
    ContinueExtends(r, parts, MAX_LENGTH_CONTINUATIONS);
    RepeatLength(s.history, ContinuationRequests(r, parts, MAX_LENGTH_CONTINUATIONS));
  }

  /** Retries after network errors that a script holds. */
  function RetriesOf(turns: seq<Turn>): nat {
    if turns == [] then 0 else |turns[0].retries| + RetriesOf(turns[1..])
  }

  /** A turn asks once, again per network error and once after a recoverable failure; an answer is continued twice. */
  lemma TurnCost(c: Config, s: State, t: Turn)
    ensures var r := TakeTurn(c, s, t);
            Within(s, r.state, (if r.Ends? then 2 + MAX_LENGTH_CONTINUATIONS else 2) + |t.retries|, 2)
  {
    if !t.cancelled {
      hide AutoCompacted, Ask, PushAnswer, Continue, BatchMessages, BatchRecords;
      var s0 := AutoCompacted(c, s, t.summary);
      CompactCost(c, s, t.summary);
      AskCost(s0, t);
      var asked := Ask(s0, t);
      if asked.answer.Replied? {
        AnswerCost(asked.state, asked.answer.reply, t.continuations);
      }
    }
  }

  lemma {:induction false} TurnsCost(c: Config, s: State, turns: seq<Turn>, left: nat, last: Option<Reply>)
    ensures Within(s, RunTurns(c, s, turns, left, last).state, 2 * left + 2 + RetriesOf(turns), 2 * left)
    decreases left
  {
    hide TakeTurn;
    if left > 0 && turns != [] {
      TurnCost(c, s, turns[0]);
      var turn := TakeTurn(c, s, turns[0]);
      if turn.GoesOn? {
        TurnsCost(c, turn.state, turns[1..], left - 1, last);
      }
    }
  }

  /**
   However the model behaves, a send of at most n turns builds at most two requests a turn, one for each retry after a
   network error, and two more; it asks the summariser at most twice a turn, network errors or not.
   */
  lemma SendCost(c: Config, s: State, input: string, script: Script)
    ensures Within(s, Send(c, s, input, script).state, 2 * c.maxTurns + 2 + RetriesOf(script.turns), 2 * c.maxTurns)
  {
    TurnsCost(c, PushUser(s, input), script.turns, c.maxTurns, script.last);
  }
}
