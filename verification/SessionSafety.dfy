/** What holds in every reachable session state. */
module SessionSafety {
  import opened Wrappers
  import opened Chat
  import opened ToolPairs
  import opened History
  import opened Compaction
  import opened Session
  import opened Sequences

  // ---------------------------------------------------------------- a batch answers its calls

  lemma {:induction false} CancelAnswers(calls: seq<ToolCall>)
    ensures ToolsOnly(CancelMessages(calls)) && Answers(CancelMessages(calls)) == CallIds(calls)
    ensures NoDangling(CancelMessages(calls)) && Tidy(CancelMessages(calls))
    ensures Contiguous(CancelMessages(calls)) && DistinctIds(CancelMessages(calls))
    ensures NoSystem(CancelMessages(calls))
  {
    if calls != [] {
      CancelAnswers(calls[1..]);
      assert CancelMessages(calls)[1..] == CancelMessages(calls[1..]);
    }
  }

  /** Cancelled mid-way or not, a batch answers every call once, in call order. */
  lemma {:induction false} BatchAnswers(calls: seq<ToolCall>, outcomes: seq<CallOutcome>)
    ensures var b := BatchMessages(calls, outcomes);
            Answers(b) == CallIds(calls) && NoDangling(b) && Tidy(b) && DistinctIds(b) && NoSystem(b)
  {
    if calls == [] {
    } else if Stops(outcomes) {
      CancelAnswers(calls);
    } else {
      var rest := BatchMessages(calls[1..], outcomes[1..]);
      BatchAnswers(calls[1..], outcomes[1..]);
      OutputAnswers(calls[0], outcomes[0], rest);
      hide OutputMessages, Answers, NoDangling, Tidy, DistinctIds, NoSystem;
    }
  }

  /** An output is one more answer in front, image or not. */
  lemma {:induction false} OutputAnswers(call: ToolCall, out: CallOutcome, rest: seq<Message>)
    requires out.Output?
    ensures var b := OutputMessages(call, out) + rest;
            && Answers(b) == [Some(call.id)] + Answers(rest)
            && (NoDangling(b) <==> NoDangling(rest)) && (Tidy(b) <==> Tidy(rest))
            && (DistinctIds(b) <==> DistinctIds(rest)) && (NoSystem(rest) ==> NoSystem(b))
  {
    var head := OutputMessages(call, out);
    if out.images == [] {
      assert (head + rest)[1..] == rest;
    } else {
      assert (head + rest)[1..] == [head[1]] + rest && ([head[1]] + rest)[1..] == rest;
    }
  }

  /** Images come back from the last call of the batch only. */
  ghost predicate ImagesOnlyLast(calls: seq<ToolCall>, outcomes: seq<CallOutcome>) {
    forall k | 0 <= k < |calls| - 1 && Executed(outcomes, k) :: outcomes[k].images == []
  }

  /** Call `k` was carried out: neither it nor an earlier one was interrupted. */
  ghost predicate Executed(outcomes: seq<CallOutcome>, k: int) {
    0 <= k < |outcomes| && forall j | 0 <= j <= k :: outcomes[j].Output?
  }

  lemma ImagesOnlyLastStep(calls: seq<ToolCall>, outcomes: seq<CallOutcome>)
    requires calls != [] && !Stops(outcomes)
    ensures ImagesOnlyLast(calls, outcomes) <==>
            (outcomes[0].images == [] || |calls| == 1) && ImagesOnlyLast(calls[1..], outcomes[1..])
  {
    assert Executed(outcomes, 0);
    forall k | 0 <= k
      ensures Executed(outcomes[1..], k) <==> Executed(outcomes, k + 1)
    {
      if Executed(outcomes[1..], k) {
        assert forall j | 0 < j <= k + 1 :: outcomes[j] == outcomes[1..][j - 1];
      }
      if Executed(outcomes, k + 1) {
        assert forall j | 0 <= j <= k :: outcomes[1..][j] == outcomes[j + 1];
      }
    }
    if ImagesOnlyLast(calls, outcomes) {
      forall k | 0 <= k < |calls[1..]| - 1 && Executed(outcomes[1..], k)
        ensures outcomes[1..][k].images == []
      {
        assert Executed(outcomes, k + 1);
      }
    }
    if (outcomes[0].images == [] || |calls| == 1) && ImagesOnlyLast(calls[1..], outcomes[1..]) {
      forall k | 0 <= k < |calls| - 1 && Executed(outcomes, k) ensures outcomes[k].images == [] {
        if k > 0 {
          assert Executed(outcomes[1..], k - 1);
        }
      }
    }
  }

  lemma {:induction false} BatchStartsWithTool(calls: seq<ToolCall>, outcomes: seq<CallOutcome>)
    ensures var b := BatchMessages(calls, outcomes); calls != [] <==> b != [] && b[0].role.Tool?
    ensures calls == [] ==> BatchMessages(calls, outcomes) == []
  {
  }

  /** The results of a batch stand together exactly when images come from its last call only. */
  lemma {:induction false} BatchContiguous(calls: seq<ToolCall>, outcomes: seq<CallOutcome>)
    ensures Contiguous(BatchMessages(calls, outcomes)) <==> ImagesOnlyLast(calls, outcomes)
  {
    if calls == [] {
    } else if Stops(outcomes) {
      CancelAnswers(calls);
      assert forall k :: !Executed(outcomes, k);
    } else {
      var rest := BatchMessages(calls[1..], outcomes[1..]);
      BatchContiguous(calls[1..], outcomes[1..]);
      BatchStartsWithTool(calls[1..], outcomes[1..]);
      ImagesOnlyLastStep(calls, outcomes);
      OutputContiguous(calls[0], outcomes[0], rest);
      hide OutputMessages, ImagesOnlyLast, Contiguous;
    }
  }

  /** An image message may stand before anything but a result. */
  lemma {:induction false} OutputContiguous(call: ToolCall, out: CallOutcome, rest: seq<Message>)
    requires out.Output?
    ensures Contiguous(OutputMessages(call, out) + rest) <==>
            (out.images == [] || StartsPlain(rest)) && Contiguous(rest)
  {
    var head := OutputMessages(call, out);
    if out.images == [] {
      assert (head + rest)[1..] == rest;
    } else {
      assert (head + rest)[1..] == [head[1]] + rest && ([head[1]] + rest)[1..] == rest;
    }
  }

  // ---------------------------------------------------------------- what a turn appends

  /** A reply with its batch, appended to any history. */
  lemma {:induction false} AppendBatch(h: seq<Message>, r: Reply, outcomes: seq<CallOutcome>)
    requires r.calls != []
    ensures var h' := h + [ReplyMessage(r)] + BatchMessages(r.calls, outcomes);
            && (NoDangling(h') <==> NoDangling(h))
            && (Tidy(h') <==> Tidy(h))
            && (DistinctIds(h') <==> DistinctIds(h) && Distinct(CallIds(r.calls)))
            && (Contiguous(h') <==> Contiguous(h) && ImagesOnlyLast(r.calls, outcomes))
            && (NoSystem(h) ==> NoSystem(h'))
  {
    var m, b := ReplyMessage(r), BatchMessages(r.calls, outcomes);
    var t := [m] + b;
    assert h + [m] + b == h + t && t[1..] == b;
    BatchAnswers(r.calls, outcomes);
    BatchContiguous(r.calls, outcomes);
    Concat(h, t);
    ConcatContiguous(h, t);
    ConcatDistinct(h, t);
  }

  ghost predicate Sound(s: State) {
    NoDangling(s.history) && NoSystem(s.history)
  }

  ghost predicate Orderly(h: seq<Message>) {
    NoDangling(h) && Contiguous(h) && DistinctIds(h) && NoSystem(h)
  }

  lemma AskKeeps(s: State, t: Turn)
    ensures var s' := Ask(s, t).state;
            && (Sound(s) ==> Sound(s'))
            && (Orderly(s.history) ==> Orderly(s'.history))
            && s'.log == s.log && s'.futile == s.futile
            && (s.futile ==> s'.summaries == s.summaries)
            && s.assembled <= s'.assembled
            && (forall h | h in s'.assembled :: h in s.assembled || h == s.history || h == s'.history)
  {
    hide Patience;
    PatienceKeeps(Assemble(s), t.first, t.retries);
    FoldKeepsPairs(s.history, t.rescue);
  }

  /** The answer acted upon is one the script gives. */
  lemma AskAnswers(s: State, t: Turn)
    ensures var answer := Ask(s, t).answer;
            answer == t.first || answer == t.second || answer == Interrupted || Resent(answer) in t.retries
  {
    hide Patience, FoldHistory;
    PatienceKeeps(Assemble(s), t.first, t.retries);
  }

  /** An orderly turn acts on an orderly answer. */
  lemma OrderlyAnswer(s: State, t: Turn)
    requires OrderlyTurn(t)
    ensures OrderlyAttempt(Ask(s, t).answer, t.outcomes)
  {
    hide Ask, ImagesOnlyLast, Distinct;
    AskAnswers(s, t);
    var answer := Ask(s, t).answer;
    if Resent(answer) in t.retries {
      assert Resent(answer).Resent?;
    }
  }

  /** Waiting out the network changes nothing but the list of requests, and the answer is one of the script's. */
  lemma {:induction false} PatienceKeeps(s: State, attempt: Attempt, retries: seq<Retry>)
    ensures var r := Patience(s, attempt, retries);
            && r.state == s.(assembled := r.state.assembled)
            && |s.assembled| <= |r.state.assembled| <= |s.assembled| + |retries|
            && s.assembled <= r.state.assembled
            && (forall h | h in r.state.assembled :: h in s.assembled || h == s.history)
            && (r.answer == attempt || r.answer == Interrupted || Resent(r.answer) in retries)
    decreases |retries|
  {
    if attempt.Failed? && attempt.network && retries != [] && retries[0].Resent? {
      PatienceKeeps(Assemble(s), retries[0].attempt, retries[1..]);
    }
  }

  lemma {:induction false} RepeatIs(h: seq<Message>, n: nat)
    ensures forall g | g in Repeat(h, n) :: g == h
  {
    if n > 0 {
      RepeatIs(h, n - 1);
    }
  }

  /** Joined continuations extend the text and never bring calls in. */
  lemma {:induction false} ContinueExtends(r: Reply, parts: seq<Attempt>, left: nat)
    ensures var full := Continue(r, parts, left);
            r.content <= full.content && full.calls == r.calls
            && ContinuationRequests(r, parts, left) <= left
    decreases left
  {
    if left > 0 && WantsContinuation(r) && parts != [] && parts[0].Replied? && parts[0].reply.calls == [] {
      ContinueExtends(Join(r, parts[0].reply), parts[1..], left - 1);
    }
  }

  /** A scripted turn whose possible replies have distinct ids and return images last. */
  ghost predicate OrderlyTurn(t: Turn) {
    && OrderlyAttempt(t.first, t.outcomes) && OrderlyAttempt(t.second, t.outcomes)
    && forall r | r in t.retries && r.Resent? :: OrderlyAttempt(r.attempt, t.outcomes)
  }

  ghost predicate OrderlyAttempt(a: Attempt, outcomes: seq<CallOutcome>) {
    a.Replied? ==> Distinct(CallIds(a.reply.calls)) && ImagesOnlyLast(a.reply.calls, outcomes)
  }

  /** No dangling call now, nor in any history a request has been built from. */
  ghost predicate SoundSoFar(s: State) {
    Sound(s) && forall h | h in s.assembled :: NoDangling(h)
  }

  ghost predicate OrderlySoFar(s: State) {
    Orderly(s.history) && forall h | h in s.assembled :: Orderly(h)
  }

  lemma AnswerKeeps(s: State, r: Reply, parts: seq<Attempt>)
    requires r.calls == []
    ensures SoundSoFar(s) ==> SoundSoFar(PushAnswer(s, r, parts))
    ensures OrderlySoFar(s) ==> OrderlySoFar(PushAnswer(s, r, parts))
  {
    ContinueExtends(r, parts, MAX_LENGTH_CONTINUATIONS);
    RepeatIs(s.history, ContinuationRequests(r, parts, MAX_LENGTH_CONTINUATIONS));
    AppendPlain(s.history, ReplyMessage(Continue(r, parts, MAX_LENGTH_CONTINUATIONS)));
  }

  lemma BatchKeeps(c: Config, s: State, r: Reply, t: Turn)
    requires r.calls != []
    ensures var s' := PushReminder(PushBatch(c, s, r, t.outcomes), t.reminder);
            && (SoundSoFar(s) ==> SoundSoFar(PushBatch(c, s, r, t.outcomes)) && SoundSoFar(s'))
            && (OrderlySoFar(s) && OrderlyAttempt(Replied(r), t.outcomes) ==>
                OrderlySoFar(PushBatch(c, s, r, t.outcomes)) && OrderlySoFar(s'))
  {
    AppendBatch(s.history, r, t.outcomes);
    if t.reminder.Some? {
      AppendPlain(PushBatch(c, s, r, t.outcomes).history, UserMessage(t.reminder.value));
    }
  }

  lemma CompactedKeeps(c: Config, s: State, summary: Option<string>)
    requires NoSystem(s.history)
    ensures SoundSoFar(s) ==> SoundSoFar(AutoCompacted(c, s, summary))
    ensures OrderlySoFar(s) ==> OrderlySoFar(AutoCompacted(c, s, summary))
  {
    hide AutoCompact, NoDangling, Contiguous, DistinctIds;
    AutoCompactKeepsPairs(c.thresholds, s.history, s.futile, summary);
  }

  lemma AskedKeeps(s: State, t: Turn)
    ensures SoundSoFar(s) ==> SoundSoFar(Ask(s, t).state)
    ensures OrderlySoFar(s) ==> OrderlySoFar(Ask(s, t).state)
  {
    hide Ask, NoDangling, Contiguous, DistinctIds;
    AskKeeps(s, t);
  }

  /** One turn, whatever happens in it. */
  lemma TurnKeeps(c: Config, s: State, t: Turn)
    ensures SoundSoFar(s) ==> SoundSoFar(TakeTurn(c, s, t).state)
    ensures OrderlySoFar(s) && OrderlyTurn(t) ==> OrderlySoFar(TakeTurn(c, s, t).state)
  {
    if !t.cancelled && NoSystem(s.history) {
      hide AutoCompacted, Ask, PushAnswer, PushBatch, PushReminder, OrderlyAttempt, OrderlyTurn;
      var s0 := AutoCompacted(c, s, t.summary);
      CompactedKeeps(c, s, t.summary);
      AskedKeeps(s0, t);
      if OrderlyTurn(t) {
        OrderlyAnswer(s0, t);
      }
      var asked := Ask(s0, t);
      if asked.answer.Replied? {
        if asked.answer.reply.calls == [] {
          AnswerKeeps(asked.state, asked.answer.reply, t.continuations);
        } else {
          BatchKeeps(c, asked.state, asked.answer.reply, t);
        }
      }
    }
  }

  // ---------------------------------------------------------------- a whole send

  ghost predicate LimitWithCalls(e: Exit) {
    e.LimitAnswered? && e.reply.calls != []
  }

  lemma LimitKeeps(s: State, last: Option<Reply>)
    requires SoundSoFar(s)
    ensures var Sent(s', e) := LimitExit(s, last);
            && (SoundSoFar(s') <==> !LimitWithCalls(e))
            && (NoDangling(s'.history) <==> !LimitWithCalls(e))
            && (OrderlySoFar(s) && !LimitWithCalls(e) ==> OrderlySoFar(s'))
  {
    if last.Some? {
      var m := ReplyMessage(last.value);
      if last.value.calls == [] {
        AppendPlain(s.history, m);
      } else {
        assert [m][1..] == [];
        assert Answers([m]) == [] && Answers([]) == [] && |Expected(m)| > 0;
        assert !NoDangling([m]);
        Concat(s.history, [m]);
      }
    }
  }

  lemma {:induction false} TurnsKeep(c: Config, s: State, turns: seq<Turn>, left: nat, last: Option<Reply>)
    requires SoundSoFar(s)
    ensures var Sent(s', e) := RunTurns(c, s, turns, left, last);
            && (SoundSoFar(s') <==> !LimitWithCalls(e))
            && (NoDangling(s'.history) <==> !LimitWithCalls(e))
            && (OrderlySoFar(s) && (forall t | t in turns :: OrderlyTurn(t)) && !LimitWithCalls(e)
                ==> OrderlySoFar(s'))
    decreases left
  {
    hide TakeTurn, LimitExit, Orderly, OrderlyTurn, NoDangling;
    if left == 0 {
      LimitKeeps(s, last);
    } else if turns != [] {
      TurnKeeps(c, s, turns[0]);
      TurnNeverLimits(c, s, turns[0]);
      var turn := TakeTurn(c, s, turns[0]);
      if turn.GoesOn? {
        TurnsKeep(c, turn.state, turns[1..], left - 1, last);
      }
    }
  }

  lemma TurnNeverLimits(c: Config, s: State, t: Turn)
    ensures var r := TakeTurn(c, s, t); r.Ends? ==> !r.exit.LimitAnswered? && !r.exit.Refused?
  {
  }

  lemma UserKeeps(s: State, text: string)
    ensures SoundSoFar(s) ==> SoundSoFar(PushUser(s, text))
    ensures OrderlySoFar(s) ==> OrderlySoFar(PushUser(s, text))
  {
    AppendPlain(s.history, UserMessage(text));
  }

  /** Every turn up to the limit hands over to the next one. */
  ghost predicate ReachesLimit(c: Config, s: State, turns: seq<Turn>, left: nat)
    decreases left
  {
    left == 0 ||
    (turns != [] && TakeTurn(c, s, turns[0]).GoesOn?
     && ReachesLimit(c, TakeTurn(c, s, turns[0]).state, turns[1..], left - 1))
  }

  lemma {:induction false} LimitExitIff(c: Config, s: State, turns: seq<Turn>, left: nat, last: Option<Reply>)
    ensures var e := RunTurns(c, s, turns, left, last).exit;
            && (e.LimitAnswered? <==> ReachesLimit(c, s, turns, left) && last.Some?)
            && (e.LimitAnswered? ==> last == Some(e.reply))
    decreases left
  {
    hide TakeTurn;
    if left > 0 && turns != [] {
      TurnNeverLimits(c, s, turns[0]);
      var turn := TakeTurn(c, s, turns[0]);
      if turn.GoesOn? {
        LimitExitIff(c, turn.state, turns[1..], left - 1, last);
      }
    }
  }

  /**
   A send ends with a dangling call exactly when it gets under way, all its turns are used up and the final reply, to a
   request that offered no tools, carries calls: that reply is stored unfiltered.
   */
  lemma {:induction false} SendLeavesNoDangling(c: Config, s: State, input: string, script: Script)
    requires SoundSoFar(s)
    ensures !NoDangling(Send(c, s, input, script).state.history) <==>
            && script.capable && script.accepted
            && ReachesLimit(c, PushUser(s, input), script.turns, c.maxTurns)
            && script.last.Some? && script.last.value.calls != []
  {
    hide ReachesLimit, RunTurns, NoDangling;
    UserKeeps(s, input);
    TurnsKeep(c, PushUser(s, input), script.turns, c.maxTurns, script.last);
    LimitExitIff(c, PushUser(s, input), script.turns, c.maxTurns, script.last);
  }

  // ---------------------------------------------------------------- every run

  /** The provider brings no calls when the request offers no tools. */
  ghost predicate PlainLast(a: Action) {
    a.DoSend? && a.script.last.Some? ==> a.script.last.value.calls == []
  }

  ghost predicate OrderlyAction(a: Action) {
    a.DoSend? ==> forall t | t in a.script.turns :: OrderlyTurn(t)
  }

  lemma {:induction false} RestoreKeeps(h: seq<Message>, lines: seq<Line>)
    ensures var h' := h + RestoredMessages(lines);
            && (NoDangling(h) ==> NoDangling(h'))
            && (Orderly(h) ==> Orderly(h'))
            && (NoSystem(h) ==> NoSystem(h'))
    decreases |lines|
  {
    if lines == [] || lines[0].Garbage? {
      assert h + [] == h;
    } else {
      var m := RestoredMessage(lines[0]);
      var rest := RestoredMessages(lines[1..]);
      assert h + (m + rest) == (h + m) + rest;
      if m == [] {
        assert h + m == h;
      } else {
        AppendPlain(h, m[0]);
      }
      RestoreKeeps(h + m, lines[1..]);
    }
  }

  lemma CompactKeeps(s: State, summary: Option<string>)
    ensures SoundSoFar(s) ==> SoundSoFar(CompactNow(s, summary))
    ensures OrderlySoFar(s) ==> OrderlySoFar(CompactNow(s, summary))
  {
    MaskKeepsShape(s.history);
    assert NoSystem(s.history) ==> NoSystem(Mask(s.history));
    FoldKeepsPairs(Mask(s.history), summary);
  }

  lemma StepKeeps(c: Config, s: State, a: Action)
    requires SoundSoFar(s) && PlainLast(a)
    ensures SoundSoFar(Step(c, s, a))
    ensures OrderlySoFar(s) && OrderlyAction(a) ==> OrderlySoFar(Step(c, s, a))
  {
    match a
    case DoSend(input, script) =>
      UserKeeps(s, input);
      TurnsKeep(c, PushUser(s, input), script.turns, c.maxTurns, script.last);
      LimitExitIff(c, PushUser(s, input), script.turns, c.maxTurns, script.last);
    case DoInject(source, content) => UserKeeps(s, InjectedText(source, content));
    case DoRestore(lines) => RestoreKeeps(s.history, lines);
    case DoClear =>
    case DoReset =>
    case DoCompact(summary) => CompactKeeps(s, summary);
  }

  lemma {:induction false} RunKeeps(c: Config, s: State, actions: seq<Action>)
    requires SoundSoFar(s)
    requires forall a | a in actions :: PlainLast(a)
    ensures SoundSoFar(RunActions(c, s, actions))
    ensures OrderlySoFar(s) && (forall a | a in actions :: OrderlyAction(a))
            ==> OrderlySoFar(RunActions(c, s, actions))
    decreases |actions|
  {
    if actions != [] {
      StepKeeps(c, s, actions[0]);
      RunKeeps(c, Step(c, s, actions[0]), actions[1..]);
    }
  }

  /**
   Every run of a session: any sends with any exits, injections, restores, clears, resets and
   compactions. No history a request is built from ever holds a dangling call.
   */
  lemma {:induction false} EveryRunAnswersEveryCall(c: Config, actions: seq<Action>)
    requires forall a | a in actions :: PlainLast(a)
    ensures var s := RunActions(c, INITIAL, actions);
            NoDangling(s.history) && NoSystem(s.history) && forall h | h in s.assembled :: NoDangling(h)
  {
    RunKeeps(c, INITIAL, actions);
  }

  /**
   If besides every batch has distinct ids and brings images back from its last call only, the
   sanitizer never synthesises a result in any request of the run, and drops only the results a
   prefix cut has left at the very front.
   */
  lemma {:induction false} OrderlyRunsNeedNoRepair(c: Config, actions: seq<Action>, prompt: string)
    requires forall a | a in actions :: PlainLast(a) && OrderlyAction(a)
    ensures var s := RunActions(c, INITIAL, actions);
            forall h | h in s.assembled + [s.history] ::
              Sanitize(RequestMessages(prompt, h)) ==
              Repaired(RequestMessages(prompt, h[|Run(h)|..]), 0, |Run(h)|)
  {
    RunKeeps(c, INITIAL, actions);
    var s := RunActions(c, INITIAL, actions);
    forall h | h in s.assembled + [s.history]
      ensures Sanitize(RequestMessages(prompt, h)) ==
              Repaired(RequestMessages(prompt, h[|Run(h)|..]), 0, |Run(h)|)
    {
      RequestAssembly(prompt, h);
    }
  }

  /**
   The condition is exact, batch by batch: after a batch on an orderly history the next request needs
   no repair (beyond the leading results) if and only if the ids are distinct and the images come last.
   */
  lemma {:induction false} BatchNeedsNoRepairIff(h: seq<Message>, r: Reply, outcomes: seq<CallOutcome>, prompt: string)
    requires Orderly(h) && r.calls != []
    ensures var h' := h + [ReplyMessage(r)] + BatchMessages(r.calls, outcomes);
            Sanitize(RequestMessages(prompt, h')) ==
            Repaired(RequestMessages(prompt, h'[|Run(h')|..]), 0, |Run(h')|)
            <==> Distinct(CallIds(r.calls)) && ImagesOnlyLast(r.calls, outcomes)
  {
    AppendBatch(h, r, outcomes);
    RequestAssembly(prompt, h + [ReplyMessage(r)] + BatchMessages(r.calls, outcomes));
  }

  /**
   The failing family at its smallest: two calls, the first returns an image. The request carries a
   synthetic result for the second call and drops the real one.
   */
  lemma EarlyImageLosesResult(first: ToolCall, second: ToolCall, out: CallOutcome, late: CallOutcome)
    requires first.id != second.id
    requires out.Output? && out.images != [] && late.Output? && late.images == []
    ensures var r := Reply("", [first, second], None, None);
            var h := [ReplyMessage(r)] + BatchMessages(r.calls, [out, late]);
            && NoDangling(h)
            && Sanitize(h).messages ==
               [ReplyMessage(r), OutputMessages(first, out)[0], Stub(Some(second.id)), OutputMessages(first, out)[1]]
            && Sanitize(h).synthesized == 1 && Sanitize(h).dropped == 1
  {
    var r := Reply("", [first, second], None, None);
    var m := ReplyMessage(r);
    var a, image, b := OutputMessages(first, out)[0], OutputMessages(first, out)[1], OutputMessages(second, late)[0];
    TwoCallBatch(first, second, out, late);
    var h := [m] + BatchMessages(r.calls, [out, late]);
    assert h == [m] + ([a] + [image, b]);
    BatchAnswers(r.calls, [out, late]);
    assert h[1..] == [a] + [image, b] && h[1..] == BatchMessages(r.calls, [out, late]) && h[2..] == [image, b];
    assert [a][1..] == [];
    hide OutputMessages, BatchMessages, Sanitize;
    SanitizeFirstGroup(m, [a], [image, b]);
    Leftover(image, b);
    HalfAnswered(m, first, second, a);
  }

  lemma HalfAnswered(m: Message, first: ToolCall, second: ToolCall, a: Message)
    requires m.toolCalls == [first, second] && first.id != second.id
    requires a.toolCallId == Some(first.id)
    ensures Kept(Expected(m), [a]) == [a]
    ensures Stubs(Expected(m), AnswerSet([a]), 0) == [Stub(Some(second.id))]
  {
    assert [first, second][1..] == [second] && [second][1..] == [] && [a][1..] == [];
    assert CallIds([second]) == [Some(second.id)];
    var ids, seen := [Some(first.id), Some(second.id)], {Some(first.id)};
    assert Expected(m) == ids && AnswerSet([a]) == seen;
    assert ToolPairs.Answered(ids, seen, 0) && !ToolPairs.Answered(ids, seen, 1);
    assert Stubs(ids, seen, 2) == [];
    assert Stubs(ids, seen, 1) == [Stub(Some(second.id))];
  }

  lemma Leftover(image: Message, b: Message)
    requires image.role.User? && b.role.Tool?
    ensures Sanitize([image, b]) == Repaired([image], 0, 1)
  {
    assert [image, b][1..] == [b] && [b][1..] == [];
    assert Sanitize([b]) == Repaired([], 0, 1);
  }

  lemma TwoCallBatch(first: ToolCall, second: ToolCall, out: CallOutcome, late: CallOutcome)
    requires out.Output? && out.images != [] && late.Output? && late.images == []
    ensures BatchMessages([first, second], [out, late]) ==
            OutputMessages(first, out) + OutputMessages(second, late)
  {
    assert [first, second][1..] == [second] && [second][1..] == [];
    assert [out, late][1..] == [late];
    assert BatchMessages([second], [late]) == OutputMessages(second, late);
  }

  /** The same batch, folded at its last user message: the note is followed by an orphan result. */
  lemma EarlyImageOrphansAfterFold(first: ToolCall, second: ToolCall, out: CallOutcome, late: CallOutcome, summary: string)
    requires out.Output? && out.images != [] && late.Output? && late.images == []
    ensures var r := Reply("", [first, second], None, None);
            var h := [UserMessage("")] + [ReplyMessage(r)] + BatchMessages(r.calls, [out, late]);
            var f := FoldHistory(h, Some(summary));
            Tidy(h) && f.Folded? && f.history[1..] == [OutputMessages(first, out)[1], OutputMessages(second, late)[0]]
            && NoDangling(f.history) && !Tidy(f.history)
  {
    var r := Reply("", [first, second], None, None);
    var a, image, b := OutputMessages(first, out)[0], OutputMessages(first, out)[1], OutputMessages(second, late)[0];
    TwoCallBatch(first, second, out, late);
    var start := [UserMessage("")];
    var h := start + [ReplyMessage(r)] + BatchMessages(r.calls, [out, late]);
    assert h == [UserMessage(""), ReplyMessage(r), a, image, b];
    assert start[1..] == [] && Tidy(start);
    AppendBatch(start, r, [out, late]);
    assert h[3] == image && h[4] == b;
    LastUserIs(h);
    FoldKeepsPairs(h, Some(summary));
    assert h[3..] == [image, b];
    StrayAnswer(image, b);
  }

  lemma StrayAnswer(image: Message, b: Message)
    requires image.role.User? && b.role.Tool?
    ensures Answers([image, b]) != []
  {
    assert [image, b][1..] == [b];
    assert Answers([b]) == [b.toolCallId] + Answers([b][1..]);
  }
}
