/** One turn of a session, told message by message: what a batch, an answer and a wait put into the history. */
module SessionTurns {
  import opened Wrappers
  import opened Chat
  import opened History
  import opened Compaction
  import opened CompactionPass
  import opened Session
  import opened SessionSafety
  import opened SessionBounds
  import opened Text
  import opened Wording
  import opened Sequences

  // ---------------------------------------------------------------- the messages of a batch

  /** The images of call `k`, in a user message of their own. */
  ghost function Shown(name: string, images: seq<string>): seq<Message> {
    if images == [] then []
    else
      var text := IMAGE_HEAD + name + IMAGE_MIDDLE + Decimal(|images|) + if |images| == 1 then IMAGE_ONE else IMAGE_MANY;
      [Message(User, text, images, [], None, None, None)]
  }

  /** The messages of call `k`: its result, and behind it the images it returned. */
  ghost function Piece(calls: seq<ToolCall>, outcomes: seq<CallOutcome>, k: nat): seq<Message>
    requires k < |calls|
  {
    [Message(Tool, ToldCall(outcomes, k), [], [], Some(calls[k].id), None, None)]
    + Shown(calls[k].name, if Executed(outcomes, k) then outcomes[k].images else [])
  }

  ghost function Pieces(calls: seq<ToolCall>, outcomes: seq<CallOutcome>, n: nat): seq<Message>
    requires n <= |calls|
  {
    if n == 0 then [] else Pieces(calls, outcomes, n - 1) + Piece(calls, outcomes, n - 1)
  }

  lemma PieceShifts(calls: seq<ToolCall>, outcomes: seq<CallOutcome>, k: nat)
    requires !Stops(outcomes) && k + 1 < |calls|
    ensures Piece(calls, outcomes, k + 1) == Piece(calls[1..], outcomes[1..], k)
  {
    hide Shown, Limited;
    ExecutedShift(outcomes, k);
  }

  lemma {:induction false} PiecesShift(calls: seq<ToolCall>, outcomes: seq<CallOutcome>, n: nat)
    requires !Stops(outcomes) && n < |calls|
    ensures Pieces(calls, outcomes, n + 1) == Piece(calls, outcomes, 0) + Pieces(calls[1..], outcomes[1..], n)
  {
    hide Piece;
    if n > 0 {
      PiecesShift(calls, outcomes, n - 1);
      PieceShifts(calls, outcomes, n - 1);
    }
  }

  lemma {:induction false} PiecesCancelled(calls: seq<ToolCall>, outcomes: seq<CallOutcome>, n: nat)
    requires Stops(outcomes) && n <= |calls|
    ensures |CancelMessages(calls)| == |calls| && Pieces(calls, outcomes, n) == CancelMessages(calls)[..n]
  {
    hide Executed, Stops, Piece, CancelMessages, CancelRecords, Results, ToolResult;
    CancelledAt(calls);
    if n > 0 {
      PiecesCancelled(calls, outcomes, n - 1);
      CancelledPiece(calls, outcomes, n - 1);
      assert CancelMessages(calls)[..n] == CancelMessages(calls)[..n - 1] + [CancelMessages(calls)[n - 1]];
    }
  }

  lemma CancelledPiece(calls: seq<ToolCall>, outcomes: seq<CallOutcome>, k: nat)
    requires Stops(outcomes) && k < |calls|
    ensures Piece(calls, outcomes, k) == [ToolResult(calls[k].id, CANCELLED)]
  {
    NothingExecuted(outcomes);
    hide Executed, Stops;
  }

  lemma FirstPiece(calls: seq<ToolCall>, outcomes: seq<CallOutcome>)
    requires calls != [] && !Stops(outcomes)
    ensures Piece(calls, outcomes, 0) == OutputMessages(calls[0], outcomes[0])
  {
    hide TruncateChars, Limited;
    ExecutedShift(outcomes, 0);
    LimitedIs(outcomes[0].content);
  }

  lemma {:induction false} NoPieces(calls: seq<ToolCall>, outcomes: seq<CallOutcome>)
    ensures Pieces(calls, outcomes, 0) == []
  {
  }

  /** A batch puts the piece of each call into the history, in call order, and nothing else. */
  lemma {:induction false} BatchIs(calls: seq<ToolCall>, outcomes: seq<CallOutcome>)
    ensures BatchMessages(calls, outcomes) == Pieces(calls, outcomes, |calls|)
  {
    hide Piece, OutputMessages, Pieces;
    if calls == [] {
      assert Pieces(calls, outcomes, 0) == [] by { NoPieces(calls, outcomes); }
    } else if Stops(outcomes) {
      PiecesCancelled(calls, outcomes, |calls|);
      assert CancelMessages(calls)[..|calls|] == CancelMessages(calls);
    } else {
      BatchIs(calls[1..], outcomes[1..]);
      PiecesShift(calls, outcomes, |calls| - 1);
      FirstPiece(calls, outcomes);
    }
  }

  /** A batch is cut short exactly when some call of it is not carried out. */
  lemma {:induction false} StoppedIff(calls: seq<ToolCall>, outcomes: seq<CallOutcome>)
    ensures BatchStopped(calls, outcomes) <==> exists k: nat :: k < |calls| && !Executed(outcomes, k)
  {
    if calls == [] {
    } else if Stops(outcomes) {
      NothingExecuted(outcomes);
      assert 0 < |calls| && !Executed(outcomes, 0);
    } else {
      StoppedIff(calls[1..], outcomes[1..]);
      StoppedShift(calls, outcomes);
    }
  }

  lemma StoppedShift(calls: seq<ToolCall>, outcomes: seq<CallOutcome>)
    requires calls != [] && !Stops(outcomes)
    ensures (exists k: nat :: k < |calls| && !Executed(outcomes, k)) <==>
            exists k: nat :: k < |calls[1..]| && !Executed(outcomes[1..], k)
  {
    ExecutedShift(outcomes, 0);
    hide Executed, Stops;
    if k: nat :| k < |calls| && !Executed(outcomes, k) {
      ExecutedShift(outcomes, k - 1);
      assert k - 1 < |calls[1..]| && !Executed(outcomes[1..], k - 1);
    }
    if k: nat :| k < |calls[1..]| && !Executed(outcomes[1..], k) {
      ExecutedShift(outcomes, k);
      assert k + 1 < |calls| && !Executed(outcomes, k + 1);
    }
  }

  // ---------------------------------------------------------------- an answer and its continuations

  /** The texts of the replies among `parts`, in a row. */
  function TextOf(parts: seq<Attempt>): string {
    if parts == [] then ""
    else TextOf(parts[..|parts| - 1]) + match parts[|parts| - 1] case Replied(r) => r.content case _ => ""
  }

  /** The first `k` parts are replies without calls. */
  ghost predicate Joinable(parts: seq<Attempt>, k: nat) {
    k <= |parts| && forall i | 0 <= i < k :: parts[i].Replied? && parts[i].reply.calls == []
  }

  /** How the reply that was joined last ended: the first one or the k-th part. */
  ghost function FinishAfter(r: Reply, parts: seq<Attempt>, k: nat): Option<string>
    requires Joinable(parts, k)
  {
    if k == 0 then r.finish else parts[k - 1].reply.finish
  }

  /** The reasoning of the last of these replies that brought any. */
  ghost function ReasoningAfter(r: Reply, parts: seq<Attempt>, k: nat): Option<string>
    requires Joinable(parts, k)
  {
    if k == 0 then r.reasoning
    else if parts[k - 1].reply.reasoning.Some? then parts[k - 1].reply.reasoning
    else ReasoningAfter(r, parts, k - 1)
  }

  /** Cut at the token limit, with something visible so far: worth another request. */
  ghost predicate CutShort(r: Reply, parts: seq<Attempt>, k: nat)
    requires Joinable(parts, k)
  {
    FinishAfter(r, parts, k) == Some("length") && exists x | x in r.content + TextOf(parts[..k]) :: !IsWhitespace(x)
  }

  /** `full` is the reply with its first `k` continuations; it would go on only past the limit or a part that cannot be joined. */
  ghost predicate Joined(r: Reply, parts: seq<Attempt>, limit: nat, k: nat, full: Reply) {
    && k <= limit && Joinable(parts, k)
    && full.content == r.content + TextOf(parts[..k]) && full.calls == r.calls
    && full.finish == FinishAfter(r, parts, k) && full.reasoning == ReasoningAfter(r, parts, k)
    && (forall i: nat | i < k :: Joinable(parts, i) && CutShort(r, parts, i))
    && (k == limit || !CutShort(r, parts, k) || !Joinable(parts, k + 1))
  }

  lemma {:induction false} TextOfFirst(parts: seq<Attempt>)
    requires parts != [] && parts[0].Replied?
    ensures TextOf(parts) == parts[0].reply.content + TextOf(parts[1..])
  {
    if |parts| == 1 {
      assert parts[..0] == [] && parts[1..] == [];
    } else {
      assert parts[..|parts| - 1][1..] == parts[1..][..|parts| - 2];
      TextOfFirst(parts[..|parts| - 1]);
    }
  }

  lemma {:induction false} ReasoningNext(r: Reply, parts: seq<Attempt>, i: nat)
    requires parts != [] && parts[0].Replied? && Joinable(parts, i + 1) && Joinable(parts[1..], i)
    ensures ReasoningAfter(r, parts, i + 1) == ReasoningAfter(Join(r, parts[0].reply), parts[1..], i)
  {
    if i > 0 {
      ReasoningNext(r, parts, i - 1);
    }
  }

  /** Joining the first part and then `k` more is joining `k + 1`. */
  lemma {:induction false} JoinedNext(r: Reply, parts: seq<Attempt>, i: nat)
    requires parts != [] && parts[0].Replied? && parts[0].reply.calls == []
    ensures Joinable(parts, i + 1) <==> Joinable(parts[1..], i)
    ensures var first := Join(r, parts[0].reply);
            Joinable(parts[1..], i) ==>
              && r.content + TextOf(parts[..i + 1]) == first.content + TextOf(parts[1..][..i])
              && FinishAfter(r, parts, i + 1) == FinishAfter(first, parts[1..], i)
              && ReasoningAfter(r, parts, i + 1) == ReasoningAfter(first, parts[1..], i)
              && (CutShort(r, parts, i + 1) <==> CutShort(first, parts[1..], i))
  {
    hide ReasoningAfter;
    var rest := parts[1..];
    assert forall j | 0 <= j < |rest| :: rest[j] == parts[j + 1];
    if Joinable(rest, i) {
      ReasoningNext(r, parts, i);
      assert parts[..i + 1][1..] == rest[..i];
      TextOfFirst(parts[..i + 1]);
    }
  }

  lemma CutShortAtFirst(r: Reply, parts: seq<Attempt>)
    ensures Joinable(parts, 0) && (CutShort(r, parts, 0) <==> WantsContinuation(r))
    ensures r.content + TextOf(parts[..0]) == r.content
  {
    assert parts[..0] == [] && r.content + "" == r.content;
  }

  /** An answer is what came first and its continuations, as long as each was cut short, two at most. */
  lemma {:induction false} ContinueIs(r: Reply, parts: seq<Attempt>, limit: nat)
    returns (k: nat)
    ensures Joined(r, parts, limit, k, Continue(r, parts, limit))
    ensures ContinuationRequests(r, parts, limit) == if k < limit && CutShort(r, parts, k) then k + 1 else k
    decreases limit
  {
    CutShortAtFirst(r, parts);
    if limit == 0 || !WantsContinuation(r) || parts == [] || !parts[0].Replied? || parts[0].reply.calls != [] {
      k := 0;
      assert Joinable(parts, 1) ==> parts != [] && parts[0].Replied? && parts[0].reply.calls == [];
    } else {
      hide CutShort, WantsContinuation, TextOf, Joinable, ReasoningAfter;
      var first, rest := Join(r, parts[0].reply), parts[1..];
      var j := ContinueIs(first, rest, limit - 1);
      k := j + 1;
      JoinedNext(r, parts, j);
      JoinedNext(r, parts, j + 1);
      forall i: nat | i < k ensures Joinable(parts, i) && CutShort(r, parts, i) {
        if i > 0 {
          JoinedNext(r, parts, i - 1);
        }
      }
    }
  }

  // ---------------------------------------------------------------- compaction before a request

  /** The pass on a session: history and flag are those of the third level, its question is counted, the rest stays. */
  lemma CompactedIs(c: Config, s: State, summary: Option<string>)
    returns (cut: seq<Message>, gone: nat, r: Compacted)
    requires NoSystem(s.history)
    ensures AutoCompacted(c, s, summary) ==
            s.(history := r.history, futile := r.futile, summaries := s.summaries + r.summaries)
    ensures CutOld(s.history, cut) && LeastCut(cut, c.thresholds.budget, gone)
    ensures if TotalTokens(s.history) <= c.thresholds.l1 then r == Compacted(s.history, s.futile, 0)
            else ThirdLevel(c.thresholds, cut[gone..], s.futile, summary, r)
  {
    hide AutoCompact, CutOld, LeastCut, ThirdLevel, TotalTokens;
    cut, gone := AutoCompactIs(c.thresholds, s.history, s.futile, summary);
    assert gone <= |cut| by { CutInside(cut, c.thresholds.budget, gone); }
    r := AutoCompact(c.thresholds, s.history, s.futile, summary);
  }

  // ---------------------------------------------------------------- waiting and asking again

  /** The attempt after `i` retries. */
  function AttemptAfter(first: Attempt, retries: seq<Retry>, i: nat): Attempt
    requires i <= |retries|
  {
    if i > 0 && retries[i - 1].Resent? then retries[i - 1].attempt else first
  }

  predicate NetworkError(a: Attempt) { a.Failed? && a.network }

  /** `n` retries are sent, each because the attempt before it failed on the network. */
  ghost predicate Waited(first: Attempt, retries: seq<Retry>, n: nat) {
    n <= |retries| && forall i: nat | i < n :: retries[i].Resent? && NetworkError(AttemptAfter(first, retries, i))
  }

  lemma WaitedNext(first: Attempt, retries: seq<Retry>, n: nat)
    requires retries != [] && retries[0].Resent? && NetworkError(first)
    requires Waited(retries[0].attempt, retries[1..], n)
    ensures Waited(first, retries, n + 1)
    ensures AttemptAfter(first, retries, n + 1) == AttemptAfter(retries[0].attempt, retries[1..], n)
  {
    forall i: nat | i < n + 1 ensures retries[i].Resent? && NetworkError(AttemptAfter(first, retries, i)) {
      if i > 0 {
        assert retries[1..][i - 1] == retries[i];
        assert NetworkError(AttemptAfter(retries[0].attempt, retries[1..], i - 1));
      }
    }
  }

  /** The wait ends at the first attempt that is no network error, at a cancelled pause, or with the retries used up. */
  lemma {:induction false} PatienceIs(s: State, first: Attempt, retries: seq<Retry>) returns (n: nat)
    ensures Waited(first, retries, n)
    ensures var last := AttemptAfter(first, retries, n);
            var stopped := NetworkError(last) && n < |retries|;
            && (stopped ==> retries[n].PauseCancelled?)
            && Patience(s, first, retries) == Asked(s.(assembled := s.assembled + seq(n, _ => s.history)),
                                                    if stopped then Interrupted else last)
    decreases |retries|
  {
    if NetworkError(first) && retries != [] && retries[0].Resent? {
      var m := PatienceIs(Assemble(s), retries[0].attempt, retries[1..]);
      n := m + 1;
      WaitedNext(first, retries, m);
      MoreRequests(s.assembled, s.history, m);
    } else {
      n := 0;
      assert s.assembled + seq(0, _ => s.history) == s.assembled;
    }
  }

  lemma MoreRequests(before: seq<seq<Message>>, h: seq<Message>, n: nat)
    ensures before + [h] + seq(n, _ => h) == before + seq(n + 1, _ => h)
  {
  }

  /**
   After an overflow, unless folding has proved useless: a fold and one more request, the same request when there is
   nothing to fold, or the failure when the summariser fails. After a broken tool-pair contract: one more request.
   */
  ghost predicate Rescued(s: State, failed: Attempt, t: Turn, out: Asked)
    requires failed.Failed?
  {
    var h, overflow := s.history, failed.overflow && !s.futile;
    && (overflow && CanFold(h) && t.rescue.None? ==> out == Asked(s.(summaries := s.summaries + 1), failed))
    && (overflow && CanFold(h) && t.rescue.Some? ==>
        var f := out.state.history;
        && FoldedAt(h, t.rescue, f)
        && out == Asked(s.(history := f, summaries := s.summaries + 1, assembled := s.assembled + [f]), t.second))
    && ((overflow && !CanFold(h)) || (!overflow && failed.toolPair) ==>
        out == Asked(s.(assembled := s.assembled + [h]), t.second))
    && (!overflow && !failed.toolPair ==> out == Asked(s, failed))
  }

  lemma RescueIs(s: State, failed: Attempt, t: Turn)
    requires failed.Failed?
    ensures Rescued(s, failed, t, Rescue(s, failed, t))
  {
    hide CanFold, FoldedAt, FoldHistory;
    FoldIs(s.history, t.rescue);
  }

  /** A request, its retries after network errors, and the rescue when the last of them failed. */
  lemma AskIs(s: State, t: Turn) returns (n: nat)
    ensures Waited(t.first, t.retries, n)
    ensures var last := AttemptAfter(t.first, t.retries, n);
            var stopped := NetworkError(last) && n < |t.retries|;
            var waited := s.(assembled := s.assembled + seq(n + 1, _ => s.history));
            && (stopped ==> t.retries[n].PauseCancelled? && Ask(s, t) == Asked(waited, Interrupted))
            && (!stopped && !last.Failed? ==> Ask(s, t) == Asked(waited, last))
            && (!stopped && last.Failed? ==> Rescued(waited, last, t, Ask(s, t)))
  {
    hide Rescue, Rescued;
    n := PatienceIs(Assemble(s), t.first, t.retries);
    MoreRequests(s.assembled, s.history, n);
    var asked := Patience(Assemble(s), t.first, t.retries);
    if asked.answer.Failed? {
      RescueIs(asked.state, asked.answer, t);
    }
  }

  /** A reply answers the request that was built last, from the history as it stands. */
  lemma ReplyToLast(s: State, t: Turn)
    ensures var Asked(s', answer) := Ask(s, t);
            answer.Replied? ==> s'.assembled != [] && s'.assembled[|s'.assembled| - 1] == s'.history
  {
    hide CanFold, FoldedAt;
    var n := AskIs(s, t);
    assert seq(n + 1, _ => s.history)[n] == s.history;
  }

  // ---------------------------------------------------------------- the turn

  /** What follows a final answer: its text is what the send returns, and one message and one record hold it. */
  ghost predicate AnswerTaken(s: State, r: Reply, t: Turn, out: TurnResult) {
    exists k: nat, full: Reply :: AnswerWith(s, r, t, out, k, full)
  }

  /** The answer is the reply with `k` continuations; each took a request, and so did one that could not be joined. */
  ghost predicate AnswerWith(s: State, r: Reply, t: Turn, out: TurnResult, k: nat, full: Reply) {
    && Joined(r, t.continuations, 2, k, full)
    && out.Ends? && out.exit == FinalAnswer(full.content)
    && var requests := if k < 2 && CutShort(r, t.continuations, k) then k + 1 else k;
       out.state == s.(
         history := s.history + [Message(Assistant, full.content, [], [], None, full.reasoning, full.finish)],
         log := s.log + [AssistantRecord(full.content, None)],
         assembled := s.assembled + seq(requests, _ => s.history))
  }

  ghost predicate AllExecuted(calls: seq<ToolCall>, outcomes: seq<CallOutcome>) {
    forall k: nat | k < |calls| :: Executed(outcomes, k)
  }

  /** What a turn with calls appends: the reply as it came, the pieces of its calls, and the reminder if it goes on. */
  ghost function BatchAndReminder(r: Reply, t: Turn): seq<Message> {
    [Message(Assistant, r.content, [], r.calls, None, r.reasoning, r.finish)]
    + Pieces(r.calls, t.outcomes, |r.calls|)
    + if AllExecuted(r.calls, t.outcomes) && t.reminder.Some?
      then [Message(User, t.reminder.value, [], [], None, None, None)] else []
  }

  /** The turn hands over exactly when every call was carried out; the journal takes one record a call. */
  ghost predicate BatchTaken(c: Config, s: State, r: Reply, t: Turn, out: TurnResult) {
    && (out.GoesOn? <==> AllExecuted(r.calls, t.outcomes)) && (out.Ends? ==> out.exit == UserCancelled)
    && exists records :: Logs(r.calls, t.outcomes, records) && out.state == s.(
         history := s.history + BatchAndReminder(r, t),
         log := s.log + [AssistantRecord(r.content, Redaction.LoggedCalls(c.redactor, r.calls))] + records)
  }

  ghost predicate TurnTaken(c: Config, s: State, answer: Attempt, t: Turn, out: TurnResult) {
    match answer
    case Interrupted => out == Ends(s, UserCancelled)
    case Failed(_, _, _) => out == Ends(s, ModelFailed)
    case Replied(r) => if r.calls == [] then AnswerTaken(s, r, t, out) else BatchTaken(c, s, r, t, out)
  }

  lemma {:induction false} RepeatIsSeq(h: seq<Message>, n: nat)
    ensures Repeat(h, n) == seq(n, _ => h)
  {
    RepeatIs(h, n);
    RepeatLength(h, n);
    assert forall i | 0 <= i < n :: Repeat(h, n)[i] in Repeat(h, n);
  }

  lemma {:induction false} AnswerIs(s: State, r: Reply, t: Turn)
    requires r.calls == []
    ensures AnswerTaken(s, r, t,
              Ends(PushAnswer(s, r, t.continuations),
                   FinalAnswer(Continue(r, t.continuations, MAX_LENGTH_CONTINUATIONS).content)))
  {
    hide Continue, ContinuationRequests, Joined, CutShort;
    var k := ContinueIs(r, t.continuations, MAX_LENGTH_CONTINUATIONS);
    var full := Continue(r, t.continuations, MAX_LENGTH_CONTINUATIONS);
    RepeatIsSeq(s.history, ContinuationRequests(r, t.continuations, MAX_LENGTH_CONTINUATIONS));
    assert Joined(r, t.continuations, 2, k, full);
    assert full.calls == [] by { JoinedCalls(r, t.continuations, 2, k, full); }
    assert AnswerWith(s, r, t, Ends(PushAnswer(s, r, t.continuations), FinalAnswer(full.content)), k, full);
  }

  lemma JoinedCalls(r: Reply, parts: seq<Attempt>, limit: nat, k: nat, full: Reply)
    requires Joined(r, parts, limit, k, full)
    ensures full.calls == r.calls
  {
  }

  lemma BatchTurnIs(c: Config, s: State, r: Reply, t: Turn)
    requires r.calls != []
    ensures var pushed := PushBatch(c, s, r, t.outcomes);
            BatchTaken(c, s, r, t, if BatchStopped(r.calls, t.outcomes) then Ends(pushed, UserCancelled)
                                   else GoesOn(PushReminder(pushed, t.reminder)))
  {
    hide Executed, Pieces, Logs, Redaction.LoggedCalls, BatchMessages, BatchRecords, BatchStopped;
    BatchIs(r.calls, t.outcomes);
    StoppedIff(r.calls, t.outcomes);
    BatchTellsEveryCall(r.calls, t.outcomes);
    assert Logs(r.calls, t.outcomes, BatchRecords(r.calls, t.outcomes));
    var reply := Message(Assistant, r.content, [], r.calls, None, r.reasoning, r.finish);
    var all := Pieces(r.calls, t.outcomes, |r.calls|);
    ConcatAssoc(s.history, [reply], all);
    assert forall last: seq<Message> :: s.history + [reply] + all + last == s.history + ([reply] + all + last);
  }

  /** The whole turn: nothing when it is cancelled, else compaction, the request and what the answer leads to. */
  lemma TurnIs(c: Config, s: State, t: Turn)
    ensures t.cancelled ==> TakeTurn(c, s, t) == Ends(s, UserCancelled)
    ensures !t.cancelled ==>
              var asked := Ask(AutoCompacted(c, s, t.summary), t);
              TurnTaken(c, asked.state, asked.answer, t, TakeTurn(c, s, t))
  {
    if !t.cancelled {
      hide Ask, AutoCompacted, AnswerTaken, BatchTaken, PushAnswer, PushBatch, PushReminder, Continue, BatchStopped;
      var asked := Ask(AutoCompacted(c, s, t.summary), t);
      if asked.answer.Replied? {
        if asked.answer.reply.calls == [] {
          AnswerIs(asked.state, asked.answer.reply, t);
        } else {
          BatchTurnIs(c, asked.state, asked.answer.reply, t);
        }
      }
    }
  }
}
