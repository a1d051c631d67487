/** When a fold tears a batch apart (src/agent.rs, `l3_summarize` after a batch of calls). */
module SessionFolds {
  import opened Wrappers
  import opened Chat
  import opened History
  import opened Compaction
  import opened Session
  import opened SessionSafety

  /** Behind the note of a fold stands a result whose request has been folded away. */
  ghost predicate Strands(f: Fold) {
    f.Folded? && |f.history| > 0 && Answers(f.history[1..]) != []
  }

  /** Call `k` was carried out and returned images. */
  ghost predicate ReturnedImages(outcomes: seq<CallOutcome>, k: int) {
    Executed(outcomes, k) && outcomes[k].images != []
  }

  ghost predicate EarlierImages(calls: seq<ToolCall>, outcomes: seq<CallOutcome>) {
    exists k :: 0 <= k < |calls| - 1 && ReturnedImages(outcomes, k)
  }

  ghost predicate SomeImages(calls: seq<ToolCall>, outcomes: seq<CallOutcome>) {
    exists k :: 0 <= k < |calls| && ReturnedImages(outcomes, k)
  }

  ghost predicate LastImages(calls: seq<ToolCall>, outcomes: seq<CallOutcome>) {
    ReturnedImages(outcomes, |calls| - 1)
  }

  // ---------------------------------------------------------------- the last user message

  lemma {:induction false} LastUserConcat(a: seq<Message>, b: seq<Message>)
    ensures LastUser(a + b) ==
            if LastUser(b).Some? then Some(|a| + LastUser(b).value) else LastUser(a)
  {
    if b == [] {
      assert a + b == a;
    } else {
      var init, last, ab := b[..|b| - 1], b[|b| - 1], a + b;
      LastUserConcat(a, init);
      assert ab[..|ab| - 1] == a + init && ab[|ab| - 1] == last;
    }
  }

  lemma {:induction false} NoUserLast(h: seq<Message>)
    requires forall m | m in h :: !m.role.User?
    ensures LastUser(h) == None
  {
    if h != [] {
      assert h[|h| - 1] in h;
      NoUserLast(h[..|h| - 1]);
    }
  }

  lemma {:induction false} CancelHasNoUser(calls: seq<ToolCall>)
    ensures forall m | m in CancelMessages(calls) :: !m.role.User?
  {
    if calls != [] {
      CancelHasNoUser(calls[1..]);
    }
  }

  // ---------------------------------------------------------------- images in a batch

  lemma ReturnedLater(outcomes: seq<CallOutcome>, k: nat)
    requires !Stops(outcomes)
    ensures ReturnedImages(outcomes, k + 1) <==> ReturnedImages(outcomes[1..], k)
    ensures ReturnedImages(outcomes, 0) <==> outcomes[0].images != []
  {
    var rest := outcomes[1..];
    if Executed(rest, k) {
      assert forall j | 0 < j <= k + 1 :: outcomes[j] == rest[j - 1];
    }
    if Executed(outcomes, k + 1) {
      assert forall j | 0 <= j <= k :: rest[j] == outcomes[j + 1];
    }
  }

  lemma ImagesStep(calls: seq<ToolCall>, outcomes: seq<CallOutcome>)
    requires calls != [] && !Stops(outcomes)
    ensures SomeImages(calls, outcomes) <==> outcomes[0].images != [] || SomeImages(calls[1..], outcomes[1..])
    ensures LastImages(calls, outcomes) <==>
            if |calls| == 1 then outcomes[0].images != [] else LastImages(calls[1..], outcomes[1..])
  {
    hide ReturnedImages;
    var rest := outcomes[1..];
    forall k: nat ensures ReturnedImages(outcomes, k + 1) <==> ReturnedImages(rest, k) {
      ReturnedLater(outcomes, k);
    }
    ReturnedLater(outcomes, 0);
    if k :| 0 <= k < |calls| && ReturnedImages(outcomes, k) {
      if k > 0 {
        ReturnedLater(outcomes, k - 1);
        assert ReturnedImages(rest, k - 1);
      }
    }
    if k :| 0 <= k < |calls[1..]| && ReturnedImages(rest, k) {
      ReturnedLater(outcomes, k);
      assert ReturnedImages(outcomes, k + 1);
    }
    if |calls| > 1 {
      ReturnedLater(outcomes, |calls| - 2);
    }
  }

  lemma NothingReturned(calls: seq<ToolCall>, outcomes: seq<CallOutcome>)
    requires calls == [] || Stops(outcomes)
    ensures !SomeImages(calls, outcomes)
    ensures calls != [] ==> !LastImages(calls, outcomes)
  {
  }

  lemma LastUserOfOutput(call: ToolCall, out: CallOutcome)
    requires out.Output?
    ensures LastUser(OutputMessages(call, out)) == if out.images == [] then None else Some(1)
    ensures |OutputMessages(call, out)| == if out.images == [] then 1 else 2
  {
  }

  lemma {:induction false} UnexecutedTail(calls: seq<ToolCall>, outcomes: seq<CallOutcome>)
    requires calls == [] || Stops(outcomes)
    ensures LastUser(BatchMessages(calls, outcomes)) == None
  {
    CancelHasNoUser(calls);
    NoUserLast(BatchMessages(calls, outcomes));
  }

  /** The last user message of a batch, and what follows it. */
  lemma {:induction false} BatchTail(calls: seq<ToolCall>, outcomes: seq<CallOutcome>)
    ensures var b := BatchMessages(calls, outcomes);
            && (LastUser(b).Some? <==> SomeImages(calls, outcomes))
            && (LastUser(b).Some? ==> (Answers(b[LastUser(b).value..]) == [] <==> LastImages(calls, outcomes)))
  {
    hide BatchMessages, OutputMessages, SomeImages, LastImages, Answers, LastUser, Stops, CancelMessages;
    if calls == [] || Stops(outcomes) {
      NothingReturned(calls, outcomes);
      UnexecutedTail(calls, outcomes);
    } else {
      BatchUnfolds(calls, outcomes);
      var head, rest := OutputMessages(calls[0], outcomes[0]), BatchMessages(calls[1..], outcomes[1..]);
      BatchTail(calls[1..], outcomes[1..]);
      ImagesStep(calls, outcomes);
      LastUserConcat(head, rest);
      LastUserOfOutput(calls[0], outcomes[0]);
      if LastUser(rest).Some? {
        BatchHasCalls(calls[1..], outcomes[1..]);
        SuffixOfConcat(head, rest, LastUser(rest).value);
      } else if outcomes[0].images != [] {
        OnlyHeadReturned(calls, outcomes);
      }
    }
  }

  lemma {:induction false} BatchUnfolds(calls: seq<ToolCall>, outcomes: seq<CallOutcome>)
    requires calls != [] && !Stops(outcomes)
    ensures outcomes != [] && outcomes[0].Output?
    ensures BatchMessages(calls, outcomes)
         == OutputMessages(calls[0], outcomes[0]) + BatchMessages(calls[1..], outcomes[1..])
  {
  }

  lemma {:induction false} BatchHasCalls(calls: seq<ToolCall>, outcomes: seq<CallOutcome>)
    requires LastUser(BatchMessages(calls, outcomes)).Some?
    ensures calls != []
  {
  }

  lemma SuffixOfConcat(a: seq<Message>, b: seq<Message>, p: nat)
    requires p <= |b|
    ensures (a + b)[|a| + p..] == b[p..]
  {
  }

  /** Images from the first call alone: its image message is followed by the results of all the other calls. */
  lemma {:induction false} OnlyHeadReturned(calls: seq<ToolCall>, outcomes: seq<CallOutcome>)
    requires calls != [] && !Stops(outcomes) && outcomes[0].images != []
    requires !SomeImages(calls[1..], outcomes[1..])
    ensures Answers(BatchMessages(calls, outcomes)[1..]) == [] <==> |calls| == 1
    ensures |calls| > 1 ==> !LastImages(calls[1..], outcomes[1..])
  {
    var rest := BatchMessages(calls[1..], outcomes[1..]);
    var image := OutputMessages(calls[0], outcomes[0])[1];
    assert BatchMessages(calls, outcomes)[1..] == [image] + rest;
    assert ([image] + rest)[1..] == rest && image.role.User?;
    BatchAnswers(calls[1..], outcomes[1..]);
    hide SomeImages, LastImages, EarlierImages;
    if |calls| > 1 {
      SomeOrEarlier(calls[1..], outcomes[1..]);
    }
  }

  // ---------------------------------------------------------------- folding after a batch

  /** What follows a batch until the next user input: the detectors' reminder, then messages led by an assistant. */
  function AfterBatch(reminder: Option<string>, later: seq<Message>): seq<Message> {
    (if reminder.None? then [] else [UserMessage(reminder.value)]) + later
  }

  ghost predicate LaterTurns(later: seq<Message>) {
    (later == [] || later[0].role.Assistant?) && forall m | m in later :: !m.role.User?
  }

  lemma AfterBatchFacts(reminder: Option<string>, later: seq<Message>)
    requires LaterTurns(later)
    ensures var more := AfterBatch(reminder, later);
            && LastUser(more) == (if reminder.None? then None else Some(0))
            && Answers(more) == []
  {
    NoUserLast(later);
    if reminder.None? {
      assert [] + later == later;
    } else {
      var first := [UserMessage(reminder.value)];
      LastUserConcat(first, later);
      assert first[..0] == [] && (first + later)[1..] == later;
    }
  }

  /**
   Folding after a batch, at once or after later turns, on any history: a result is stranded behind the note exactly when
   no reminder followed the batch and either some executed call before the last returned images and the last call was
   not executed with images, or no call returned images and the history before the batch was torn already.
   */
  lemma {:induction false} FoldTearsIff(h: seq<Message>, r: Reply, outcomes: seq<CallOutcome>,
                     reminder: Option<string>, later: seq<Message>, summary: string)
    requires r.calls != [] && LaterTurns(later)
    ensures var whole := h + [ReplyMessage(r)] + BatchMessages(r.calls, outcomes) + AfterBatch(reminder, later);
            Strands(FoldHistory(whole, Some(summary))) <==>
            && reminder.None?
            && if SomeImages(r.calls, outcomes)
               then EarlierImages(r.calls, outcomes) && !LastImages(r.calls, outcomes)
               else Strands(FoldHistory(h, Some(summary)))
  {
    hide LastUser, Answers, BatchMessages, AfterBatch, EarlierImages, SomeImages, LastImages;
    var front, b, more := h + [ReplyMessage(r)], BatchMessages(r.calls, outcomes), AfterBatch(reminder, later);
    var whole := front + b + more;
    AfterBatchFacts(reminder, later);
    BatchTail(r.calls, outcomes);
    LastUserConcat(front + b, more);
    LastUserConcat(front, b);
    SomeOrEarlier(r.calls, outcomes);
    if reminder.Some? {
      assert whole[|front + b|..] == more;
      FoldsAt(whole, |front + b|, summary);
    } else if LastUser(b).Some? {
      var q := LastUser(b).value;
      assert whole[|front| + q..] == b[q..] + more;
      AnswersConcat(b[q..], more);
      FoldsAt(whole, |front| + q, summary);
    } else {
      FoldsInFront(h, r, b + more, summary);
      assert whole == h + ([ReplyMessage(r)] + (b + more));
      LastUserConcat(h, [ReplyMessage(r)]);
      OneAssistant(r);
    }
  }

  lemma OneAssistant(r: Reply)
    ensures LastUser([ReplyMessage(r)]) == None
  {
    assert [ReplyMessage(r)][..0] == [];
  }

  lemma SomeOrEarlier(calls: seq<ToolCall>, outcomes: seq<CallOutcome>)
    requires calls != []
    ensures SomeImages(calls, outcomes) <==> EarlierImages(calls, outcomes) || LastImages(calls, outcomes)
  {
    hide ReturnedImages;
  }

  lemma {:induction false} FoldsAt(whole: seq<Message>, p: nat, summary: string)
    requires LastUser(whole) == Some(p) && 0 < p < |whole|
    ensures Strands(FoldHistory(whole, Some(summary))) <==> Answers(whole[p..]) != []
  {
    hide LastUser, Answers;
    var f := FoldHistory(whole, Some(summary));
    assert f.history[1..] == whole[p..];
  }

  /** A fold at a user message before the batch strands what a fold without the batch would strand. */
  lemma {:induction false} FoldsInFront(h: seq<Message>, r: Reply, rest: seq<Message>, summary: string)
    ensures var whole := h + ([ReplyMessage(r)] + rest);
            LastUser(whole) == LastUser(h) ==>
            (Strands(FoldHistory(whole, Some(summary))) <==> Strands(FoldHistory(h, Some(summary))))
  {
    var tail := [ReplyMessage(r)] + rest;
    hide LastUser, Answers;
    if LastUser(h + tail) == LastUser(h) && LastUser(h).Some? && LastUser(h).value > 0 {
      var p := LastUser(h).value;
      AssistantFirst(r, rest);
      AnswersConcat(h[p..], tail);
      assert (h + tail)[p..] == h[p..] + tail;
      FoldsAt(h + tail, p, summary);
      FoldsAt(h, p, summary);
    }
  }

  /** A fold strands nothing of a history whose results directly follow their requests. */
  lemma {:induction false} ContiguousNeverTorn(h: seq<Message>, summary: Option<string>)
    requires Contiguous(h)
    ensures !Strands(FoldHistory(h, summary))
  {
    LastUserIs(h);
    hide LastUser, Answers;
    var f := FoldHistory(h, summary);
    if f.Folded? {
      Suffix(h, f.count);
      NoAnswersAfterUser(h[f.count..]);
      assert f.history[1..] == h[f.count..];
    }
  }

  lemma {:induction false} AssistantFirst(r: Reply, rest: seq<Message>)
    ensures Answers([ReplyMessage(r)] + rest) == []
  {
    assert ([ReplyMessage(r)] + rest)[0] == ReplyMessage(r);
  }
}
