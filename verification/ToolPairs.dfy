/**
 The tool-pair contract of chat histories and the sanitizer that repairs the copy sent to
 the provider (src/llm.rs).
 */
module ToolPairs {
  import opened Wrappers
  import opened Chat
  import opened Wording
  import opened Sequences

  type CallId = Option<string>

  /** An assistant message that asks for tools. */
  predicate Requests(m: Message) {
    m.role.Assistant? && m.toolCalls != []
  }

  /** The call ids a request waits for, in call order. */
  function Expected(m: Message): seq<CallId> {
    CallIds(m.toolCalls)
  }

  function CallIds(calls: seq<ToolCall>): (ids: seq<CallId>)
    ensures |ids| == |calls|
  {
    if calls == [] then [] else [Some(calls[0].id)] + CallIds(calls[1..])
  }

  /** The ids answered somewhere in a list of results. */
  function AnswerSet(run: seq<Message>): set<CallId> {
    if run == [] then {} else {run[0].toolCallId} + AnswerSet(run[1..])
  }

  lemma {:induction false} AnswerSetConcat(a: seq<Message>, b: seq<Message>)
    ensures AnswerSet(a + b) == AnswerSet(a) + AnswerSet(b)
  {
    if a == [] {
      assert a + b == b;
    } else {
      assert (a + b)[1..] == a[1..] + b;
      AnswerSetConcat(a[1..], b);
    }
  }

  /** The longest prefix made of tool messages only. */
  function Run(h: seq<Message>): (run: seq<Message>)
    ensures |run| <= |h|
  {
    if h == [] || !h[0].role.Tool? then [] else [h[0]] + Run(h[1..])
  }

  ghost predicate ToolsOnly(run: seq<Message>) {
    run != [] ==> run[0].role.Tool? && ToolsOnly(run[1..])
  }

  ghost predicate StartsPlain(h: seq<Message>) {
    h != [] ==> !h[0].role.Tool?
  }

  lemma {:induction false} RunIs(run: seq<Message>, rest: seq<Message>)
    requires ToolsOnly(run) && StartsPlain(rest)
    ensures Run(run + rest) == run && (run + rest)[|run|..] == rest
  {
    if run == [] {
      assert run + rest == rest;
    } else {
      assert (run + rest)[1..] == run[1..] + rest;
      RunIs(run[1..], rest);
    }
  }

  lemma {:induction false} RunSplits(h: seq<Message>)
    ensures ToolsOnly(Run(h)) && StartsPlain(h[|Run(h)|..])
    ensures h == Run(h) + h[|Run(h)|..]
  {
    if h != [] && h[0].role.Tool? {
      RunSplits(h[1..]);
      assert Run(h)[1..] == Run(h[1..]);
      assert h[|Run(h)|..] == h[1..][|Run(h[1..])|..];
      assert h == [h[0]] + h[1..];
    }
  }

  // ---------------------------------------------------------------- the contract

  /** Every id asked for is answered before the next message that is not a tool result. */
  ghost predicate ClosesAll(h: seq<Message>) {
    h != [] ==> (Requests(h[0]) ==> Closes(h[0], Run(h[1..]))) && ClosesAll(h[1..])
  }

  ghost predicate Closes(request: Message, run: seq<Message>) {
    forall id | id in Expected(request) :: id in AnswerSet(run)
  }

  /** A tool message stands only in the run after a request and answers one of its ids. */
  ghost predicate NoStray(h: seq<Message>, owner: seq<CallId>) {
    h != [] ==>
      if h[0].role.Tool? then h[0].toolCallId in owner && NoStray(h[1..], owner)
      else NoStray(h[1..], if Requests(h[0]) then Expected(h[0]) else [])
  }

  /** No request asks for the same id twice. */
  ghost predicate DistinctIds(h: seq<Message>) {
    h != [] ==> (Requests(h[0]) ==> Distinct(Expected(h[0]))) && DistinctIds(h[1..])
  }

  ghost predicate WellPaired(h: seq<Message>) {
    ClosesAll(h) && NoStray(h, []) && DistinctIds(h)
  }

  // ---------------------------------------------------------------- block by block

  /** All the results of a run answer an id of the owner. */
  ghost predicate AllOwned(run: seq<Message>, owner: seq<CallId>) {
    run != [] ==> run[0].toolCallId in owner && AllOwned(run[1..], owner)
  }

  lemma {:induction false} SkipRun(run: seq<Message>, rest: seq<Message>, owner: seq<CallId>)
    requires ToolsOnly(run) && StartsPlain(rest)
    ensures ClosesAll(run + rest) <==> ClosesAll(rest)
    ensures DistinctIds(run + rest) <==> DistinctIds(rest)
    ensures NoStray(run + rest, owner) <==> AllOwned(run, owner) && NoStray(rest, [])
  {
    if run == [] {
      assert run + rest == rest;
    } else {
      assert (run + rest)[1..] == run[1..] + rest;
      SkipRun(run[1..], rest, owner);
    }
  }

  /** The contract of a history read off its first group: a request, its results, the rest. */
  lemma {:induction false} FirstGroup(head: Message, run: seq<Message>, rest: seq<Message>)
    requires Requests(head) && ToolsOnly(run) && StartsPlain(rest)
    ensures ClosesAll([head] + (run + rest)) <==> Closes(head, run) && ClosesAll(rest)
    ensures DistinctIds([head] + (run + rest)) <==> Distinct(Expected(head)) && DistinctIds(rest)
    ensures NoStray([head] + (run + rest), []) <==> AllOwned(run, Expected(head)) && NoStray(rest, [])
  {
    var h := [head] + (run + rest);
    assert h[0] == head && h[1..] == run + rest;
    RunIs(run, rest);
    SkipRun(run, rest, Expected(head));
  }

  // ---------------------------------------------------------------- the sanitizer

  datatype Repaired = Repaired(messages: seq<Message>, synthesized: nat, dropped: nat)

  /** The results of a run that answer an id of the request. */
  function Kept(ids: seq<CallId>, run: seq<Message>): (kept: seq<Message>)
    ensures |kept| <= |run|
  {
    if run == [] then []
    else if run[0].toolCallId in ids then [run[0]] + Kept(ids, run[1..])
    else Kept(ids, run[1..])
  }

  /** Call `p` counts as answered when it is the first call with its id and the id has a result. */
  predicate Answered(ids: seq<CallId>, answers: set<CallId>, p: nat)
    requires p < |ids|
  {
    ids[p] !in ids[..p] && ids[p] in answers
  }

  /** One synthetic result for each call from `p` on that is not answered. */
  function Stubs(ids: seq<CallId>, answers: set<CallId>, p: nat): seq<Message>
    requires p <= |ids|
    decreases |ids| - p
  {
    if p == |ids| then []
    else if Answered(ids, answers, p) then Stubs(ids, answers, p + 1)
    else [Stub(ids[p])] + Stubs(ids, answers, p + 1)
  }

  function Stub(id: CallId): Message {
    Message(Tool, SYNTHETIC_TOOL_RESULT, [], [], id, None, None)
  }

  /** What a run becomes under a request for `ids`. */
  function RepairedRun(ids: seq<CallId>, run: seq<Message>): seq<Message> {
    Kept(ids, run) + Stubs(ids, AnswerSet(run), 0)
  }

  function Sanitize(h: seq<Message>): Repaired {
    if h == [] then Repaired([], 0, 0)
    else if Requests(h[0]) then
      var ids, run := Expected(h[0]), Run(h[1..]);
      var rest := Sanitize(h[1 + |run|..]);
      Repaired([h[0]] + (RepairedRun(ids, run) + rest.messages),
               |Stubs(ids, AnswerSet(run), 0)| + rest.synthesized,
               |run| - |Kept(ids, run)| + rest.dropped)
    else
      var rest := Sanitize(h[1..]);
      if h[0].role.Tool? then rest.(dropped := rest.dropped + 1)
      else rest.(messages := [h[0]] + rest.messages)
  }

  /** First position of `id`, as the repair loop looks answers up. */
  function Position(ids: seq<CallId>, id: CallId): (p: Option<nat>)
    ensures p.None? <==> id !in ids
    ensures p.Some? ==> p.value < |ids| && ids[p.value] == id && id !in ids[..p.value]
  {
    if ids == [] then None
    else if ids[0] == id then Some(0)
    else
      var rest := Position(ids[1..], id);
      assert ids == [ids[0]] + ids[1..];
      assert rest.Some? ==> ids[..rest.value + 1] == [ids[0]] + ids[1..][..rest.value];
      if rest.None? then None else Some(rest.value + 1)
  }

  /** The repair pass: it leaves its input alone and computes `Sanitize`. */
  method SanitizeToolPairs(messages: seq<Message>)
    returns (out: seq<Message>, synthesized: nat, dropped: nat)
    ensures Repaired(out, synthesized, dropped) == Sanitize(messages)
  {
    out, synthesized, dropped := [], 0, 0;
    var i := 0;
    assert messages[0..] == messages;
    while i < |messages|
      invariant i <= |messages|
      invariant Sanitize(messages) == Prepended(out, synthesized, dropped, Sanitize(messages[i..]))
    {
      if Requests(messages[i]) {
        var ids := Expected(messages[i]);
        var end := ToolRunEnd(messages, i + 1);
        var added, orphans, stubs := RepairRun(ids, messages[i + 1..end]);
        SanitizeGroupAt(messages, i, end);
        GroupPrepended(out, synthesized, dropped, messages[i], added, stubs, orphans,
                       Sanitize(messages[end..]));
        out := out + ([messages[i]] + added);
        synthesized := synthesized + stubs;
        dropped := dropped + orphans;
        i := end;
      } else {
        assert messages[i..][1..] == messages[i + 1..];
        if messages[i].role.Tool? {
          dropped := dropped + 1;
        } else {
          GroupPrepended(out, synthesized, dropped, messages[i], [], 0, 0, Sanitize(messages[i + 1..]));
          out := out + [messages[i]];
        }
        i := i + 1;
      }
    }
  }

  /** The group that starts at `i`: what the repair makes of the history from there. */
  lemma SanitizeGroupAt(messages: seq<Message>, i: nat, end: nat)
    requires i < end <= |messages| && Requests(messages[i])
    requires messages[i + 1..end] == Run(messages[i + 1..])
    ensures var ids, run := Expected(messages[i]), messages[i + 1..end];
            var rest := Sanitize(messages[end..]);
            Sanitize(messages[i..]) ==
            Repaired([messages[i]] + (RepairedRun(ids, run) + rest.messages),
                     |Stubs(ids, AnswerSet(run), 0)| + rest.synthesized,
                     |run| - |Kept(ids, run)| + rest.dropped)
  {
    var tail := messages[i..];
    assert tail[1..] == messages[i + 1..] && tail[end - i..] == messages[end..];
  }

  function Prepended(out: seq<Message>, synthesized: nat, dropped: nat, rest: Repaired): Repaired {
    Repaired(out + rest.messages, synthesized + rest.synthesized, dropped + rest.dropped)
  }

  lemma GroupPrepended(out: seq<Message>, synthesized: nat, dropped: nat, head: Message,
                       added: seq<Message>, stubs: nat, orphans: nat, rest: Repaired)
    ensures Prepended(out + ([head] + added), synthesized + stubs, dropped + orphans, rest)
         == Prepended(out, synthesized, dropped,
              Repaired([head] + (added + rest.messages), stubs + rest.synthesized, orphans + rest.dropped))
    ensures added == [] ==> (out + [head]) + rest.messages == out + ([head] + rest.messages)
  {
    assert (out + ([head] + added)) + rest.messages == out + ([head] + (added + rest.messages));
  }

  /** End of the run of tool messages that starts at `start`. */
  method ToolRunEnd(messages: seq<Message>, start: nat) returns (end: nat)
    requires start <= |messages|
    ensures start <= end <= |messages|
    ensures messages[start..end] == Run(messages[start..])
  {
    end := start;
    while end < |messages| && messages[end].role.Tool?
      invariant start <= end <= |messages|
      invariant Run(messages[start..]) == messages[start..end] + Run(messages[end..])
    {
      RunExtends(messages, start, end);
      end := end + 1;
    }
  }

  lemma RunExtends(messages: seq<Message>, start: nat, end: nat)
    requires start <= end < |messages| && messages[end].role.Tool?
    ensures messages[start..end] + Run(messages[end..]) == messages[start..end + 1] + Run(messages[end + 1..])
  {
    assert messages[end..][1..] == messages[end + 1..];
    assert Run(messages[end..]) == [messages[end]] + Run(messages[end + 1..]);
    assert messages[start..end + 1] == messages[start..end] + [messages[end]];
  }

  /** Seeing one more result marks exactly the first call with its id. */
  lemma {:induction false} AnsweredByNext(ids: seq<CallId>, seen: set<CallId>, id: CallId, p: nat)
    requires p < |ids|
    ensures Answered(ids, seen + {id}, p) <==> Answered(ids, seen, p) || Position(ids, id) == Some(p)
  {
    var first := Position(ids, id);
    if first.Some? && first.value < p {
      assert ids[..p][first.value] == id;
    } else if first.Some? && p < first.value {
      assert ids[..first.value][p] == ids[p];
    }
  }

  lemma {:induction false} OneMoreResult(ids: seq<CallId>, run: seq<Message>, j: nat)
    requires j < |run|
    ensures Kept(ids, run[j..]) ==
            (if run[j].toolCallId in ids then [run[j]] else []) + Kept(ids, run[j + 1..])
    ensures forall p | 0 <= p < |ids| ::
              Answered(ids, AnswerSet(run[..j + 1]), p) <==>
              Answered(ids, AnswerSet(run[..j]), p) || Position(ids, run[j].toolCallId) == Some(p)
  {
    AnswerSetConcat(run[..j], [run[j]]);
    assert run[..j + 1] == run[..j] + [run[j]];
    assert [run[j]][1..] == [];
    assert run[j..][1..] == run[j + 1..];
    forall p | 0 <= p < |ids| {
      AnsweredByNext(ids, AnswerSet(run[..j]), run[j].toolCallId, p);
    }
  }

  lemma {:induction false} NoResultYet(ids: seq<CallId>, run: seq<Message>)
    ensures run[0..] == run && Kept(ids, run[|run|..]) == []
    ensures forall p | 0 <= p < |ids| :: !Answered(ids, AnswerSet(run[..0]), p)
  {
  }

  /** One group of results: answers are kept, strangers dropped, missing answers stubbed. */
  method RepairRun(ids: seq<CallId>, run: seq<Message>)
    returns (added: seq<Message>, orphans: nat, stubs: nat)
    ensures added == RepairedRun(ids, run)
    ensures orphans == |run| - |Kept(ids, run)|
    ensures stubs == |Stubs(ids, AnswerSet(run), 0)|
  {
    var answered := new bool[|ids|](_ => false);
    added, orphans := KeepAnswers(ids, run, answered);
    var missing := StubMissing(ids, answered, AnswerSet(run));
    added, stubs := added + missing, |missing|;
  }

  /** Keeps the answers to the ids, counts the strangers and marks which calls are answered. */
  method KeepAnswers(ids: seq<CallId>, run: seq<Message>, answered: array<bool>)
    returns (added: seq<Message>, orphans: nat)
    requires answered.Length == |ids| && forall p | 0 <= p < |ids| :: !answered[p]
    modifies answered
    ensures added == Kept(ids, run)
    ensures orphans == |run| - |added|
    ensures forall p | 0 <= p < |ids| :: answered[p] <==> Answered(ids, AnswerSet(run), p)
  {
    NoResultYet(ids, run);
    hide Kept, Answered, AnswerSet;
    added, orphans := [], 0;
    for j := 0 to |run|
      invariant Kept(ids, run) == added + Kept(ids, run[j..])
      invariant orphans + |added| == j
      invariant forall p | 0 <= p < |ids| :: answered[p] <==> Answered(ids, AnswerSet(run[..j]), p)
    {
      OneMoreResult(ids, run, j);
      var pos := Position(ids, run[j].toolCallId);
      if pos.Some? {
        answered[pos.value] := true;
        added := added + [run[j]];
      } else {
        orphans := orphans + 1;
      }
    }
    assert run[..|run|] == run;
  }

  method StubMissing(ids: seq<CallId>, answered: array<bool>, ghost answers: set<CallId>)
    returns (stubs: seq<Message>)
    requires answered.Length == |ids|
    requires forall p | 0 <= p < |ids| :: answered[p] <==> Answered(ids, answers, p)
    ensures stubs == Stubs(ids, answers, 0)
  {
    stubs := [];
    for p := 0 to |ids|
      invariant Stubs(ids, answers, 0) == stubs + Stubs(ids, answers, p)
    {
      if !answered[p] {
        stubs := stubs + [Stub(ids[p])];
      }
    }
  }

  // ---------------------------------------------------------------- what the repair guarantees

  lemma {:induction false} KeptAnswers(ids: seq<CallId>, run: seq<Message>)
    requires ToolsOnly(run)
    ensures ToolsOnly(Kept(ids, run)) && AllOwned(Kept(ids, run), ids)
    ensures forall id | id in ids && id in AnswerSet(run) :: id in AnswerSet(Kept(ids, run))
    ensures |Kept(ids, run)| == |run| <==> AllOwned(run, ids)
    ensures |Kept(ids, run)| == |run| ==> Kept(ids, run) == run
  {
    if run != [] {
      KeptAnswers(ids, run[1..]);
      assert run == [run[0]] + run[1..];
    }
  }

  lemma {:induction false} StubsAnswer(ids: seq<CallId>, answers: set<CallId>, p: nat)
    requires p <= |ids|
    ensures ToolsOnly(Stubs(ids, answers, p)) && AllOwned(Stubs(ids, answers, p), ids)
    ensures forall q | p <= q < |ids| && !Answered(ids, answers, q) ::
              ids[q] in AnswerSet(Stubs(ids, answers, p))
    ensures Stubs(ids, answers, p) == [] <==> forall q | p <= q < |ids| :: Answered(ids, answers, q)
    decreases |ids| - p
  {
    if p < |ids| {
      StubsAnswer(ids, answers, p + 1);
    }
  }

  lemma {:induction false} ConcatTools(a: seq<Message>, b: seq<Message>, ids: seq<CallId>)
    requires ToolsOnly(a) && ToolsOnly(b) && AllOwned(a, ids) && AllOwned(b, ids)
    ensures ToolsOnly(a + b) && AllOwned(a + b, ids)
  {
    if a == [] {
      assert a + b == b;
    } else {
      assert (a + b)[1..] == a[1..] + b;
      ConcatTools(a[1..], b, ids);
    }
  }

  /** After a repair a group holds an answer for every id of its request and nothing else. */
  lemma {:induction false} GroupClosed(request: Message, run: seq<Message>)
    requires ToolsOnly(run)
    ensures var group := RepairedRun(Expected(request), run);
            ToolsOnly(group) && AllOwned(group, Expected(request)) && Closes(request, group)
  {
    var ids, answers := Expected(request), AnswerSet(run);
    KeptAnswers(ids, run);
    StubsAnswer(ids, answers, 0);
    ConcatTools(Kept(ids, run), Stubs(ids, answers, 0), ids);
    AnswerSetConcat(Kept(ids, run), Stubs(ids, answers, 0));
    forall id | id in ids ensures id in AnswerSet(RepairedRun(ids, run)) {
      var p := Position(ids, id).value;
      if !Answered(ids, answers, p) {
        assert ids[p] in AnswerSet(Stubs(ids, answers, 0));
      }
    }
  }

  /** Whatever the history, the repaired request keeps the provider's contract. */
  lemma {:induction false} SanitizeMeetsContract(h: seq<Message>)
    ensures ClosesAll(Sanitize(h).messages)
    ensures NoStray(Sanitize(h).messages, [])
    ensures DistinctIds(Sanitize(h).messages) <==> DistinctIds(h)
    decreases |h|
  {
    if h == [] {
    } else if Requests(h[0]) {
      var run := Run(h[1..]);
      var rest := h[1 + |run|..];
      RunSplits(h[1..]);
      assert h == [h[0]] + (run + rest);
      FirstGroup(h[0], run, rest);
      SanitizeMeetsContract(rest);
      GroupClosed(h[0], run);
      FirstGroup(h[0], RepairedRun(Expected(h[0]), run), Sanitize(rest).messages);
    } else {
      SanitizeMeetsContract(h[1..]);
      assert ([h[0]] + Sanitize(h[1..]).messages)[1..] == Sanitize(h[1..]).messages;
    }
  }

  lemma AllAnswered(ids: seq<CallId>, answers: set<CallId>)
    ensures Distinct(ids) && (forall id | id in ids :: id in answers) <==>
            forall q | 0 <= q < |ids| :: Answered(ids, answers, q)
  {
    if forall q | 0 <= q < |ids| :: Answered(ids, answers, q) {
      forall p, q | 0 <= p < q < |ids| ensures ids[p] != ids[q] {
        assert Answered(ids, answers, q);
        assert ids[..q][p] == ids[p];
      }
      forall id | id in ids ensures id in answers {
        var q :| 0 <= q < |ids| && ids[q] == id;
        assert Answered(ids, answers, q);
      }
    }
  }

  /** A group needs no repair exactly when it closes its request, owns all its results and repeats no id. */
  lemma {:induction false} GroupNeedsNothing(request: Message, run: seq<Message>)
    requires ToolsOnly(run)
    ensures var ids := Expected(request);
            && (|Kept(ids, run)| == |run| && Stubs(ids, AnswerSet(run), 0) == []
                <==> Closes(request, run) && AllOwned(run, ids) && Distinct(ids))
            && (|Kept(ids, run)| == |run| && Stubs(ids, AnswerSet(run), 0) == []
                ==> RepairedRun(ids, run) == run)
  {
    var ids := Expected(request);
    KeptAnswers(ids, run);
    StubsAnswer(ids, AnswerSet(run), 0);
    AllAnswered(ids, AnswerSet(run));
  }

  /** The same read off the first group of a history. */
  lemma {:induction false} FirstGroupNeedsNothing(head: Message, run: seq<Message>, rest: seq<Message>)
    requires Requests(head) && ToolsOnly(run) && StartsPlain(rest)
    requires Sanitize(rest).synthesized == 0 && Sanitize(rest).dropped == 0 <==> WellPaired(rest)
    requires WellPaired(rest) ==> Sanitize(rest).messages == rest
    ensures var h := [head] + (run + rest);
            && (Sanitize(h).synthesized == 0 && Sanitize(h).dropped == 0 <==> WellPaired(h))
            && (WellPaired(h) ==> Sanitize(h).messages == h)
  {
    hide Kept, Stubs, AnswerSet, RepairedRun, ClosesAll, NoStray, DistinctIds, AllOwned, Closes, ToolsOnly, StartsPlain;
    FirstGroup(head, run, rest);
    GroupNeedsNothing(head, run);
    SanitizeFirstGroup(head, run, rest);
  }

  lemma {:induction false} SanitizeFirstGroup(head: Message, run: seq<Message>, rest: seq<Message>)
    requires Requests(head) && ToolsOnly(run) && StartsPlain(rest)
    ensures var ids, tail := Expected(head), Sanitize(rest);
            Sanitize([head] + (run + rest)) ==
            Repaired([head] + (RepairedRun(ids, run) + tail.messages),
                     |Stubs(ids, AnswerSet(run), 0)| + tail.synthesized,
                     |run| - |Kept(ids, run)| + tail.dropped)
  {
    hide Kept, Stubs, AnswerSet, RepairedRun;
    var h := [head] + (run + rest);
    assert h[1..] == run + rest && h[1 + |run|..] == rest;
    RunIs(run, rest);
  }

  /** The repair reports nothing exactly on the histories that keep the contract with distinct ids. */
  lemma {:induction false} NothingToRepair(h: seq<Message>)
    ensures Sanitize(h).synthesized == 0 && Sanitize(h).dropped == 0 <==> WellPaired(h)
    ensures WellPaired(h) ==> Sanitize(h).messages == h
    decreases |h|
  {
    if h == [] {
    } else if Requests(h[0]) {
      hide Sanitize, WellPaired, ToolsOnly, StartsPlain;
      var run := Run(h[1..]);
      var rest := h[1 + |run|..];
      RunSplits(h[1..]);
      assert h == [h[0]] + (run + rest);
      NothingToRepair(rest);
      FirstGroupNeedsNothing(h[0], run, rest);
    } else {
      hide Kept, Stubs, AnswerSet, RepairedRun, Closes;
      NothingToRepair(h[1..]);
      assert h == [h[0]] + h[1..];
    }
  }

  /** A second repair finds nothing exactly when no request repeats a call id. */
  lemma {:induction false} IdempotentIffDistinct(h: seq<Message>)
    ensures Sanitize(Sanitize(h).messages) == Repaired(Sanitize(h).messages, 0, 0) <==> DistinctIds(h)
  {
    SanitizeMeetsContract(h);
    NothingToRepair(Sanitize(h).messages);
  }

  /** The promised idempotence fails on one request that repeats an id: each pass adds a stub. */
  lemma RepeatedIdIsNotIdempotent(call: ToolCall)
    ensures var h := [AssistantMessage("", [call, call])];
            Sanitize(h).synthesized == 2 && Sanitize(Sanitize(h).messages).synthesized == 1
  {
    var request, stub := AssistantMessage("", [call, call]), Stub(Some(call.id));
    LoneGroup(call, []);
    LoneGroup(call, [stub, stub]);
    RepeatedIdStubs(Some(call.id));
    assert [request] + [] == [request] && [request] + [stub, stub] == [request, stub, stub];
    assert [stub, stub][1..] == [stub] && [stub][1..] == [];
    assert AnswerSet([stub, stub]) == {Some(call.id)};
    assert RepairedRun([Some(call.id), Some(call.id)], []) == [stub, stub];
  }

  lemma {:induction false} LoneGroup(call: ToolCall, run: seq<Message>)
    requires ToolsOnly(run)
    ensures var ids := [Some(call.id), Some(call.id)];
            var request := AssistantMessage("", [call, call]);
            && Sanitize([request] + run).messages == [request] + RepairedRun(ids, run)
            && Sanitize([request] + run).synthesized == |Stubs(ids, AnswerSet(run), 0)|
  {
    assert [call, call][1..] == [call] && [call][1..] == [];
    assert CallIds([call]) == [Some(call.id)];
    assert Expected(AssistantMessage("", [call, call])) == [Some(call.id), Some(call.id)];
    var h := [AssistantMessage("", [call, call])] + run;
    assert h[1..] == run && run + [] == run && h[1 + |run|..] == [];
    RunIs(run, []);
  }

  lemma RepeatedIdStubs(id: CallId)
    ensures |Stubs([id, id], {}, 0)| == 2 && Stubs([id, id], {}, 0) == [Stub(id), Stub(id)]
    ensures Stubs([id, id], {id}, 0) == [Stub(id)]
  {
    var ids := [id, id];
    assert Stubs(ids, {}, 2) == [] && Stubs(ids, {id}, 2) == [];
    assert id !in ids[..0] && ids[..1] == [id];
    assert Answered(ids, {id}, 0) && !Answered(ids, {id}, 1);
    assert Stubs(ids, {}, 1) == [Stub(id)] && Stubs(ids, {id}, 1) == [Stub(id)];
  }

  /** Conservation: the repaired request has the history's messages, less the dropped, plus the stubs. */
  lemma {:induction false} SanitizeConserves(h: seq<Message>)
    ensures |Sanitize(h).messages| + Sanitize(h).dropped == |h| + Sanitize(h).synthesized
    decreases |h|
  {
    if h != [] {
      if Requests(h[0]) {
        SanitizeConserves(h[1 + |Run(h[1..])|..]);
      } else {
        SanitizeConserves(h[1..]);
      }
    }
  }
}
