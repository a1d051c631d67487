/** What the repair of a request leaves alone, and what it puts in (src/llm.rs). */
module ToolPairsTalk {
  import opened Wrappers
  import opened Chat
  import opened ToolPairs
  import opened Sequences
  import opened Wording

  /** The messages that are no tool results, in order. */
  function Talk(h: seq<Message>): seq<Message> {
    if h == [] then [] else (if h[0].role.Tool? then [] else [h[0]]) + Talk(h[1..])
  }

  lemma {:induction false} TalkConcat(a: seq<Message>, b: seq<Message>)
    ensures Talk(a + b) == Talk(a) + Talk(b)
  {
    if a == [] {
      assert a + b == b;
    } else {
      assert (a + b)[1..] == a[1..] + b;
      TalkConcat(a[1..], b);
    }
  }

  lemma {:induction false} NoTalk(run: seq<Message>)
    requires ToolsOnly(run)
    ensures Talk(run) == []
  {
    if run != [] {
      NoTalk(run[1..]);
    }
  }

  /** A message of the repaired copy is one of the history, or the fixed result for an id of a request of it. */
  ghost predicate FromHistory(h: seq<Message>, m: Message) {
    m in h || exists r :: r in h && Requests(r) && m.toolCallId in Expected(r)
                          && m == Message(Tool, SYNTHETIC_TOOL_RESULT, [], [], m.toolCallId, None, None)
  }

  lemma {:induction false} KeptFromRun(ids: seq<CallId>, run: seq<Message>)
    ensures forall m | m in Kept(ids, run) :: m in run && m.toolCallId in ids
  {
    if run != [] {
      KeptFromRun(ids, run[1..]);
    }
  }

  lemma {:induction false} StubsAre(ids: seq<CallId>, answers: set<CallId>, p: nat)
    requires p <= |ids|
    ensures forall m | m in Stubs(ids, answers, p) ::
              m.toolCallId in ids && m == Message(Tool, SYNTHETIC_TOOL_RESULT, [], [], m.toolCallId, None, None)
    decreases |ids| - p
  {
    if p < |ids| {
      StubsAre(ids, answers, p + 1);
    }
  }

  /** What a run becomes is results only, and each comes from the group. */
  lemma {:induction false} RepairedFromGroup(head: Message, run: seq<Message>)
    requires Requests(head) && ToolsOnly(run)
    ensures ToolsOnly(RepairedRun(Expected(head), run))
    ensures forall m | m in RepairedRun(Expected(head), run) :: FromHistory([head] + run, m)
  {
    var ids, group := Expected(head), [head] + run;
    var kept, stubs := Kept(ids, run), Stubs(ids, AnswerSet(run), 0);
    KeptFromRun(ids, run);
    StubsAre(ids, AnswerSet(run), 0);
    hide Kept, Stubs, AnswerSet, ToolsOnly;
    var all: seq<Message> := kept + stubs;
    ToolsAre(run);
    ToolsAre(all);
    forall m: Message | m in all ensures m.role.Tool? && FromHistory(group, m) {
      if m in kept {
        assert m in run && m in group;
      } else {
        assert head in group;
      }
    }
  }

  lemma {:induction false} ToolsAre(run: seq<Message>)
    ensures ToolsOnly(run) <==> forall m | m in run :: m.role.Tool?
  {
    if run != [] {
      ToolsAre(run[1..]);
      assert run == [run[0]] + run[1..];
    }
  }

  lemma FromLonger(h: seq<Message>, longer: seq<Message>, m: Message)
    requires FromHistory(h, m) && forall x | x in h :: x in longer
    ensures FromHistory(longer, m)
  {
  }

  lemma FromParts(a: seq<Message>, b: seq<Message>, first: seq<Message>, second: seq<Message>)
    requires forall m | m in first :: FromHistory(a, m)
    requires forall m | m in second :: FromHistory(b, m)
    ensures forall m | m in first + second :: FromHistory(a + b, m)
  {
    hide FromHistory;
    forall m | m in first + second ensures FromHistory(a + b, m) {
      if m in first {
        FromLonger(a, a + b, m);
      } else {
        FromLonger(b, a + b, m);
      }
    }
  }

  lemma ItselfFrom(h: seq<Message>, m: Message)
    requires m in h
    ensures FromHistory(h, m)
  {
  }

  /**
   The repair touches tool results only: all other messages stay, in order and as they were. What it puts in besides kept
   results is the fixed text under an id that was asked for.
   */
  lemma {:induction false} SanitizeKeepsTalk(h: seq<Message>)
    ensures Talk(Sanitize(h).messages) == Talk(h)
    ensures forall m | m in Sanitize(h).messages :: FromHistory(h, m)
    decreases |h|
  {
    if h != [] {
      if Requests(h[0]) {
        var rest := h[1 + |Run(h[1..])|..];
        SanitizeKeepsTalk(rest);
        GroupStep(h);
      } else {
        SanitizeKeepsTalk(h[1..]);
        MessageStep(h);
      }
    }
  }

  lemma GroupStep(h: seq<Message>)
    requires h != [] && Requests(h[0])
    requires var rest := h[1 + |Run(h[1..])|..];
             Talk(Sanitize(rest).messages) == Talk(rest) && forall m | m in Sanitize(rest).messages :: FromHistory(rest, m)
    ensures Talk(Sanitize(h).messages) == Talk(h)
    ensures forall m | m in Sanitize(h).messages :: FromHistory(h, m)
  {
    var run := Run(h[1..]);
    var rest := h[1 + |run|..];
    var ids, front := Expected(h[0]), [h[0]] + run;
    var group := [h[0]] + RepairedRun(ids, run);
    var more := Sanitize(rest).messages;
    RunSplits(h[1..]);
    assert h == front + rest;
    assert Sanitize(h).messages == group + more by { ConcatAssoc([h[0]], RepairedRun(ids, run), more); }
    hide FromHistory, RepairedRun, Requests, Talk, Sanitize, Run, Expected, ToolsOnly;
    RepairedFromGroup(h[0], run);
    GroupKeepsTalk(h[0], run);
    ItselfFrom(front, h[0]);
    TalkConcat(group, more);
    TalkConcat(front, rest);
    FromParts(front, rest, group, more);
  }

  lemma {:induction false} MessageStep(h: seq<Message>)
    requires h != [] && !Requests(h[0])
    requires Talk(Sanitize(h[1..]).messages) == Talk(h[1..])
    requires forall m | m in Sanitize(h[1..]).messages :: FromHistory(h[1..], m)
    ensures Talk(Sanitize(h).messages) == Talk(h)
    ensures forall m | m in Sanitize(h).messages :: FromHistory(h, m)
  {
    var more, own := Sanitize(h[1..]).messages, if h[0].role.Tool? then [] else [h[0]];
    assert Sanitize(h).messages == own + more;
    hide FromHistory, Requests, Talk, Sanitize;
    OneTalks(h[0]);
    NothingTalks();
    ItselfFrom([h[0]], h[0]);
    assert h == [h[0]] + h[1..];
    TalkConcat([h[0]], h[1..]);
    TalkConcat(own, more);
    FromParts([h[0]], h[1..], own, more);
  }

  lemma NothingTalks()
    ensures Talk([]) == []
  {
  }

  lemma OneTalks(m: Message)
    ensures Talk([m]) == if m.role.Tool? then [] else [m]
  {
    assert [m][1..] == [];
  }

  lemma {:induction false} GroupKeepsTalk(head: Message, run: seq<Message>)
    requires Requests(head) && ToolsOnly(run)
    ensures Talk([head] + RepairedRun(Expected(head), run)) == Talk([head] + run)
  {
    hide RepairedRun, Requests, Talk, Expected;
    RepairedFromGroup(head, run);
    TalkConcat([head], RepairedRun(Expected(head), run));
    TalkConcat([head], run);
    NoTalk(run);
    NoTalk(RepairedRun(Expected(head), run));
  }

  /** How many results answer no id of the request they stand behind; `owner` are the ids of the one in force. */
  function Strangers(h: seq<Message>, owner: seq<CallId>): nat {
    if h == [] then 0
    else if h[0].role.Tool? then (if h[0].toolCallId in owner then 0 else 1) + Strangers(h[1..], owner)
    else Strangers(h[1..], if Requests(h[0]) then Expected(h[0]) else [])
  }

  lemma {:induction false} StrangersInRun(run: seq<Message>, rest: seq<Message>, owner: seq<CallId>)
    requires ToolsOnly(run) && StartsPlain(rest)
    ensures Strangers(run + rest, owner) == |run| - |Kept(owner, run)| + Strangers(rest, [])
  {
    if run == [] {
      assert run + rest == rest;
    } else {
      assert (run + rest)[1..] == run[1..] + rest;
      StrangersInRun(run[1..], rest, owner);
    }
  }

  /** Dropped are exactly the results that answer no id of the request right before them. */
  lemma {:induction false} DroppedAreStrangers(h: seq<Message>)
    ensures Sanitize(h).dropped == Strangers(h, [])
    decreases |h|
  {
    if h != [] {
      if Requests(h[0]) {
        var run := Run(h[1..]);
        var rest := h[1..][|run|..];
        RunSplits(h[1..]);
        assert rest == h[1 + |run|..];
        hide Requests, Run;
        StrangersInRun(run, rest, Expected(h[0]));
        DroppedAreStrangers(rest);
      } else {
        DroppedAreStrangers(h[1..]);
      }
    }
  }
}
