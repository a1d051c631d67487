/** Invariants of a session history and what they mean for the sanitizer. */
module History {
  import opened Wrappers
  import opened Chat
  import opened ToolPairs

  /** Ids of the tool results that come before the next assistant message, in order. */
  function Answers(h: seq<Message>): seq<CallId> {
    if h == [] || h[0].role.Assistant? then []
    else if h[0].role.Tool? then [h[0].toolCallId] + Answers(h[1..])
    else Answers(h[1..])
  }

  /** Every call is answered exactly once, in call order, before the next assistant message. */
  ghost predicate NoDangling(h: seq<Message>) {
    h != [] ==> (Requests(h[0]) ==> Answers(h[1..]) == Expected(h[0])) && NoDangling(h[1..])
  }

  /** Besides, an assistant message without calls is followed by no result of somebody else. */
  ghost predicate Tidy(h: seq<Message>) {
    h != [] ==> (h[0].role.Assistant? ==> Answers(h[1..]) == Expected(h[0])) && Tidy(h[1..])
  }

  /** Every result behind some assistant message answers a call of the last one before it. */
  ghost predicate OrphansLead(h: seq<Message>) {
    forall j, i | 0 <= j < i < |h| && LastAsked(h, j, i) :: h[i].toolCallId in Expected(h[j])
  }

  /** `i` is a result, `j` an assistant message, and no other one stands between. */
  predicate LastAsked(h: seq<Message>, j: nat, i: nat)
    requires j < i < |h|
  {
    h[j].role.Assistant? && h[i].role.Tool? && forall k | j < k < i :: !h[k].role.Assistant?
  }

  /** Results directly follow their request: nothing but a request or a result precedes a result. */
  ghost predicate Contiguous(h: seq<Message>) {
    h != [] ==> (h[0].role.Tool? || Requests(h[0]) || StartsPlain(h[1..])) && Contiguous(h[1..])
  }

  /** The history never holds the system message: it is added when a request is built. */
  ghost predicate NoSystem(h: seq<Message>) {
    forall m | m in h :: !m.role.System?
  }

  // ---------------------------------------------------------------- growing and cutting

  lemma {:induction false} Suffix(h: seq<Message>, k: nat)
    requires k <= |h|
    ensures NoDangling(h) ==> NoDangling(h[k..])
    ensures Contiguous(h) ==> Contiguous(h[k..])
    ensures DistinctIds(h) ==> DistinctIds(h[k..])
    ensures Tidy(h) ==> Tidy(h[k..])
  {
    if k == 0 {
      assert h[0..] == h;
    } else {
      assert h[k..] == h[1..][k - 1..];
      Suffix(h[1..], k - 1);
    }
  }

  lemma {:induction false} TidyAnswers(h: seq<Message>)
    requires Tidy(h)
    ensures NoDangling(h)
  {
    if h != [] {
      TidyAnswers(h[1..]);
    }
  }

  lemma {:induction false} AnswersHold(h: seq<Message>, i: nat)
    requires i < |h| && h[i].role.Tool? && forall k | 0 <= k < i :: !h[k].role.Assistant?
    ensures h[i].toolCallId in Answers(h)
  {
    if i > 0 {
      assert h[1..][i - 1] == h[i] && forall k | 0 <= k < i - 1 :: h[1..][k] == h[k + 1];
      AnswersHold(h[1..], i - 1);
    }
  }

  /** In a tidy history only results before the first assistant message can be orphans. */
  lemma {:induction false} TidyLeads(h: seq<Message>)
    requires Tidy(h)
    ensures OrphansLead(h)
  {
    forall j, i | 0 <= j < i < |h| && LastAsked(h, j, i) ensures h[i].toolCallId in Expected(h[j]) {
      Suffix(h, j);
      var tail := h[j..][1..];
      assert h[j..][0] == h[j] && forall k | 0 <= k < |tail| :: tail[k] == h[j + 1 + k];
      hide Tidy;
      assert Answers(tail) == Expected(h[j]) by { TidyHead(h[j..]); }
      AnswersHold(tail, i - j - 1);
    }
  }

  lemma {:induction false} TidyHead(h: seq<Message>)
    requires Tidy(h) && h != [] && h[0].role.Assistant?
    ensures Answers(h[1..]) == Expected(h[0])
  {
  }

  lemma {:induction false} AnswersConcat(a: seq<Message>, b: seq<Message>)
    requires Answers(b) == []
    ensures Answers(a + b) == Answers(a)
  {
    if a == [] {
      assert a + b == b;
    } else {
      assert (a + b)[1..] == a[1..] + b;
      AnswersConcat(a[1..], b);
    }
  }

  lemma {:induction false} Concat(a: seq<Message>, b: seq<Message>)
    requires Answers(b) == []
    ensures NoDangling(a + b) <==> NoDangling(a) && NoDangling(b)
    ensures Tidy(a + b) <==> Tidy(a) && Tidy(b)
  {
    if a == [] {
      assert a + b == b;
    } else {
      assert (a + b)[1..] == a[1..] + b;
      AnswersConcat(a[1..], b);
      Concat(a[1..], b);
    }
  }

  lemma {:induction false} ConcatContiguous(a: seq<Message>, b: seq<Message>)
    requires StartsPlain(b)
    ensures Contiguous(a + b) <==> Contiguous(a) && Contiguous(b)
  {
    if a == [] {
      assert a + b == b;
    } else {
      assert (a + b)[1..] == a[1..] + b;
      ConcatContiguous(a[1..], b);
    }
  }

  lemma {:induction false} ConcatDistinct(a: seq<Message>, b: seq<Message>)
    ensures DistinctIds(a + b) <==> DistinctIds(a) && DistinctIds(b)
  {
    if a == [] {
      assert a + b == b;
    } else {
      assert (a + b)[1..] == a[1..] + b;
      ConcatDistinct(a[1..], b);
    }
  }

  /** A message that answers nothing and asks for nothing may be appended at any time. */
  lemma {:induction false} AppendPlain(h: seq<Message>, m: Message)
    requires !m.role.Tool? && !Requests(m)
    ensures NoDangling(h + [m]) <==> NoDangling(h)
    ensures Tidy(h + [m]) <==> Tidy(h) && (m.role.Assistant? ==> m.toolCalls == [])
    ensures Contiguous(h + [m]) <==> Contiguous(h)
    ensures DistinctIds(h + [m]) <==> DistinctIds(h)
  {
    assert [m][1..] == [];
    assert Answers([m]) == [] && Contiguous([m]) && DistinctIds([m]);
    assert m.role.Assistant? ==> Expected(m) == [] ;
    Concat(h, [m]);
    ConcatContiguous(h, [m]);
    ConcatDistinct(h, [m]);
  }

  // ---------------------------------------------------------------- one fold over the front

  /** Replacing everything before a user message by a note keeps the pairs that remain. */
  lemma {:induction false} FoldKeeps(h: seq<Message>, boundary: nat, note: Message)
    requires boundary < |h| && h[boundary].role.User?
    requires note.role.Assistant? && note.toolCalls == []
    ensures var folded := [note] + h[boundary..];
            && (NoDangling(h) ==> NoDangling(folded))
            && (Contiguous(h) ==> Contiguous(folded))
            && (DistinctIds(h) ==> DistinctIds(folded))
            && (Tidy(h) ==> (Tidy(folded) <==> Answers(h[boundary..]) == []))
  {
    var folded := [note] + h[boundary..];
    assert folded[0] == note && folded[1..] == h[boundary..];
    assert CallIds(note.toolCalls) == [];
    Suffix(h, boundary);
  }

  /** When results follow their requests directly, no result follows a user message first. */
  lemma {:induction false} NoAnswersAfterUser(h: seq<Message>)
    requires Contiguous(h) && StartsPlain(h)
    ensures Answers(h) == []
  {
    if h != [] && !h[0].role.Assistant? {
      NoAnswersAfterUser(h[1..]);
    }
  }

  // ---------------------------------------------------------------- the sanitizer on a session history

  /** Answered calls and contiguous results make a history tidy. */
  lemma {:induction false} ContiguousIsTidy(h: seq<Message>)
    requires NoDangling(h) && Contiguous(h)
    ensures Tidy(h)
  {
    if h != [] {
      ContiguousIsTidy(h[1..]);
      if h[0].role.Assistant? && !Requests(h[0]) {
        NoAnswersAfterUser(h[1..]);
      }
    }
  }

  lemma {:induction false} AnswersOfRun(h: seq<Message>)
    requires Contiguous(h)
    ensures Answers(h) == Answers(Run(h))
    decreases |h|
  {
    if h == [] {
    } else if h[0].role.Tool? {
      AnswersOfRun(h[1..]);
      assert Run(h)[1..] == Run(h[1..]);
    } else {
      NoAnswersAfterUser(h);
    }
  }

  lemma {:induction false} AnswersAreOwned(run: seq<Message>, ids: seq<CallId>)
    requires ToolsOnly(run)
    ensures (forall id :: id in AnswerSet(run) <==> id in Answers(run))
    ensures AllOwned(run, ids) <==> forall id | id in Answers(run) :: id in ids
  {
    if run != [] {
      AnswersAreOwned(run[1..], ids);
      assert Answers(run) == [run[0].toolCallId] + Answers(run[1..]);
    }
  }

  lemma {:induction false} StraysBreakContiguity(h: seq<Message>, owner: seq<CallId>)
    requires NoStray(h, owner)
    ensures Contiguous(h)
  {
    if h != [] {
      StraysBreakContiguity(h[1..],
        if h[0].role.Tool? then owner else if Requests(h[0]) then Expected(h[0]) else []);
    }
  }

  /** The first group keeps the contract when its results are the answers, and nothing else. */
  lemma {:induction false} FirstGroupPaired(h: seq<Message>)
    requires h != [] && Requests(h[0]) && NoDangling(h) && DistinctIds(h) && Contiguous(h)
    requires WellPaired(h[1 + |Run(h[1..])|..])
    ensures WellPaired(h)
  {
    hide AllOwned, AnswerSet, NoStray, ClosesAll, DistinctIds;
    var run := Run(h[1..]);
    var rest := h[1 + |run|..];
    RunSplits(h[1..]);
    assert h == [h[0]] + (run + rest);
    AnswersOfRun(h[1..]);
    AnswersAreOwned(run, Expected(h[0]));
    hide Run, Answers;
    FirstGroup(h[0], run, rest);
  }

  /** Which session histories the sanitizer leaves alone. */
  lemma {:induction false} WellPairedHistory(h: seq<Message>)
    requires NoDangling(h)
    ensures WellPaired(h) <==> DistinctIds(h) && Contiguous(h) && StartsPlain(h)
    decreases |h|
  {
    if WellPaired(h) {
      StraysBreakContiguity(h, []);
    }
    if h != [] && DistinctIds(h) && Contiguous(h) && StartsPlain(h) {
      if Requests(h[0]) {
        var rest := h[1 + |Run(h[1..])|..];
        RunSplits(h[1..]);
        Suffix(h, 1 + |Run(h[1..])|);
        WellPairedHistory(rest);
        FirstGroupPaired(h);
      } else {
        WellPairedHistory(h[1..]);
      }
    }
  }

  lemma {:induction false} SanitizeLeading(lead: seq<Message>, rest: seq<Message>)
    requires ToolsOnly(lead)
    ensures Sanitize(lead + rest) ==
            Sanitize(rest).(dropped := |lead| + Sanitize(rest).dropped)
  {
    if lead == [] {
      assert lead + rest == rest;
    } else {
      assert (lead + rest)[1..] == lead[1..] + rest;
      SanitizeLeading(lead[1..], rest);
    }
  }

  /** The messages of a request: the system prompt, then the history. */
  function RequestMessages(prompt: string, h: seq<Message>): seq<Message> {
    [SystemMessage(prompt)] + h
  }

  /** A result behind a plain assistant message answers nothing. */
  lemma StrayBreaksLead(note: Message, result: Message)
    requires note.role.Assistant? && note.toolCalls == [] && result.role.Tool?
    ensures !OrphansLead([note, result])
  {
    var h := [note, result];
    assert LastAsked(h, 0, 1) && Expected(h[0]) == [];
  }

  /** Every request begins with the system prompt; behind it stands the repaired history. */
  lemma {:induction false} RequestShape(prompt: string, h: seq<Message>)
    ensures var r := Sanitize(RequestMessages(prompt, h));
            && r == Sanitize(h).(messages := [Message(System, prompt, [], [], None, None, None)] + Sanitize(h).messages)
  {
    assert RequestMessages(prompt, h)[1..] == h;
  }

  /**
   Building a request from a history without dangling calls: nothing is synthesised and only the
   results at the very front are dropped exactly when results directly follow their requests and
   no request repeats an id.
   */
  lemma {:induction false} RequestAssembly(prompt: string, h: seq<Message>)
    requires NoDangling(h)
    ensures var lead := |Run(h)|;
            DistinctIds(h) && Contiguous(h) <==>
            Sanitize(RequestMessages(prompt, h)) ==
            Repaired(RequestMessages(prompt, h[lead..]), 0, lead)
  {
    var lead, rest := Run(h), h[|Run(h)|..];
    RunSplits(h);
    assert h == lead + rest;
    assert RequestMessages(prompt, h)[1..] == h;
    assert RequestMessages(prompt, rest)[1..] == rest;
    SanitizeLeading(lead, rest);
    Suffix(h, |lead|);
    WellPairedHistory(rest);
    NothingToRepair(rest);
    SkipRun(lead, rest, []);
    LeadingRunContiguous(lead, rest);
    var out := Sanitize(rest);
    if Sanitize(RequestMessages(prompt, h)) == Repaired(RequestMessages(prompt, rest), 0, |lead|) {
      assert out.synthesized == 0 && out.dropped == 0;
    }
  }

  lemma {:induction false} LeadingRunContiguous(lead: seq<Message>, rest: seq<Message>)
    requires ToolsOnly(lead) && StartsPlain(rest)
    ensures Contiguous(lead + rest) <==> Contiguous(rest)
  {
    if lead == [] {
      assert lead + rest == rest;
    } else {
      assert (lead + rest)[1..] == lead[1..] + rest;
      LeadingRunContiguous(lead[1..], rest);
    }
  }

  // ---------------------------------------------------------------- same shape

  /** Same roles, call ids and requested calls at the same places; texts may differ. */
  ghost predicate SameShape(a: seq<Message>, b: seq<Message>) {
    |a| == |b| && forall i | 0 <= i < |a| :: SameSlot(a[i], b[i])
  }

  predicate SameSlot(a: Message, b: Message) {
    a.role == b.role && a.toolCallId == b.toolCallId && a.toolCalls == b.toolCalls
  }

  lemma {:induction false} ShapeDecides(a: seq<Message>, b: seq<Message>)
    requires SameShape(a, b)
    ensures Answers(a) == Answers(b)
    ensures NoDangling(a) <==> NoDangling(b)
    ensures Contiguous(a) <==> Contiguous(b)
    ensures DistinctIds(a) <==> DistinctIds(b)
    ensures Tidy(a) <==> Tidy(b)
  {
    if a != [] {
      assert SameSlot(a[0], b[0]);
      assert forall i | 0 <= i < |a[1..]| :: a[1..][i] == a[i + 1] && b[1..][i] == b[i + 1];
      ShapeDecides(a[1..], b[1..]);
    }
  }
}
