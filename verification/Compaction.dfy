/** The three levels of history compaction as functions on histories (src/agent.rs). */
module Compaction {
  import opened Wrappers
  import opened Chat
  import opened ToolPairs
  import opened History
  import opened Text
  import opened Wording

  const COMPACT_TOOL_CHARS := 500
  const COMPACT_KEEP_TOOL := 4
  const COMPACT_KEEP_TAIL := 6
  const CUT_MARK := "\n[" + "контекст" + " " + "усечён" + "]"

  // ---------------------------------------------------------------- L1: masking

  function Shorten(m: Message): Message {
    if |m.content| > COMPACT_TOOL_CHARS
    then m.(content := m.content[..COMPACT_TOOL_CHARS] + CUT_MARK)
    else m
  }

  function ToolCount(h: seq<Message>): nat {
    if h == [] then 0 else (if h[0].role.Tool? then 1 else 0) + ToolCount(h[1..])
  }

  /** A tool result old enough to be shortened: four younger ones follow it. */
  predicate Old(h: seq<Message>, i: nat)
    requires i < |h|
  {
    h[i].role.Tool? && ToolCount(h[i + 1..]) >= COMPACT_KEEP_TOOL
  }

  function Mask(h: seq<Message>): (masked: seq<Message>)
    ensures |masked| == |h|
  {
    if h == [] then []
    else [if Old(h, 0) then Shorten(h[0]) else h[0]] + Mask(h[1..])
  }

  lemma {:induction false} MaskAt(h: seq<Message>, i: nat)
    requires i < |h|
    ensures Mask(h)[i] == if Old(h, i) then Shorten(h[i]) else h[i]
  {
    if i > 0 {
      MaskAt(h[1..], i - 1);
      assert h[i + 1..] == h[1..][i..];
      assert Mask(h)[i] == Mask(h[1..])[i - 1];
    }
  }

  /** The counter the masking pass reports: old results longer than the limit, among the first `n`. */
  function MaskCount(h: seq<Message>, n: nat): nat
    requires n <= |h|
  {
    if n == 0 then 0
    else MaskCount(h, n - 1) + if Old(h, n - 1) && |h[n - 1].content| > COMPACT_TOOL_CHARS then 1 else 0
  }

  /** How many of the given positions hold a text longer than the limit. */
  function LongCount(h: seq<Message>, idx: seq<nat>): nat
    requires forall p | 0 <= p < |idx| :: idx[p] < |h|
  {
    if idx == [] then 0
    else
      var last := |idx| - 1;
      LongCount(h, idx[..last]) + if |h[idx[last]].content| > COMPACT_TOOL_CHARS then 1 else 0
  }

  /** Positions of the tool results among the first `n` messages, oldest first. */
  function ToolPositions(h: seq<Message>, n: nat): (idx: seq<nat>)
    requires n <= |h|
    ensures forall p | 0 <= p < |idx| :: idx[p] < n
  {
    if n == 0 then []
    else ToolPositions(h, n - 1) + if h[n - 1].role.Tool? then [n - 1] else []
  }

  lemma {:induction false} ToolCountConcat(a: seq<Message>, b: seq<Message>)
    ensures ToolCount(a + b) == ToolCount(a) + ToolCount(b)
  {
    if a == [] {
      assert a + b == b;
    } else {
      assert (a + b)[1..] == a[1..] + b;
      ToolCountConcat(a[1..], b);
    }
  }

  lemma {:induction false} ToolCountExtend(h: seq<Message>, m: Message)
    ensures ToolCount(h + [m]) == ToolCount(h) + if m.role.Tool? then 1 else 0
  {
    assert [m][1..] == [];
    ToolCountConcat(h, [m]);
  }

  /** The p-th tool position holds a result with as many results after it as positions after p. */
  lemma {:induction false} PositionCount(h: seq<Message>, n: nat, p: nat)
    requires n <= |h| && p < |ToolPositions(h, n)|
    ensures var i := ToolPositions(h, n)[p];
            h[i].role.Tool? && ToolCount(h[i + 1..n]) == |ToolPositions(h, n)| - 1 - p
  {
    var before, idx := ToolPositions(h, n - 1), ToolPositions(h, n);
    var i := idx[p];
    if p < |before| {
      hide ToolCount;
      PositionCount(h, n - 1, p);
      assert h[i + 1..n] == h[i + 1..n - 1] + [h[n - 1]];
      ToolCountExtend(h[i + 1..n - 1], h[n - 1]);
    } else {
      assert h[i + 1..n] == [];
    }
  }

  ghost predicate Increasing(idx: seq<nat>) {
    forall p, q | 0 <= p < q < |idx| :: idx[p] < idx[q]
  }

  lemma {:induction false} PositionsIncrease(h: seq<Message>, n: nat)
    requires n <= |h|
    ensures Increasing(ToolPositions(h, n))
    ensures forall i: nat | i < n && h[i].role.Tool? :: i in ToolPositions(h, n)
  {
    if n > 0 {
      PositionsIncrease(h, n - 1);
    }
  }

  /** All but the last four tool positions are the old results. */
  lemma {:induction false} OldIffAmongFirst(h: seq<Message>, cut: nat, i: nat)
    requires i < |h|
    requires var n := |ToolPositions(h, |h|)|; cut == if n < COMPACT_KEEP_TOOL then 0 else n - COMPACT_KEEP_TOOL
    ensures i in ToolPositions(h, |h|)[..cut] <==> Old(h, i)
  {
    var idx := ToolPositions(h, |h|);
    hide ToolPositions, Increasing;
    PositionsIncrease(h, |h|);
    if h[i].role.Tool? {
      hide Old;
      var p :| 0 <= p < |idx| && idx[p] == i;
      PositionOld(h, p);
      AmongFirst(idx, cut, p);
    } else if p :| 0 <= p < |idx| && idx[p] == i {
      PositionCount(h, |h|, p);
    }
  }

  lemma {:induction false} PositionOld(h: seq<Message>, p: nat)
    requires p < |ToolPositions(h, |h|)|
    ensures Old(h, ToolPositions(h, |h|)[p]) <==> p + COMPACT_KEEP_TOOL < |ToolPositions(h, |h|)|
  {
    hide ToolCount, ToolPositions;
    var i := ToolPositions(h, |h|)[p];
    PositionCount(h, |h|, p);
    assert h[i + 1..|h|] == h[i + 1..];
  }

  lemma AmongFirst(idx: seq<nat>, cut: nat, p: nat)
    requires Increasing(idx) && p < |idx| && cut <= |idx|
    ensures idx[p] in idx[..cut] <==> p < cut
  {
    if p < cut {
      assert idx[..cut][p] == idx[p];
    }
  }

  lemma {:induction false} LongCountExtend(h: seq<Message>, idx: seq<nat>, i: nat)
    requires i < |h| && forall p | 0 <= p < |idx| :: idx[p] < |h|
    ensures LongCount(h, idx + [i]) == LongCount(h, idx) + if |h[i].content| > COMPACT_TOOL_CHARS then 1 else 0
  {
    assert (idx + [i])[..|idx|] == idx;
  }

  /** The first positions after one more result: one more as long as they are few, the same ones afterwards. */
  lemma FirstOnesExtend(idx: seq<nat>, i: nat, cut: nat)
    ensures FirstOnes(idx + [i], cut) == if |idx| < cut then FirstOnes(idx, cut) + [i] else FirstOnes(idx, cut)
  {
  }

  /** The shortened positions are the old ones, so shortening them counts what the pass reports. */
  lemma {:induction false} LongCountIsMaskCount(h: seq<Message>, n: nat, cut: nat)
    requires n <= |h|
    requires var k := |ToolPositions(h, |h|)|; cut == if k < COMPACT_KEEP_TOOL then 0 else k - COMPACT_KEEP_TOOL
    ensures LongCount(h, FirstOnes(ToolPositions(h, n), cut)) == MaskCount(h, n)
  {
    if n == 0 {
      assert ToolPositions(h, n) == [] && MaskCount(h, n) == 0;
    } else {
      hide Old, ToolCount, LongCount, FirstOnes, ToolPositions, MaskCount;
      LongCountIsMaskCount(h, n - 1, cut);
      OneMoreCounted(h, n, cut);
    }
  }

  /** One more message adds to both counts alike. */
  lemma OneMoreCounted(h: seq<Message>, n: nat, cut: nat)
    requires 0 < n <= |h|
    requires var k := |ToolPositions(h, |h|)|; cut == if k < COMPACT_KEEP_TOOL then 0 else k - COMPACT_KEEP_TOOL
    requires LongCount(h, FirstOnes(ToolPositions(h, n - 1), cut)) == MaskCount(h, n - 1)
    ensures LongCount(h, FirstOnes(ToolPositions(h, n), cut)) == MaskCount(h, n)
  {
    hide Old, ToolCount, LongCount, FirstOnes;
    var before := ToolPositions(h, n - 1);
    if h[n - 1].role.Tool? {
      OldIffEarly(h, cut, n);
      FirstOnesExtend(before, n - 1, cut);
      FirstOnesBounded(before, cut, |h|);
      LongCountExtend(h, FirstOnes(before, cut), n - 1);
    } else {
      NotOld(h, n - 1);
      assert ToolPositions(h, n) == before;
    }
  }

  lemma FirstOnesBounded(idx: seq<nat>, cut: nat, bound: nat)
    requires forall p | 0 <= p < |idx| :: idx[p] < bound
    ensures forall p | 0 <= p < |FirstOnes(idx, cut)| :: FirstOnes(idx, cut)[p] < bound
  {
  }

  lemma NotOld(h: seq<Message>, i: nat)
    requires i < |h| && !h[i].role.Tool?
    ensures !Old(h, i)
  {
  }

  function FirstOnes(idx: seq<nat>, cut: nat): seq<nat> {
    if |idx| <= cut then idx else idx[..cut]
  }

  /** The result at `n - 1` is old exactly when fewer than `cut` results come before it. */
  lemma OldIffEarly(h: seq<Message>, cut: nat, n: nat)
    requires 0 < n <= |h| && h[n - 1].role.Tool?
    requires var k := |ToolPositions(h, |h|)|; cut == if k < COMPACT_KEEP_TOOL then 0 else k - COMPACT_KEEP_TOOL
    ensures Old(h, n - 1) <==> |ToolPositions(h, n - 1)| < cut
  {
    var p := |ToolPositions(h, n - 1)|;
    PositionsPrefix(h, n, |h|);
    assert ToolPositions(h, n)[p] == n - 1;
    PositionCount(h, |h|, p);
    assert h[n..|h|] == h[n..];
  }

  lemma {:induction false} PositionsPrefix(h: seq<Message>, n: nat, m: nat)
    requires n <= m <= |h|
    ensures ToolPositions(h, n) <= ToolPositions(h, m)
    decreases m - n
  {
    if n < m {
      PositionsPrefix(h, n, m - 1);
    }
  }

  function Min(a: nat, b: nat): nat {
    if a < b then a else b
  }

  /** `g` is `h` with the messages at the given positions shortened. */
  ghost predicate ShortenedAt(h: seq<Message>, g: seq<Message>, idx: seq<nat>) {
    |g| == |h| && forall i | 0 <= i < |h| :: g[i] == ShortenedIf(h[i], i in idx)
  }

  function ShortenedIf(m: Message, condition: bool): Message {
    if condition then Shorten(m) else m
  }

  /** Shortening all but the last four results is the masking pass. */
  lemma {:induction false} ShortenedIsMask(h: seq<Message>, g: seq<Message>, cut: nat)
    requires var n := |ToolPositions(h, |h|)|; cut == if n < COMPACT_KEEP_TOOL then 0 else n - COMPACT_KEEP_TOOL
    requires ShortenedAt(h, g, ToolPositions(h, |h|)[..cut])
    ensures g == Mask(h)
    ensures LongCount(h, ToolPositions(h, |h|)[..cut]) == MaskCount(h, |h|)
  {
    forall i | 0 <= i < |h| ensures g[i] == Mask(h)[i] {
      OldIffAmongFirst(h, cut, i);
      MaskAt(h, i);
    }
    LongCountIsMaskCount(h, |h|, cut);
    assert FirstOnes(ToolPositions(h, |h|), cut) == ToolPositions(h, |h|)[..cut];
  }

  lemma {:induction false} MaskKeepsNoSystem(h: seq<Message>)
    ensures NoSystem(h) ==> NoSystem(Mask(h))
  {
    forall i | 0 <= i < |h| ensures Mask(h)[i].role == h[i].role {
      MaskAt(h, i);
    }
  }

  lemma {:induction false} ToolCountByShape(a: seq<Message>, b: seq<Message>)
    requires |a| == |b|
    requires forall i | 0 <= i < |a| :: a[i].role == b[i].role
    ensures ToolCount(a) == ToolCount(b)
  {
    if a != [] {
      assert forall i | 0 <= i < |a[1..]| :: a[1..][i] == a[i + 1] && b[1..][i] == b[i + 1];
      ToolCountByShape(a[1..], b[1..]);
    }
  }

  /** Masking keeps roles, ids and requested calls, so it keeps every pairing invariant. */
  lemma {:induction false} MaskKeepsShape(h: seq<Message>)
    ensures SameShape(h, Mask(h))
    ensures NoDangling(h) <==> NoDangling(Mask(h))
    ensures Contiguous(h) <==> Contiguous(Mask(h))
    ensures DistinctIds(h) <==> DistinctIds(Mask(h))
    ensures Tidy(h) <==> Tidy(Mask(h))
  {
    forall i | 0 <= i < |h| ensures SameSlot(h[i], Mask(h)[i]) {
      MaskAt(h, i);
    }
    ShapeDecides(h, Mask(h));
  }

  /** The youngest four results are left alone: whatever has fewer than four results after it. */
  lemma {:induction false} MaskLeavesYoung(h: seq<Message>, i: nat)
    requires i < |h| && (h[i].role.Tool? ==> ToolCount(h[i + 1..]) < COMPACT_KEEP_TOOL)
    ensures Mask(h)[i] == h[i]
  {
    MaskAt(h, i);
  }

  /** A second pass changes nothing, although it counts exactly the same messages again. */
  lemma {:induction false} MaskIdempotent(h: seq<Message>)
    ensures Mask(Mask(h)) == Mask(h)
    ensures MaskCount(Mask(h), |h|) == MaskCount(h, |h|)
  {
    forall i: nat | i < |h| ensures Mask(Mask(h))[i] == Mask(h)[i] {
      MaskTwiceAt(h, i);
    }
    MaskCountsAgain(h, |h|);
  }

  lemma {:induction false} MaskCountsAgain(h: seq<Message>, n: nat)
    requires n <= |h|
    ensures MaskCount(Mask(h), n) == MaskCount(h, n)
  {
    if n > 0 {
      MaskCountsAgain(h, n - 1);
      MaskTwiceAt(h, n - 1);
    }
  }

  lemma {:induction false} MaskTwiceAt(h: seq<Message>, i: nat)
    requires i < |h|
    ensures Mask(Mask(h))[i] == Mask(h)[i]
    ensures Old(Mask(h), i) <==> Old(h, i)
    ensures Old(h, i) ==> (|Mask(h)[i].content| > COMPACT_TOOL_CHARS <==> |h[i].content| > COMPACT_TOOL_CHARS)
  {
    var g := Mask(h);
    forall j | 0 <= j < |h| ensures g[j].role == h[j].role {
      MaskAt(h, j);
    }
    ToolCountByShape(h[i + 1..], g[i + 1..]);
    MaskAt(h, i);
    MaskAt(g, i);
    ShortenIdempotent(h[i]);
  }

  lemma ShortenIdempotent(m: Message)
    ensures Shorten(Shorten(m)) == Shorten(m)
    ensures |Shorten(m).content| > COMPACT_TOOL_CHARS <==> |m.content| > COMPACT_TOOL_CHARS
  {
    if |m.content| > COMPACT_TOOL_CHARS {
      assert (m.content[..COMPACT_TOOL_CHARS] + CUT_MARK)[..COMPACT_TOOL_CHARS]
          == m.content[..COMPACT_TOOL_CHARS];
    }
  }

  /** Shortening loses bytes only when the cut tail is longer than the mark put in its place. */
  lemma ShortenShrinks(m: Message)
    requires |m.content| > COMPACT_TOOL_CHARS
    ensures Utf8Length(Shorten(m).content) < Utf8Length(m.content)
            <==> Utf8Length(m.content[COMPACT_TOOL_CHARS..]) > 32
  {
    var head, tail := m.content[..COMPACT_TOOL_CHARS], m.content[COMPACT_TOOL_CHARS..];
    assert m.content == head + tail;
    Utf8LengthConcat(head, tail);
    Utf8LengthConcat(head, CUT_MARK);
    CutMarkBytes();
  }

  lemma CutMarkBytes()
    ensures Utf8Length(CUT_MARK) == 32
  {
    var a, b, c, d, e := "\n[", "контекст", " ", "усечён", "]";
    UniformBytes(a, 1);
    UniformBytes(b, 2);
    UniformBytes(c, 1);
    UniformBytes(d, 2);
    UniformBytes(e, 1);
    Utf8LengthConcat(a, b);
    Utf8LengthConcat(a + b, c);
    Utf8LengthConcat(a + b + c, d);
    Utf8LengthConcat(a + b + c + d, e);
  }

  lemma {:induction false} UniformBytes(s: string, width: nat)
    requires forall i | 0 <= i < |s| :: Utf8Width(s[i]) == width
    ensures Utf8Length(s) == width * |s|
  {
    if s != [] {
      UniformBytes(s[1..], width);
      assert width * |s| == width + width * (|s| - 1);
    }
  }

  // ---------------------------------------------------------------- pruning

  /** Position of the first message that is not a system message. */
  function FirstRemovable(h: seq<Message>): (p: Option<nat>)
    ensures p.Some? ==> p.value < |h|
  {
    if h == [] then None
    else if !h[0].role.System? then Some(0)
    else
      var rest := FirstRemovable(h[1..]);
      if rest.None? then None else Some(rest.value + 1)
  }

  function Without(h: seq<Message>, p: nat): seq<Message>
    requires p < |h|
  {
    h[..p] + h[p + 1..]
  }

  /** The pruning loop: the oldest removable message goes while the weight exceeds the budget. */
  function Prune(h: seq<Message>, budget: nat): seq<Message>
    decreases |h|
  {
    if TotalTokens(h) > budget && |h| > COMPACT_KEEP_TAIL && FirstRemovable(h).Some?
    then Prune(Without(h, FirstRemovable(h).value), budget)
    else h
  }

  lemma {:induction false} TotalWithout(h: seq<Message>, p: nat)
    requires p < |h|
    ensures TotalTokens(Without(h, p)) + RoughTokens(h[p]) == TotalTokens(h)
  {
    if p == 0 {
      assert Without(h, 0) == h[1..];
    } else {
      TotalWithout(h[1..], p - 1);
      assert Without(h, p)[1..] == Without(h[1..], p - 1);
    }
  }

  /** How many messages are cut from the front of a history without system messages. */
  function PruneLength(h: seq<Message>, budget: nat): (k: nat)
    ensures k <= |h|
  {
    if TotalTokens(h) > budget && |h| > COMPACT_KEEP_TAIL then 1 + PruneLength(h[1..], budget) else 0
  }

  lemma {:induction false} PruneCutsPrefix(h: seq<Message>, budget: nat)
    requires NoSystem(h)
    ensures Prune(h, budget) == h[PruneLength(h, budget)..]
  {
    if TotalTokens(h) > budget && |h| > COMPACT_KEEP_TAIL {
      assert h[0] in h && Without(h, 0) == h[1..] && FirstRemovable(h) == Some(0);
      hide TotalTokens, FirstRemovable, Without;
      PruneCutsPrefix(h[1..], budget);
      assert h[1..][PruneLength(h[1..], budget)..] == h[1 + PruneLength(h[1..], budget)..];
    }
  }

  /** Pruning stops within the budget or at the protected tail, and never removes more than needed. */
  lemma {:induction false} PruneIsLeast(h: seq<Message>, budget: nat)
    requires NoSystem(h)
    ensures Prune(h, budget) == h[PruneLength(h, budget)..]
    ensures TotalTokens(Prune(h, budget)) <= budget || |Prune(h, budget)| <= COMPACT_KEEP_TAIL
    ensures forall k | 0 <= k < PruneLength(h, budget) ::
              TotalTokens(h[k..]) > budget && |h| - k > COMPACT_KEEP_TAIL
    ensures |h| >= COMPACT_KEEP_TAIL ==> |Prune(h, budget)| >= COMPACT_KEEP_TAIL
  {
    hide TotalTokens, NoSystem, PruneLength;
    PruneCutsPrefix(h, budget);
    PruneLengthIsLeast(h, budget);
  }

  lemma {:induction false} PruneLengthIsLeast(h: seq<Message>, budget: nat)
    ensures var n := PruneLength(h, budget);
            && (TotalTokens(h[n..]) <= budget || |h| - n <= COMPACT_KEEP_TAIL)
            && (forall k | 0 <= k < n :: TotalTokens(h[k..]) > budget && |h| - k > COMPACT_KEEP_TAIL)
            && (|h| >= COMPACT_KEEP_TAIL ==> |h| - n >= COMPACT_KEEP_TAIL)
  {
    hide TotalTokens;
    assert h[0..] == h;
    if TotalTokens(h) > budget && |h| > COMPACT_KEEP_TAIL {
      PruneLengthIsLeast(h[1..], budget);
      forall k | 0 < k <= |h| ensures h[1..][k - 1..] == h[k..] {
      }
    }
  }

  /**
   The cut leaves results without a request before the first remaining assistant message only; when the history is
   contiguous with distinct ids, a request loses just the results at the very front.
   */
  lemma {:induction false} PruneOrphansLead(h: seq<Message>, budget: nat, prompt: string)
    requires NoSystem(h) && Tidy(h)
    ensures var p := Prune(h, budget);
            && Tidy(p) && OrphansLead(p)
            && (Contiguous(h) && DistinctIds(h) ==>
                NoDangling(p) && Contiguous(p) && DistinctIds(p)
                && Sanitize(RequestMessages(prompt, p))
                == Repaired(RequestMessages(prompt, p[|Run(p)|..]), 0, |Run(p)|))
  {
    hide OrphansLead, Tidy, NoDangling, Contiguous, DistinctIds, Prune, Sanitize;
    PruneCutsPrefix(h, budget);
    TidyAnswers(h);
    Suffix(h, PruneLength(h, budget));
    TidyLeads(Prune(h, budget));
    if Contiguous(h) && DistinctIds(h) {
      RequestAssembly(prompt, Prune(h, budget));
    }
  }

  // ---------------------------------------------------------------- L3: the fold

  /** Position of the last user message. */
  function LastUser(h: seq<Message>): (p: Option<nat>)
    ensures p.Some? ==> p.value < |h|
  {
    if h == [] then None
    else if h[|h| - 1].role.User? then Some(|h| - 1)
    else LastUser(h[..|h| - 1])
  }

  lemma {:induction false} LastUserIs(h: seq<Message>)
    ensures var p := LastUser(h);
            && (p.Some? ==> h[p.value].role.User? && forall i | p.value < i < |h| :: !h[i].role.User?)
            && (p.None? ==> forall i | 0 <= i < |h| :: !h[i].role.User?)
  {
    if h != [] && !h[|h| - 1].role.User? {
      LastUserIs(h[..|h| - 1]);
      assert forall i | 0 <= i < |h| - 1 :: h[..|h| - 1][i] == h[i];
    }
  }

  function SummaryNote(folded: nat, summary: string): Message {
    AssistantMessage(FOLD_HEAD + Decimal(folded) + FOLD_TAIL + if IsBlank(summary) then EMPTY_SUMMARY else summary, [])
  }

  datatype Fold =
    | NothingToFold
    | SummariserFailed
    | Folded(history: seq<Message>, count: nat)

  /** Folding: the summariser answers with a text, or fails (`None`). It is asked only if there is something to fold. */
  function FoldHistory(h: seq<Message>, summary: Option<string>): (r: Fold)
    ensures r.Folded? ==> 0 < r.count < |h| && LastUser(h) == Some(r.count) && summary.Some?
    ensures r.SummariserFailed? ==> summary.None?
  {
    var boundary := LastUser(h);
    if boundary.None? || boundary.value == 0 then NothingToFold
    else if summary.None? then SummariserFailed
    else Folded([SummaryNote(boundary.value, summary.value)] + h[boundary.value..], boundary.value)
  }

  /** What a fold keeps, and exactly when it strands results behind the note. */
  lemma {:induction false} FoldKeepsPairs(h: seq<Message>, summary: Option<string>)
    ensures var r := FoldHistory(h, summary);
            r.Folded? ==>
              && (NoSystem(h) ==> NoSystem(r.history))
              && (NoDangling(h) ==> NoDangling(r.history))
              && (Contiguous(h) ==> Contiguous(r.history))
              && (DistinctIds(h) ==> DistinctIds(r.history))
              && (Tidy(h) ==> (Tidy(r.history) <==> Answers(h[r.count..]) == []))
              && (NoDangling(h) && Contiguous(h) ==> Answers(h[r.count..]) == [])
  {
    var r := FoldHistory(h, summary);
    LastUserIs(h);
    if r.Folded? {
      FoldKeeps(h, r.count, SummaryNote(r.count, summary.value));
      if Contiguous(h) {
        Suffix(h, r.count);
        NoAnswersAfterUser(h[r.count..]);
      }
    }
  }

  /** A fold keeps the last user message and what follows it, behind one note. */
  lemma FoldKeepsTail(h: seq<Message>, summary: Option<string>)
    requires FoldHistory(h, summary).Folded?
    ensures var r := FoldHistory(h, summary);
            && |r.history| == |h| - r.count + 1 <= |h|
            && r.history[1..] == h[r.count..]
            && r.history[0].role.Assistant? && r.history[0].toolCalls == []
            && r.history[1].role.User? && forall i | 1 < i < |r.history| :: !r.history[i].role.User?
  {
    var r := FoldHistory(h, summary);
    LastUserIs(h);
    assert forall i | 1 <= i < |r.history| :: r.history[i] == h[r.count + i - 1];
  }

  // ---------------------------------------------------------------- the whole automatic pass

  datatype Limits = Limits(contextBudget: nat, contextLimit: Option<nat>, l1Percent: nat, l3Percent: nat)

  datatype Thresholds = Thresholds(budget: nat, l1: nat, l3: nat)

  /** min of the configured budget (at least 1) and the model's window when it is known and positive. */
  function EffectiveBudget(c: Limits): (b: nat)
    ensures 0 < b
    ensures c.contextBudget > 0 ==> b <= c.contextBudget
    ensures c.contextLimit.Some? && c.contextLimit.value > 0 ==> b <= c.contextLimit.value
    ensures b == c.contextBudget || c.contextLimit == Some(b) || (c.contextBudget == 0 && b == 1)
  {
    var configured := if c.contextBudget == 0 then 1 else c.contextBudget;
    if c.contextLimit.Some? && c.contextLimit.value > 0
    then Min(configured, c.contextLimit.value)
    else configured
  }

  function ThresholdsOf(c: Limits): (t: Thresholds)
    ensures t.l1 <= t.budget
  {
    var budget := EffectiveBudget(c);
    PercentOf(budget, Min(c.l1Percent, 100));
    Thresholds(budget, budget * Min(c.l1Percent, 100) / 100, budget * c.l3Percent / 100)
  }

  lemma PercentOf(budget: nat, percent: nat)
    requires percent <= 100
    ensures budget * percent / 100 <= budget
  {
    assert budget * percent <= budget * 100;
  }

  /** History, the flag that disables L3, and how many times the summariser was asked. */
  datatype Compacted = Compacted(history: seq<Message>, futile: bool, summaries: nat)

  /** The third level: a fold when the pruned history is still heavy and folding has not proved useless. */
  function FoldIfHeavy(t: Thresholds, p: seq<Message>, futile: bool, summary: Option<string>): Compacted {
    if TotalTokens(p) <= t.l3 || futile then Compacted(p, futile, 0)
    else
      match FoldHistory(p, summary)
      case NothingToFold => Compacted(p, true, 0)
      case SummariserFailed => Compacted(p, true, 1)
      case Folded(f, _) => Compacted(f, TotalTokens(f) > t.l3, 1)
  }

  function AutoCompact(t: Thresholds, h: seq<Message>, futile: bool, summary: Option<string>): Compacted {
    if TotalTokens(h) <= t.l1 then Compacted(h, futile, 0)
    else FoldIfHeavy(t, Prune(Mask(h), t.budget), futile, summary)
  }

  /** What masking and pruning keep. */
  lemma {:induction false} PrunedKeepsPairs(t: Thresholds, h: seq<Message>)
    requires NoSystem(h)
    ensures var p := Prune(Mask(h), t.budget);
            && (NoDangling(h) ==> NoDangling(p))
            && (Contiguous(h) ==> Contiguous(p))
            && (DistinctIds(h) ==> DistinctIds(p))
            && NoSystem(p)
  {
    MaskKeepsShape(h);
    MaskKeepsNoSystem(h);
    PruneCutsPrefix(Mask(h), t.budget);
    Suffix(Mask(h), PruneLength(Mask(h), t.budget));
  }

  /** Automatic compaction keeps every pairing invariant that the history already had. */
  lemma {:induction false} AutoCompactKeepsPairs(t: Thresholds, h: seq<Message>, futile: bool, summary: Option<string>)
    requires NoSystem(h)
    ensures var r := AutoCompact(t, h, futile, summary).history;
            && (NoDangling(h) ==> NoDangling(r))
            && (Contiguous(h) ==> Contiguous(r))
            && (DistinctIds(h) ==> DistinctIds(r))
            && NoSystem(r)
  {
    hide Prune, Mask, FoldHistory, NoDangling, Contiguous, DistinctIds;
    PrunedKeepsPairs(t, h);
    FoldKeepsPairs(Prune(Mask(h), t.budget), summary);
  }

  /** The summariser is asked at most once, never when the flag is set, and failing sets the flag. */
  lemma {:induction false} AutoCompactFutile(t: Thresholds, h: seq<Message>, futile: bool, summary: Option<string>)
    ensures var r := AutoCompact(t, h, futile, summary);
            && r.summaries <= 1
            && (futile ==> r.futile && r.summaries == 0)
            && (r.futile && !futile ==> TotalTokens(r.history) > t.l3)
            && (!r.futile && TotalTokens(h) > t.l1 ==> TotalTokens(r.history) <= t.l3)
  {
  }

  lemma FoldIfHeavyBounds(t: Thresholds, p: seq<Message>, futile: bool, summary: Option<string>)
    ensures var r := FoldIfHeavy(t, p, futile, summary);
            |r.history| <= |p| && (r.summaries == 0 ==> r.history == p)
  {
  }

  /** Size after the pass: under the first threshold, or within the budget, or near the protected tail. */
  lemma AutoCompactBounds(t: Thresholds, h: seq<Message>, futile: bool, summary: Option<string>)
    requires t.l1 <= t.budget && NoSystem(h)
    ensures var r := AutoCompact(t, h, futile, summary);
            && |r.history| <= |h|
            && (r.summaries == 0 ==>
                TotalTokens(r.history) <= t.budget || |r.history| <= COMPACT_KEEP_TAIL)
  {
    var m := Mask(h);
    var p := Prune(m, t.budget);
    MaskKeepsNoSystem(h);
    PruneIsLeast(m, t.budget);
    FoldIfHeavyBounds(t, p, futile, summary);
  }
}
