/** What a compaction pass does to a history, told from the messages and the thresholds alone. */
module CompactionPass {
  import opened Wrappers
  import opened Chat
  import opened History
  import opened Compaction
  import opened Text
  import opened Wording

  // ---------------------------------------------------------------- old results, cut and kept

  /** Where the tool results behind position `i` stand. */
  ghost function Behind(h: seq<Message>, i: int): set<int> {
    set j: int | i < j < |h| && 0 <= j && h[j].role.Tool?
  }

  /** The text of an old result: the first 500 characters and the mark, when it is longer. */
  function CutText(text: string): string {
    if |text| > 500 then text[..500] + "\n[контекст усечён]" else text
  }

  /** Four or more tool results stand behind position `i`, which holds one itself. */
  ghost predicate Aged(h: seq<Message>, i: int)
    requires 0 <= i < |h|
  {
    h[i].role.Tool? && |Behind(h, i)| >= 4
  }

  /** Every result with four or more behind it is cut; nothing else is touched. */
  ghost predicate CutOld(h: seq<Message>, g: seq<Message>) {
    |g| == |h|
    && forall i | 0 <= i < |h| :: g[i] == if Aged(h, i) then h[i].(content := CutText(h[i].content)) else h[i]
  }

  /** The shortest cut from the front that brings the weight within the budget or leaves six messages. */
  ghost predicate LeastCut(g: seq<Message>, budget: nat, k: nat) {
    && k <= |g| && (TotalTokens(g[k..]) <= budget || |g| - k <= 6)
    && forall j | 0 <= j < k :: TotalTokens(g[j..]) > budget && |g| - j > 6
  }

  /** `u` is where the last user message stands, and something stands before it. */
  ghost predicate FoldPoint(p: seq<Message>, u: nat) {
    0 < u < |p| && p[u].role.User? && forall i | u < i < |p| :: !p[i].role.User?
  }

  /** The message that stands for `count` folded ones. */
  function FoldNote(count: nat, summary: string): Message {
    var text := if IsBlank(summary) then EMPTY_SUMMARY else summary;
    Message(Assistant, FOLD_HEAD + Decimal(count) + FOLD_TAIL + text, [], [], None, None, None)
  }

  /** What a summariser's answer makes of a history: one note for all that stands before the last user message. */
  ghost predicate FoldedAt(p: seq<Message>, summary: Option<string>, out: seq<Message>) {
    exists u: nat :: FoldPoint(p, u) && summary.Some? && out == [FoldNote(u, summary.value)] + p[u..]
  }

  ghost predicate CanFold(p: seq<Message>) {
    exists u: nat :: FoldPoint(p, u)
  }

  // ---------------------------------------------------------------- the counted results

  lemma {:induction false} BehindCount(h: seq<Message>, i: int)
    requires -1 <= i < |h|
    ensures |Behind(h, i)| == ToolCount(h[i + 1..])
    decreases |h| - i
  {
    if i + 1 == |h| {
      assert Behind(h, i) == {};
    } else {
      BehindCount(h, i + 1);
      assert h[i + 1..][1..] == h[i + 2..];
      assert Behind(h, i) == Behind(h, i + 1) + if h[i + 1].role.Tool? then {i + 1} else {};
    }
  }

  lemma AgedIsOld(h: seq<Message>, i: nat)
    requires i < |h|
    ensures Aged(h, i) <==> Old(h, i)
  {
    hide ToolCount, Behind;
    BehindCount(h, i);
  }

  lemma CutMarkIs()
    ensures CUT_MARK == "\n[контекст усечён]"
  {
  }

  lemma CutTextIs(m: Message)
    ensures Shorten(m) == m.(content := CutText(m.content))
  {
    CutMarkIs();
    hide CUT_MARK;
  }

  /** The masking pass on its own: exactly the aged results are cut. */
  lemma {:induction false} MaskCutsOld(h: seq<Message>)
    ensures CutOld(h, Mask(h))
  {
    hide Mask, Shorten, Aged, Old, CutText;
    forall i | 0 <= i < |h|
      ensures Mask(h)[i] == if Aged(h, i) then h[i].(content := CutText(h[i].content)) else h[i]
    {
      MaskAt(h, i);
      AgedIsOld(h, i);
      CutTextIs(h[i]);
    }
  }

  /** The results that a pass shortens among the first `n` messages. */
  ghost function Shortened(h: seq<Message>, n: nat): set<int>
    requires n <= |h|
  {
    set i | 0 <= i < n && Aged(h, i) && |h[i].content| > 500
  }

  /** The counter of the masking pass is the number of aged results longer than the limit. */
  lemma {:induction false} MaskCountIs(h: seq<Message>, n: nat)
    requires n <= |h|
    ensures MaskCount(h, n) == |Shortened(h, n)|
  {
    hide Aged, Old;
    if n == 0 {
      assert Shortened(h, 0) == {};
    } else {
      hide Shortened;
      MaskCountIs(h, n - 1);
      AgedIsOld(h, n - 1);
      OneMoreShortened(h, n);
    }
  }

  lemma OneMoreShortened(h: seq<Message>, n: nat)
    requires 0 < n <= |h|
    ensures |Shortened(h, n)| ==
            |Shortened(h, n - 1)| + if Aged(h, n - 1) && |h[n - 1].content| > 500 then 1 else 0
  {
    hide Aged;
    assert Shortened(h, n) == Shortened(h, n - 1) + if Aged(h, n - 1) && |h[n - 1].content| > 500 then {n - 1} else {};
  }

  lemma CutOldUnique(h: seq<Message>, g: seq<Message>, f: seq<Message>)
    requires CutOld(h, g) && CutOld(h, f)
    ensures g == f
  {
  }

  // ---------------------------------------------------------------- the fold

  lemma {:induction false} FoldPointIs(p: seq<Message>)
    ensures CanFold(p) <==> LastUser(p).Some? && LastUser(p).value != 0
    ensures forall u: nat | FoldPoint(p, u) :: LastUser(p) == Some(u)
  {
    LastUserIs(p);
    if LastUser(p).Some? && LastUser(p).value != 0 {
      assert FoldPoint(p, LastUser(p).value);
    }
  }

  /** A fold happens exactly when something stands before the last user message and the summariser answers. */
  lemma FoldIs(p: seq<Message>, summary: Option<string>)
    ensures var r := FoldHistory(p, summary);
            && (r.NothingToFold? <==> !CanFold(p))
            && (r.SummariserFailed? <==> CanFold(p) && summary.None?)
            && (r.Folded? <==> CanFold(p) && summary.Some?)
            && (r.Folded? ==> FoldedAt(p, summary, r.history) && FoldPoint(p, r.count))
  {
    FoldPointIs(p);
    if CanFold(p) && summary.Some? {
      var u: nat :| FoldPoint(p, u);
      NoteIs(u, summary.value);
      assert FoldHistory(p, summary) == Folded([FoldNote(u, summary.value)] + p[u..], u);
    }
  }

  lemma NoteIs(count: nat, summary: string)
    ensures SummaryNote(count, summary) == FoldNote(count, summary)
  {
  }

  // ---------------------------------------------------------------- the automatic pass

  /** The third level: nothing below the threshold or with the flag set, else one question to the summariser. */
  ghost predicate ThirdLevel(t: Thresholds, p: seq<Message>, futile: bool, summary: Option<string>, r: Compacted) {
    var heavy := TotalTokens(p) > t.l3 && !futile;
    && (!heavy ==> r == Compacted(p, futile, 0))
    && (heavy && !CanFold(p) ==> r == Compacted(p, true, 0))
    && (heavy && CanFold(p) ==> r.summaries == 1)
    && (heavy && CanFold(p) && summary.None? ==> r.history == p && r.futile)
    && (heavy && CanFold(p) && summary.Some? ==>
        FoldedAt(p, summary, r.history) && (r.futile <==> TotalTokens(r.history) > t.l3))
  }

  lemma ThirdLevelIs(t: Thresholds, p: seq<Message>, futile: bool, summary: Option<string>)
    ensures ThirdLevel(t, p, futile, summary, FoldIfHeavy(t, p, futile, summary))
  {
    hide FoldHistory, TotalTokens, FoldedAt, CanFold, FoldPoint;
    FoldIs(p, summary);
  }

  /** The message a prune takes is the first that is no system message. */
  lemma {:induction false} RemovableIs(h: seq<Message>)
    ensures var p := FirstRemovable(h);
            && (p.None? <==> forall i | 0 <= i < |h| :: h[i].role.System?)
            && (p.Some? ==> !h[p.value].role.System? && forall i | 0 <= i < p.value :: h[i].role.System?)
  {
    if h != [] && h[0].role.System? {
      RemovableIs(h[1..]);
      assert forall i | 0 < i < |h| :: h[1..][i - 1] == h[i];
    }
  }

  lemma {:induction false} LeastCutIs(g: seq<Message>, budget: nat)
    ensures LeastCut(g, budget, PruneLength(g, budget))
  {
    hide TotalTokens;
    PruneLengthIsLeast(g, budget);
  }

  /**
   The whole pass, level by level: below the first threshold nothing happens; above it the aged results are cut, then
   the shortest prefix goes that brings the rest within the budget, then the third level decides on what is left.
   */
  lemma AutoCompactIs(t: Thresholds, h: seq<Message>, futile: bool, summary: Option<string>)
    returns (cut: seq<Message>, gone: nat)
    requires NoSystem(h)
    ensures TotalTokens(h) <= t.l1 ==> AutoCompact(t, h, futile, summary) == Compacted(h, futile, 0)
    ensures CutOld(h, cut) && LeastCut(cut, t.budget, gone)
    ensures TotalTokens(h) > t.l1 ==> ThirdLevel(t, cut[gone..], futile, summary, AutoCompact(t, h, futile, summary))
  {
    hide Prune, Mask, FoldIfHeavy, ThirdLevel, TotalTokens, CutOld, PruneLength, LeastCut;
    cut := Mask(h);
    gone := PruneLength(cut, t.budget);
    MaskCutsOld(h);
    MaskKeepsNoSystem(h);
    PruneCutsPrefix(cut, t.budget);
    LeastCutIs(cut, t.budget);
    ThirdLevelIs(t, cut[gone..], futile, summary);
  }

  /** A result is aged in a suffix, or behind a note, exactly when it is in the whole history. */
  lemma AgedInSuffix(g: seq<Message>, k: nat, note: seq<Message>, i: nat)
    requires k <= |g| && |note| <= i < |note + g[k..]|
    ensures (note + g[k..])[i] == g[i - |note| + k]
    ensures Aged(note + g[k..], i) <==> Aged(g, i - |note| + k)
  {
    hide ToolCount, Behind;
    var r, j := note + g[k..], i - |note| + k;
    BehindCount(r, i);
    BehindCount(g, j);
    assert r[i + 1..] == g[j + 1..];
  }

  /** What is left of a history after a cut and perhaps a fold: a plain note, or nothing, and then a suffix. */
  ghost predicate NoteAndSuffix(g: seq<Message>, note: seq<Message>, k: nat, out: seq<Message>) {
    k <= |g| && out == note + g[k..] && |note| <= 1 && forall m | m in note :: m.role.Assistant? && m.toolCalls == []
  }

  lemma ThirdLevelKeepsSuffix(t: Thresholds, g: seq<Message>, gone: nat, futile: bool, summary: Option<string>,
                              r: Compacted)
    returns (note: seq<Message>, k: nat)
    requires gone <= |g| && ThirdLevel(t, g[gone..], futile, summary, r)
    ensures NoteAndSuffix(g, note, k, r.history) && k >= gone
    ensures r.summaries == 0 ==> note == [] && k == gone
    ensures note != [] ==> k > 0
    ensures gone < |g| ==> k < |g|
  {
    hide TotalTokens, CanFold;
    var p := g[gone..];
    if FoldedAt(p, summary, r.history) && r.summaries == 1 && r.history != p {
      var u: nat :| FoldPoint(p, u) && summary.Some? && r.history == [FoldNote(u, summary.value)] + p[u..];
      note, k := [FoldNote(u, summary.value)], gone + u;
      assert p[u..] == g[k..];
    } else {
      note, k := [], gone;
      assert r.history == p;
    }
  }

  /**
   Above the first threshold no aged result is left long: at most 500 characters and the mark. Whatever else is kept is
   as it was: behind at most one plain note stands a suffix of the history with the aged results cut.
   */
  lemma {:induction false} AgedAreShort(t: Thresholds, h: seq<Message>, futile: bool, summary: Option<string>)
    requires NoSystem(h) && TotalTokens(h) > t.l1
    ensures var r := AutoCompact(t, h, futile, summary).history;
            && (forall i | 0 <= i < |r| && Aged(r, i) :: Short(r[i]))
            && exists cut, note, k :: CutOld(h, cut) && NoteAndSuffix(cut, note, k, r)
  {
    hide AutoCompact, TotalTokens, ThirdLevel, LeastCut, CutOld, NoteAndSuffix, Aged, Short;
    var cut, gone := AutoCompactIs(t, h, futile, summary);
    assert gone <= |cut| by { CutInside(cut, t.budget, gone); }
    var note, k := ThirdLevelKeepsSuffix(t, cut, gone, futile, summary, AutoCompact(t, h, futile, summary));
    var r := AutoCompact(t, h, futile, summary).history;
    forall i: nat | i < |r| && Aged(r, i) ensures Short(r[i]) {
      AgedIsShort(h, cut, note, k, r, i);
    }
  }

  lemma CutInside(g: seq<Message>, budget: nat, k: nat)
    requires LeastCut(g, budget, k)
    ensures k <= |g|
  {
  }

  /** No longer than what a cut leaves. */
  predicate Short(m: Message) { |m.content| <= 500 + |"\n[контекст усечён]"| }

  lemma AgedIsShort(h: seq<Message>, cut: seq<Message>, note: seq<Message>, k: nat, r: seq<Message>, i: nat)
    requires CutOld(h, cut) && NoteAndSuffix(cut, note, k, r) && i < |r| && Aged(r, i)
    ensures Short(r[i])
  {
    hide CutOld, Behind, Short;
    if i < |note| {
      NoteIsNotAged(cut, note, k, r, i);
    } else {
      AgedInSuffix(cut, k, note, i);
      assert |cut| == |h| by { CutKeepsLength(h, cut); }
      AgedAfterCut(h, cut, i - |note| + k);
    }
  }

  lemma NoteIsNotAged(cut: seq<Message>, note: seq<Message>, k: nat, r: seq<Message>, i: nat)
    requires NoteAndSuffix(cut, note, k, r) && i < |note|
    ensures i < |r| && !Aged(r, i)
  {
    assert note[i] in note && r[i] == note[i];
  }

  lemma CutKeepsLength(h: seq<Message>, cut: seq<Message>)
    requires CutOld(h, cut)
    ensures |cut| == |h|
  {
  }

  /** Cutting keeps roles, so it keeps what is aged; an aged result is short afterwards. */
  lemma AgedAfterCut(h: seq<Message>, cut: seq<Message>, i: nat)
    requires CutOld(h, cut) && i < |h|
    ensures Aged(cut, i) <==> Aged(h, i)
    ensures Aged(h, i) ==> Short(cut[i])
  {
    hide Aged;
    assert Aged(cut, i) <==> Aged(h, i) by { SameRolesAged(h, cut, i); }
  }

  lemma SameRolesAged(h: seq<Message>, g: seq<Message>, i: nat)
    requires |g| == |h| && i < |h| && forall j | 0 <= j < |h| :: g[j].role == h[j].role
    ensures Aged(g, i) <==> Aged(h, i)
  {
    assert Behind(g, i) == Behind(h, i);
  }

  /**
   Where cutting the aged results suffices, nothing else happens: no message is removed unless the cut history exceeds
   the budget, and the summariser is asked only when what is left still exceeds the third threshold.
   */
  lemma {:induction false} CuttingSuffices(t: Thresholds, h: seq<Message>, cut: seq<Message>, futile: bool, summary: Option<string>)
    requires NoSystem(h) && TotalTokens(h) > t.l1 && CutOld(h, cut)
    ensures TotalTokens(cut) <= t.budget && (TotalTokens(cut) <= t.l3 || futile) ==>
              AutoCompact(t, h, futile, summary) == Compacted(cut, futile, 0)
    ensures TotalTokens(cut) <= t.budget && AutoCompact(t, h, futile, summary).summaries == 0 ==>
              AutoCompact(t, h, futile, summary).history == cut
    ensures AutoCompact(t, h, futile, summary).summaries > 0 ==>
              !futile && exists k: nat :: LeastCut(cut, t.budget, k) && TotalTokens(cut[k..]) > t.l3
  {
    hide AutoCompact, TotalTokens, CutOld, FoldedAt, CanFold;
    var cut2, gone := AutoCompactIs(t, h, futile, summary);
    CutOldUnique(h, cut2, cut);
    assert cut[0..] == cut;
  }

  // ---------------------------------------------------------------- what a message weighs

  /** How many code points fit into `n` bytes of UTF-8: seven bits in one byte, 5 n + 1 in more. */
  function Capacity(n: nat): nat
    requires 1 <= n <= 4
  {
    if n == 1 then 0x80 else if n == 2 then 0x800 else if n == 3 then 0x1_0000 else 0x20_0000
  }

  /** A character takes the fewest bytes that can hold its code point. */
  lemma WidthIsLeast(c: char)
    ensures var n := Utf8Length([c]);
            1 <= n <= 4 && (c as int) < Capacity(n) && forall k | 1 <= k < n :: Capacity(k) <= c as int
  {
    assert [c][1..] == [];
  }

  function AllArguments(calls: seq<ToolCall>): string {
    if calls == [] then "" else calls[0].arguments + AllArguments(calls[1..])
  }

  lemma {:induction false} ArgumentsJoined(calls: seq<ToolCall>)
    ensures ArgumentBytes(calls) == Utf8Length(AllArguments(calls))
  {
    if calls != [] {
      ArgumentsJoined(calls[1..]);
      Utf8LengthConcat(calls[0].arguments, AllArguments(calls[1..]));
    }
  }

  /** A message weighs a quarter of the bytes of all its text, and 1024 for each image. */
  lemma WeightIs(m: Message)
    ensures var text := m.content + (if m.reasoning.Some? then m.reasoning.value else "") + AllArguments(m.toolCalls);
            RoughTokens(m) == Utf8Length(text) / 4 + 1024 * |m.images|
  {
    hide Utf8Length;
    assert Utf8Length("") == 0 by { NoBytes(); }
    var reasoning := if m.reasoning.Some? then m.reasoning.value else "";
    ArgumentsJoined(m.toolCalls);
    Utf8LengthConcat(m.content, reasoning);
    Utf8LengthConcat(m.content + reasoning, AllArguments(m.toolCalls));
  }

  /** The weights of a history add up over its messages. */
  lemma {:induction false} WeightsAdd(a: seq<Message>, b: seq<Message>, m: Message)
    ensures TotalTokens([]) == 0 && TotalTokens([m]) == RoughTokens(m)
    ensures TotalTokens(a + b) == TotalTokens(a) + TotalTokens(b)
  {
    hide RoughTokens;
    assert [m][1..] == [];
    if a == [] {
      assert a + b == b;
    } else {
      assert (a + b)[1..] == a[1..] + b;
      WeightsAdd(a[1..], b, m);
    }
  }

  lemma NoBytes()
    ensures Utf8Length("") == 0
  {
  }

  /** The thresholds are percentages of the budget, rounded down; only the first is capped at the budget. */
  lemma ThresholdsAre(c: Limits)
    ensures var t, b := ThresholdsOf(c), EffectiveBudget(c);
            && t.budget == b
            && 100 * t.l1 <= b * (if c.l1Percent < 100 then c.l1Percent else 100) < 100 * (t.l1 + 1)
            && 100 * t.l3 <= b * c.l3Percent < 100 * (t.l3 + 1)
  {
  }
}
