/** Compaction keeps the tail of a history: what stands behind some place, with at most one note in front. */
module SessionTails {
  import opened Wrappers
  import opened Chat
  import opened History
  import opened Compaction
  import opened CompactionPass
  import opened Session
  import opened SessionTurns

  // ---------------------------------------------------------------- tails

  /** The same message, but for the text of a tool result. */
  predicate SameButCut(a: Message, b: Message) {
    b == a || (a.role.Tool? && b == a.(content := b.content))
  }

  ghost predicate Shortens(a: seq<Message>, b: seq<Message>) {
    |a| == |b| && forall i | 0 <= i < |a| :: SameButCut(a[i], b[i])
  }

  predicate PlainNote(m: Message) {
    m.role.Assistant? && m.toolCalls == []
  }

  /** `h` is what stands behind the first `k` messages, with a plain note in their place or none. */
  ghost predicate TailAt(full: seq<Message>, h: seq<Message>, note: seq<Message>, k: nat) {
    && k <= |full| && |note| <= 1 && note <= h && Shortens(full[k..], h[|note|..])
    && (note != [] ==> k > 0 && PlainNote(note[0]))
  }

  ghost predicate TailOf(full: seq<Message>, h: seq<Message>) {
    exists note, k: nat :: TailAt(full, h, note, k)
  }

  lemma ShortensItself(h: seq<Message>)
    ensures Shortens(h, h) && TailOf(h, h)
  {
    assert h[0..] == h;
    assert TailAt(h, h, [], 0);
  }

  lemma TailThroughNote(f: seq<Message>, g: seq<Message>, h: seq<Message>, n: seq<Message>, k: nat)
    requires TailAt(f, g, n, k) && |n| == 1 && Shortens(g, h)
    ensures TailAt(f, h, n, k)
  {
    assert SameButCut(g[0], h[0]) && g[0] == n[0];
    forall i | 0 <= i < |f| - k ensures SameButCut(f[k..][i], h[1..][i]) {
      assert SameButCut(g[i + 1], h[i + 1]) && SameButCut(f[k..][i], g[1..][i]);
    }
  }

  lemma TailBehindNote(f: seq<Message>, g: seq<Message>, h: seq<Message>, n: seq<Message>, k: nat,
                       n2: seq<Message>, k2: nat)
    requires TailAt(f, g, n, k) && TailAt(g, h, n2, k2) && k2 >= |n|
    ensures TailAt(f, h, n2, k + k2 - |n|)
  {
    var j := k + k2 - |n|;
    forall i | 0 <= i < |f| - j ensures SameButCut(f[j..][i], h[|n2|..][i]) {
      assert SameButCut(g[k2..][i], h[|n2|..][i]);
      assert SameButCut(f[k..][k2 - |n| + i], g[|n|..][k2 - |n| + i]);
    }
  }

  /** The tail of a tail is a tail. */
  lemma TailOfTail(f: seq<Message>, g: seq<Message>, h: seq<Message>)
    requires TailOf(f, g) && TailOf(g, h)
    ensures TailOf(f, h)
  {
    hide TailAt;
    var n, k: nat :| TailAt(f, g, n, k);
    var n2, k2: nat :| TailAt(g, h, n2, k2);
    if k2 < |n| {
      TailWithin(f, g, h, n, k, n2, k2);
      TailThroughNote(f, g, h, n, k);
    } else {
      TailBehindNote(f, g, h, n, k, n2, k2);
    }
  }

  lemma TailWithin(f: seq<Message>, g: seq<Message>, h: seq<Message>, n: seq<Message>, k: nat,
                   n2: seq<Message>, k2: nat)
    requires TailAt(f, g, n, k) && TailAt(g, h, n2, k2) && k2 < |n|
    ensures |n| == 1 && Shortens(g, h)
  {
    assert n2 == [] && g[0..] == g && h[0..] == h;
  }

  /** What is said next is said in both. */
  lemma TailGrows(full: seq<Message>, h: seq<Message>, more: seq<Message>)
    requires TailOf(full, h)
    ensures TailOf(full + more, h + more)
  {
    var note, k: nat :| TailAt(full, h, note, k);
    assert (full + more)[k..] == full[k..] + more && (h + more)[|note|..] == h[|note|..] + more;
    assert TailAt(full + more, h + more, note, k);
  }

  lemma SameRoleBehind(a: seq<Message>, b: seq<Message>, i: nat)
    requires Shortens(a, b) && i < |b|
    ensures i < |a| && a[i].role == b[i].role
  {
    assert SameButCut(a[i], b[i]);
  }

  lemma NoSystemAt(h: seq<Message>, i: nat)
    requires NoSystem(h) && i < |h|
    ensures !h[i].role.System?
  {
    assert h[i] in h;
  }

  lemma NoSystemByIndex(h: seq<Message>)
    requires forall i: nat | i < |h| :: !h[i].role.System?
    ensures NoSystem(h)
  {
  }

  lemma TailHasNoSystem(full: seq<Message>, h: seq<Message>)
    requires TailOf(full, h) && NoSystem(full)
    ensures NoSystem(h)
  {
    var note, k: nat :| TailAt(full, h, note, k);
    hide Shortens, NoSystem;
    forall i: nat | i < |h| ensures !h[i].role.System? {
      if i < |note| {
        assert h[i] == note[0];
      } else {
        var j := i - |note|;
        SameRoleBehind(full[k..], h[|note|..], j);
        NoSystemAt(full, k + j);
      }
    }
    NoSystemByIndex(h);
  }

  // ---------------------------------------------------------------- compaction leaves a tail

  lemma CutShortens(h: seq<Message>, cut: seq<Message>)
    requires CutOld(h, cut)
    ensures Shortens(h, cut)
  {
    hide CutText, Behind;
  }

  lemma PassLeavesTail(h: seq<Message>, cut: seq<Message>, note: seq<Message>, k: nat, out: seq<Message>)
    requires Shortens(h, cut) && NoteAndSuffix(cut, note, k, out) && (note != [] ==> k > 0)
    ensures TailAt(h, out, note, k)
  {
    hide SameButCut;
    assert out[|note|..] == cut[k..] && note <= out;
    forall i | 0 <= i < |h| - k ensures SameButCut(h[k..][i], cut[k..][i]) {
      assert SameButCut(h[k + i], cut[k + i]);
    }
    assert note != [] ==> note[0] in note;
  }

  /** The automatic pass leaves a tail of the history: all of it when no summary was asked for and none is missing. */
  lemma AutoCompactLeavesTail(t: Thresholds, h: seq<Message>, futile: bool, summary: Option<string>)
    requires NoSystem(h)
    ensures var r := AutoCompact(t, h, futile, summary);
            TailOf(h, r.history) && (r.summaries == 0 && |r.history| == |h| ==> Shortens(h, r.history))
  {
    hide AutoCompact, TotalTokens, ThirdLevel, CutOld, LeastCut, TailOf, NoSystem, TailAt, Shortens, NoteAndSuffix;
    var r := AutoCompact(t, h, futile, summary);
    var cut, gone := AutoCompactIs(t, h, futile, summary);
    if TotalTokens(h) <= t.l1 {
      ShortensItself(h);
    } else {
      assert gone <= |cut| by { CutInside(cut, t.budget, gone); }
      var note, k := ThirdLevelKeepsSuffix(t, cut, gone, futile, summary, r);
      CutShortens(h, cut);
      PassLeavesTail(h, cut, note, k, r.history);
      TailIntroduced(h, r.history, note, k);
    }
  }

  lemma TailIntroduced(full: seq<Message>, h: seq<Message>, note: seq<Message>, k: nat)
    requires TailAt(full, h, note, k)
    ensures TailOf(full, h)
    ensures note == [] && |h| == |full| ==> Shortens(full, h)
  {
    assert full[0..] == full && h[0..] == h;
  }

  lemma FoldLeavesTail(h: seq<Message>, summary: Option<string>, out: seq<Message>)
    requires FoldedAt(h, summary, out)
    ensures TailOf(h, out)
  {
    var u: nat :| FoldPoint(h, u) && summary.Some? && out == [FoldNote(u, summary.value)] + h[u..];
    ShortensItself(h[u..]);
    assert TailAt(h, out, [FoldNote(u, summary.value)], u);
  }

  /** So does asking the model, whatever it takes. */
  lemma AskLeavesTail(s: State, t: Turn)
    ensures var s' := Ask(s, t).state;
            && TailOf(s.history, s'.history) && s.summaries <= s'.summaries
            && (s'.summaries == s.summaries ==> s'.history == s.history)
  {
    hide CanFold, FoldedAt, TailOf, Ask;
    var n := AskIs(s, t);
    ShortensItself(s.history);
    var s' := Ask(s, t).state;
    if FoldedAt(s.history, t.rescue, s'.history) {
      FoldLeavesTail(s.history, t.rescue, s'.history);
    }
  }

  lemma CompactedLeavesTail(c: Config, s: State, summary: Option<string>)
    requires NoSystem(s.history)
    ensures var s' := AutoCompacted(c, s, summary);
            && TailOf(s.history, s'.history) && s.summaries <= s'.summaries && s'.log == s.log
            && s'.assembled == s.assembled
            && (s'.summaries == s.summaries && |s'.history| == |s.history| ==> Shortens(s.history, s'.history))
  {
    hide AutoCompact, TailOf, Shortens;
    AutoCompactLeavesTail(c.thresholds, s.history, s.futile, summary);
  }

  /** The command cuts the aged results, and folds what is left when the summariser answers. */
  lemma CommandIs(s: State, summary: Option<string>)
    returns (cut: seq<Message>)
    ensures CutOld(s.history, cut)
    ensures var s' := CompactNow(s, summary);
            && s' == s.(history := s'.history, summaries := s.summaries + if CanFold(cut) then 1 else 0)
            && (if CanFold(cut) && summary.Some? then FoldedAt(cut, summary, s'.history) else s'.history == cut)
  {
    hide Mask, CutOld, FoldHistory, CanFold, FoldedAt;
    cut := Mask(s.history);
    MaskCutsOld(s.history);
    FoldIs(cut, summary);
  }

  lemma CommandLeavesTail(s: State, summary: Option<string>)
    ensures var s' := CompactNow(s, summary);
            && TailOf(s.history, s'.history) && s.summaries <= s'.summaries && s'.log == s.log
            && (s'.summaries == s.summaries ==> Shortens(s.history, s'.history))
  {
    hide CompactNow, TailAt, FoldedAt, CutOld, CanFold;
    var cut := CommandIs(s, summary);
    CutShortens(s.history, cut);
    WholeIsTail(s.history, cut);
    if FoldedAt(cut, summary, CompactNow(s, summary).history) {
      FoldLeavesTail(cut, summary, CompactNow(s, summary).history);
      TailOfTail(s.history, cut, CompactNow(s, summary).history);
    }
  }

  lemma WholeIsTail(full: seq<Message>, h: seq<Message>)
    requires Shortens(full, h)
    ensures TailOf(full, h)
  {
    assert full[0..] == full && h[0..] == h;
    assert TailAt(full, h, [], 0);
  }
}
