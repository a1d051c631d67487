/** Searching and trimming strings. */
module Strings {
  import opened Wrappers
  import opened Text

  predicate OccursAt(text: string, pat: string, p: nat) {
    p + |pat| <= |text| && text[p..p + |pat|] == pat
  }

  /** `p` is the first place where `pat` occurs. */
  ghost predicate FirstAt(text: string, pat: string, p: nat) {
    OccursAt(text, pat, p) && forall q: nat | q < p :: !OccursAt(text, pat, q)
  }

  ghost predicate Absent(text: string, pat: string) {
    forall q: nat :: !OccursAt(text, pat, q)
  }

  function Find(text: string, pat: string): (p: Option<nat>)
    ensures p.Some? ==> p.value + |pat| <= |text|
  {
    if OccursAt(text, pat, 0) then Some(0)
    else if text == "" then None
    else
      var rest := Find(text[1..], pat);
      if rest.None? then None else Some(rest.value + 1)
  }

  lemma OccursLater(text: string, pat: string, q: nat)
    requires text != ""
    ensures OccursAt(text, pat, q + 1) <==> OccursAt(text[1..], pat, q)
  {
    if q + 1 + |pat| <= |text| {
      assert text[q + 1..q + 1 + |pat|] == text[1..][q..q + |pat|];
    }
  }

  /** `Find` gives the first occurrence, or nothing exactly when there is none. */
  lemma {:induction false} FindIs(text: string, pat: string)
    ensures Find(text, pat).Some? ==> FirstAt(text, pat, Find(text, pat).value)
    ensures Find(text, pat).None? ==> Absent(text, pat)
  {
    if !OccursAt(text, pat, 0) && text != "" {
      FindIs(text[1..], pat);
      forall q: nat ensures OccursAt(text, pat, q + 1) <==> OccursAt(text[1..], pat, q) {
        OccursLater(text, pat, q);
      }
      forall q: nat | q > 0 ensures OccursAt(text, pat, q) <==> OccursAt(text[1..], pat, q - 1) {
        OccursLater(text, pat, q - 1);
      }
    }
  }

  lemma {:induction false} FindFirst(text: string, pat: string, p: nat)
    requires FirstAt(text, pat, p)
    ensures Find(text, pat) == Some(p)
  {
    FindIs(text, pat);
  }

  lemma {:induction false} FindAbsent(text: string, pat: string)
    requires Absent(text, pat)
    ensures Find(text, pat) == None
  {
    FindIs(text, pat);
  }

  /** An occurrence that lies within a common stretch of two texts is in both. */
  lemma OccursInBoth(a: string, from: nat, b: string, start: nat, len: nat, pat: string, q: nat)
    requires from + len <= |a| && start + len <= |b|
    requires a[from..from + len] == b[start..start + len]
    requires q + |pat| <= len
    ensures OccursAt(a, pat, from + q) <==> OccursAt(b, pat, start + q)
  {
    SliceOfSlice(a, from, len, q, |pat|);
    SliceOfSlice(b, start, len, q, |pat|);
  }

  lemma SliceOfSlice(s: string, from: nat, len: nat, q: nat, n: nat)
    requires from + len <= |s| && q + n <= len
    ensures s[from..from + len][q..q + n] == s[from + q..from + q + n]
  {
    var x, y := s[from..from + len][q..q + n], s[from + q..from + q + n];
    assert forall i | 0 <= i < n :: x[i] == y[i];
  }

  /** A text without a given character occurs nowhere across that character. */
  lemma NotAcross(text: string, pat: string, q: nat, i: nat)
    requires q <= i < q + |pat| && i < |text| && text[i] !in pat
    ensures !OccursAt(text, pat, q)
  {
    if q + |pat| <= |text| {
      assert text[q..q + |pat|][i - q] == text[i];
    }
  }

  // ---------------------------------------------------------------- trimming

  function TrimEnd(s: string): (t: string)
    ensures t <= s
    ensures t != "" ==> !IsWhitespace(t[|t| - 1])
    ensures forall i | |t| <= i < |s| :: IsWhitespace(s[i])
  {
    if s != "" && IsWhitespace(s[|s| - 1]) then TrimEnd(s[..|s| - 1]) else s
  }

  function TrimStartNewlines(s: string): (t: string)
    ensures |t| <= |s|
    ensures t != "" ==> t[0] != '\n'
  {
    if s != "" && s[0] == '\n' then TrimStartNewlines(s[1..]) else s
  }

  /** Trimming is undone by nothing it removed: a text that ends in a visible character is its own trim. */
  lemma {:induction false} TrimEndIs(t: string, blanks: string)
    requires t != "" && !IsWhitespace(t[|t| - 1])
    requires IsBlank(blanks)
    ensures TrimEnd(t + blanks) == t
  {
    var s := t + blanks;
    var r := TrimEnd(s);
    assert s[|t| - 1] == t[|t| - 1];
    assert forall i | |t| <= i < |s| :: s[i] == blanks[i - |t|] && s[i] in blanks;
    assert r != "" ==> r[|r| - 1] == s[|r| - 1];
  }

  lemma {:induction false} TrimNewlinesOnce(s: string)
    ensures TrimStartNewlines("\n" + TrimStartNewlines(s)) == TrimStartNewlines(s)
  {
    var t := TrimStartNewlines(s);
    var u := "\n" + t;
    assert u[0] == '\n' && u[1..] == t;
    assert TrimStartNewlines(u) == TrimStartNewlines(t);
  }

  // ---------------------------------------------------------------- words

  function SkipBlanks(s: string): (t: string)
    ensures |t| <= |s|
    ensures t != "" ==> !IsWhitespace(t[0])
  {
    if s != "" && IsWhitespace(s[0]) then SkipBlanks(s[1..]) else s
  }

  function Trim(s: string): string { TrimEnd(SkipBlanks(s)) }

  /** Length of the word a text starts with. */
  function WordLength(s: string): (n: nat)
    ensures n <= |s|
    ensures s != "" && !IsWhitespace(s[0]) ==> n > 0
  {
    if s == "" || IsWhitespace(s[0]) then 0 else 1 + WordLength(s[1..])
  }

  /** The words of a text, as `split_whitespace` yields them. */
  function SplitWhitespace(s: string): seq<string>
    decreases |s|
  {
    var t := SkipBlanks(s);
    if t == "" then []
    else [t[..WordLength(t)]] + SplitWhitespace(t[WordLength(t)..])
  }

  lemma {:induction false} WordLengthIs(word: string, rest: string)
    requires forall c | c in word :: !IsWhitespace(c)
    requires rest == "" || IsWhitespace(rest[0])
    ensures WordLength(word + rest) == |word|
  {
    if word == "" {
      assert word + rest == rest;
    } else {
      assert word[0] in word;
      assert (word + rest)[1..] == word[1..] + rest;
      WordLengthIs(word[1..], rest);
    }
  }

  lemma {:induction false} FirstWord(word: string, rest: string)
    requires word != "" && forall c | c in word :: !IsWhitespace(c)
    requires rest == "" || IsWhitespace(rest[0])
    ensures SplitWhitespace(word + rest) == [word] + SplitWhitespace(rest)
    ensures SplitWhitespace(" " + (word + rest)) == [word] + SplitWhitespace(rest)
  {
    var s := word + rest;
    assert word[0] in word && s[0] == word[0];
    WordLengthIs(word, rest);
    assert s[..|word|] == word && s[|word|..] == rest;
    assert (" " + s)[1..] == s;
    assert SkipBlanks(" " + s) == SkipBlanks(s) == s;
  }

  lemma {:induction false} SkipConcat(a: string, b: string)
    ensures SkipBlanks(a + b) == if SkipBlanks(a) == "" then SkipBlanks(b) else SkipBlanks(a) + b
  {
    if a == "" {
      assert a + b == b;
    } else {
      assert (a + b)[1..] == a[1..] + b;
      SkipConcat(a[1..], b);
    }
  }

  lemma {:induction false} WordLengthConcat(t: string, b: string)
    requires b == "" || IsWhitespace(b[0])
    ensures WordLength(t + b) == WordLength(t)
  {
    if t == "" {
      assert t + b == b;
    } else {
      assert (t + b)[1..] == t[1..] + b;
      WordLengthConcat(t[1..], b);
    }
  }

  /** Words do not run across a blank. */
  lemma {:induction false} SplitConcat(a: string, b: string)
    requires b == "" || IsWhitespace(b[0])
    ensures SplitWhitespace(a + b) == SplitWhitespace(a) + SplitWhitespace(b)
    decreases |a|
  {
    hide WordLength, SkipBlanks;
    var t := SkipBlanks(a);
    SkipConcat(a, b);
    if t != "" {
      var n := WordLength(t);
      WordLengthConcat(t, b);
      SplitConcat(t[n..], b);
      assert (t + b)[..n] == t[..n] && (t + b)[n..] == t[n..] + b;
    }
  }

  lemma {:induction false} SkipAllBlanks(blanks: string)
    requires IsBlank(blanks)
    ensures SkipBlanks(blanks) == ""
  {
    if blanks != "" {
      assert blanks[0] in blanks;
      assert forall c | c in blanks[1..] :: c in blanks;
      SkipAllBlanks(blanks[1..]);
    }
  }

  /** Blanks behind a text add no word. */
  lemma {:induction false} SplitTrailing(a: string, blanks: string)
    requires IsBlank(blanks)
    ensures SplitWhitespace(a + blanks) == SplitWhitespace(a)
  {
    assert blanks != "" ==> blanks[0] in blanks;
    SplitConcat(a, blanks);
    SkipAllBlanks(blanks);
  }

  /** A line break separates the words before it from those behind it. */
  lemma {:induction false} SplitAtBreak(a: string, b: string)
    requires a != "" && a[|a| - 1] == '\n'
    ensures SplitWhitespace(a + b) == SplitWhitespace(a) + SplitWhitespace(b)
  {
    var init := a[..|a| - 1];
    assert a == init + "\n" && a + b == init + ("\n" + b);
    SplitConcat(init, "\n" + b);
    SplitTrailing(init, "\n");
    assert ("\n" + b)[1..] == b;
    assert SkipBlanks("\n" + b) == SkipBlanks(b);
  }

  /** What is found in a text is found at the same place when more text follows. */
  lemma {:induction false} FindKept(a: string, b: string, pat: string)
    requires Find(a, pat).Some?
    ensures Find(a + b, pat) == Find(a, pat)
  {
    FindIs(a, pat);
    var p := Find(a, pat).value;
    assert (a + b)[0..|a|] == a[0..|a|];
    forall q: nat | q <= p ensures OccursAt(a + b, pat, q) <==> OccursAt(a, pat, q) {
      OccursInBoth(a + b, 0, a, 0, |a|, pat, q);
    }
    FindFirst(a + b, pat, p);
  }

  /** Behind a text that ends a line and lacks a pattern, the pattern is found where the rest has it first. */
  lemma {:induction false} FindBehind(a: string, b: string, pat: string)
    requires a != "" && a[|a| - 1] == '\n' && '\n' !in pat
    requires Find(a, pat).None? && Find(b, pat).Some?
    ensures Find(a + b, pat) == Some(|a| + Find(b, pat).value)
  {
    hide Find, OccursAt;
    FindIs(a, pat);
    FindIs(b, pat);
    var n, p := |a|, Find(b, pat).value;
    OccursBehind(a, b, pat, p);
    forall q: nat | q < n + p ensures !OccursAt(a + b, pat, q) {
      if q >= n {
        OccursBehind(a, b, pat, q - n);
      } else {
        NotBefore(a, b, pat, q);
      }
    }
    FindFirst(a + b, pat, n + p);
  }

  lemma OccursBehind(a: string, b: string, pat: string, q: nat)
    requires q + |pat| <= |b|
    ensures OccursAt(a + b, pat, |a| + q) <==> OccursAt(b, pat, q)
  {
    hide OccursAt;
    assert (a + b)[|a|..|a| + |b|] == b[0..|b|];
    OccursInBoth(a + b, |a|, b, 0, |b|, pat, q);
  }

  lemma NotBefore(a: string, b: string, pat: string, q: nat)
    requires a != "" && a[|a| - 1] == '\n' && '\n' !in pat
    requires Absent(a, pat) && q < |a|
    ensures !OccursAt(a + b, pat, q)
  {
    hide OccursAt;
    if q + |pat| <= |a| {
      assert (a + b)[0..|a|] == a[0..|a|];
      OccursInBoth(a + b, 0, a, 0, |a|, pat, q);
    } else {
      NotAcross(a + b, pat, q, |a| - 1);
    }
  }
}
