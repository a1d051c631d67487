/** The dependency gate: glob matching, module prefixes and the layer rules (scripts/deps-check.py). */
module DepsCheck {
  import opened Wrappers
  import opened Strings
  import opened Paths

  /** `fnmatch.fnmatchcase(name, pattern)`, whose own semantics stays open. */
  type Fnmatch = (string, string) -> bool

  // ---------------------------------------------------------------- globs

  /** Segment by segment; `**` swallows any number of segments. */
  predicate Matches(pat: seq<string>, parts: seq<string>, fn: Fnmatch)
    decreases |pat|
  {
    if pat == [] then parts == []
    else if pat[0] == "**" then exists k | 0 <= k <= |parts| :: Matches(pat[1..], parts[k..], fn)
    else parts != [] && fn(parts[0], pat[0]) && Matches(pat[1..], parts[1..], fn)
  }

  /** One pattern segment: `**` takes any number of segments, any other pattern takes one. */
  lemma MatchesFrom(pat: seq<string>, parts: seq<string>, pi: nat, ni: nat, fn: Fnmatch)
    requires pi <= |pat| && ni <= |parts|
    ensures pi == |pat| ==> (Matches(pat[pi..], parts[ni..], fn) <==> ni == |parts|)
    ensures pi < |pat| && pat[pi] == "**" ==>
              (Matches(pat[pi..], parts[ni..], fn) <==>
               exists k | ni <= k <= |parts| :: Matches(pat[pi + 1..], parts[k..], fn))
    ensures pi < |pat| && pat[pi] != "**" ==>
              (Matches(pat[pi..], parts[ni..], fn) <==>
               ni < |parts| && fn(parts[ni], pat[pi]) && Matches(pat[pi + 1..], parts[ni + 1..], fn))
  {
    if pi < |pat| {
      assert pat[pi..][1..] == pat[pi + 1..];
      if pat[pi] == "**" {
        StarFrom(pat[pi + 1..], parts, ni, fn);
      } else if ni < |parts| {
        assert parts[ni..][1..] == parts[ni + 1..];
      }
    }
  }

  lemma StarFrom(rest: seq<string>, parts: seq<string>, ni: nat, fn: Fnmatch)
    requires ni <= |parts|
    ensures (exists k | 0 <= k <= |parts[ni..]| :: Matches(rest, parts[ni..][k..], fn)) <==>
            exists k | ni <= k <= |parts| :: Matches(rest, parts[k..], fn)
  {
    hide Matches;
    forall k | ni <= k <= |parts| ensures parts[ni..][k - ni..] == parts[k..] {
    }
    if k :| 0 <= k <= |parts[ni..]| && Matches(rest, parts[ni..][k..], fn) {
      assert parts[ni..][k..] == parts[ni + k..];
    }
    if k :| ni <= k <= |parts| && Matches(rest, parts[k..], fn) {
      assert 0 <= k - ni <= |parts[ni..]| && Matches(rest, parts[ni..][k - ni..], fn);
    }
  }

  method Rec(pat: seq<string>, parts: seq<string>, pi0: nat, ni0: nat, fn: Fnmatch) returns (ok: bool)
    requires pi0 <= |pat| && ni0 <= |parts|
    ensures ok <==> Matches(pat[pi0..], parts[ni0..], fn)
    decreases |pat| - pi0
  {
    hide Matches;
    var pi: nat, ni: nat := pi0, ni0;
    while true
      invariant pi0 <= pi <= |pat| && ni <= |parts|
      invariant Matches(pat[pi0..], parts[ni0..], fn) <==> Matches(pat[pi..], parts[ni..], fn)
      decreases |pat| - pi
    {
      MatchesFrom(pat, parts, pi, ni, fn);
      if pi == |pat| {
        return ni == |parts|;
      }
      if pat[pi] == "**" {
        for k := ni to |parts| + 1
          invariant forall j | ni <= j < k :: !Matches(pat[pi + 1..], parts[j..], fn)
        {
          var hit := Rec(pat, parts, pi + 1, k, fn);
          if hit {
            return true;
          }
        }
        return false;
      }
      if ni == |parts| {
        return false;
      }
      if !fn(parts[ni], pat[pi]) {
        return false;
      }
      pi, ni := pi + 1, ni + 1;
    }
  }

  method GlobMatch(pattern: string, path: string, fn: Fnmatch) returns (ok: bool)
    ensures ok <==> Matches(Split(pattern, '/'), Split(path, '/'), fn)
  {
    var pat, parts := Split(pattern, '/'), Split(path, '/');
    assert pat[0..] == pat && parts[0..] == parts;
    ok := Rec(pat, parts, 0, 0, fn);
  }

  /** The path is cut into consecutive pieces, one for each pattern segment; all but those for `**` are one segment. */
  ghost predicate Aligned(pat: seq<string>, parts: seq<string>, cuts: seq<nat>, fn: Fnmatch) {
    && |cuts| == |pat| + 1 && cuts[0] == 0 && cuts[|pat|] == |parts|
    && forall i | 0 <= i < |pat| :: Piece(pat[i], parts, cuts[i], cuts[i + 1], fn)
  }

  predicate Piece(segment: string, parts: seq<string>, from: nat, to: nat, fn: Fnmatch) {
    from <= to <= |parts| && (segment == "**" || (to == from + 1 && fn(parts[from], segment)))
  }

  /** The matcher accepts exactly the paths that can be cut along the pattern. */
  lemma {:induction false} MatchesIffAligned(pat: seq<string>, parts: seq<string>, fn: Fnmatch)
    ensures Matches(pat, parts, fn) <==> exists cuts :: Aligned(pat, parts, cuts, fn)
    decreases |pat|
  {
    if pat == [] {
      if parts == [] {
        assert Aligned(pat, parts, [0], fn);
      }
    } else {
      if Matches(pat, parts, fn) {
        var k := 1;
        if pat[0] == "**" {
          k :| 0 <= k <= |parts| && Matches(pat[1..], parts[k..], fn);
        }
        MatchesIffAligned(pat[1..], parts[k..], fn);
        var cuts :| Aligned(pat[1..], parts[k..], cuts, fn);
        PrependPiece(pat, parts, k, cuts, fn);
      }
      if cuts :| Aligned(pat, parts, cuts, fn) {
        assert Piece(pat[0], parts, cuts[0], cuts[1], fn);
        var rest := DropPiece(pat, parts, cuts, fn);
        MatchesIffAligned(pat[1..], parts[cuts[1]..], fn);
      }
    }
  }

  lemma PrependPiece(pat: seq<string>, parts: seq<string>, k: nat, cuts: seq<nat>, fn: Fnmatch)
    requires pat != [] && k <= |parts| && Piece(pat[0], parts, 0, k, fn)
    requires Aligned(pat[1..], parts[k..], cuts, fn)
    ensures exists whole :: Aligned(pat, parts, whole, fn)
  {
    var whole: seq<nat> := [0] + seq(|cuts|, i requires 0 <= i < |cuts| => cuts[i] + k);
    forall i | 0 <= i < |pat| ensures Piece(pat[i], parts, whole[i], whole[i + 1], fn) {
      if i > 0 {
        assert Piece(pat[1..][i - 1], parts[k..], cuts[i - 1], cuts[i], fn);
      }
    }
    assert Aligned(pat, parts, whole, fn);
  }

  lemma DropPiece(pat: seq<string>, parts: seq<string>, cuts: seq<nat>, fn: Fnmatch) returns (rest: seq<nat>)
    requires pat != [] && Aligned(pat, parts, cuts, fn)
    ensures Piece(pat[0], parts, 0, cuts[1], fn)
    ensures Aligned(pat[1..], parts[cuts[1]..], rest, fn)
  {
    var k := cuts[1];
    assert Piece(pat[0], parts, cuts[0], cuts[1], fn);
    CutsGrow(pat, parts, cuts, fn, |pat|);
    rest := seq(|pat|, i requires 0 <= i < |pat| => CutsGrow(pat, parts, cuts, fn, i + 1); cuts[i + 1] - k);
    forall i | 0 <= i < |pat| - 1 ensures Piece(pat[1..][i], parts[k..], rest[i], rest[i + 1], fn) {
      assert Piece(pat[i + 1], parts, cuts[i + 1], cuts[i + 2], fn);
      CutsGrow(pat, parts, cuts, fn, i + 1);
    }
  }

  lemma {:induction false} CutsGrow(pat: seq<string>, parts: seq<string>, cuts: seq<nat>, fn: Fnmatch, i: nat)
    requires Aligned(pat, parts, cuts, fn) && 1 <= i <= |pat|
    ensures cuts[1] <= cuts[i]
  {
    if i > 1 {
      CutsGrow(pat, parts, cuts, fn, i - 1);
      assert Piece(pat[i - 1], parts, cuts[i - 1], cuts[i], fn);
    }
  }

  // ---------------------------------------------------------------- module prefixes

  predicate PrefixHit(mod: string, entry: string) {
    mod == entry || entry + "::" <= mod
  }

  /** A module path from its segments. */
  function ModulePath(segments: seq<string>): string
    requires segments != []
  {
    if |segments| == 1 then segments[0] else segments[0] + ("::" + ModulePath(segments[1..]))
  }

  /** Segments as the extraction yields them: without a colon. */
  predicate Plain(segments: seq<string>) {
    segments != [] && forall s | s in segments :: ':' !in s
  }

  lemma FirstColon(a: string, x: string, b: string, y: string)
    requires ':' !in a && ':' !in b
    requires a + ("::" + x) <= b + ("::" + y)
    ensures a == b && x <= y
  {
    var s, t := a + ("::" + x), b + ("::" + y);
    assert s == t[..|s|];
    FirstColonAt(a, x);
    FirstColonAt(b, y);
    assert Colon(s, |a|) && Colon(t, |b|);
    assert forall i | 0 <= i < |s| :: s[i] == t[i];
    SameColon(s, t, |a|, |b|);
    assert a == s[..|a|] == t[..|a|] == b;
    assert x == s[|a| + 2..] && y == t[|a| + 2..];
  }

  /** `i` is where the first colon stands. */
  ghost predicate Colon(s: string, i: nat) {
    i < |s| && s[i] == ':' && forall j | 0 <= j < i :: s[j] != ':'
  }

  lemma FirstColonAt(a: string, x: string)
    requires ':' !in a
    ensures Colon(a + ("::" + x), |a|)
  {
  }

  lemma SameColon(s: string, t: string, i: nat, j: nat)
    requires s <= t && Colon(s, i) && Colon(t, j)
    ensures i == j
  {
    assert t[i] == ':' && !(i < j);
  }

  lemma NoColonInside(a: string, x: string, b: string)
    requires ':' !in b
    ensures !(a + ("::" + x) <= b)
  {
    var s := a + ("::" + x);
    assert s[|a|] == ':';
    PrefixMember(s, b, |a|);
  }

  lemma PrefixMember(s: string, b: string, i: nat)
    requires i < |s|
    ensures s <= b ==> s[i] in b
  {
    if s <= b {
      assert b[i] == s[i];
    }
  }

  /** A module falls under an entry exactly when the entry's segments begin the module's: never inside a segment. */
  lemma {:induction false} PrefixHitIffSegments(mod: seq<string>, entry: seq<string>)
    requires Plain(mod) && Plain(entry)
    ensures PrefixHit(ModulePath(mod), ModulePath(entry)) <==> entry <= mod
    decreases |mod|
  {
    var m, e := mod[0], entry[0];
    assert m in mod && e in entry;
    if |mod| == 1 {
      NoColonInside(ModulePath(entry), "", m);
      assert ModulePath(entry) + "::" == ModulePath(entry) + ("::" + "");
      if |entry| > 1 {
        NoColonInside(e, ModulePath(entry[1..]), m);
      }
    } else {
      var mrest := ModulePath(mod[1..]);
      if |entry| == 1 {
        OneSegment(m, mrest, e);
      } else {
        var erest := ModulePath(entry[1..]);
        PrefixHitIffSegments(mod[1..], entry[1..]);
        MoreSegments(m, mrest, e, erest);
        assert entry == [e] + entry[1..] && mod == [m] + mod[1..];
      }
    }
  }

  lemma OneSegment(m: string, mrest: string, e: string)
    requires ':' !in m && ':' !in e
    ensures PrefixHit(m + ("::" + mrest), e) <==> e == m
  {
    NoColonInside(m, mrest, e);
    assert e + "::" == e + ("::" + "");
    if e + ("::" + "") <= m + ("::" + mrest) {
      FirstColon(e, "", m, mrest);
    }
    if e == m {
      assert e + "::" <= m + ("::" + mrest);
    }
  }

  lemma MoreSegments(m: string, mrest: string, e: string, erest: string)
    requires ':' !in m && ':' !in e
    ensures PrefixHit(m + ("::" + mrest), e + ("::" + erest)) <==> e == m && PrefixHit(mrest, erest)
  {
    var mod, entry := m + ("::" + mrest), e + ("::" + erest);
    assert entry + "::" == e + ("::" + (erest + "::"));
    if mod == entry {
      FirstColon(e, erest, m, mrest);
      FirstColon(m, mrest, e, erest);
    }
    if e + ("::" + (erest + "::")) <= mod {
      FirstColon(e, erest + "::", m, mrest);
    }
    if e == m && erest + "::" <= mrest {
      assert mrest == (erest + "::") + mrest[|erest| + 2..];
      assert mod == (entry + "::") + mrest[|erest| + 2..];
    }
  }

  // ---------------------------------------------------------------- the rules

  datatype Rule = Rule(
    name: string, covered: seq<string>, exempt: seq<string>, allow: Option<set<string>>, forbid: Option<set<string>>)

  datatype Import = Import(line: nat, mod: string)

  datatype SourceFile = SourceFile(rel: string, imports: seq<Import>)

  datatype Violation = Violation(rel: string, line: nat, rule: string, mod: string)

  datatype Outcome = BadRule(name: string) | Checked(violations: seq<Violation>)

  /** Exactly one of the two lists. */
  predicate WellFormed(rule: Rule) { rule.allow.None? != rule.forbid.None? }

  predicate MatchesAny(patterns: seq<string>, rel: string, fn: Fnmatch) {
    exists p | p in patterns :: Matches(Split(p, '/'), Split(rel, '/'), fn)
  }

  function TopSegment(mod: string): string {
    var p := Find(mod, "::");
    if p.None? then mod else mod[..p.value]
  }

  /** A rule forbids an import of a file it covers. */
  predicate Offends(rule: Rule, rel: string, mod: string, fn: Fnmatch)
    requires WellFormed(rule)
  {
    && MatchesAny(rule.covered, rel, fn) && !MatchesAny(rule.exempt, rel, fn)
    && TopSegment(mod) != "crate"
    && if rule.allow.Some? then forall e | e in rule.allow.value :: !PrefixHit(mod, e)
       else exists e | e in rule.forbid.value :: PrefixHit(mod, e)
  }

  method AnyMatches(patterns: seq<string>, rel: string, fn: Fnmatch) returns (hit: bool)
    ensures hit <==> MatchesAny(patterns, rel, fn)
  {
    for i := 0 to |patterns|
      invariant forall p | p in patterns[..i] :: !Matches(Split(p, '/'), Split(rel, '/'), fn)
    {
      var ok := GlobMatch(patterns[i], rel, fn);
      if ok {
        assert patterns[i] in patterns;
        return true;
      }
      assert patterns[..i + 1] == patterns[..i] + [patterns[i]];
    }
    assert patterns[..|patterns|] == patterns;
    hit := false;
  }

  // ---------------------------------------------------------------- the list of violations

  function InImports(rule: Rule, rel: string, imports: seq<Import>, fn: Fnmatch): seq<Violation>
    requires WellFormed(rule)
  {
    if imports == [] then []
    else
      var last := imports[|imports| - 1];
      InImports(rule, rel, imports[..|imports| - 1], fn)
      + if Offends(rule, rel, last.mod, fn) then [Violation(rel, last.line, rule.name, last.mod)] else []
  }

  /** The forbidden imports of the files under one rule, file by file and line by line. */
  function InFiles(rule: Rule, files: seq<SourceFile>, fn: Fnmatch): seq<Violation>
    requires WellFormed(rule)
  {
    if files == [] then []
    else
      var last := files[|files| - 1];
      InFiles(rule, files[..|files| - 1], fn) + InImports(rule, last.rel, last.imports, fn)
  }

  /** Rule by rule. */
  function Violations(rules: seq<Rule>, files: seq<SourceFile>, fn: Fnmatch): seq<Violation>
    requires forall rule | rule in rules :: WellFormed(rule)
  {
    if rules == [] then []
    else
      assert rules[|rules| - 1] in rules;
      Violations(rules[..|rules| - 1], files, fn) + InFiles(rules[|rules| - 1], files, fn)
  }

  method CheckFile(rule: Rule, file: SourceFile, fn: Fnmatch) returns (out: seq<Violation>)
    requires WellFormed(rule)
    ensures out == InImports(rule, file.rel, file.imports, fn)
  {
    out := [];
    var included := AnyMatches(rule.covered, file.rel, fn);
    var excluded := AnyMatches(rule.exempt, file.rel, fn);
    if !included || excluded {
      NotCovered(rule, file.rel, file.imports, fn);
      return;
    }
    hide MatchesAny, TopSegment, PrefixHit;
    for i := 0 to |file.imports|
      invariant out == InImports(rule, file.rel, file.imports[..i], fn)
    {
      var imp := file.imports[i];
      assert file.imports[..i + 1][..i] == file.imports[..i];
      if TopSegment(imp.mod) == "crate" {
        continue;
      }
      var bad;
      if rule.allow.Some? {
        bad := !exists e | e in rule.allow.value :: PrefixHit(imp.mod, e);
      } else {
        bad := exists e | e in rule.forbid.value :: PrefixHit(imp.mod, e);
      }
      if bad {
        out := out + [Violation(file.rel, imp.line, rule.name, imp.mod)];
      }
    }
    assert file.imports[..|file.imports|] == file.imports;
  }

  lemma {:induction false} NotCovered(rule: Rule, rel: string, imports: seq<Import>, fn: Fnmatch)
    requires WellFormed(rule) && (!MatchesAny(rule.covered, rel, fn) || MatchesAny(rule.exempt, rel, fn))
    ensures InImports(rule, rel, imports, fn) == []
  {
    hide MatchesAny;
    if imports != [] {
      NotCovered(rule, rel, imports[..|imports| - 1], fn);
    }
  }

  method CheckRule(rule: Rule, files: seq<SourceFile>, fn: Fnmatch) returns (out: seq<Violation>)
    requires WellFormed(rule)
    ensures out == InFiles(rule, files, fn)
  {
    hide InImports;
    out := [];
    for i := 0 to |files|
      invariant out == InFiles(rule, files[..i], fn)
    {
      var found := CheckFile(rule, files[i], fn);
      assert files[..i + 1][..i] == files[..i];
      out := out + found;
    }
    assert files[..|files|] == files;
  }

  /** The gate: the first malformed rule stops it, otherwise it lists every forbidden import, rule by rule. */
  method Check(rules: seq<Rule>, files: seq<SourceFile>, fn: Fnmatch) returns (outcome: Outcome)
    ensures outcome.BadRule? <==> exists rule | rule in rules :: !WellFormed(rule)
    ensures outcome.BadRule? ==>
              exists i :: 0 <= i < |rules| && rules[i].name == outcome.name && (rules[i].allow.None? <==> rules[i].forbid.None?)
                          && forall j | 0 <= j < i :: rules[j].allow.None? != rules[j].forbid.None?
    ensures outcome.Checked? ==> outcome.violations == Violations(rules, files, fn)
  {
    hide WellFormed, InFiles;
    var violations := [];
    for i := 0 to |rules|
      invariant forall rule | rule in rules[..i] :: WellFormed(rule)
      invariant violations == Violations(rules[..i], files, fn)
    {
      var rule := rules[i];
      if !WellFormed(rule) {
        assert rule in rules;
        FirstMalformed(rules, i);
        return BadRule(rule.name);
      }
      var found := CheckRule(rule, files, fn);
      assert rules[..i + 1] == rules[..i] + [rule] && rules[..i + 1][..i] == rules[..i];
      violations := violations + found;
    }
    assert rules[..|rules|] == rules;
    outcome := Checked(violations);
  }

  lemma FirstMalformed(rules: seq<Rule>, i: nat)
    requires i < |rules| && !WellFormed(rules[i]) && forall rule | rule in rules[..i] :: WellFormed(rule)
    ensures rules[i].allow.None? <==> rules[i].forbid.None?
    ensures forall j | 0 <= j < i :: rules[j].allow.None? != rules[j].forbid.None?
  {
    assert forall j | 0 <= j < i :: rules[j] in rules[..i];
  }

  // ---------------------------------------------------------------- what is listed

  ghost predicate InFile(v: Violation, rule: Rule, file: SourceFile, fn: Fnmatch) {
    && WellFormed(rule) && v.rule == rule.name && v.rel == file.rel
    && Import(v.line, v.mod) in file.imports && Offends(rule, file.rel, v.mod, fn)
  }

  ghost predicate UnderRule(v: Violation, rule: Rule, files: seq<SourceFile>, fn: Fnmatch) {
    exists file | file in files :: InFile(v, rule, file, fn)
  }

  lemma {:induction false} ImportMembers(rule: Rule, rel: string, imports: seq<Import>, fn: Fnmatch, v: Violation)
    requires WellFormed(rule)
    ensures v in InImports(rule, rel, imports, fn) <==> InFile(v, rule, SourceFile(rel, imports), fn)
  {
    hide MatchesAny, TopSegment, PrefixHit;
    if imports != [] {
      var init, last := imports[..|imports| - 1], imports[|imports| - 1];
      ImportMembers(rule, rel, init, fn, v);
      assert imports == init + [last];
    }
  }

  lemma {:induction false} FileMembers(rule: Rule, files: seq<SourceFile>, fn: Fnmatch, v: Violation)
    requires WellFormed(rule)
    ensures v in InFiles(rule, files, fn) <==> UnderRule(v, rule, files, fn)
  {
    if files != [] {
      hide InImports, InFile;
      var init, last := files[..|files| - 1], files[|files| - 1];
      FileMembers(rule, init, fn, v);
      ImportMembers(rule, last.rel, last.imports, fn, v);
      assert last == SourceFile(last.rel, last.imports);
      assert files == init + [last];
    }
  }

  /** What the gate lists are exactly the forbidden imports of the covered files. */
  lemma {:induction false} ListedIff(rules: seq<Rule>, files: seq<SourceFile>, fn: Fnmatch, v: Violation)
    requires forall rule | rule in rules :: WellFormed(rule)
    ensures v in Violations(rules, files, fn) <==> exists rule | rule in rules :: UnderRule(v, rule, files, fn)
  {
    if rules != [] {
      hide InFiles, UnderRule, WellFormed;
      var init, last := rules[..|rules| - 1], rules[|rules| - 1];
      assert rules == init + [last];
      assert last in rules && forall rule | rule in init :: rule in rules;
      ListedIff(init, files, fn, v);
      FileMembers(last, files, fn, v);
    }
  }
}
