/** The ArchUnit bridge: base package, Java literals and the runner's output protocol (src/archunit.rs). */
module ArchUnit {
  import opened Wrappers
  import opened Paths
  import opened Sequences

  // ---------------------------------------------------------------- the base package

  const JDK_ALLOWLIST: set<string> := {
    "java..", "javax..", "jakarta..", "jdk..", "sun..", "com.sun..", "org.w3c..", "org.xml..", "kotlin..", "scala..",
    "groovy..", "org.jetbrains.."
  }

  function TrimDots(s: string): string {
    if |s| >= 2 && s[|s| - 2..] == ".." then TrimDots(s[..|s| - 2]) else s
  }

  /** The package a pattern is anchored at; free patterns and the JDK allow list anchor nothing. */
  function Anchored(pattern: string): Option<string> {
    var p := TrimDots(pattern);
    if ".." <= p || p == "" || pattern in JDK_ALLOWLIST then None else Some(p)
  }

  /** `n` pairs of dots. */
  function Dots(n: nat): string { if n == 0 then "" else Dots(n - 1) + ".." }

  lemma OnePairMore(a: string, n: nat)
    ensures a + Dots(n + 1) == a + Dots(n) + ".."
  {
    hide Dots;
    assert Dots(n + 1) == Dots(n) + ".." by { DotsNext(n); }
  }

  lemma DotsNext(n: nat)
    ensures Dots(n + 1) == Dots(n) + ".."
  {
  }

  lemma {:induction false} TrimmedDots(s: string) returns (n: nat)
    ensures s == TrimDots(s) + Dots(n)
    ensures !(|TrimDots(s)| >= 2 && TrimDots(s)[|TrimDots(s)| - 2..] == "..")
  {
    if |s| >= 2 && s[|s| - 2..] == ".." {
      var m := TrimmedDots(s[..|s| - 2]);
      n := m + 1;
      assert s == s[..|s| - 2] + "..";
      OnePairMore(TrimDots(s), m);
      hide TrimDots, Dots;
    } else {
      n := 0;
      assert s + "" == s;
    }
  }

  lemma {:induction false} DotsTrimmed(a: string, n: nat)
    requires !(|a| >= 2 && a[|a| - 2..] == "..")
    ensures TrimDots(a + Dots(n)) == a
  {
    if n == 0 {
      assert a + "" == a;
    } else {
      var s := a + Dots(n);
      assert s == (a + Dots(n - 1)) + "..";
      assert s[|s| - 2..] == ".." && s[..|s| - 2] == a + Dots(n - 1);
      DotsTrimmed(a, n - 1);
    }
  }

  /**
   A pattern is anchored at `a` when it is `a` with pairs of dots behind, `a` neither begins nor ends in such a pair, is
   not empty, and the pattern is not on the allow list.
   */
  lemma {:induction false} AnchoredIff(pattern: string, a: string)
    ensures Anchored(pattern) == Some(a) <==>
            && pattern !in JDK_ALLOWLIST && a != "" && !(".." <= a) && !(|a| >= 2 && a[|a| - 2..] == "..")
            && exists n: nat :: pattern == a + Dots(n)
  {
    hide TrimDots, Dots;
    var n := TrimmedDots(pattern);
    if !(|a| >= 2 && a[|a| - 2..] == "..") {
      forall n: nat | pattern == a + Dots(n) ensures TrimDots(pattern) == a {
        DotsTrimmed(a, n);
      }
    }
  }

  ghost predicate IsAnchor(patterns: seq<string>, a: string) {
    exists p | p in patterns :: Anchored(p) == Some(a)
  }

  function Segments(a: string): (segs: seq<string>)
    ensures |segs| > 0
  {
    Split(a, '.')
  }

  ghost predicate CommonPrefix(prefix: seq<string>, anchors: seq<string>) {
    forall a | a in anchors :: prefix <= Segments(a)
  }

  /** The longest list of segments every anchor starts with. */
  ghost predicate LongestCommon(prefix: seq<string>, anchors: seq<string>) {
    CommonPrefix(prefix, anchors) && forall other | CommonPrefix(other, anchors) :: other <= prefix
  }

  function Package(segments: seq<string>): Option<string> {
    if segments == [] then None else Some(Join(segments, '.'))
  }

  /** No package for no segments, otherwise the one with exactly these segments. */
  ghost predicate Names(base: Option<string>, segments: seq<string>) {
    if segments == [] then base == None else base.Some? && Segments(base.value) == segments
  }

  lemma SegmentsHaveNoDot(a: string)
    ensures forall s | s in Segments(a) :: '.' !in s
  {
    JoinSplit(a, '.');
  }

  lemma PackageNames(segments: seq<string>)
    requires forall s | s in segments :: '.' !in s
    ensures Names(Package(segments), segments)
  {
    if segments != [] {
      SplitJoin(segments, '.');
    }
  }

  /** The anchors without repetitions. */
  method CollectAnchors(patterns: seq<string>) returns (anchors: seq<string>)
    ensures Distinct(anchors) && forall a :: a in anchors <==> IsAnchor(patterns, a)
  {
    hide Anchored;
    anchors := [];
    for i := 0 to |patterns|
      invariant Distinct(anchors) && forall a :: a in anchors <==> IsAnchor(patterns[..i], a)
    {
      var anchor := Anchored(patterns[i]);
      ghost var was := anchors;
      if anchor.Some? && anchor.value !in anchors {
        anchors := anchors + [anchor.value];
      }
      assert forall a :: a in anchors <==> a in was || anchor == Some(a);
      assert patterns[..i + 1] == patterns[..i] + [patterns[i]];
    }
    assert patterns[..|patterns|] == patterns;
  }

  /** How far two lists agree. */
  method CommonLength(a: seq<string>, b: seq<string>) returns (n: nat)
    ensures n <= |a| && n <= |b| && a[..n] == b[..n]
    ensures n < |a| && n < |b| ==> a[n] != b[n]
  {
    n := 0;
    while n < |a| && n < |b| && a[n] == b[n]
      invariant n <= |a| && n <= |b| && a[..n] == b[..n]
    {
      n := n + 1;
    }
  }

  lemma AgreeNoFurther(q: seq<string>, a: seq<string>, b: seq<string>, n: nat)
    requires n <= |a| && n <= |b| && a[..n] == b[..n]
    requires n < |a| && n < |b| ==> a[n] != b[n]
    ensures q <= a && q <= b ==> q <= a[..n]
    ensures a[..n] <= a && a[..n] <= b
  {
    if q <= a && q <= b {
      assert q == a[..|q|] == b[..|q|];
    }
  }

  /** Cutting the prefix down to what it shares with one more anchor keeps it the longest common one. */
  lemma CutKeepsLongest(prefix: seq<string>, anchors: seq<string>, other: string, n: nat)
    requires LongestCommon(prefix, anchors)
    requires n <= |prefix| && n <= |Segments(other)| && prefix[..n] == Segments(other)[..n]
    requires n < |prefix| && n < |Segments(other)| ==> prefix[n] != Segments(other)[n]
    ensures LongestCommon(prefix[..n], anchors + [other])
  {
    hide Segments;
    var all, cut := anchors + [other], prefix[..n];
    forall a | a in all ensures cut <= Segments(a) {
      AgreeNoFurther(cut, prefix, Segments(other), n);
      if a in anchors {
        assert prefix <= Segments(a);
      }
    }
    forall q: seq<string> | CommonPrefix(q, all) ensures q <= cut {
      assert CommonPrefix(q, anchors) by {
        assert forall a | a in anchors :: a in all;
      }
      assert other in all;
      AgreeNoFurther(q, prefix, Segments(other), n);
    }
  }

  lemma OneAnchor(a: string)
    ensures LongestCommon(Segments(a), [a])
  {
    assert a in [a];
  }

  /**
   The base package: none without anchors, the parent of a single one, and for several the longest package that
   contains them all.
   */
  method DeriveBasePackage(patterns: seq<string>)
    returns (base: Option<string>, anchors: seq<string>, prefix: seq<string>)
    ensures Distinct(anchors) && forall a :: a in anchors <==> IsAnchor(patterns, a)
    ensures |anchors| == 0 ==> base == None
    ensures |anchors| == 1 ==> Names(base, Segments(anchors[0])[..|Segments(anchors[0])| - 1])
    ensures |anchors| > 1 ==> LongestCommon(prefix, anchors) && Names(base, prefix)
  {
    hide IsAnchor, LongestCommon, Distinct, Segments, Package, Names;
    var found := CollectAnchors(patterns);
    anchors, prefix := found, [];
    if found == [] {
      return None, found, [];
    }
    var segs := Segments(found[0]);
    SegmentsHaveNoDot(found[0]);
    if |found| == 1 {
      base := Package(segs[..|segs| - 1]);
      PackageNames(segs[..|segs| - 1]);
      return;
    }
    var common := segs;
    assert found[..1] == [found[0]];
    OneAnchor(found[0]);
    for i := 1 to |found|
      invariant LongestCommon(common, found[..i]) && forall s | s in common :: '.' !in s
    {
      var other := Segments(found[i]);
      var n := CommonLength(common, other);
      CutKeepsLongest(common, found[..i], found[i], n);
      assert found[..i + 1] == found[..i] + [found[i]];
      common := common[..n];
    }
    assert found[..|found|] == found;
    prefix := common;
    base := Package(common);
    PackageNames(common);
  }

  // ---------------------------------------------------------------- Java literals

  function EscapeJavaChar(c: char): string {
    match c
    case '\\' => "\\\\"
    case '\"' => "\\\""
    case '\n' => "\\n"
    case '\r' => "\\r"
    case '\t' => "\\t"
    case _ => [c]
  }

  function JavaEscape(s: string): string {
    if s == "" then "" else EscapeJavaChar(s[0]) + JavaEscape(s[1..])
  }

  /** What the Java escape sequences of section 3.10.7 of the Java Language Specification stand for. */
  function EscapedChar(c: char): char {
    match c
    case 'n' => '\n'
    case 'r' => '\r'
    case 't' => '\t'
    case _ => c
  }

  /** The value of the inside of a string literal; nothing when it would end early or break the line. */
  function JavaLiteral(s: string): Option<string> {
    if s == "" then Some("")
    else if s[0] == '\"' || s[0] == '\n' || s[0] == '\r' then None
    else if s[0] == '\\' then
      if |s| < 2 then None
      else
        var rest := JavaLiteral(s[2..]);
        if rest.None? then None else Some([EscapedChar(s[1])] + rest.value)
    else
      var rest := JavaLiteral(s[1..]);
      if rest.None? then None else Some([s[0]] + rest.value)
  }

  lemma {:induction false} LiteralPair(d: char, tail: string)
    requires JavaLiteral(tail).Some?
    ensures JavaLiteral(['\\', d] + tail) == Some([EscapedChar(d)] + JavaLiteral(tail).value)
  {
    hide EscapedChar;
    assert (['\\', d] + tail)[2..] == tail;
  }

  lemma {:induction false} LiteralPlain(c: char, tail: string)
    requires JavaLiteral(tail).Some? && c != '\\' && c != '\"' && c != '\n' && c != '\r'
    ensures JavaLiteral([c] + tail) == Some([c] + JavaLiteral(tail).value)
  {
    assert ([c] + tail)[1..] == tail;
  }

  lemma {:induction false} LiteralOfEscaped(c: char, tail: string)
    requires JavaLiteral(tail).Some?
    ensures JavaLiteral(EscapeJavaChar(c) + tail) == Some([c] + JavaLiteral(tail).value)
  {
    hide JavaLiteral;
    match c
    case '\n' => LiteralPair('n', tail);
    case '\r' => LiteralPair('r', tail);
    case '\t' => LiteralPair('t', tail);
    case '\\' => LiteralPair('\\', tail);
    case '\"' => LiteralPair('\"', tail);
    case _ => LiteralPlain(c, tail);
  }

  /** An escaped text is a well-formed literal that denotes the text. */
  lemma {:induction false} EscapeRoundTrip(s: string)
    ensures JavaLiteral(JavaEscape(s)) == Some(s)
  {
    if s != "" {
      var tail := JavaEscape(s[1..]);
      EscapeRoundTrip(s[1..]);
      assert JavaEscape(s) == EscapeJavaChar(s[0]) + tail;
      hide JavaLiteral, JavaEscape;
      LiteralOfEscaped(s[0], tail);
      assert [s[0]] + s[1..] == s;
    }
  }

  // ---------------------------------------------------------------- the runner's output

  datatype Violation = Violation(ruleId: string, detail: string)

  /** The runner's own clean-up of a detail. */
  function Sanitize(s: string): string {
    seq(|s|, i requires 0 <= i < |s| => if s[i] == '\n' || s[i] == '\r' then ' ' else if s[i] == '|' then '/' else s[i])
  }

  /** The clean-up keeps every character but line breaks, which become spaces, and bars, which become slashes. */
  lemma SanitizeAt(s: string, i: nat)
    requires i < |s|
    ensures |Sanitize(s)| == |s|
    ensures (s[i] == '\n' || s[i] == '\r') ==> Sanitize(s)[i] == ' '
    ensures s[i] == '|' ==> Sanitize(s)[i] == '/'
    ensures s[i] != '\n' && s[i] != '\r' && s[i] != '|' ==> Sanitize(s)[i] == s[i]
    ensures '|' !in Sanitize(s) && '\n' !in Sanitize(s) && '\r' !in Sanitize(s)
  {
  }

  function PrintViolation(v: Violation): string {
    "VIOLATION|" + (v.ruleId + ("|" + Sanitize(v.detail)))
  }

  /** One line for each violation, then the summary line. */
  function PrintRun(vs: seq<Violation>, summary: string): string {
    if vs == [] then "SUMMARY|" + (summary + "\n") else PrintViolation(vs[0]) + ("\n" + PrintRun(vs[1..], summary))
  }

  function StripReturn(line: string): string {
    if line != "" && line[|line| - 1] == '\r' then line[..|line| - 1] else line
  }

  /** `str::lines`: split at line feeds, an empty last line dropped, one carriage return stripped. */
  function Lines(text: string): seq<string> {
    var parts := Split(text, '\n');
    var kept := if parts[|parts| - 1] == "" then parts[..|parts| - 1] else parts;
    seq(|kept|, i requires 0 <= i < |kept| => StripReturn(kept[i]))
  }

  /** A line feed ends a line, with or without a carriage return before it; so does the end of the text. */
  lemma LineEnds(line: string)
    requires '\n' !in line
    ensures Lines(line + "\r\n") == [line]
    ensures (line == "" || line[|line| - 1] != '\r') ==>
              Lines(line + "\n") == [line] && Lines(line) == if line == "" then [] else [line]
  {
    var returned := line + "\r";
    assert '\n' !in returned && returned[..|returned| - 1] == line;
    OneLine(returned);
    OneLine(line);
    assert line + "\r\n" == returned + "\n";
    SplitFront(line, "", '\n');
  }

  lemma OneLine(part: string)
    requires '\n' !in part
    ensures Lines(part + "\n") == [StripReturn(part)]
  {
    hide StripReturn;
    SplitFront(part, "", '\n');
    assert part + "\n" == part + (['\n'] + "");
    var parts := Split(part + "\n", '\n');
    assert parts == [part] + [""] && parts[..|parts| - 1] == [part];
  }

  /** The text before and after the first `|`. */
  function SplitOnce(s: string): Option<Violation> {
    if s == "" then None
    else if s[0] == '|' then Some(Violation("", s[1..]))
    else
      var rest := SplitOnce(s[1..]);
      if rest.None? then None else Some(Violation([s[0]] + rest.value.ruleId, rest.value.detail))
  }

  function ParseLine(line: string): Option<Violation> {
    if "VIOLATION|" <= line then SplitOnce(line[|"VIOLATION|"|..]) else None
  }

  function ParseLines(lines: seq<string>): seq<Violation> {
    if lines == [] then []
    else (var v := ParseLine(lines[0]); if v.Some? then [v.value] else []) + ParseLines(lines[1..])
  }

  function ParseRunnerOutput(stdout: string): seq<Violation> { ParseLines(Lines(stdout)) }

  // ---------------------------------------------------------------- reading the protocol back

  /** What the parser takes for a rule identifier has neither a bar nor a line feed. */
  predicate CleanId(id: string) { '|' !in id && '\n' !in id }

  lemma {:induction false} SplitOnceIs(id: string, detail: string)
    requires '|' !in id
    ensures SplitOnce(id + ("|" + detail)) == Some(Violation(id, detail))
  {
    var s := id + ("|" + detail);
    if id == "" {
      assert s[1..] == detail;
    } else {
      assert id[0] in id;
      assert s[1..] == id[1..] + ("|" + detail);
      SplitOnceIs(id[1..], detail);
      assert [id[0]] + id[1..] == id;
    }
  }

  lemma {:induction false} SplitOnceClean(s: string)
    requires '\n' !in s
    ensures SplitOnce(s).Some? ==> CleanId(SplitOnce(s).value.ruleId)
  {
    if s != "" && s[0] != '|' {
      SplitOnceClean(s[1..]);
    }
  }

  lemma LinesClean(text: string)
    ensures forall l | l in Lines(text) :: '\n' !in l
  {
    JoinSplit(text, '\n');
    var parts, lines := Split(text, '\n'), Lines(text);
    forall i | 0 <= i < |lines| ensures '\n' !in lines[i] {
      assert parts[i] in parts && lines[i] == StripReturn(parts[i]);
    }
  }

  lemma {:induction false} ParsedClean(lines: seq<string>)
    requires forall l | l in lines :: '\n' !in l
    ensures forall v | v in ParseLines(lines) :: CleanId(v.ruleId)
  {
    if lines != [] {
      hide CleanId, SplitOnce;
      ParsedClean(lines[1..]);
      assert lines[0] in lines;
      ParsedLineClean(lines[0]);
    }
  }

  lemma ParsedLineClean(line: string)
    requires '\n' !in line
    ensures ParseLine(line).Some? ==> CleanId(ParseLine(line).value.ruleId)
  {
    if "VIOLATION|" <= line {
      SplitOnceClean(line[10..]);
    }
  }

  /** The violation a clean print stands for. */
  function Printed(v: Violation): Violation { Violation(v.ruleId, Sanitize(v.detail)) }

  lemma SanitizedFacts(detail: string)
    ensures '\n' !in Sanitize(detail) && '\r' !in Sanitize(detail)
  {
    var clean := Sanitize(detail);
    assert forall i | 0 <= i < |clean| :: clean[i] != '\n' && clean[i] != '\r';
  }

  lemma PrintedLine(v: Violation)
    requires CleanId(v.ruleId)
    ensures '\n' !in PrintViolation(v)
    ensures StripReturn(PrintViolation(v)) == PrintViolation(v)
    ensures ParseLine(PrintViolation(v)) == Some(Printed(v))
  {
    SanitizedFacts(v.detail);
    hide Sanitize;
    var d, line := Sanitize(v.detail), PrintViolation(v);
    assert line[10..] == v.ruleId + ("|" + d);
    SplitOnceIs(v.ruleId, d);
    assert line[|line| - 1] == if d == "" then '|' else d[|d| - 1];
  }

  function AllPrinted(vs: seq<Violation>): seq<Violation> {
    if vs == [] then [] else [Printed(vs[0])] + AllPrinted(vs[1..])
  }

  function PrintedLines(vs: seq<Violation>): seq<string> {
    if vs == [] then [] else [PrintViolation(vs[0])] + PrintedLines(vs[1..])
  }

  lemma {:induction false} SplitSummary(summary: string)
    requires '\n' !in summary
    ensures Split("SUMMARY|" + (summary + "\n"), '\n') == ["SUMMARY|" + summary, ""]
  {
    SplitFront("SUMMARY|" + summary, "", '\n');
    assert "SUMMARY|" + (summary + "\n") == ("SUMMARY|" + summary) + (['\n'] + "");
  }

  lemma {:induction false} SplitRun(vs: seq<Violation>, summary: string)
    requires forall v | v in vs :: CleanId(v.ruleId)
    requires '\n' !in summary
    ensures Split(PrintRun(vs, summary), '\n') == PrintedLines(vs) + ["SUMMARY|" + summary, ""]
  {
    hide PrintViolation, CleanId, Split;
    if vs == [] {
      SplitSummary(summary);
    } else {
      assert vs[0] in vs;
      PrintedLine(vs[0]);
      SplitRun(vs[1..], summary);
      SplitFront(PrintViolation(vs[0]), PrintRun(vs[1..], summary), '\n');
    }
  }

  lemma {:induction false} ParseCons(line: string, lines: seq<string>)
    ensures ParseLines([line] + lines) == (var v := ParseLine(line); if v.Some? then [v.value] else []) + ParseLines(lines)
  {
    assert ([line] + lines)[1..] == lines;
  }

  lemma {:induction false} PrintedCons(vs: seq<Violation>, tail: seq<string>, read: seq<Violation>)
    requires vs != []
    ensures PrintedLines(vs) + tail == [PrintViolation(vs[0])] + (PrintedLines(vs[1..]) + tail)
    ensures AllPrinted(vs) + read == [Printed(vs[0])] + (AllPrinted(vs[1..]) + read)
  {
    hide PrintViolation, Printed;
    ConcatAssoc([PrintViolation(vs[0])], PrintedLines(vs[1..]), tail);
    ConcatAssoc([Printed(vs[0])], AllPrinted(vs[1..]), read);
  }

  lemma {:induction false} ParsePrinted(vs: seq<Violation>, tail: seq<string>)
    requires forall v | v in vs :: CleanId(v.ruleId)
    ensures ParseLines(PrintedLines(vs) + tail) == AllPrinted(vs) + ParseLines(tail)
  {
    if vs == [] {
      assert PrintedLines(vs) + tail == tail;
    } else {
      hide PrintViolation, Printed, CleanId, ParseLine, ParseLines, PrintedLines, AllPrinted;
      assert vs[0] in vs;
      PrintedLine(vs[0]);
      PrintedCons(vs, tail, ParseLines(tail));
      ParsePrinted(vs[1..], tail);
      ParseCons(PrintViolation(vs[0]), PrintedLines(vs[1..]) + tail);
    }
  }

  lemma {:induction false} NothingToStrip(vs: seq<Violation>)
    requires forall v | v in vs :: CleanId(v.ruleId)
    ensures forall l | l in PrintedLines(vs) :: StripReturn(l) == l
  {
    if vs != [] {
      hide PrintViolation, CleanId, StripReturn;
      assert vs[0] in vs;
      PrintedLine(vs[0]);
      NothingToStrip(vs[1..]);
    }
  }

  /** With clean identifiers the parser reads back every violation of a run, in order, and nothing else. */
  lemma {:induction false} RunReadsBack(vs: seq<Violation>, summary: string)
    requires forall v | v in vs :: CleanId(v.ruleId)
    requires '\n' !in summary
    ensures ParseRunnerOutput(PrintRun(vs, summary)) == AllPrinted(vs)
  {
    hide PrintRun, PrintedLines, ParseLines, CleanId;
    var last := "SUMMARY|" + summary;
    SplitRun(vs, summary);
    ParsePrinted(vs, [StripReturn(last)]);
    NothingToStrip(vs);
    assert Lines(PrintRun(vs, summary)) == PrintedLines(vs) + [StripReturn(last)];
    SummaryIsNoViolation(last);
  }

  lemma SummaryIsNoViolation(last: string)
    requires "SUMMARY|" <= last
    ensures ParseLines([StripReturn(last)]) == []
  {
    var l := StripReturn(last);
    assert last[0] == 'S' && l[0] == 'S';
    assert "VIOLATION|"[0] == 'V';
  }

  lemma {:induction false} AllPrintedIds(vs: seq<Violation>)
    requires forall v | v in AllPrinted(vs) :: CleanId(v.ruleId)
    ensures forall v | v in vs :: CleanId(v.ruleId)
  {
    if vs != [] {
      hide CleanId;
      var printed := AllPrinted(vs);
      assert printed[0] in printed && printed[1..] == AllPrinted(vs[1..]);
      assert forall v | v in printed[1..] :: v in printed;
      AllPrintedIds(vs[1..]);
    }
  }

  /** The round trip holds exactly for rule identifiers without a bar or a line feed: the runner cleans only the details. */
  lemma {:induction false} RoundTripIffCleanIds(vs: seq<Violation>, summary: string)
    requires '\n' !in summary
    ensures ParseRunnerOutput(PrintRun(vs, summary)) == AllPrinted(vs) <==> forall v | v in vs :: CleanId(v.ruleId)
  {
    hide PrintRun, CleanId, AllPrinted, Lines;
    if forall v | v in vs :: CleanId(v.ruleId) {
      RunReadsBack(vs, summary);
    }
    if ParseRunnerOutput(PrintRun(vs, summary)) == AllPrinted(vs) {
      LinesClean(PrintRun(vs, summary));
      ParsedClean(Lines(PrintRun(vs, summary)));
      AllPrintedIds(vs);
    }
  }
}
