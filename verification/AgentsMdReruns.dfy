/** What the linter says after several generations in a row (src/agentsmd.rs). */
module AgentsMdReruns {
  import opened Wrappers
  import opened Text
  import opened Strings
  import opened AgentsMd
  import opened AgentsMdFreshness

  /** One generation: the hash of its inputs, its time stamp and the body it prints. */
  datatype Run = Run(hash: nat, ts: string, body: string)

  function ZoneOf(run: Run): string { RenderZone(run.hash, run.ts, run.body) }

  function Regenerate(text: string, runs: seq<Run>): string
    decreases |runs|
  {
    if runs == [] then text else Regenerate(Splice(text, ZoneOf(runs[0])), runs[1..])
  }

  /** The first generation starts the file when there is none; the others find it. */
  function GenerateAll(existing: Option<string>, header: string, runs: seq<Run>): string
    requires runs != []
  {
    Regenerate(Generate(existing, header, ZoneOf(runs[0])), runs[1..])
  }

  ghost predicate In64Bits(runs: seq<Run>) {
    forall r | r in runs :: r.hash < 0x1_0000_0000_0000_0000
  }

  function Last(runs: seq<Run>): Run
    requires runs != []
  {
    runs[|runs| - 1]
  }

  /** What a first zone is put behind or into. */
  function Start(existing: Option<string>, header: string): string {
    if existing.Some? then existing.value else header
  }

  /** An END that no BEGIN precedes. */
  predicate EndFirst(text: string) {
    var b, e := Find(text, BEGIN_MARKER), Find(text, END_MARKER);
    e.Some? && (b.None? || e.value < b.value)
  }

  /** BEGIN first, then END. */
  predicate Zoned(text: string) {
    Find(text, BEGIN_MARKER).Some? && Settled(BEGIN_MARKER, END_MARKER, text)
  }

  /** END first, then a BEGIN whose comment closes. */
  predicate Stuck(text: string) {
    && EndFirst(text) && Find(text, BEGIN_MARKER).Some?
    && Find(text[Find(text, BEGIN_MARKER).value..], COMMENT_CLOSE).Some?
  }

  // ---------------------------------------------------------------- one more generation

  /** The two markers never stand at the same place. */
  lemma {:induction false} MarkersApart(text: string)
    ensures Find(text, BEGIN_MARKER).Some? ==> Find(text, BEGIN_MARKER) != Find(text, END_MARKER)
  {
    hide Find;
    FindIs(text, BEGIN_MARKER);
    FindIs(text, END_MARKER);
    MarkerFacts();
    if Find(text, BEGIN_MARKER).Some? {
      var p := Find(text, BEGIN_MARKER).value;
      assert text[p..p + |BEGIN_MARKER|][10] == text[p + 10];
      assert p + |END_MARKER| <= |text| ==> text[p..p + |END_MARKER|][10] == text[p + 10];
    }
  }

  lemma EndPattern()
    ensures '\n' !in END_MARKER && END_MARKER != "" && !IsWhitespace(END_MARKER[|END_MARKER| - 1])
    ensures |END_MARKER| <= |BEGIN_MARKER|
  {
    MarkerFacts();
  }

  /** A zone holds an END, and not at its front. */
  lemma ZoneEnds(run: Run)
    ensures Find(ZoneOf(run), END_MARKER).Some? && Find(ZoneOf(run), END_MARKER).value > 0
  {
    var zone, front := ZoneOf(run), BEGIN_MARKER + Inner(run.hash, run.ts, run.body);
    assert zone == front + (END_MARKER + "\n");
    assert zone[|front|..|front| + |END_MARKER|] == END_MARKER;
    MarkerFacts();
    hide Find, RenderZone, Inner;
    FindIs(zone, END_MARKER);
    assert zone[10] == BEGIN_MARKER[10];
    assert OccursAt(zone, END_MARKER, |front|);
    assert zone[0..|END_MARKER|][10] == zone[10];
  }

  /** The header of a zone closes its comment. */
  lemma ZoneCloses(prefix: string, run: Run, b: nat)
    requires b <= |prefix|
    ensures Find((prefix + ZoneOf(run))[b..], COMMENT_CLOSE).Some?
  {
    var zone := ZoneOf(run);
    var tail := ZoneTail(run.hash, run.ts, run.body, "");
    assert zone + "" == zone;
    var head, k := HeaderHead(run.hash), 6 + |run.ts|;
    var text := (prefix + zone)[b..];
    var p := |prefix| - b + |head| + k;
    assert text == prefix[b..] + (head + tail);
    assert text[p..p + |COMMENT_CLOSE|] == tail[k..k + |COMMENT_CLOSE|];
    hide Find;
    FindIs(text, COMMENT_CLOSE);
    assert OccursAt(text, COMMENT_CLOSE, p);
  }

  /** A zone stays a zone, and the linter reads the hash of the last generation. */
  lemma ZonedStays(text: string, run: Run)
    requires run.hash < 0x1_0000_0000_0000_0000 && Zoned(text)
    ensures var out := Splice(text, ZoneOf(run)); Zoned(out) && EmbeddedHash(out) == Some(run.hash)
  {
    hide FirstAt, OccursAt, Find, RenderZone, TrimEnd, TrimStartNewlines, EmbeddedHash;
    var zone := ZoneOf(run);
    var b, e := Find(text, BEGIN_MARKER).value, Find(text, END_MARKER).value;
    var after := TrimStartNewlines(text[e + |END_MARKER|..]);
    EmbeddedAfterRefresh(text, run.hash, run.ts, run.body);
    RenderedShape(run.hash, run.ts, run.body);
    FindIs(text, BEGIN_MARKER);
    FindIs(text, END_MARKER);
    RefreshOpens(text, zone, after, BEGIN_MARKER, b);
    assert zone == zone[..|zone| - 1] + "\n";
    assert Splice(text, zone) == text[..b] + (zone + after);
    FindFirst(text[..b] + (zone + after), BEGIN_MARKER, b);
    EndBehindBegin(text, run, after, b, e);
  }

  lemma EndBehindBegin(text: string, run: Run, after: string, b: nat, e: nat)
    requires FirstAt(text, BEGIN_MARKER, b) && FirstAt(text, END_MARKER, e) && b < e
    ensures b <= |text|
    ensures var out := text[..b] + (ZoneOf(run) + after);
            Find(out, END_MARKER).Some? && b < Find(out, END_MARKER).value
  {
    hide Find, RenderZone;
    var zone := ZoneOf(run);
    var out, n := text[..b] + (zone + after), b + |BEGIN_MARKER|;
    EndPattern();
    ZoneEnds(run);
    RenderedShape(run.hash, run.ts, run.body);
    hide ZoneOf;
    var k := Find(zone, END_MARKER).value;
    FindIs(zone, END_MARKER);
    assert out[b..b + |zone|] == zone[0..|zone|];
    OccursInBoth(out, b, zone, 0, |zone|, END_MARKER, k);
    SameUpToMarker(text, zone, after, b);
    hide OccursAt;
    forall q: nat | q <= b ensures !OccursAt(out, END_MARKER, q) {
      OccursInBoth(out, 0, text, 0, n, END_MARKER, q);
    }
    FindIs(out, END_MARKER);
  }

  lemma SameUpToMarker(text: string, zone: string, after: string, b: nat)
    requires OccursAt(text, BEGIN_MARKER, b) && OccursAt(zone, BEGIN_MARKER, 0)
    ensures var out, n := text[..b] + (zone + after), b + |BEGIN_MARKER|;
            n <= |out| && n <= |text| && out[0..n] == text[0..n]
  {
    var out, n := text[..b] + (zone + after), b + |BEGIN_MARKER|;
    assert out[b..n] == zone[0..|BEGIN_MARKER|] == text[b..n];
    assert out[0..n] == text[..b] + out[b..n] && text[0..n] == text[..b] + text[b..n];
  }

  /** Behind a text without an END a zone is found, whether its own BEGIN is the first or not. */
  lemma {:induction false} ZonedBehind(prefix: string, run: Run)
    requires EndsLine(prefix) && Find(prefix, END_MARKER).None?
    ensures Zoned(prefix + ZoneOf(run))
  {
    hide Find, FirstAt, OccursAt, RenderZone;
    var zone := ZoneOf(run);
    EndPattern();
    MarkerPatterns();
    ZoneEnds(run);
    RenderedShape(run.hash, run.ts, run.body);
    FindBehind(prefix, zone, END_MARKER);
    if Find(prefix, BEGIN_MARKER).None? {
      HeaderThenZone(prefix, zone, BEGIN_MARKER);
      FindFirst(prefix + zone, BEGIN_MARKER, |prefix|);
    } else {
      FindKept(prefix, zone, BEGIN_MARKER);
    }
  }

  lemma ZonedKept(prefix: string, run: Run)
    requires Zoned(prefix)
    ensures Zoned(prefix + ZoneOf(run))
  {
    hide Find;
    FindKept(prefix, ZoneOf(run), BEGIN_MARKER);
    FindKept(prefix, ZoneOf(run), END_MARKER);
  }

  /** Behind a text with an END and no BEGIN before it, the file is stuck. */
  lemma StuckBehind(prefix: string, run: Run)
    requires EndsLine(prefix) && EndFirst(prefix)
    ensures Stuck(prefix + ZoneOf(run))
  {
    hide Find, FirstAt, OccursAt, RenderZone;
    var zone := ZoneOf(run);
    MarkerPatterns();
    RenderedShape(run.hash, run.ts, run.body);
    FindKept(prefix, zone, END_MARKER);
    if Find(prefix, BEGIN_MARKER).None? {
      HeaderThenZone(prefix, zone, BEGIN_MARKER);
      FindFirst(prefix + zone, BEGIN_MARKER, |prefix|);
      ZoneCloses(prefix, run, |prefix|);
    } else {
      FindKept(prefix, zone, BEGIN_MARKER);
      ZoneCloses(prefix, run, Find(prefix, BEGIN_MARKER).value);
    }
  }

  lemma {:induction false} SameEndFirst(text: string)
    ensures EndFirst(Appended(text, "")) <==> EndFirst(text)
    ensures Find(Appended(text, ""), END_MARKER) == Find(text, END_MARKER)
  {
    hide Find, Appended, TrimEnd;
    SameBegin(text);
    EndPattern();
    assert text[0..] == text && Appended(text, "")[0..] == Appended(text, "");
    SameFind(text, END_MARKER, 0);
  }

  lemma AppendedBehind(text: string, zone: string)
    requires !Zoned(text)
    ensures Splice(text, zone) == Appended(text, "") + zone && EndsLine(Appended(text, ""))
  {
    hide Find, TrimEnd;
    assert Appended(text, "")[|Appended(text, "")| - 1] == '\n';
  }

  /** A stuck file stays stuck, and the linter goes on reading the same. */
  lemma StuckStays(text: string, run: Run)
    requires run.hash < 0x1_0000_0000_0000_0000 && Stuck(text)
    ensures var out := Splice(text, ZoneOf(run)); Stuck(out) && EmbeddedHash(out) == EmbeddedHash(text)
  {
    hide Find, RenderZone, EmbeddedHash, Appended;
    AppendedBehind(text, ZoneOf(run));
    SameEndFirst(text);
    StuckBehind(Appended(text, ""), run);
    EmbeddedAfterGenerate(Some(text), "\n", run.hash, run.ts, run.body);
  }

  // ---------------------------------------------------------------- several generations

  /** After the first generation a file either holds a zone or is stuck. */
  lemma AfterFirst(existing: Option<string>, header: string, run: Run)
    requires run.hash < 0x1_0000_0000_0000_0000 && EndsLine(header)
    ensures var out, text := Generate(existing, header, ZoneOf(run)), Start(existing, header);
            if EndFirst(text) then Stuck(out) && EmbeddedHash(out) == ReadAhead(text, run.hash) else Zoned(out)
  {
    hide Find, RenderZone, EmbeddedHash, ReadAhead, Appended, TrimEnd, TrimStartNewlines, EndsLine;
    EmbeddedAfterGenerate(existing, header, run.hash, run.ts, run.body);
    var text := Start(existing, header);
    if existing.Some? && Zoned(text) {
      ZonedStays(text, run);
    } else {
      MarkersApart(text);
      var prefix := if existing.Some? then Appended(text, "") else header;
      if existing.Some? {
        AppendedBehind(text, ZoneOf(run));
        SameEndFirst(text);
      }
      if EndFirst(text) {
        StuckBehind(prefix, run);
      } else if Zoned(text) {
        ZonedKept(header, run);
      } else {
        ZonedBehind(prefix, run);
      }
    }
  }

  lemma RunsShift(runs: seq<Run>)
    requires In64Bits(runs) && runs != []
    ensures runs[0].hash < 0x1_0000_0000_0000_0000 && In64Bits(runs[1..])
    ensures |runs| > 1 ==> Last(runs[1..]) == Last(runs)
  {
  }

  lemma {:induction false} ZonedRun(text: string, runs: seq<Run>)
    requires In64Bits(runs) && Zoned(text)
    ensures Zoned(Regenerate(text, runs))
    ensures runs != [] ==> EmbeddedHash(Regenerate(text, runs)) == Some(Last(runs).hash)
    decreases |runs|
  {
    if runs != [] {
      hide In64Bits, Zoned, ZoneOf, EmbeddedHash, Splice;
      RunsShift(runs);
      ZonedStays(text, runs[0]);
      ZonedRun(Splice(text, ZoneOf(runs[0])), runs[1..]);
    }
  }

  lemma {:induction false} StuckRun(text: string, runs: seq<Run>)
    requires In64Bits(runs) && Stuck(text)
    ensures Stuck(Regenerate(text, runs)) && EmbeddedHash(Regenerate(text, runs)) == EmbeddedHash(text)
    decreases |runs|
  {
    if runs != [] {
      hide In64Bits, Stuck, ZoneOf, EmbeddedHash, Splice;
      RunsShift(runs);
      StuckStays(text, runs[0]);
      StuckRun(Splice(text, ZoneOf(runs[0])), runs[1..]);
    }
  }

  /**
   What the linter reads after two or more generations: the hash of the last, unless an END came before every BEGIN in
   the beginning. Such a file is stuck with what the first generation left.
   */
  lemma EmbeddedAfterAll(existing: Option<string>, header: string, runs: seq<Run>)
    requires In64Bits(runs) && |runs| >= 2 && EndsLine(header)
    ensures var out, text := GenerateAll(existing, header, runs), Start(existing, header);
            && Find(out, BEGIN_MARKER).Some?
            && EmbeddedHash(out) == if EndFirst(text) then ReadAhead(text, runs[0].hash) else Some(Last(runs).hash)
  {
    hide In64Bits, EndFirst, ZoneOf, EmbeddedHash, Generate, Regenerate, ReadAhead, Last, Find;
    RunsShift(runs);
    AfterFirst(existing, header, runs[0]);
    var first := Generate(existing, header, ZoneOf(runs[0]));
    if EndFirst(Start(existing, header)) {
      StuckRun(first, runs[1..]);
    } else {
      ZonedRun(first, runs[1..]);
    }
  }

  lemma {:induction false} LintReads(text: string, current: nat)
    requires Find(text, BEGIN_MARKER).Some?
    ensures LintFreshness(text, current) == Verdict(EmbeddedHash(text), current)
  {
    hide Find, EmbeddedHash;
  }

  /**
   Two or more generations on unchanged inputs: fresh if and only if the file held no END before its first BEGIN, or no
   BEGIN, or its stray comment already said what the linter wants to read.
   */
  lemma FreshAfterAll(existing: Option<string>, header: string, inputs: Inputs, runs: seq<Run>)
    requires |runs| >= 2 && EndsLine(header)
    requires forall r | r in runs :: r.hash == InputsHash(inputs) as nat
    ensures var current, text := InputsHash(inputs) as nat, Start(existing, header);
            LintFreshness(GenerateAll(existing, header, runs), current) == Fresh <==>
            !EndFirst(text) || Find(text, BEGIN_MARKER).None? || StrayNamesHash(text, current)
  {
    hide InputsHash, EndFirst, StrayNamesHash, LintFreshness, GenerateAll, Find;
    FreshWithHash(existing, header, InputsHash(inputs) as nat, runs);
  }

  lemma {:induction false} FreshWithHash(existing: Option<string>, header: string, current: nat, runs: seq<Run>)
    requires |runs| >= 2 && EndsLine(header) && current < 0x1_0000_0000_0000_0000
    requires forall r | r in runs :: r.hash == current
    ensures var text := Start(existing, header);
            LintFreshness(GenerateAll(existing, header, runs), current) == Fresh <==>
            !EndFirst(text) || Find(text, BEGIN_MARKER).None? || StrayNamesHash(text, current)
  {
    hide EndFirst, EmbeddedHash, GenerateAll, LintFreshness, Find, StrayNamesHash, ReadAhead;
    assert runs[0] in runs && Last(runs) in runs;
    EmbeddedAfterAll(existing, header, runs);
    LintReads(GenerateAll(existing, header, runs), current);
    NamesIff(Start(existing, header), current);
  }

  lemma {:induction false} NamesIff(text: string, current: nat)
    ensures ReadAhead(text, current) == Some(current) <==>
            Find(text, BEGIN_MARKER).None? || StrayNamesHash(text, current)
  {
    hide EmbeddedHash, Find, SplitWhitespace, HashWord, ParseU64;
  }

  /**
   A file that held an END before its first BEGIN, or an END alone, keeps for ever the verdict of its first generation:
   later generations on later inputs change nothing.
   */
  lemma EndFirstNeverHeals(existing: Option<string>, header: string, runs: seq<Run>, current: nat)
    requires In64Bits(runs) && runs != [] && EndsLine(header) && EndFirst(Start(existing, header))
    ensures LintFreshness(GenerateAll(existing, header, runs), current)
         == LintFreshness(Generate(existing, header, ZoneOf(runs[0])), current)
  {
    hide In64Bits, EndFirst, ZoneOf, EmbeddedHash, Generate, Regenerate, ReadAhead, LintFreshness, Find;
    RunsShift(runs);
    AfterFirst(existing, header, runs[0]);
    var first := Generate(existing, header, ZoneOf(runs[0]));
    StuckRun(first, runs[1..]);
    LintReads(first, current);
    LintReads(GenerateAll(existing, header, runs), current);
  }

  /** A file cut off inside the header of its zone is stale after the first generation and fresh after the second. */
  lemma CutHeaderHeals(past: nat, rest: string, header: string, inputs: Inputs, runs: seq<Run>)
    requires past < 0x1_0000_0000_0000_0000 && '>' !in rest && EndsLine(header)
    requires |runs| >= 2 && forall r | r in runs :: r.hash == InputsHash(inputs) as nat
    requires InputsHash(inputs) as nat != past
    ensures var existing, current := Some(HeaderHead(past) + rest), InputsHash(inputs) as nat;
            && LintFreshness(Generate(existing, header, ZoneOf(runs[0])), current) == Stale
            && LintFreshness(GenerateAll(existing, header, runs), current) == Fresh
  {
    hide InputsHash, LintFreshness, HeaderHead, GenerateAll, Generate, Find, RenderZone, StrayNamesHash;
    assert runs[0] in runs;
    CutHeaderIsStale(past, rest, header, inputs, runs[0].ts, runs[0].body);
    CutHeaderHasNoEnd(past, rest);
    FreshAfterAll(Some(HeaderHead(past) + rest), header, inputs, runs);
  }

  lemma {:induction false} CutHeaderHasNoEnd(past: nat, rest: string)
    requires '>' !in rest
    ensures Find(HeaderHead(past) + rest, END_MARKER).None?
  {
    HeadHasNoClose(past);
    hide HeaderHead, Find;
    assert END_MARKER[16] == '>';
    NoneWithout(HeaderHead(past) + rest, END_MARKER, '>');
  }
}
