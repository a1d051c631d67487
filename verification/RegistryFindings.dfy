/** The findings over a merged index (src/adr_registry.rs, `find_issues`). */
module RegistryFindings {
  import opened Wrappers
  import opened Text
  import opened Strings
  import opened Registry
  import opened Sequences

  /** What is found, without the wording. */
  datatype Finding =
    | HeaderUnparsed(key: Key, file: string)
    | Divergence(key: Key, drift: Drift, proseFile: string, modelFile: string)
    | CollisionInside(key: Key)
    | CollisionAcross(number: nat)
    | TitleDuplicate(title: string)
    | MissingFields(key: Key, file: string, date: bool, status: bool)
    | Unjustified(project: string, number: nat, file: string)

  /** Which fields of the two faces differ. */
  datatype Drift = Drift(title: bool, status: bool, date: bool)

  /** The text before the first `(`. */
  function BeforeParen(s: string): string {
    if s == "" || s[0] == '(' then "" else [s[0]] + BeforeParen(s[1..])
  }

  function TrimEndMarks(s: string): string {
    if s != "" && s[|s| - 1] in ".,;" then TrimEndMarks(s[..|s| - 1]) else s
  }

  function CanonicalStatus(status: Option<string>, lower: string -> string): Option<string> {
    if status.None? then None
    else
      var base := Trim(TrimEndMarks(Trim(BeforeParen(Trim(status.value)))));
      if base == "" then None else Some(lower(base))
  }

  function CanonicalDate(date: Option<string>): Option<string> {
    if date.None? || Trim(date.value) == "" then None else Some(Trim(date.value))
  }

  function CanonicalTitle(e: Entry, lower: string -> string): string { lower(Trim(e.title)) }

  function DriftOf(p: Face, m: Face, lower: string -> string): Drift {
    Drift(
      Trim(p.title) != Trim(m.title),
      !p.unparsed && CanonicalStatus(p.status, lower) != CanonicalStatus(m.status, lower),
      CanonicalDate(p.date) != CanonicalDate(m.date))
  }

  predicate Drifts(d: Drift) { d.title || d.status || d.date }

  // ---------------------------------------------------------------- remarks behind a status

  lemma {:induction false} BeforeParenIs(a: string, rest: string)
    requires '(' !in a
    ensures BeforeParen(a + ("(" + rest)) == a
    ensures BeforeParen(a) == a
  {
    if a != "" {
      assert (a + ("(" + rest))[1..] == a[1..] + ("(" + rest);
      BeforeParenIs(a[1..], rest);
    }
  }

  lemma {:induction false} SkipStopsAt(a: string, b: string)
    requires b != "" && !IsWhitespace(b[0])
    ensures SkipBlanks(a + b) == SkipBlanks(a) + b
  {
    if a == "" {
      assert a + b == b;
    } else {
      assert (a + b)[1..] == a[1..] + b;
      SkipStopsAt(a[1..], b);
    }
  }

  lemma {:induction false} SkipKeeps(a: string, c: char)
    ensures c in SkipBlanks(a) ==> c in a
  {
    if a != "" {
      SkipKeeps(a[1..], c);
    }
  }

  lemma {:induction false} TrimTwice(s: string)
    ensures Trim(Trim(s)) == Trim(s) == Trim(SkipBlanks(s))
  {
    var t := Trim(s);
    assert t != "" ==> t[0] == SkipBlanks(s)[0];
    assert SkipBlanks(t) == t && TrimEnd(t) == t;
  }

  /** A remark in parentheses is no other status. */
  lemma RemarkKeepsStatus(status: string, remark: string, lower: string -> string)
    requires '(' !in status
    ensures CanonicalStatus(Some(status + ("(" + remark)), lower) == CanonicalStatus(Some(status), lower)
  {
    hide TrimEndMarks;
    var a := SkipBlanks(status);
    var s := a + ("(" + remark);
    SkipKeeps(status, '(');
    SkipStopsAt(status, "(" + remark);
    var t := TrimEnd(s);
    assert s[|a|] == '(' && !IsWhitespace('(');
    assert t == a + ("(" + t[|a| + 1..]);
    BeforeParenIs(a, t[|a| + 1..]);
    assert '(' !in Trim(status);
    BeforeParenIs(Trim(status), "");
    TrimTwice(status);
  }

  // ---------------------------------------------------------------- what a field says

  /** A text that begins and ends with a visible character. */
  predicate Visible(w: string) {
    w != "" && !IsWhitespace(w[0]) && !IsWhitespace(w[|w| - 1])
  }

  lemma {:induction false} SkipAll(a: string, w: string)
    requires IsBlank(a) && w != "" && !IsWhitespace(w[0])
    ensures SkipBlanks(a + w) == w
  {
    if a == "" {
      assert a + w == w;
    } else {
      assert a[0] in a && (a + w)[1..] == a[1..] + w;
      SkipAll(a[1..], w);
    }
  }

  /** Blanks around a text say nothing. */
  lemma TrimAround(a: string, w: string, b: string)
    requires IsBlank(a) && Visible(w) && IsBlank(b)
    ensures Trim(a + (w + b)) == w
  {
    SkipAll(a, w + b);
    TrimEndIs(w, b);
  }

  lemma {:induction false} MarksDropped(w: string, marks: string)
    requires w != "" && w[|w| - 1] !in ".,;" && forall c | c in marks :: c in ".,;"
    ensures TrimEndMarks(w + marks) == w
  {
    var s := w + marks;
    if marks == "" {
      assert s == w;
    } else {
      assert s[|s| - 1] == marks[|marks| - 1] && s[..|s| - 1] == w + marks[..|marks| - 1];
      MarksDropped(w, marks[..|marks| - 1]);
    }
  }

  /** A status is its words in lower case: blanks around them and marks behind them say nothing. */
  lemma StatusSays(a: string, w: string, marks: string, b: string, lower: string -> string)
    requires IsBlank(a) && IsBlank(b) && Visible(w) && '(' !in w
    requires w[|w| - 1] !in ".,;" && forall c | c in marks :: c in ".,;"
    ensures CanonicalStatus(Some(a + ((w + marks) + b)), lower) == Some(lower(w))
  {
    var s := w + marks;
    assert Visible(s) by { MarksAreVisible(w, marks); }
    TrimAround(a, s, b);
    assert '(' !in s;
    BeforeParenIs(s, "");
    TrimAround("", s, "");
    TrimAround("", w, "");
    assert "" + (s + "") == s && "" + (w + "") == w;
    MarksDropped(w, marks);
  }

  lemma MarksAreVisible(w: string, marks: string)
    requires Visible(w) && forall c | c in marks :: c in ".,;"
    ensures Visible(w + marks)
  {
    if marks != "" {
      assert marks[|marks| - 1] in marks;
    }
  }

  /** No status where nothing stands before the remark. */
  lemma StatusSilent(status: string, lower: string -> string)
    ensures CanonicalStatus(None, lower) == None
    ensures IsBlank(status) ==> CanonicalStatus(Some(status), lower) == None
  {
    if IsBlank(status) {
      BlankTitle(status);
    }
  }

  /** Titles are compared in lower case, dates as they are, both without the blanks around them. */
  lemma TitleAndDateSay(a: string, w: string, b: string, e: Entry, lower: string -> string)
    requires IsBlank(a) && Visible(w) && IsBlank(b)
    ensures CanonicalTitle(e.(title := a + (w + b)), lower) == lower(w)
    ensures CanonicalDate(Some(a + (w + b))) == Some(w)
    ensures CanonicalDate(None) == None && (IsBlank(a) ==> CanonicalDate(Some(a)) == None)
  {
    TrimAround(a, w, b);
    BlankTitle(a);
  }

  // ---------------------------------------------------------------- what counts as an issue

  predicate UnparsedHeader(e: Entry, f: Finding) {
    e.prose.Some? && e.model.Some? && e.prose.value.unparsed && f == HeaderUnparsed(KeyOf(e), e.prose.value.file)
  }

  predicate Diverges(e: Entry, f: Finding, lower: string -> string) {
    && e.prose.Some? && e.model.Some?
    && var d := DriftOf(e.prose.value, e.model.value, lower);
       Drifts(d) && f == Divergence(KeyOf(e), d, e.prose.value.file, e.model.value.file)
  }

  predicate Misses(e: Entry, f: Finding) {
    (e.date.None? || e.status.None?) && f == MissingFields(KeyOf(e), e.file, e.date.None?, e.status.None?)
  }

  /** Two entries share a number inside a project. */
  ghost predicate SharedKey(entries: seq<Entry>, k: Key) {
    exists i, j :: 0 <= i < j < |entries| && KeyOf(entries[i]) == k == KeyOf(entries[j])
  }

  /** Two entries give one number different titles in different projects. */
  ghost predicate SharedNumber(entries: seq<Entry>, n: nat) {
    exists a, b :: a in entries && b in entries && a.number == n == b.number && a.project != b.project && a.title != b.title
  }

  /** Two decisions, that is, entries with different keys, bear one title. */
  ghost predicate SharedTitle(entries: seq<Entry>, t: string, lower: string -> string) {
    exists a, b :: a in entries && b in entries && KeyOf(a) != KeyOf(b)
                   && CanonicalTitle(a, lower) == t == CanonicalTitle(b, lower)
  }

  ghost predicate Issue(entries: seq<Entry>, f: Finding, lower: string -> string) {
    match f
    case HeaderUnparsed(_, _) => exists e :: e in entries && UnparsedHeader(e, f)
    case Divergence(_, _, _, _) => exists e :: e in entries && Diverges(e, f, lower)
    case CollisionInside(k) => SharedKey(entries, k)
    case CollisionAcross(n) => SharedNumber(entries, n)
    case TitleDuplicate(t) => t != "" && SharedTitle(entries, t, lower)
    case MissingFields(_, _, _, _) => exists e :: e in entries && Misses(e, f)
    case Unjustified(_, _, _) => false
  }

  // ---------------------------------------------------------------- in what order, and how often

  /** The findings about the faces of one entry: an unreadable header first, then the divergence. */
  function EntryFindings(e: Entry, lower: string -> string): seq<Finding> {
    if e.prose.None? || e.model.None? then []
    else
      var p, m := e.prose.value, e.model.value;
      var d := DriftOf(p, m, lower);
      (if p.unparsed then [HeaderUnparsed(KeyOf(e), p.file)] else [])
      + if Drifts(d) then [Divergence(KeyOf(e), d, p.file, m.file)] else []
  }

  function MissingOf(e: Entry): seq<Finding> {
    if e.date.Some? && e.status.Some? then []
    else [MissingFields(KeyOf(e), e.file, e.date.None?, e.status.None?)]
  }

  /** Entry by entry. */
  function ForEach(entries: seq<Entry>, found: Entry -> seq<Finding>): seq<Finding> {
    if entries == [] then [] else ForEach(entries[..|entries| - 1], found) + found(entries[|entries| - 1])
  }

  function FacesOf(lower: string -> string): Entry -> seq<Finding> { e => EntryFindings(e, lower) }

  /** A list of collisions or duplicates: each that holds, once. */
  ghost predicate ListsOnce(out: seq<Finding>, entries: seq<Entry>, lower: string -> string) {
    Distinct(out) && forall f | f in out :: Issue(entries, f, lower)
  }

  /** The whole list: faces in entry order, three lists of collisions and duplicates, missing fields in entry order. */
  ghost predicate Arranged(findings: seq<Finding>, entries: seq<Entry>, lower: string -> string) {
    exists inside, across, titles ::
      && findings == ForEach(entries, FacesOf(lower)) + inside + across + titles + ForEach(entries, MissingOf)
      && ListsOnce(inside, entries, lower) && (forall f | f in inside :: f.CollisionInside?)
      && ListsOnce(across, entries, lower) && (forall f | f in across :: f.CollisionAcross?)
      && ListsOnce(titles, entries, lower) && (forall f | f in titles :: f.TitleDuplicate?)
  }

  /** Entry by entry means in order. */
  lemma {:induction false} ForEachInOrder(a: seq<Entry>, b: seq<Entry>, found: Entry -> seq<Finding>)
    ensures ForEach(a + b, found) == ForEach(a, found) + ForEach(b, found)
  {
    if b == [] {
      assert a + b == a;
    } else {
      assert (a + b)[..|a + b| - 1] == a + b[..|b| - 1];
      ForEachInOrder(a, b[..|b| - 1], found);
    }
  }

  lemma {:induction false} ForEachMembers(entries: seq<Entry>, found: Entry -> seq<Finding>, f: Finding)
    ensures f in ForEach(entries, found) <==> exists e :: e in entries && f in found(e)
  {
    if entries != [] {
      var init, last := entries[..|entries| - 1], entries[|entries| - 1];
      ForEachMembers(init, found, f);
      assert entries == init + [last];
    }
  }

  lemma EntryMembers(e: Entry, f: Finding, lower: string -> string)
    ensures f in EntryFindings(e, lower) <==> UnparsedHeader(e, f) || Diverges(e, f, lower)
    ensures f in MissingOf(e) <==> Misses(e, f)
  {
    hide DriftOf;
  }

  lemma {:induction false} FaceMembers(entries: seq<Entry>, f: Finding, lower: string -> string)
    ensures f in ForEach(entries, FacesOf(lower)) <==>
            exists e :: e in entries && (UnparsedHeader(e, f) || Diverges(e, f, lower))
    ensures f in ForEach(entries, MissingOf) <==> exists e :: e in entries && Misses(e, f)
  {
    hide EntryFindings, MissingOf, UnparsedHeader, Diverges, Misses;
    ForEachMembers(entries, FacesOf(lower), f);
    ForEachMembers(entries, MissingOf, f);
    forall e | e in entries
      ensures f in EntryFindings(e, lower) <==> UnparsedHeader(e, f) || Diverges(e, f, lower)
      ensures f in MissingOf(e) <==> Misses(e, f)
    {
      EntryMembers(e, f, lower);
    }
  }

  // ---------------------------------------------------------------- the loops

  method FindIssues(entries: seq<Entry>, lower: string -> string) returns (findings: seq<Finding>)
    ensures forall f :: f in findings <==> Issue(entries, f, lower)
    ensures Arranged(findings, entries, lower)
  {
    hide SharedKey, SharedNumber, SharedTitle, DriftOf, ForEach, Distinct;
    var faces := FaceFindings(entries, lower);
    var inside := InsideCollisions(entries);
    var across := AcrossCollisions(entries);
    var titles := TitleDuplicates(entries, lower);
    var missing := MissingFieldFindings(entries);
    findings := faces + inside + across + titles + missing;
    forall f ensures f in findings <==> Issue(entries, f, lower) {
      FaceMembers(entries, f, lower);
      assert f in findings <==> f in faces || f in inside || f in across || f in titles || f in missing;
    }
    assert ListsOnce(inside, entries, lower) && ListsOnce(across, entries, lower) && ListsOnce(titles, entries, lower);
  }

  lemma NoneFor(found: Entry -> seq<Finding>)
    ensures ForEach([], found) == []
  {
  }

  lemma OneMoreFor(entries: seq<Entry>, i: nat, found: Entry -> seq<Finding>)
    requires i < |entries|
    ensures ForEach(entries[..i + 1], found) == ForEach(entries[..i], found) + found(entries[i])
  {
    assert entries[..i + 1][..i] == entries[..i];
  }

  method FaceFindings(entries: seq<Entry>, lower: string -> string) returns (out: seq<Finding>)
    ensures out == ForEach(entries, FacesOf(lower))
  {
    hide CanonicalStatus, CanonicalDate, ForEach;
    NoneFor(FacesOf(lower));
    out := [];
    for i := 0 to |entries|
      invariant out == ForEach(entries[..i], FacesOf(lower))
    {
      OneMoreFor(entries, i, FacesOf(lower));
      var e := entries[i];
      ghost var was := out;
      if e.prose.Some? && e.model.Some? {
        var p, m := e.prose.value, e.model.value;
        var title := Trim(p.title) != Trim(m.title);
        var status := false;
        if p.unparsed {
          out := out + [HeaderUnparsed(KeyOf(e), p.file)];
        } else if CanonicalStatus(p.status, lower) != CanonicalStatus(m.status, lower) {
          status := true;
        }
        var date := CanonicalDate(p.date) != CanonicalDate(m.date);
        if title || status || date {
          out := out + [Divergence(KeyOf(e), Drift(title, status, date), p.file, m.file)];
        }
      }
      assert out == was + EntryFindings(e, lower);
    }
    assert entries[..|entries|] == entries;
  }

  method MissingFieldFindings(entries: seq<Entry>) returns (out: seq<Finding>)
    ensures out == ForEach(entries, MissingOf)
  {
    out := [];
    for i := 0 to |entries|
      invariant out == ForEach(entries[..i], MissingOf)
    {
      var e := entries[i];
      if e.date.None? || e.status.None? {
        out := out + [MissingFields(KeyOf(e), e.file, e.date.None?, e.status.None?)];
      }
      assert entries[..i + 1][..i] == entries[..i];
    }
    assert entries[..|entries|] == entries;
  }

  method InsideCollisions(entries: seq<Entry>) returns (out: seq<Finding>)
    ensures forall f :: f in out <==> f.CollisionInside? && SharedKey(entries, f.key)
    ensures Distinct(out)
  {
    hide SharedKey, Group, Distinct;
    var groups := GroupBy(entries, KeyOf);
    out := [];
    DistinctEmpty<Finding>();
    var remaining := groups.Keys;
    while remaining != {}
      invariant remaining <= groups.Keys && Distinct(out)
      invariant forall f :: f in out <==> f.CollisionInside? && f.key in groups.Keys - remaining && |groups[f.key]| >= 2
    {
      var k :| k in remaining;
      if |groups[k]| >= 2 {
        DistinctExtend(out, CollisionInside(k));
        out := out + [CollisionInside(k)];
      }
      remaining := remaining - {k};
    }
    forall k ensures SharedKey(entries, k) <==> k in groups && |groups[k]| >= 2 {
      TwoInGroup(entries, k);
    }
  }

  method AcrossCollisions(entries: seq<Entry>) returns (out: seq<Finding>)
    ensures forall f :: f in out <==> f.CollisionAcross? && SharedNumber(entries, f.number)
    ensures Distinct(out)
  {
    hide SharedNumber, Group, Distinct;
    var groups := GroupBy(entries, NumberOf);
    out := [];
    DistinctEmpty<Finding>();
    var remaining := groups.Keys;
    while remaining != {}
      invariant remaining <= groups.Keys && Distinct(out)
      invariant forall f :: f in out <==>
                  f.CollisionAcross? && f.number in groups.Keys - remaining && Conflict(groups[f.number])
    {
      var n :| n in remaining;
      var projects := set e | e in groups[n] :: e.project;
      var titles := set e | e in groups[n] :: e.title;
      if |projects| > 1 && |titles| > 1 {
        DistinctExtend(out, CollisionAcross(n));
        out := out + [CollisionAcross(n)];
      }
      remaining := remaining - {n};
    }
    NoGroup();
    forall n ensures SharedNumber(entries, n) <==> n in groups && Conflict(groups[n]) {
      ConflictIff(entries, n);
    }
  }

  method TitleDuplicates(entries: seq<Entry>, lower: string -> string) returns (out: seq<Finding>)
    ensures forall f :: f in out <==> f.TitleDuplicate? && f.title != "" && SharedTitle(entries, f.title, lower)
    ensures Distinct(out)
  {
    hide SharedTitle, Group, Distinct;
    var groups := GroupBy(entries, TitleOf(lower));
    out := [];
    DistinctEmpty<Finding>();
    var remaining := groups.Keys;
    while remaining != {}
      invariant remaining <= groups.Keys && Distinct(out)
      invariant forall f :: f in out <==>
                  f.TitleDuplicate? && f.title in groups.Keys - remaining && f.title != "" && |Ids(groups[f.title])| > 1
    {
      var t :| t in remaining;
      if t != "" && |Ids(groups[t])| > 1 {
        DistinctExtend(out, TitleDuplicate(t));
        out := out + [TitleDuplicate(t)];
      }
      remaining := remaining - {t};
    }
    NoGroup();
    forall t ensures SharedTitle(entries, t, lower) <==> t in groups && |Ids(groups[t])| > 1 {
      TitleIff(entries, t, lower);
    }
  }

  function NumberOf(e: Entry): nat { e.number }

  function TitleOf(lower: string -> string): Entry -> string { e => CanonicalTitle(e, lower) }

  /** The identifiers a title-duplicate message lists: number and project. */
  function Ids(group: seq<Entry>): set<Key> { set e | e in group :: KeyOf(e) }

  predicate Conflict(group: seq<Entry>) {
    |set e | e in group :: e.project| > 1 && |set e | e in group :: e.title| > 1
  }

  // ---------------------------------------------------------------- the declarative form

  lemma SeveralMembers<T>(s: set<T>)
    ensures |s| > 1 <==> exists a, b :: a in s && b in s && a != b
  {
    if |s| > 1 {
      var a :| a in s;
      assert |s - {a}| > 0;
      var b :| b in s - {a};
      assert a in s && b in s && a != b;
    }
    if a, b :| a in s && b in s && a != b {
      assert {a, b} <= s;
      assert |s| == |{a, b}| + |s - {a, b}|;
    }
  }

  lemma {:induction false} TwoInGroup(entries: seq<Entry>, k: Key)
    ensures SharedKey(entries, k) <==> |Group(entries, KeyOf, k)| >= 2
  {
    if entries != [] {
      var init, last := entries[..|entries| - 1], |entries| - 1;
      TwoInGroup(init, k);
      if SharedKey(entries, k) {
        var i, j :| 0 <= i < j < |entries| && KeyOf(entries[i]) == k == KeyOf(entries[j]);
        assert init[i] == entries[i];
        if j < last {
          assert init[j] == entries[j];
        } else {
          GroupMembers(init, KeyOf, k, init[i]);
        }
      }
      if SharedKey(init, k) {
        var i, j :| 0 <= i < j < |init| && KeyOf(init[i]) == k == KeyOf(init[j]);
        assert entries[i] == init[i] && entries[j] == init[j];
      } else if |Group(entries, KeyOf, k)| >= 2 {
        var e := Group(init, KeyOf, k)[0];
        GroupMembers(init, KeyOf, k, e);
        var i :| 0 <= i < |init| && init[i] == e;
        assert entries[i] == e && KeyOf(entries[last]) == k;
      }
    }
  }

  /** Several projects and several titles make two entries that differ in both. */
  lemma ConflictHasPair(group: seq<Entry>)
    ensures Conflict(group) <==>
            exists a, b :: a in group && b in group && a.project != b.project && a.title != b.title
  {
    var projects, titles := set e | e in group :: e.project, set e | e in group :: e.title;
    SeveralMembers(projects);
    SeveralMembers(titles);
    if Conflict(group) {
      var p, q :| p in projects && q in projects && p != q;
      var t, u :| t in titles && u in titles && t != u;
      var a :| a in group && a.project == p;
      var b :| b in group && b.project == q;
      var c :| c in group && c.title == t;
      var d :| d in group && d.title == u;
      var other := if c.title != a.title then c else d;
      assert a.title == b.title ==> other.title != a.title && (other.project != p || other.project != q);
    }
    if a, b :| a in group && b in group && a.project != b.project && a.title != b.title {
      assert a.project in projects && b.project in projects && a.title in titles && b.title in titles;
    }
  }

  lemma {:induction false} ConflictIff(entries: seq<Entry>, n: nat)
    ensures SharedNumber(entries, n) <==> Conflict(Group(entries, NumberOf, n))
  {
    hide Group, Conflict;
    var group := Group(entries, NumberOf, n);
    forall e ensures e in group <==> e in entries && e.number == n {
      GroupMembers(entries, NumberOf, n, e);
    }
    ConflictHasPair(group);
  }

  lemma {:induction false} TitleIff(entries: seq<Entry>, t: string, lower: string -> string)
    ensures SharedTitle(entries, t, lower) <==> |Ids(Group(entries, TitleOf(lower), t))| > 1
  {
    hide Group, CanonicalTitle;
    var group := Group(entries, TitleOf(lower), t);
    forall e ensures e in group <==> e in entries && CanonicalTitle(e, lower) == t {
      GroupMembers(entries, TitleOf(lower), t, e);
    }
    SeveralMembers(Ids(group));
    if SharedTitle(entries, t, lower) {
      var a, b :| a in entries && b in entries && KeyOf(a) != KeyOf(b)
                   && CanonicalTitle(a, lower) == t == CanonicalTitle(b, lower);
      assert KeyOf(a) in Ids(group) && KeyOf(b) in Ids(group);
    }
    if |Ids(group)| > 1 {
      var x, y :| x in Ids(group) && y in Ids(group) && x != y;
      var a :| a in group && KeyOf(a) == x;
      var b :| b in group && KeyOf(b) == y;
    }
  }

  lemma NoGroup()
    ensures !Conflict([]) && |Ids([])| == 0
  {
    assert Ids([]) == {};
    var none: seq<Entry> := [];
    assert (set e | e in none :: e.project) == {};
  }

  // ---------------------------------------------------------------- a clean index

  /** Both faces agree and could be read. */
  predicate FacesAgree(e: Entry, lower: string -> string) {
    e.prose.Some? && e.model.Some? ==>
      && !e.prose.value.unparsed
      && Trim(e.prose.value.title) == Trim(e.model.value.title)
      && CanonicalStatus(e.prose.value.status, lower) == CanonicalStatus(e.model.value.status, lower)
      && CanonicalDate(e.prose.value.date) == CanonicalDate(e.model.value.date)
  }

  /** What the strict gate asks for. */
  ghost predicate Clean(entries: seq<Entry>, lower: string -> string) {
    && (forall e | e in entries :: FacesAgree(e, lower) && e.date.Some? && e.status.Some?)
    && (forall i, j | 0 <= i < j < |entries| :: KeyOf(entries[i]) != KeyOf(entries[j]))
    && (forall a, b | a in entries && b in entries && a.number == b.number && a.project != b.project :: a.title == b.title)
    && forall a, b | a in entries && b in entries && CanonicalTitle(a, lower) == CanonicalTitle(b, lower) != "" ::
         KeyOf(a) == KeyOf(b)
  }

  lemma IssueIsUnclean(entries: seq<Entry>, f: Finding, lower: string -> string)
    requires Issue(entries, f, lower)
    ensures !Clean(entries, lower)
  {
    hide CanonicalStatus, CanonicalDate, CanonicalTitle;
    match f
    case HeaderUnparsed(_, _) =>
      var e :| e in entries && UnparsedHeader(e, f);
      assert !FacesAgree(e, lower);
    case Divergence(_, _, _, _) =>
      var e :| e in entries && Diverges(e, f, lower);
      assert !FacesAgree(e, lower);
    case MissingFields(_, _, _, _) =>
      var e :| e in entries && Misses(e, f);
    case _ =>
  }

  lemma NoIssueIsClean(entries: seq<Entry>, lower: string -> string)
    requires forall f :: !Issue(entries, f, lower)
    ensures Clean(entries, lower)
  {
    hide CanonicalStatus, CanonicalDate, CanonicalTitle;
    forall e | e in entries ensures FacesAgree(e, lower) && e.date.Some? && e.status.Some? {
      NoIssueInEntry(entries, e, lower);
    }
    forall i, j | 0 <= i < j < |entries| ensures KeyOf(entries[i]) != KeyOf(entries[j]) {
      assert !Issue(entries, CollisionInside(KeyOf(entries[i])), lower);
    }
    forall a, b | a in entries && b in entries && a.number == b.number && a.project != b.project
      ensures a.title == b.title
    {
      assert !Issue(entries, CollisionAcross(a.number), lower);
    }
    forall a, b | a in entries && b in entries && CanonicalTitle(a, lower) == CanonicalTitle(b, lower) != ""
      ensures KeyOf(a) == KeyOf(b)
    {
      assert !Issue(entries, TitleDuplicate(CanonicalTitle(a, lower)), lower);
    }
  }

  lemma NoIssueInEntry(entries: seq<Entry>, e: Entry, lower: string -> string)
    requires e in entries && forall f :: !Issue(entries, f, lower)
    ensures FacesAgree(e, lower) && e.date.Some? && e.status.Some?
  {
    hide CanonicalStatus, CanonicalDate;
    assert !Issue(entries, MissingFields(KeyOf(e), e.file, e.date.None?, e.status.None?), lower);
    assert !Misses(e, MissingFields(KeyOf(e), e.file, e.date.None?, e.status.None?));
    if e.prose.Some? && e.model.Some? {
      var p, m := e.prose.value, e.model.value;
      assert !Issue(entries, HeaderUnparsed(KeyOf(e), p.file), lower);
      assert !UnparsedHeader(e, HeaderUnparsed(KeyOf(e), p.file));
      var f := Divergence(KeyOf(e), DriftOf(p, m, lower), p.file, m.file);
      assert !Issue(entries, f, lower);
      assert !Diverges(e, f, lower);
    }
  }

  // ---------------------------------------------------------------- one number, several entries

  /** The entries that bear a number. */
  function OfNumber(entries: seq<Entry>, n: nat): seq<Entry> { Group(entries, NumberOf, n) }

  predicate OneProject(entries: seq<Entry>) {
    forall a, b | a in entries && b in entries :: a.project == b.project
  }

  predicate OneBlankTitle(entries: seq<Entry>, lower: string -> string) {
    forall a, b | a in entries && b in entries :: a.title == b.title && CanonicalTitle(a, lower) == ""
  }

  /** No project bears the number twice. */
  predicate OneEach(entries: seq<Entry>) {
    forall i, j | 0 <= i < j < |entries| :: entries[i].project != entries[j].project
  }

  /** A finding across projects about the bearers of a number, taken by themselves. */
  ghost predicate ReportedAcross(bearers: seq<Entry>, n: nat, lower: string -> string) {
    Issue(bearers, CollisionAcross(n), lower) || exists t :: Issue(bearers, TitleDuplicate(t), lower)
  }

  /** Any finding that tells of a second bearer. */
  ghost predicate NumberReported(bearers: seq<Entry>, n: nat, lower: string -> string) {
    (exists k :: Issue(bearers, CollisionInside(k), lower)) || ReportedAcross(bearers, n, lower)
  }

  lemma InsideIff(bearers: seq<Entry>, n: nat, lower: string -> string)
    requires forall e | e in bearers :: e.number == n
    ensures (exists k :: Issue(bearers, CollisionInside(k), lower)) <==> !OneEach(bearers)
  {
    if k :| Issue(bearers, CollisionInside(k), lower) {
      assert SharedKey(bearers, k);
    }
    if !OneEach(bearers) {
      var i, j :| 0 <= i < j < |bearers| && bearers[i].project == bearers[j].project;
      assert bearers[i] in bearers && bearers[j] in bearers;
      assert Issue(bearers, CollisionInside(KeyOf(bearers[i])), lower);
    }
  }

  lemma OneProjectEach(bearers: seq<Entry>)
    ensures OneEach(bearers) && OneProject(bearers) <==> |bearers| <= 1
  {
    if |bearers| > 1 {
      assert bearers[0] in bearers && bearers[1] in bearers;
    }
  }

  /**
   The exception for equal titles across projects hardly ever shows: a second bearer of a number goes unreported exactly
   when every project bears the number once and all the bearers have one and the same blank title.
   */
  lemma SharedNumberReportedIff(entries: seq<Entry>, n: nat, lower: string -> string)
    ensures var bearers := OfNumber(entries, n);
            !NumberReported(bearers, n, lower) <==>
            |bearers| <= 1 || (OneEach(bearers) && OneBlankTitle(bearers, lower))
  {
    hide Group, CanonicalTitle, Issue, ReportedAcross;
    var bearers := OfNumber(entries, n);
    forall e | e in bearers ensures e.number == n {
      GroupMembers(entries, NumberOf, n, e);
    }
    InsideIff(bearers, n, lower);
    ReportedAcrossIff(bearers, n, lower);
    OneProjectEach(bearers);
  }

  /** Across projects: silence means one project, or one blank title. */
  lemma ReportedAcrossIff(bearers: seq<Entry>, n: nat, lower: string -> string)
    requires forall e | e in bearers :: e.number == n
    ensures !ReportedAcross(bearers, n, lower) <==> OneProject(bearers) || OneBlankTitle(bearers, lower)
  {
    hide CanonicalTitle, Issue, SharedNumber, SharedTitle;
    if !OneProject(bearers) {
      var a, b :| a in bearers && b in bearers && a.project != b.project;
      if OneBlankTitle(bearers, lower) {
        BlankIsSilent(bearers, n, lower);
      } else {
        TwoProjectsReported(bearers, n, a, b, lower);
      }
    } else {
      OneProjectIsSilent(bearers, n, lower);
    }
  }

  lemma OneProjectIsSilent(bearers: seq<Entry>, n: nat, lower: string -> string)
    requires OneProject(bearers) && forall e | e in bearers :: e.number == n
    ensures !ReportedAcross(bearers, n, lower)
  {
    hide CanonicalTitle;
  }

  lemma BlankIsSilent(bearers: seq<Entry>, n: nat, lower: string -> string)
    requires OneBlankTitle(bearers, lower)
    ensures !ReportedAcross(bearers, n, lower)
  {
    hide CanonicalTitle;
  }

  lemma TwoProjectsReported(bearers: seq<Entry>, n: nat, a: Entry, b: Entry, lower: string -> string)
    requires a in bearers && b in bearers && a.project != b.project && !OneBlankTitle(bearers, lower)
    requires forall e | e in bearers :: e.number == n
    ensures ReportedAcross(bearers, n, lower)
  {
    hide CanonicalTitle;
    if forall c, d | c in bearers && d in bearers :: c.title == d.title {
      SameCanonicalTitle(a, b, lower);
      var c, d :| c in bearers && d in bearers && !(c.title == d.title && CanonicalTitle(c, lower) == "");
      SameCanonicalTitle(a, c, lower);
      assert KeyOf(a) != KeyOf(b);
      assert SharedTitle(bearers, CanonicalTitle(a, lower), lower);
      assert Issue(bearers, TitleDuplicate(CanonicalTitle(a, lower)), lower);
    } else {
      var c, d :| c in bearers && d in bearers && c.title != d.title;
      var other := if c.title != a.title then c else d;
      assert SharedNumber(bearers, n) by {
        if a.title == b.title {
          assert other.project != a.project || other.project != b.project;
        }
      }
    }
  }

  lemma SameCanonicalTitle(a: Entry, b: Entry, lower: string -> string)
    ensures a.title == b.title ==> CanonicalTitle(a, lower) == CanonicalTitle(b, lower)
  {
  }

  /** The entries with a key are among those with its number. */
  lemma {:induction false} GroupInNumber(entries: seq<Entry>, k: Key)
    ensures Group(OfNumber(entries, k.number), KeyOf, k) == Group(entries, KeyOf, k)
  {
    if entries != [] {
      var init, last := entries[..|entries| - 1], entries[|entries| - 1];
      GroupInNumber(init, k);
      GroupConcat(OfNumber(init, k.number), if last.number == k.number then [last] else [], KeyOf, k);
      assert [last][..0] == [];
    }
  }

  /** What is reported about the bearers of a number is reported about the whole index. */
  lemma ReportedInAll(entries: seq<Entry>, n: nat, f: Finding, lower: string -> string)
    requires f.CollisionInside? || f.CollisionAcross? || f.TitleDuplicate?
    ensures Issue(OfNumber(entries, n), f, lower) ==> Issue(entries, f, lower)
  {
    hide Group, CanonicalTitle;
    forall e | e in OfNumber(entries, n) ensures e in entries && e.number == n {
      GroupMembers(entries, NumberOf, n, e);
    }
    if f.CollisionInside? && SharedKey(OfNumber(entries, n), f.key) {
      TwoInGroup(OfNumber(entries, n), f.key);
      TwoInGroup(entries, f.key);
      GroupInNumber(entries, f.key);
    }
  }

  /** So two entries with one number in different projects are reported, unless their title is blank. */
  lemma SharedNumberAlwaysReported(entries: seq<Entry>, a: Entry, b: Entry, lower: string -> string)
    requires a in entries && b in entries && a.number == b.number && a.project != b.project
    requires CanonicalTitle(a, lower) != ""
    ensures Issue(entries, CollisionAcross(a.number), lower)
         || Issue(entries, TitleDuplicate(CanonicalTitle(a, lower)), lower)
  {
    if a.title != b.title {
      assert SharedNumber(entries, a.number);
    } else {
      assert KeyOf(a) != KeyOf(b) && SharedTitle(entries, CanonicalTitle(a, lower), lower);
    }
  }

  // ---------------------------------------------------------------- from the sources to the findings

  /** An index as collected: no entry is merged yet. */
  ghost predicate Collected(entries: seq<Entry>) {
    forall e | e in entries :: e.source != Merged && e.prose.None? && e.model.None?
  }

  /** A number collides inside a project exactly when the project has two prose files or two model files for it. */
  lemma {:induction false} InsideCollisionIff(entries: seq<Entry>, keys: seq<Key>, k: Key, lower: string -> string)
    requires Collected(entries) && Enumerates(keys, entries)
    ensures Issue(MergeAlong(entries, keys), CollisionInside(k), lower) <==>
            CountSource(Group(entries, KeyOf, k), Prose) >= 2 || CountSource(Group(entries, KeyOf, k), Model) >= 2
  {
    hide MergeAlong, Group, MergeGroup, CountSource, SharedKey;
    var group := Group(entries, KeyOf, k);
    TwoInGroup(MergeAlong(entries, keys), k);
    GroupsAfterMerge(entries, keys, k);
    forall e | e in group ensures e.source != Merged {
      GroupMembers(entries, KeyOf, k, e);
    }
    CollisionIff(group);
  }

  /** A prose entry and a model entry are all that was collected under a key. */
  ghost predicate TwoFaces(entries: seq<Entry>, k: Key, p: Entry, m: Entry) {
    p.source == Prose && m.source == Model && (Group(entries, KeyOf, k) == [p, m] || Group(entries, KeyOf, k) == [m, p])
  }

  /** What is found between two faces, field by field; a status that could not be read is no divergence. */
  ghost predicate FoundBetween(p: Entry, m: Entry, f: Finding, lower: string -> string) {
    match f
    case HeaderUnparsed(_, file) => p.unparsed && file == p.file
    case Divergence(_, d, prose, model) =>
      && prose == p.file && model == m.file && (d.title || d.status || d.date)
      && d.title == (Trim(p.title) != Trim(m.title))
      && d.status == (!p.unparsed && CanonicalStatus(p.status, lower) != CanonicalStatus(m.status, lower))
      && d.date == (CanonicalDate(p.date) != CanonicalDate(m.date))
    case _ => false
  }

  /** The pair made of two faces, as the findings see it. */
  lemma PairFindings(e: Entry, p: Entry, m: Entry, f: Finding, lower: string -> string)
    requires e == MergePair(p, m) && KeyOf(p) == KeyOf(m)
    requires (f.HeaderUnparsed? || f.Divergence?) && f.key == KeyOf(p)
    ensures UnparsedHeader(e, f) || Diverges(e, f, lower) <==> FoundBetween(p, m, f, lower)
  {
    hide Trim, CanonicalStatus, CanonicalDate;
  }

  lemma {:induction false} TwoFacesMerge(entries: seq<Entry>, k: Key, p: Entry, m: Entry)
    requires TwoFaces(entries, k, p, m)
    ensures MergeGroup(Group(entries, KeyOf, k)) == [MergePair(p, m)]
  {
    hide Group, CountSource, Others, LastOf, MergePair;
    var group := Group(entries, KeyOf, k);
    var i, j := if group == [p, m] then 0 else 1, if group == [p, m] then 1 else 0;
    assert OnlyPair(group, i, j);
    OnlyPairCounts(group, i, j);
    TheFace(group, i, j);
    assert WithoutTwo(group, i, j) == [];
  }

  lemma {:induction false} PairedIsTwo(entries: seq<Entry>, k: Key)
    requires Collected(entries) && Pairable(Group(entries, KeyOf, k))
    ensures exists p, m :: TwoFaces(entries, k, p, m)
  {
    hide Group, CountSource;
    var group := Group(entries, KeyOf, k);
    PairFound(group);
    var i: nat, j: nat :| OnlyPair(group, i, j);
    forall e | e in group ensures e.source != Merged {
      GroupMembers(entries, KeyOf, k, e);
    }
    if |group| > 2 {
      ThirdIsMerged(group, i, j);
    }
    assert group == if i == 0 then [group[i], group[j]] else [group[j], group[i]];
    assert TwoFaces(entries, k, group[i], group[j]);
  }

  lemma ThirdIsMerged(group: seq<Entry>, i: nat, j: nat)
    requires OnlyPair(group, i, j) && |group| > 2
    ensures exists n :: 0 <= n < |group| && group[n].source == Merged
  {
    var n := if 0 != i && 0 != j then 0 else if 1 != i && 1 != j then 1 else 2;
    assert group[n].source == Merged;
  }

  /** The entries of the merged index with a key are the merge of the group; faces stand in pairs only. */
  lemma {:induction false} FacedEntry(entries: seq<Entry>, keys: seq<Key>, k: Key, e: Entry)
    requires Collected(entries) && Enumerates(keys, entries)
    ensures e in MergeGroup(Group(entries, KeyOf, k)) <==> e in MergeAlong(entries, keys) && KeyOf(e) == k
    ensures e in MergeGroup(Group(entries, KeyOf, k)) && e.prose.Some? ==> Pairable(Group(entries, KeyOf, k))
  {
    hide Group, MergeAlong, CountSource;
    GroupsAfterMerge(entries, keys, k);
    GroupMembers(MergeAlong(entries, keys), KeyOf, k, e);
    GroupMembers(entries, KeyOf, k, e);
  }

  /** The faces of a decision are compared exactly when it has one of each, and this is what is found between them. */
  lemma {:induction false} DivergenceIff(entries: seq<Entry>, keys: seq<Key>, f: Finding, lower: string -> string)
    requires Collected(entries) && Enumerates(keys, entries) && (f.HeaderUnparsed? || f.Divergence?)
    ensures Issue(MergeAlong(entries, keys), f, lower) <==>
            exists p, m :: TwoFaces(entries, f.key, p, m) && FoundBetween(p, m, f, lower)
  {
    hide MergeAlong, Group, MergeGroup, Enumerates, FoundBetween, UnparsedHeader, Diverges, Pairable;
    var merged, group := MergeAlong(entries, keys), Group(entries, KeyOf, f.key);
    if Issue(merged, f, lower) {
      var e :| e in merged && (UnparsedHeader(e, f) || Diverges(e, f, lower));
      FindingHasFaces(e, f, lower);
      FacedEntry(entries, keys, f.key, e);
      PairedIsTwo(entries, f.key);
      var p, m :| TwoFaces(entries, f.key, p, m);
      TwoFacesMerge(entries, f.key, p, m);
      SameKeys(entries, f.key, p, m);
      PairFindings(e, p, m, f, lower);
    }
    if p, m :| TwoFaces(entries, f.key, p, m) && FoundBetween(p, m, f, lower) {
      var e := MergePair(p, m);
      TwoFacesMerge(entries, f.key, p, m);
      SameKeys(entries, f.key, p, m);
      PairFindings(e, p, m, f, lower);
      assert e in [e];
      FacedEntry(entries, keys, f.key, e);
      FindingIsIssue(merged, e, f, lower);
    }
  }

  lemma FindingHasFaces(e: Entry, f: Finding, lower: string -> string)
    requires UnparsedHeader(e, f) || Diverges(e, f, lower)
    ensures e.prose.Some? && (f.HeaderUnparsed? || f.Divergence?) && KeyOf(e) == f.key
  {
  }

  lemma FindingIsIssue(entries: seq<Entry>, e: Entry, f: Finding, lower: string -> string)
    requires e in entries && (UnparsedHeader(e, f) || Diverges(e, f, lower))
    ensures Issue(entries, f, lower)
  {
  }

  lemma {:induction false} SameKeys(entries: seq<Entry>, k: Key, p: Entry, m: Entry)
    requires TwoFaces(entries, k, p, m)
    ensures KeyOf(p) == k && KeyOf(m) == k
  {
    hide Group;
    GroupMembers(entries, KeyOf, k, p);
    GroupMembers(entries, KeyOf, k, m);
    assert p in [p, m] && m in [p, m] && p in [m, p] && m in [m, p];
  }
}
