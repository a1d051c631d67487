/** The ADR registry: merging the two faces of a decision and the findings (src/adr_registry.rs). */
module Registry {
  import opened Wrappers
  import opened Strings
  import opened Sequences
  import opened Text

  datatype Source = Prose | Model | Merged

  datatype Face = Face(file: string, title: string, status: Option<string>, date: Option<string>, unparsed: bool)

  datatype Entry = Entry(
    project: string, number: nat, title: string, status: Option<string>, date: Option<string>,
    source: Source, file: string, unparsed: bool, prose: Option<Face>, model: Option<Face>)

  datatype Key = Key(project: string, number: nat)

  function KeyOf(e: Entry): Key { Key(e.project, e.number) }

  // ---------------------------------------------------------------- groups

  /** The entries with a given key, in order. */
  function Group<K(==)>(entries: seq<Entry>, key: Entry -> K, k: K): seq<Entry> {
    if entries == [] then []
    else
      var last := entries[|entries| - 1];
      Group(entries[..|entries| - 1], key, k) + if key(last) == k then [last] else []
  }

  lemma GroupExtend<K>(entries: seq<Entry>, i: nat, key: Entry -> K, k: K)
    requires i < |entries|
    ensures Group(entries[..i + 1], key, k)
         == Group(entries[..i], key, k) + if key(entries[i]) == k then [entries[i]] else []
  {
    assert entries[..i + 1][..i] == entries[..i];
  }

  method GroupBy<K(==,!new)>(entries: seq<Entry>, key: Entry -> K) returns (groups: map<K, seq<Entry>>)
    ensures forall k :: k in groups <==> Group(entries, key, k) != []
    ensures forall k | k in groups :: groups[k] == Group(entries, key, k)
  {
    groups := map[];
    assert forall k :: Group([], key, k) == [];
    hide Group;
    for i := 0 to |entries|
      invariant forall k :: k in groups <==> Group(entries[..i], key, k) != []
      invariant forall k | k in groups :: groups[k] == Group(entries[..i], key, k)
    {
      var e := entries[i];
      forall k ensures Group(entries[..i + 1], key, k) == Group(entries[..i], key, k) + if key(e) == k then [e] else [] {
        GroupExtend(entries, i, key, k);
      }
      groups := groups[key(e) := (if key(e) in groups then groups[key(e)] else []) + [e]];
    }
    assert entries[..|entries|] == entries;
  }

  lemma {:induction false} GroupConcat<K>(a: seq<Entry>, b: seq<Entry>, key: Entry -> K, k: K)
    ensures Group(a + b, key, k) == Group(a, key, k) + Group(b, key, k)
  {
    if b == [] {
      assert a + b == a;
    } else {
      var init := b[..|b| - 1];
      assert (a + b)[..|a + b| - 1] == a + init;
      GroupConcat(a, init, key, k);
    }
  }

  /** A group holds exactly the entries with its key. */
  lemma {:induction false} GroupMembers<K>(entries: seq<Entry>, key: Entry -> K, k: K, e: Entry)
    ensures e in Group(entries, key, k) <==> e in entries && key(e) == k
  {
    if entries != [] {
      GroupMembers(entries[..|entries| - 1], key, k, e);
      assert entries == entries[..|entries| - 1] + [entries[|entries| - 1]];
    }
  }

  lemma {:induction false} GroupOfOneKey<K>(entries: seq<Entry>, key: Entry -> K, own: K, k: K)
    requires forall e | e in entries :: key(e) == own
    ensures Group(entries, key, k) == if k == own then entries else []
  {
    if entries != [] {
      var init, last := entries[..|entries| - 1], entries[|entries| - 1];
      assert last in entries && entries == init + [last] && forall e | e in init :: e in entries;
      GroupOfOneKey(init, key, own, k);
    }
  }

  // ---------------------------------------------------------------- merging

  function CountSource(group: seq<Entry>, source: Source): nat {
    if group == [] then 0
    else CountSource(group[..|group| - 1], source) + if group[|group| - 1].source == source then 1 else 0
  }

  /** One prose face and one model face: the pair describes one decision. */
  predicate Pairable(group: seq<Entry>) {
    CountSource(group, Prose) == 1 && CountSource(group, Model) == 1
  }

  /** The last entry of a source. */
  function LastOf(group: seq<Entry>, source: Source): (e: Option<Entry>)
    ensures e.Some? <==> CountSource(group, source) > 0
    ensures e.Some? ==> e.value in group && e.value.source == source
  {
    if group == [] then None
    else if group[|group| - 1].source == source then Some(group[|group| - 1])
    else LastOf(group[..|group| - 1], source)
  }

  /** Entries that are neither prose nor model. */
  function Others(group: seq<Entry>): seq<Entry> {
    if group == [] then []
    else Others(group[..|group| - 1]) + if group[|group| - 1].source == Merged then [group[|group| - 1]] else []
  }

  function FaceOf(e: Entry): Face { Face(e.file, e.title, e.status, e.date, e.unparsed) }

  /** The prose face leads; the model face fills in what it lacks. */
  function MergePair(p: Entry, m: Entry): Entry {
    Entry(
      p.project, p.number,
      if Trim(p.title) == "" then m.title else p.title,
      if p.status.Some? then p.status else m.status,
      if p.date.Some? then p.date else m.date,
      Merged, p.file, p.unparsed, Some(FaceOf(p)), Some(FaceOf(m)))
  }

  function MergeGroup(group: seq<Entry>): seq<Entry> {
    if Pairable(group)
    then Others(group) + [MergePair(LastOf(group, Prose).value, LastOf(group, Model).value)]
    else group
  }

  /** The merged index, the groups taken in the order of `keys`. */
  function MergeAlong(entries: seq<Entry>, keys: seq<Key>): seq<Entry> {
    if keys == [] then []
    else MergeAlong(entries, keys[..|keys| - 1]) + MergeGroup(Group(entries, KeyOf, keys[|keys| - 1]))
  }

  lemma {:induction false} MergeAlongExtend(entries: seq<Entry>, keys: seq<Key>, k: Key)
    ensures MergeAlong(entries, keys + [k]) == MergeAlong(entries, keys) + MergeGroup(Group(entries, KeyOf, k))
  {
    hide MergeGroup, Group;
    assert (keys + [k])[..|keys|] == keys;
  }

  /** Every key that occurs, once. */
  ghost predicate Enumerates(keys: seq<Key>, entries: seq<Entry>) {
    Distinct(keys) && forall k :: k in keys <==> Group(entries, KeyOf, k) != []
  }

  method MergeFaces(entries: seq<Entry>) returns (merged: seq<Entry>, keys: seq<Key>)
    ensures Enumerates(keys, entries)
    ensures merged == MergeAlong(entries, keys)
  {
    hide Group, MergeGroup, KeyOf, Distinct;
    var groups := GroupBy(entries, KeyOf);
    merged, keys := [], [];
    assert merged == MergeAlong(entries, keys);
    DistinctEmpty<Key>();
    hide MergeAlong;
    var remaining := groups.Keys;
    while remaining != {}
      invariant remaining <= groups.Keys
      invariant forall k :: k in keys <==> k in groups.Keys - remaining
      invariant Distinct(keys)
      invariant merged == MergeAlong(entries, keys)
    {
      var k :| k in remaining;
      var group := MergeOne(groups[k]);
      merged := merged + group;
      MergeAlongExtend(entries, keys, k);
      assert k !in keys;
      DistinctExtend(keys, k);
      assert forall q :: q in keys + [k] <==> q in keys || q == k;
      keys := keys + [k];
      remaining := remaining - {k};
    }
  }

  method MergeOne(group: seq<Entry>) returns (out: seq<Entry>)
    ensures out == MergeGroup(group)
  {
    if CountSource(group, Prose) != 1 || CountSource(group, Model) != 1 {
      return group;
    }
    var prose, model: Option<Entry> := None, None;
    out := [];
    for i := 0 to |group|
      invariant prose == LastOf(group[..i], Prose)
      invariant model == LastOf(group[..i], Model)
      invariant out == Others(group[..i])
    {
      assert group[..i + 1][..i] == group[..i];
      match group[i].source
      case Prose => prose := Some(group[i]);
      case Model => model := Some(group[i]);
      case Merged => out := out + [group[i]];
    }
    assert group[..|group|] == group;
    out := out + [MergePair(prose.value, model.value)];
  }

  // ---------------------------------------------------------------- what merging keeps

  lemma {:induction false} CountSplit(group: seq<Entry>)
    ensures |Others(group)| + CountSource(group, Prose) + CountSource(group, Model) == |group|
  {
    if group != [] {
      CountSplit(group[..|group| - 1]);
    }
  }

  lemma {:induction false} OthersMembers(group: seq<Entry>)
    ensures forall e | e in Others(group) :: e in group && e.source == Merged
  {
    if group != [] {
      OthersMembers(group[..|group| - 1]);
    }
  }

  /** Merging a pair makes one entry of two and touches no other group. */
  lemma MergeGroupSize(group: seq<Entry>)
    ensures |MergeGroup(group)| == |group| - if Pairable(group) then 1 else 0
  {
    CountSplit(group);
  }

  lemma {:induction false} NoFacesLeft(group: seq<Entry>)
    requires forall e | e in group :: e.source == Merged
    ensures CountSource(group, Prose) == 0
  {
    if group != [] {
      NoFacesLeft(group[..|group| - 1]);
    }
  }

  lemma MergeGroupTwice(group: seq<Entry>)
    ensures MergeGroup(MergeGroup(group)) == MergeGroup(group)
  {
    if Pairable(group) {
      hide LastOf, MergePair;
      OthersMembers(group);
      NoFacesLeft(MergeGroup(group));
    }
  }

  lemma MergeGroupKeepsKey(group: seq<Entry>, k: Key)
    requires forall e | e in group :: KeyOf(e) == k
    ensures forall e | e in MergeGroup(group) :: KeyOf(e) == k
  {
    OthersMembers(group);
  }

  /** Every group of the merged index is the merge of the original group; nothing crosses groups. */
  lemma {:induction false} MergedGroups(entries: seq<Entry>, keys: seq<Key>, k: Key)
    requires Distinct(keys)
    ensures Group(MergeAlong(entries, keys), KeyOf, k)
         == if k in keys then MergeGroup(Group(entries, KeyOf, k)) else []
  {
    if keys != [] {
      hide MergeGroup, Group;
      var init, last := keys[..|keys| - 1], keys[|keys| - 1];
      var group := Group(entries, KeyOf, last);
      assert keys == init + [last] && last !in init;
      MergedGroups(entries, init, k);
      forall e | e in group ensures KeyOf(e) == last {
        GroupMembers(entries, KeyOf, last, e);
      }
      MergeGroupKeepsKey(group, last);
      GroupOfOneKey(MergeGroup(group), KeyOf, last, k);
      GroupConcat(MergeAlong(entries, init), MergeGroup(group), KeyOf, k);
    } else {
      assert Group([], KeyOf, k) == [];
    }
  }

  lemma {:induction false} GroupsAfterMerge(entries: seq<Entry>, keys: seq<Key>, k: Key)
    requires Enumerates(keys, entries)
    ensures Group(MergeAlong(entries, keys), KeyOf, k) == MergeGroup(Group(entries, KeyOf, k))
  {
    hide Group;
    MergedGroups(entries, keys, k);
    EmptyGroup();
  }

  lemma EmptyGroup()
    ensures MergeGroup([]) == []
  {
  }

  /** Merging a merged index changes nothing. */
  lemma {:induction false} MergeIdempotent(entries: seq<Entry>, keys: seq<Key>)
    requires Enumerates(keys, entries)
    ensures MergeAlong(MergeAlong(entries, keys), keys) == MergeAlong(entries, keys)
    ensures Enumerates(keys, MergeAlong(entries, keys))
  {
    hide Group, MergeGroup, MergeAlong;
    var merged := MergeAlong(entries, keys);
    forall k ensures Group(merged, KeyOf, k) == MergeGroup(Group(entries, KeyOf, k))
             ensures MergeGroup(Group(merged, KeyOf, k)) == MergeGroup(Group(entries, KeyOf, k))
             ensures Group(merged, KeyOf, k) == [] <==> Group(entries, KeyOf, k) == [] {
      GroupsAfterMerge(entries, keys, k);
      MergeGroupTwice(Group(entries, KeyOf, k));
      MergeGroupSize(Group(entries, KeyOf, k));
      MergeNeverEmpties(Group(entries, KeyOf, k));
    }
    SameAlong(merged, entries, keys);
  }

  lemma MergeNeverEmpties(group: seq<Entry>)
    ensures MergeGroup(group) == [] <==> group == []
  {
    EmptyGroup();
  }

  lemma {:induction false} SameAlong(a: seq<Entry>, b: seq<Entry>, keys: seq<Key>)
    requires forall k | k in keys :: MergeGroup(Group(a, KeyOf, k)) == MergeGroup(Group(b, KeyOf, k))
    ensures MergeAlong(a, keys) == MergeAlong(b, keys)
  {
    hide MergeGroup, Group;
    if keys != [] {
      SameAlong(a, b, keys[..|keys| - 1]);
    }
  }

  /** How many of the groups are pairs. */
  function Pairs(entries: seq<Entry>, keys: seq<Key>): nat {
    if keys == [] then 0
    else Pairs(entries, keys[..|keys| - 1]) + if Pairable(Group(entries, KeyOf, keys[|keys| - 1])) then 1 else 0
  }

  function GroupSizes(entries: seq<Entry>, keys: seq<Key>): nat {
    if keys == [] then 0
    else GroupSizes(entries, keys[..|keys| - 1]) + |Group(entries, KeyOf, keys[|keys| - 1])|
  }

  lemma {:induction false} MergedSize(entries: seq<Entry>, keys: seq<Key>)
    ensures |MergeAlong(entries, keys)| + Pairs(entries, keys) == GroupSizes(entries, keys)
  {
    if keys != [] {
      hide MergeGroup, Group, Pairable;
      MergedSize(entries, keys[..|keys| - 1]);
      MergeGroupSize(Group(entries, KeyOf, keys[|keys| - 1]));
    }
  }

  /** One more entry adds one to the sizes when its key is listed, once, and nothing otherwise. */
  lemma {:induction false} SizesGrow(entries: seq<Entry>, e: Entry, keys: seq<Key>)
    requires Distinct(keys)
    ensures GroupSizes(entries + [e], keys) == GroupSizes(entries, keys) + if KeyOf(e) in keys then 1 else 0
  {
    if keys != [] {
      var init, last := keys[..|keys| - 1], keys[|keys| - 1];
      SizesGrow(entries, e, init);
      assert keys == init + [last] && last !in init;
      assert (entries + [e])[..|entries|] == entries;
    }
  }

  lemma {:induction false} SizesAddUp(entries: seq<Entry>, keys: seq<Key>)
    requires Distinct(keys) && forall e | e in entries :: KeyOf(e) in keys
    ensures GroupSizes(entries, keys) == |entries|
  {
    if entries == [] {
      NoSizes(keys);
    } else {
      var init, e := entries[..|entries| - 1], entries[|entries| - 1];
      SizesAddUp(init, keys);
      SizesGrow(init, e, keys);
      assert entries == init + [e];
    }
  }

  lemma {:induction false} NoSizes(keys: seq<Key>)
    ensures GroupSizes([], keys) == 0
  {
    if keys != [] {
      NoSizes(keys[..|keys| - 1]);
    }
  }

  /** Merging loses one entry for each pair and no other. */
  lemma {:induction false} MergeConserves(entries: seq<Entry>, keys: seq<Key>)
    requires Enumerates(keys, entries)
    ensures |MergeAlong(entries, keys)| + Pairs(entries, keys) == |entries|
  {
    hide Group, MergeAlong, Pairs;
    forall e | e in entries ensures KeyOf(e) in keys {
      GroupMembers(entries, KeyOf, KeyOf(e), e);
      assert e in Group(entries, KeyOf, KeyOf(e));
    }
    MergedSize(entries, keys);
    SizesAddUp(entries, keys);
  }

  lemma {:induction false} NoOthers(group: seq<Entry>)
    requires forall e | e in group :: e.source != Merged
    ensures Others(group) == []
  {
    if group != [] {
      NoOthers(group[..|group| - 1]);
    }
  }

  /** After merging a number is shared inside a project exactly when one representation has it twice. */
  lemma {:induction false} CollisionIff(group: seq<Entry>)
    requires forall e | e in group :: e.source != Merged
    ensures |MergeGroup(group)| >= 2 <==> CountSource(group, Prose) >= 2 || CountSource(group, Model) >= 2
  {
    MergeGroupSize(group);
    CountSplit(group);
    NoOthers(group);
  }

  // ---------------------------------------------------------------- what a pair becomes

  /** One prose face at `i`, one model face at `j`, and no other. */
  ghost predicate OnlyPair(group: seq<Entry>, i: nat, j: nat) {
    && i < |group| && j < |group| && group[i].source == Prose && group[j].source == Model
    && forall k | 0 <= k < |group| && k != i && k != j :: group[k].source == Merged
  }

  /** The group without the entries at two places. */
  function WithoutTwo(group: seq<Entry>, i: nat, j: nat): seq<Entry>
    requires i < |group| && j < |group| && i != j
  {
    if i < j then group[..i] + group[i + 1..j] + group[j + 1..] else group[..j] + group[j + 1..i] + group[i + 1..]
  }

  lemma {:induction false} CountConcat(a: seq<Entry>, b: seq<Entry>, source: Source)
    ensures CountSource(a + b, source) == CountSource(a, source) + CountSource(b, source)
  {
    if b == [] {
      assert a + b == a;
    } else {
      assert (a + b)[..|a + b| - 1] == a + b[..|b| - 1];
      CountConcat(a, b[..|b| - 1], source);
    }
  }

  lemma {:induction false} OthersConcat(a: seq<Entry>, b: seq<Entry>)
    ensures Others(a + b) == Others(a) + Others(b)
  {
    if b == [] {
      assert a + b == a;
    } else {
      assert (a + b)[..|a + b| - 1] == a + b[..|b| - 1];
      OthersConcat(a, b[..|b| - 1]);
    }
  }

  lemma {:induction false} MergedOnly(group: seq<Entry>)
    requires forall e | e in group :: e.source == Merged
    ensures Others(group) == group && CountSource(group, Prose) == 0 && CountSource(group, Model) == 0
  {
    if group != [] {
      var init, last := group[..|group| - 1], group[|group| - 1];
      assert group == init + [last] && last in group;
      MergedOnly(init);
    }
  }

  lemma {:induction false} OneEntry(e: Entry, source: Source)
    ensures CountSource([e], source) == if e.source == source then 1 else 0
    ensures Others([e]) == if e.source == Merged then [e] else []
  {
    assert [e][..0] == [];
  }

  /** Two faces among merged entries, in either order. */
  lemma {:induction false} SplitInThree(a: seq<Entry>, x: Entry, b: seq<Entry>, y: Entry, c: seq<Entry>)
    requires forall e | e in a + b + c :: e.source == Merged
    requires x.source != Merged && y.source != Merged && x.source != y.source
    ensures var group := a + [x] + b + [y] + c;
            && Others(group) == a + b + c
            && CountSource(group, Prose) == 1 && CountSource(group, Model) == 1
  {
    hide Others, CountSource;
    assert (forall e | e in a :: e in a + b + c) && (forall e | e in b :: e in a + b + c)
           && forall e | e in c :: e in a + b + c;
    MergedOnly(a);
    MergedOnly(b);
    MergedOnly(c);
    OthersConcat(a, [x]);
    OthersConcat(a + [x], b);
    OthersConcat(a + [x] + b, [y]);
    OthersConcat(a + [x] + b + [y], c);
    ThreeCounts(a, x, b, y, c, Prose);
    ThreeCounts(a, x, b, y, c, Model);
    OneEntry(x, x.source);
    OneEntry(y, y.source);
  }

  lemma {:induction false} ThreeCounts(a: seq<Entry>, x: Entry, b: seq<Entry>, y: Entry, c: seq<Entry>, source: Source)
    ensures CountSource(a + [x] + b + [y] + c, source) ==
            CountSource(a, source) + CountSource(b, source) + CountSource(c, source)
            + (if x.source == source then 1 else 0) + (if y.source == source then 1 else 0)
  {
    hide CountSource;
    CountConcat(a, [x], source);
    CountConcat(a + [x], b, source);
    CountConcat(a + [x] + b, [y], source);
    CountConcat(a + [x] + b + [y], c, source);
    OneEntry(x, source);
    OneEntry(y, source);
  }

  lemma {:induction false} OnlyPairCounts(group: seq<Entry>, i: nat, j: nat)
    requires OnlyPair(group, i, j)
    ensures Pairable(group) && Others(group) == WithoutTwo(group, i, j)
  {
    hide Others, CountSource;
    if i < j {
      var a, b, c := group[..i], group[i + 1..j], group[j + 1..];
      assert group == a + [group[i]] + b + [group[j]] + c;
      SplitInThree(a, group[i], b, group[j], c);
    } else {
      var a, b, c := group[..j], group[j + 1..i], group[i + 1..];
      assert group == a + [group[j]] + b + [group[i]] + c;
      SplitInThree(a, group[j], b, group[i], c);
    }
  }

  lemma {:induction false} TheFace(group: seq<Entry>, i: nat, j: nat)
    requires OnlyPair(group, i, j)
    ensures LastOf(group, Prose) == Some(group[i]) && LastOf(group, Model) == Some(group[j])
  {
    OnlyPairCounts(group, i, j);
    hide CountSource;
    var p, m := LastOf(group, Prose), LastOf(group, Model);
    assert p.Some? && m.Some?;
    var a :| 0 <= a < |group| && group[a] == p.value;
    var b :| 0 <= b < |group| && group[b] == m.value;
    assert a == i && b == j;
  }

  /**
   What a pair becomes, field by field: project, number, file and header of the prose face; its title unless that is
   blank, its status and its date unless it has none, and then those of the model face; both faces as they were. It
   stands behind the other entries of the group.
   */
  lemma PairBecomes(group: seq<Entry>, i: nat, j: nat)
    requires OnlyPair(group, i, j)
    ensures var p, m := group[i], group[j];
            MergeGroup(group) == WithoutTwo(group, i, j) + [Entry(
              p.project, p.number,
              if exists c | c in p.title :: !IsWhitespace(c) then p.title else m.title,
              if p.status.Some? then p.status else m.status,
              if p.date.Some? then p.date else m.date,
              Merged, p.file, p.unparsed,
              Some(Face(p.file, p.title, p.status, p.date, p.unparsed)),
              Some(Face(m.file, m.title, m.status, m.date, m.unparsed)))]
  {
    hide CountSource, LastOf, Others;
    OnlyPairCounts(group, i, j);
    TheFace(group, i, j);
    BlankTitle(group[i].title);
  }

  lemma {:induction false} BlankTitle(s: string)
    ensures Trim(s) == "" <==> forall c | c in s :: IsWhitespace(c)
  {
    if s == "" {
    } else if IsWhitespace(s[0]) {
      BlankTitle(s[1..]);
      assert forall c :: c in s <==> c == s[0] || c in s[1..];
    } else {
      assert SkipBlanks(s) == s && s[0] in s;
      assert TrimEnd(s) != "";
    }
  }

  /** Any other group stays as it is. */
  lemma NoPairStays(group: seq<Entry>)
    requires forall i: nat, j: nat :: !OnlyPair(group, i, j)
    ensures MergeGroup(group) == group
  {
    if Pairable(group) {
      PairFound(group);
    }
  }

  lemma {:induction false} FaceFound(group: seq<Entry>, source: Source) returns (i: nat)
    requires CountSource(group, source) == 1
    ensures i < |group| && group[i].source == source
    ensures forall k | 0 <= k < |group| && k != i :: group[k].source != source
  {
    var last := |group| - 1;
    if group[last].source == source {
      i := last;
      NoneLeft(group[..last], source);
    } else {
      i := FaceFound(group[..last], source);
    }
  }

  lemma {:induction false} NoneLeft(group: seq<Entry>, source: Source)
    requires CountSource(group, source) == 0
    ensures forall k | 0 <= k < |group| :: group[k].source != source
  {
    if group != [] {
      NoneLeft(group[..|group| - 1], source);
    }
  }

  lemma PairFound(group: seq<Entry>)
    requires Pairable(group)
    ensures exists i: nat, j: nat :: OnlyPair(group, i, j)
  {
    hide CountSource;
    var i := FaceFound(group, Prose);
    var j := FaceFound(group, Model);
    assert OnlyPair(group, i, j);
  }
}
