/** Splitting and joining at a one-character separator. */
module Paths {
  function Split(s: string, sep: char): (parts: seq<string>)
    ensures parts != []
  {
    if s == "" then [""]
    else
      var rest := Split(s[1..], sep);
      if s[0] == sep then [""] + rest else [[s[0]] + rest[0]] + rest[1..]
  }

  function Join(parts: seq<string>, sep: char): string {
    if parts == [] then "" else if |parts| == 1 then parts[0] else parts[0] + ([sep] + Join(parts[1..], sep))
  }

  /** Splitting a text that starts with a separator-free part and goes on with the separator. */
  lemma {:induction false} SplitFront(part: string, rest: string, sep: char)
    requires sep !in part
    ensures Split(part + ([sep] + rest), sep) == [part] + Split(rest, sep)
    ensures Split(part, sep) == [part]
  {
    if part == "" {
      assert part + ([sep] + rest) == [sep] + rest && ([sep] + rest)[1..] == rest;
    } else {
      assert part[0] in part;
      assert (part + ([sep] + rest))[1..] == part[1..] + ([sep] + rest);
      SplitFront(part[1..], rest, sep);
      assert [part[0]] + part[1..] == part;
      assert ([part[1..]] + Split(rest, sep))[1..] == Split(rest, sep);
    }
  }

  /** Splitting loses nothing and leaves no separator inside a part. */
  lemma {:induction false} JoinSplit(s: string, sep: char)
    ensures Join(Split(s, sep), sep) == s
    ensures forall p | p in Split(s, sep) :: sep !in p
  {
    if s != "" {
      var rest := Split(s[1..], sep);
      JoinSplit(s[1..], sep);
      assert rest[0] in rest;
      if s[0] == sep {
        assert ([""] + rest)[1..] == rest;
        assert Join([""] + rest, sep) == "" + ([sep] + s[1..]);
      } else {
        LongerFirst(s[0], rest, sep);
      }
    }
  }

  lemma {:induction false} LongerFirst(c: char, rest: seq<string>, sep: char)
    requires rest != []
    ensures Join([[c] + rest[0]] + rest[1..], sep) == [c] + Join(rest, sep)
  {
    var longer := [[c] + rest[0]] + rest[1..];
    assert longer[1..] == rest[1..] && longer[0] == [c] + rest[0];
    if |rest| > 1 {
      assert ([c] + rest[0]) + ([sep] + Join(rest[1..], sep)) == [c] + (rest[0] + ([sep] + Join(rest[1..], sep)));
    }
  }

  /** A non-empty list of separator-free parts is recovered from its join. */
  lemma {:induction false} SplitJoin(parts: seq<string>, sep: char)
    requires parts != [] && forall p | p in parts :: sep !in p
    ensures Split(Join(parts, sep), sep) == parts
  {
    assert parts[0] in parts;
    if |parts| == 1 {
      SplitFront(parts[0], "", sep);
    } else {
      SplitJoin(parts[1..], sep);
      SplitFront(parts[0], Join(parts[1..], sep), sep);
      assert parts == [parts[0]] + parts[1..];
    }
  }
}
