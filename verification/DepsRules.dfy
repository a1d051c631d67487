/** The gate's list of violations, told from the rules and the imports alone (scripts/deps-check.py). */
module DepsRules {
  import opened Strings
  import opened Paths
  import opened DepsCheck

  // ---------------------------------------------------------------- which import is forbidden

  /** A path falls under a pattern: it can be cut along the pattern's segments. */
  ghost predicate Under(pattern: string, rel: string, fn: Fnmatch) {
    exists cuts :: Aligned(Split(pattern, '/'), Split(rel, '/'), cuts, fn)
  }

  /** A module is an entry or lies inside it. */
  predicate Within(mod: string, entry: string) {
    mod == entry || entry + "::" <= mod
  }

  /** The file is covered and not exempt, the module is not the crate's own root, and the rule's list decides. */
  ghost predicate Forbidden(rule: Rule, rel: string, mod: string, fn: Fnmatch) {
    && (exists p :: p in rule.covered && Under(p, rel, fn))
    && (forall p | p in rule.exempt :: !Under(p, rel, fn))
    && !Within(mod, "crate")
    && (rule.allow.Some? ==> forall e | e in rule.allow.value :: !Within(mod, e))
    && (rule.forbid.Some? ==> exists e :: e in rule.forbid.value && Within(mod, e))
  }

  lemma {:induction false} UnderIs(pattern: string, rel: string, fn: Fnmatch)
    ensures Matches(Split(pattern, '/'), Split(rel, '/'), fn) <==> Under(pattern, rel, fn)
  {
    MatchesIffAligned(Split(pattern, '/'), Split(rel, '/'), fn);
  }

  lemma SomeUnder(patterns: seq<string>, rel: string, fn: Fnmatch)
    ensures MatchesAny(patterns, rel, fn) <==> exists p :: p in patterns && Under(p, rel, fn)
  {
    hide Matches, Under;
    forall p | p in patterns ensures Matches(Split(p, '/'), Split(rel, '/'), fn) <==> Under(p, rel, fn) {
      UnderIs(p, rel, fn);
    }
  }

  lemma CrateHasNoColon()
    ensures Absent("crate", "::")
  {
    forall q: nat ensures !OccursAt("crate", "::", q) {
      if q < 5 {
        assert "crate"[q] != ':' && "::"[0] == ':';
      }
    }
  }

  lemma CrateFirst(mod: string)
    requires "crate::" <= mod
    ensures FirstAt(mod, "::", 5) && mod[..5] == "crate"
  {
    var head := "crate::";
    assert forall i | 0 <= i < 7 :: mod[i] == head[i];
    assert mod[5..7] == "::";
    assert head[0] != ':' && head[1] != ':' && head[2] != ':' && head[3] != ':' && head[4] != ':';
    forall q: nat | q < 5 ensures !OccursAt(mod, "::", q) {
      assert mod[q..q + 2][0] == mod[q] != "::"[0];
    }
  }

  /** The first segment is `crate` exactly for the root and what lies inside it. */
  lemma CrateIs(mod: string)
    ensures TopSegment(mod) == "crate" <==> Within(mod, "crate")
  {
    var p := Find(mod, "::");
    FindIs(mod, "::");
    assert "crate" + "::" == "crate::" && |"crate::"| == 7;
    if "crate::" <= mod {
      CrateFirst(mod);
      FindFirst(mod, "::", 5);
    }
    CrateHasNoColon();
    if p.Some? && mod[..p.value] == "crate" {
      assert mod[..7] == mod[..5] + mod[5..7];
    }
  }

  lemma OffendsIff(rule: Rule, rel: string, mod: string, fn: Fnmatch)
    requires WellFormed(rule)
    ensures Offends(rule, rel, mod, fn) <==> Forbidden(rule, rel, mod, fn)
  {
    hide Matches, MatchesAny, Under, TopSegment;
    SomeUnder(rule.covered, rel, fn);
    SomeUnder(rule.exempt, rel, fn);
    CrateIs(mod);
  }

  /** The gate lists exactly the forbidden imports: rule, file, line and module, each as it stands there. */
  lemma {:induction false} ViolationIff(rules: seq<Rule>, files: seq<SourceFile>, fn: Fnmatch, v: Violation)
    requires forall rule | rule in rules :: WellFormed(rule)
    ensures v in Violations(rules, files, fn) <==>
            exists rule, file :: rule in rules && file in files && v.rule == rule.name && v.rel == file.rel
                                 && Import(v.line, v.mod) in file.imports && Forbidden(rule, file.rel, v.mod, fn)
  {
    hide Violations, Forbidden, Offends, WellFormed;
    ListedIff(rules, files, fn, v);
    forall rule, file | rule in rules && file in files
      ensures Offends(rule, file.rel, v.mod, fn) <==> Forbidden(rule, file.rel, v.mod, fn)
    {
      OffendsIff(rule, file.rel, v.mod, fn);
    }
  }

  // ---------------------------------------------------------------- in what order, and how often

  lemma {:induction false} ImportsInOrder(rule: Rule, rel: string, a: seq<Import>, b: seq<Import>, fn: Fnmatch)
    requires WellFormed(rule)
    ensures InImports(rule, rel, a + b, fn) == InImports(rule, rel, a, fn) + InImports(rule, rel, b, fn)
  {
    hide Offends, WellFormed;
    if b == [] {
      assert a + b == a;
    } else {
      assert (a + b)[..|a + b| - 1] == a + b[..|b| - 1];
      ImportsInOrder(rule, rel, a, b[..|b| - 1], fn);
    }
  }

  lemma {:induction false} FilesInOrder(rule: Rule, a: seq<SourceFile>, b: seq<SourceFile>, fn: Fnmatch)
    requires WellFormed(rule)
    ensures InFiles(rule, a + b, fn) == InFiles(rule, a, fn) + InFiles(rule, b, fn)
  {
    hide InImports, WellFormed;
    if b == [] {
      assert a + b == a;
    } else {
      assert (a + b)[..|a + b| - 1] == a + b[..|b| - 1];
      FilesInOrder(rule, a, b[..|b| - 1], fn);
    }
  }

  ghost predicate AllFormed(rules: seq<Rule>) {
    forall rule | rule in rules :: WellFormed(rule)
  }

  lemma {:induction false} RulesInOrder(a: seq<Rule>, b: seq<Rule>, files: seq<SourceFile>, fn: Fnmatch)
    requires AllFormed(a) && AllFormed(b)
    ensures AllFormed(a + b)
    ensures Violations(a + b, files, fn) == Violations(a, files, fn) + Violations(b, files, fn)
  {
    hide InFiles, WellFormed;
    if b == [] {
      assert a + b == a;
    } else {
      assert (a + b)[..|a + b| - 1] == a + b[..|b| - 1];
      assert AllFormed(b[..|b| - 1]) && b[|b| - 1] in b;
      RulesInOrder(a, b[..|b| - 1], files, fn);
    }
  }

  /** One rule, one file, one import. */
  lemma {:induction false} OneImport(rule: Rule, rel: string, imp: Import, fn: Fnmatch)
    requires WellFormed(rule)
    ensures InFiles(rule, [SourceFile(rel, [imp])], fn) ==
            if Forbidden(rule, rel, imp.mod, fn) then [Violation(rel, imp.line, rule.name, imp.mod)] else []
    ensures InFiles(rule, [], fn) == [] && Violations([rule], [], fn) == []
  {
    hide Forbidden, Offends;
    OffendsIff(rule, rel, imp.mod, fn);
    var file := SourceFile(rel, [imp]);
    assert [imp][..0] == [] && [file][..0] == [] && [rule][..0] == [];
    assert InImports(rule, rel, [], fn) == [];
  }

  /**
   The list is ordered rule by rule, file by file and line by line: what stands for a list of rules, files or imports is
   what stands for its first part and then what stands for the rest.
   */
  lemma {:induction false} ListedInOrder(rules: seq<Rule>, more: seq<Rule>, rule: Rule, files: seq<SourceFile>,
                                         last: SourceFile, imp: Import, fn: Fnmatch)
    requires AllFormed(rules) && AllFormed(more) && WellFormed(rule)
    ensures AllFormed(rules + more)
    ensures Violations(rules + more, files, fn) == Violations(rules, files, fn) + Violations(more, files, fn)
    ensures AllFormed([rule]) && Violations([rule], files + [last], fn) ==
            Violations([rule], files, fn) + Violations([rule], [last], fn)
    ensures var longer := last.(imports := last.imports + [imp]);
            Violations([rule], [longer], fn) == Violations([rule], [last], fn) +
            if Forbidden(rule, last.rel, imp.mod, fn) then [Violation(last.rel, imp.line, rule.name, imp.mod)] else []
  {
    hide Forbidden, InFiles, WellFormed;
    RulesInOrder(rules, more, files, fn);
    OneRule(rule, files + [last], fn);
    OneRule(rule, files, fn);
    OneRule(rule, [last], fn);
    FilesInOrder(rule, files, [last], fn);
    var longer := last.(imports := last.imports + [imp]);
    OneRule(rule, [longer], fn);
    OneFile(rule, last, fn);
    OneFile(rule, longer, fn);
    OneFile(rule, SourceFile(last.rel, [imp]), fn);
    ImportsInOrder(rule, last.rel, last.imports, [imp], fn);
    OneImport(rule, last.rel, imp, fn);
  }

  lemma {:induction false} OneRule(rule: Rule, files: seq<SourceFile>, fn: Fnmatch)
    requires WellFormed(rule)
    ensures AllFormed([rule]) && Violations([rule], files, fn) == InFiles(rule, files, fn)
  {
    hide InFiles;
    assert [rule][..0] == [];
  }

  lemma {:induction false} OneFile(rule: Rule, file: SourceFile, fn: Fnmatch)
    requires WellFormed(rule)
    ensures InFiles(rule, [file], fn) == InImports(rule, file.rel, file.imports, fn)
  {
    hide InImports;
    assert [file][..0] == [];
  }
}
