/** From the collected sources to the findings and the strict gate (src/adr_registry.rs, `build_registry`). */
module RegistryReport {
  import opened Wrappers
  import opened Registry
  import opened RegistryFindings

  /** One prose file as the scan for exceptions sees it: no number when it cannot be read or is no decision. */
  datatype Prose = Prose(file: string, number: Option<nat>, declares: bool, justified: bool)

  /** A scanned directory with its prose files in order. */
  datatype Project = Project(name: string, proses: seq<Prose>)

  // ---------------------------------------------------------------- exceptions

  /** A decision that declares an exception and has no fresh passing report for it. */
  predicate Unreasoned(p: Prose) { p.number.Some? && p.declares && !p.justified }

  function OfFile(project: string, p: Prose): seq<Finding> {
    if Unreasoned(p) then [Unjustified(project, p.number.value, p.file)] else []
  }

  function OfFiles(project: string, proses: seq<Prose>): seq<Finding> {
    if proses == [] then [] else OfFiles(project, proses[..|proses| - 1]) + OfFile(project, proses[|proses| - 1])
  }

  function OfProjects(projects: seq<Project>): seq<Finding> {
    if projects == [] then []
    else
      var last := projects[|projects| - 1];
      OfProjects(projects[..|projects| - 1]) + OfFiles(last.name, last.proses)
  }

  method ExceptionFindings(project: Project) returns (out: seq<Finding>)
    ensures out == OfFiles(project.name, project.proses)
  {
    out := [];
    var proses := project.proses;
    for i := 0 to |proses|
      invariant out == OfFiles(project.name, proses[..i])
    {
      assert proses[..i + 1][..i] == proses[..i];
      var p := proses[i];
      if p.number.None? || !p.declares || p.justified {
        continue;
      }
      out := out + [Unjustified(project.name, p.number.value, p.file)];
    }
    assert proses[..|proses|] == proses;
  }

  /** Every declared exception has its report. */
  ghost predicate AllReasoned(projects: seq<Project>) {
    forall project, p | project in projects && p in project.proses :: !Unreasoned(p)
  }

  lemma {:induction false} FilesReasoned(name: string, proses: seq<Prose>)
    ensures OfFiles(name, proses) == [] <==> forall p | p in proses :: !Unreasoned(p)
  {
    if proses != [] {
      var init, last := proses[..|proses| - 1], proses[|proses| - 1];
      assert proses == init + [last];
      FilesReasoned(name, init);
    }
  }

  lemma {:induction false} ProjectsReasoned(projects: seq<Project>)
    ensures OfProjects(projects) == [] <==> AllReasoned(projects)
  {
    if projects != [] {
      hide OfFiles, Unreasoned;
      var init, last := projects[..|projects| - 1], projects[|projects| - 1];
      assert projects == init + [last];
      ProjectsReasoned(init);
      FilesReasoned(last.name, last.proses);
    }
  }

  /** What is listed: exactly the declared exceptions without a report, with project, number and file. */
  lemma {:induction false} FileListed(name: string, proses: seq<Prose>, f: Finding)
    ensures f in OfFiles(name, proses) <==>
            exists p :: p in proses && p.declares && !p.justified && p.number.Some?
                        && f == Unjustified(name, p.number.value, p.file)
  {
    if proses != [] {
      var init, last := proses[..|proses| - 1], proses[|proses| - 1];
      assert proses == init + [last];
      FileListed(name, init, f);
    }
  }

  lemma {:induction false} UnjustifiedIff(projects: seq<Project>, f: Finding)
    ensures f in OfProjects(projects) <==>
            exists project, p :: project in projects && p in project.proses && p.declares && !p.justified && p.number.Some?
                                 && f == Unjustified(project.name, p.number.value, p.file)
  {
    if projects != [] {
      hide OfFiles;
      var init, last := projects[..|projects| - 1], projects[|projects| - 1];
      assert projects == init + [last];
      UnjustifiedIff(init, f);
      FileListed(last.name, last.proses, f);
    }
  }

  /** Project by project and file by file. */
  lemma {:induction false} FilesInOrder(name: string, a: seq<Prose>, b: seq<Prose>)
    ensures OfFiles(name, a + b) == OfFiles(name, a) + OfFiles(name, b)
  {
    if b == [] {
      assert a + b == a;
    } else {
      assert (a + b)[..|a + b| - 1] == a + b[..|b| - 1];
      FilesInOrder(name, a, b[..|b| - 1]);
    }
  }

  lemma {:induction false} ProjectsInOrder(a: seq<Project>, b: seq<Project>)
    ensures OfProjects(a + b) == OfProjects(a) + OfProjects(b)
  {
    hide OfFiles;
    if b == [] {
      assert a + b == a;
    } else {
      assert (a + b)[..|a + b| - 1] == a + b[..|b| - 1];
      ProjectsInOrder(a, b[..|b| - 1]);
    }
  }

  method ExtendByExceptions(found: seq<Finding>, projects: seq<Project>) returns (all: seq<Finding>)
    ensures all == found + OfProjects(projects)
  {
    hide OfFiles;
    all := found;
    assert OfProjects(projects[..0]) == [];
    for i := 0 to |projects|
      invariant all == found + OfProjects(projects[..i])
    {
      assert projects[..i + 1][..i] == projects[..i];
      var more := ExceptionFindings(projects[i]);
      all := all + more;
    }
    assert projects[..|projects|] == projects;
  }

  // ---------------------------------------------------------------- the report

  /**
   An index is refused when nothing was collected. Otherwise its findings are those of the merged index, and behind them
   the exceptions without a reason, project by project and file by file.
   */
  method BuildFindings(entries: seq<Entry>, projects: seq<Project>, lower: string -> string)
    returns (findings: Option<seq<Finding>>, ghost issues: seq<Finding>, ghost keys: seq<Key>)
    ensures findings.None? <==> entries == []
    ensures findings.Some? ==>
              && findings.value == issues + OfProjects(projects)
              && Enumerates(keys, entries)
              && (forall f :: f in issues <==> Issue(MergeAlong(entries, keys), f, lower))
              && Arranged(issues, MergeAlong(entries, keys), lower)
  {
    if entries == [] {
      findings, issues, keys := None, [], [];
      return;
    }
    hide Arranged, Issue, MergeAlong;
    var merged, order := MergeFaces(entries);
    var found := FindIssues(merged, lower);
    var all := ExtendByExceptions(found, projects);
    findings, issues, keys := Some(all), found, order;
  }

  // ---------------------------------------------------------------- the gate

  function ExitCode(findings: seq<Finding>, strict: bool): int {
    if strict && findings != [] then 1 else 0
  }

  /**
   The strict gate passes exactly the clean indexes whose declared exceptions all have their report; without `strict` it
   always passes.
   */
  lemma {:induction false} GateIsClean(entries: seq<Entry>, projects: seq<Project>, issues: seq<Finding>,
                                       lower: string -> string)
    requires forall f :: f in issues <==> Issue(entries, f, lower)
    ensures ExitCode(issues + OfProjects(projects), true) ==
            if Clean(entries, lower) && AllReasoned(projects) then 0 else 1
    ensures ExitCode(issues + OfProjects(projects), false) == 0
  {
    hide Clean, Issue, AllReasoned, OfProjects;
    ProjectsReasoned(projects);
    if issues != [] {
      assert issues[0] in issues;
      IssueIsUnclean(entries, issues[0], lower);
    } else {
      forall f ensures !Issue(entries, f, lower) {
        assert f !in issues;
      }
      NoIssueIsClean(entries, lower);
    }
  }
}
