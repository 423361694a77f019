/**
 Reading JUnit XML: which test cases are recorded, and the outcome of each declared file.

 An XML document is a tree of elements. Files are compared and never inspected, so numbers
 stand for them; which file a class or suite name identifies is a parameter.
 */
module JUnit {
  import opened Basics

  type File = nat

  datatype Tag = TestSuites | TestSuite | TestCase | SkippedTag | FailureTag | ErrorTag | OtherTag

  datatype Element = Element(tag: Tag, name: string, classname: string, host: string, children: seq<Element>)

  datatype Status = Passed | Skipped | Failed

  datatype CaseResult = CaseResult(file: File, name: string, status: Status, project: string)

  /** How a runner's class and suite names identify a file, and whether its host is a browser project. */
  datatype Runner = Runner(identify: (string, string) -> Option<File>, hostIsProject: bool)

  // ----- the parser

  /** The first child that says anything decides. */
  function StatusOf(children: seq<Element>): Status {
    if children == [] then Passed
    else if children[0].tag == SkippedTag then Skipped
    else if children[0].tag == FailureTag || children[0].tag == ErrorTag then Failed
    else StatusOf(children[1..])
  }

  /** The record of one test case of a suite, if its identity can be resolved. */
  function Entry(run: Runner, suite: Element, case_: Element): seq<CaseResult> {
    match run.identify(case_.classname, suite.name)
    case None => []
    case Some(file) =>
      [CaseResult(file, case_.name, StatusOf(case_.children), if run.hostIsProject then suite.host else "")]
  }

  /** Records of a suite's direct test cases among its first `n` children. */
  function DirectCases(run: Runner, suite: Element, n: nat): seq<CaseResult>
    requires n <= |suite.children|
  {
    if n == 0 then []
    else DirectCases(run, suite, n - 1) +
         (if suite.children[n - 1].tag == TestCase then Entry(run, suite, suite.children[n - 1]) else [])
  }

  function CasesOf(run: Runner, e: Element): seq<CaseResult> {
    if e.tag == TestSuite then DirectCases(run, e, |e.children|) else []
  }

  /** Document order: an element, then everything below it. */
  function Iter(e: Element): seq<Element>
    decreases e
  {
    [e] + IterAll(e.children)
  }

  function IterAll(es: seq<Element>): seq<Element>
    decreases es
  {
    if es == [] then [] else Iter(es[0]) + IterAll(es[1..])
  }

  function CasesIn(run: Runner, es: seq<Element>): seq<CaseResult> {
    if es == [] then [] else CasesIn(run, es[..|es| - 1]) + CasesOf(run, es[|es| - 1])
  }

  /** `parse_junit` as a function. */
  function Parsed(run: Runner, root: Element): seq<CaseResult> {
    CasesIn(run, Iter(root))
  }

  method ParseJUnit(run: Runner, root: Element) returns (cases: seq<CaseResult>)
    ensures cases == Parsed(run, root)
  {
    hide Iter;
    cases := [];
    var all := Iter(root);
    for i := 0 to |all|
      invariant cases == CasesIn(run, all[..i])
    {
      assert all[..i + 1][..i] == all[..i];
      if all[i].tag == TestSuite {
        var suite := all[i];
        ghost var before := cases;
        for j := 0 to |suite.children|
          invariant cases == before + DirectCases(run, suite, j)
        {
          if suite.children[j].tag == TestCase {
            cases := cases + Entry(run, suite, suite.children[j]);
          }
        }
      }
    }
    assert all[..|all|] == all;
  }

  // ----- counted exactly once

  /** One walk over the tree: record a test case where it stands, if its parent is a suite. */
  function Walk(run: Runner, e: Element): multiset<CaseResult>
    decreases e
  {
    WalkChildren(run, e, e.children)
  }

  function WalkChildren(run: Runner, parent: Element, es: seq<Element>): multiset<CaseResult>
    decreases es
  {
    if es == [] then multiset{}
    else
      (if parent.tag == TestSuite && es[0].tag == TestCase then multiset(Entry(run, parent, es[0])) else multiset{})
      + Walk(run, es[0]) + WalkChildren(run, parent, es[1..])
  }

  lemma {:induction false} CasesInConcat(run: Runner, a: seq<Element>, b: seq<Element>)
    ensures CasesIn(run, a + b) == CasesIn(run, a) + CasesIn(run, b)
  {
    hide CasesOf;
    if b == [] {
      assert a + b == a;
    } else {
      assert (a + b)[..|a + b| - 1] == a + b[..|b| - 1];
      CasesInConcat(run, a, b[..|b| - 1]);
    }
  }

  /** Direct test cases from child `i` on, as a multiset. */
  function DirectFrom(run: Runner, suite: Element, i: nat): multiset<CaseResult>
    requires i <= |suite.children|
    decreases |suite.children| - i
  {
    if i == |suite.children| then multiset{}
    else (if suite.tag == TestSuite && suite.children[i].tag == TestCase
          then multiset(Entry(run, suite, suite.children[i])) else multiset{})
         + DirectFrom(run, suite, i + 1)
  }

  lemma Regroup<T>(a: seq<T>, b: seq<T>, rest: multiset<T>)
    ensures multiset(a + b) + rest == multiset(a) + (multiset(b) + rest)
  {
  }

  lemma {:induction false} DirectBothWays(run: Runner, suite: Element, i: nat)
    requires i <= |suite.children| && suite.tag == TestSuite
    ensures multiset(DirectCases(run, suite, i)) + DirectFrom(run, suite, i) == multiset(CasesOf(run, suite))
    decreases |suite.children| - i
  {
    hide Entry, CasesOf;
    if i == |suite.children| {
      assert CasesOf(run, suite) == DirectCases(run, suite, i) by { CasesOfASuite(run, suite); }
    } else {
      DirectBothWays(run, suite, i + 1);
      var here := if suite.children[i].tag == TestCase then Entry(run, suite, suite.children[i]) else [];
      assert DirectCases(run, suite, i + 1) == DirectCases(run, suite, i) + here;
      assert DirectFrom(run, suite, i) == multiset(here) + DirectFrom(run, suite, i + 1);
      Regroup(DirectCases(run, suite, i), here, DirectFrom(run, suite, i + 1));
    }
  }

  lemma CasesOfASuite(run: Runner, suite: Element)
    requires suite.tag == TestSuite
    ensures CasesOf(run, suite) == DirectCases(run, suite, |suite.children|)
  {
  }

  lemma OwnCases(run: Runner, e: Element)
    ensures DirectFrom(run, e, 0) == multiset(CasesOf(run, e))
  {
    hide Entry;
    if e.tag == TestSuite {
      DirectBothWays(run, e, 0);
    } else {
      NoDirectCases(run, e, 0);
    }
  }

  lemma {:induction false} NoDirectCases(run: Runner, e: Element, i: nat)
    requires i <= |e.children| && e.tag != TestSuite
    ensures DirectFrom(run, e, i) == multiset{}
    decreases |e.children| - i
  {
    if i < |e.children| {
      NoDirectCases(run, e, i + 1);
    }
  }

  /**
   However deeply suites are nested, the parser records each test case that stands directly
   under a suite and has an identity exactly once, and nothing else.
   */
  lemma {:induction false} EachCaseIsCountedOnce(run: Runner, e: Element)
    ensures multiset(Parsed(run, e)) == Walk(run, e)
    decreases e
  {
    hide CasesOf, Entry;
    CasesInConcat(run, [e], IterAll(e.children));
    assert CasesIn(run, [e]) == CasesOf(run, e) by { assert [e][..0] == []; }
    OwnCases(run, e);
    ChildrenAreCountedOnce(run, e, e.children, 0);
    assert e.children[0..] == e.children;
  }

  lemma NoElementsNoCases(run: Runner)
    ensures CasesIn(run, []) == []
  {
  }

  lemma {:induction false} ChildrenAreCountedOnce(run: Runner, e: Element, es: seq<Element>, i: nat)
    requires i <= |e.children| && es == e.children[i..]
    ensures DirectFrom(run, e, i) + multiset(CasesIn(run, IterAll(es))) == WalkChildren(run, e, es)
    decreases es
  {
    hide Entry, CasesOf, Walk, CasesIn, Iter;
    if es == [] {
      assert CasesIn(run, []) == [] by { NoElementsNoCases(run); }
    } else {
      assert es[0] == e.children[i] && es[1..] == e.children[i + 1..];
      EachCaseIsCountedOnce(run, es[0]);
      ChildrenAreCountedOnce(run, e, es[1..], i + 1);
      CasesInConcat(run, Iter(es[0]), IterAll(es[1..]));
    }
  }

  // ----- per-file outcomes

  datatype FileStatus = FilePassed | FileSkipped | FileFailed | FileMissing

  datatype FileOutcome =
    FileOutcome(status: FileStatus, total: nat, passed: nat, skipped: nat, failed: nat, projects: set<string>)

  function OfFile(cases: seq<CaseResult>, f: File): seq<CaseResult> {
    if cases == [] then []
    else OfFile(cases[..|cases| - 1], f) + (if cases[|cases| - 1].file == f then [cases[|cases| - 1]] else [])
  }

  function CountStatus(cases: seq<CaseResult>, s: Status): nat {
    if cases == [] then 0
    else CountStatus(cases[..|cases| - 1], s) + (if cases[|cases| - 1].status == s then 1 else 0)
  }

  function OutcomeOf(cases: seq<CaseResult>, f: File): FileOutcome {
    Outcome(OfFile(cases, f))
  }

  /** The outcome of a file from its own cases. */
  function Outcome(mine: seq<CaseResult>): FileOutcome {
    if mine == [] then FileOutcome(FileMissing, 0, 0, 0, 0, {})
    else
      var failed, skipped := CountStatus(mine, Failed), CountStatus(mine, Skipped);
      FileOutcome(if failed > 0 then FileFailed else if skipped > 0 then FileSkipped else FilePassed,
                  |mine|, CountStatus(mine, Passed), skipped, failed, Projects(mine))
  }

  function Projects(cases: seq<CaseResult>): set<string> {
    set c | c in cases && c.project != "" :: c.project
  }

  function Outcomes(cases: seq<CaseResult>, declared: seq<File>): map<File, FileOutcome> {
    map f | f in declared :: OutcomeOf(cases, f)
  }

  /** Sort cases into the declared files; cases of other files are dropped. */
  method GroupByFile(cases: seq<CaseResult>, declared: seq<File>) returns (byFile: map<File, seq<CaseResult>>)
    ensures byFile.Keys == set f | f in declared
    ensures forall f :: f in declared ==> byFile[f] == OfFile(cases, f)
  {
    byFile := map f | f in declared :: [];
    for i := 0 to |cases|
      invariant byFile.Keys == set f | f in declared
      invariant forall f :: f in declared ==> byFile[f] == OfFile(cases[..i], f)
    {
      assert cases[..i + 1][..i] == cases[..i];
      if cases[i].file in byFile {
        byFile := byFile[cases[i].file := byFile[cases[i].file] + [cases[i]]];
      }
    }
    assert cases[..|cases|] == cases;
  }

  /** Roll up every declared file; a strict caller is refused when one of them has no case at all. */
  method FileOutcomes(cases: seq<CaseResult>, declared: seq<File>, strict: bool)
    returns (r: Option<map<File, FileOutcome>>)
    ensures r.None? <==> strict && exists f :: f in declared && OfFile(cases, f) == []
    ensures r.Some? ==> r.value == Outcomes(cases, declared)
  {
    hide Outcome, OfFile;
    var byFile := GroupByFile(cases, declared);
    if strict && exists f :: f in declared && byFile[f] == [] {
      return None;
    }
    var outcomes: map<File, FileOutcome> := map[];
    for i := 0 to |declared|
      invariant outcomes == Outcomes(cases, declared[..i])
    {
      var f := declared[i];
      outcomes := outcomes[f := Outcome(byFile[f])];
    }
    assert declared[..|declared|] == declared;
    r := Some(outcomes);
  }

  lemma {:induction false} OfFileIsExact(cases: seq<CaseResult>, f: File, c: CaseResult)
    ensures c in OfFile(cases, f) <==> c in cases && c.file == f
  {
    if cases != [] {
      OfFileIsExact(cases[..|cases| - 1], f, c);
      assert cases == cases[..|cases| - 1] + [cases[|cases| - 1]];
    }
  }

  lemma {:induction false} StatusesPartition(cases: seq<CaseResult>)
    ensures CountStatus(cases, Passed) + CountStatus(cases, Skipped) + CountStatus(cases, Failed) == |cases|
  {
    if cases != [] {
      StatusesPartition(cases[..|cases| - 1]);
    }
  }

  lemma {:induction false} CountIsZeroIff(cases: seq<CaseResult>, s: Status)
    ensures CountStatus(cases, s) == 0 <==> forall c :: c in cases ==> c.status != s
  {
    if cases != [] {
      CountIsZeroIff(cases[..|cases| - 1], s);
      assert cases == cases[..|cases| - 1] + [cases[|cases| - 1]];
    }
  }

  /** Totals add up, a file is missing exactly without cases, and passed exactly when it has cases and all passed. */
  lemma FileOutcomeIsHonest(cases: seq<CaseResult>, f: File)
    ensures var o := OutcomeOf(cases, f);
            && o.total == o.passed + o.skipped + o.failed
            && (o.status == FileMissing <==> forall c :: c in cases ==> c.file != f)
            && (o.status == FilePassed <==>
                  (exists c :: c in cases && c.file == f) && forall c :: c in cases && c.file == f ==> c.status == Passed)
            && (o.status == FileFailed <==> exists c :: c in cases && c.file == f && c.status == Failed)
  {
    hide OfFile, CountStatus;
    var mine := OfFile(cases, f);
    StatusesPartition(mine);
    CountIsZeroIff(mine, Failed);
    CountIsZeroIff(mine, Skipped);
    forall c ensures c in mine <==> c in cases && c.file == f {
      OfFileIsExact(cases, f, c);
    }
    if mine != [] {
      assert mine[0] in mine;
    }
  }

  // ----- what a record says about the XML

  predicate SaysSomething(e: Element) {
    e.tag == SkippedTag || e.tag == FailureTag || e.tag == ErrorTag
  }

  /** A case passed exactly when no child says otherwise; else the first child that says something decides. */
  lemma {:induction false} StatusIsTheFirstWord(children: seq<Element>)
    ensures StatusOf(children) == Passed <==> forall i :: 0 <= i < |children| ==> !SaysSomething(children[i])
    ensures StatusOf(children) != Passed ==>
              exists i :: 0 <= i < |children| && SaysSomething(children[i])
                          && (forall j :: 0 <= j < i ==> !SaysSomething(children[j]))
                          && (StatusOf(children) == Skipped <==> children[i].tag == SkippedTag)
                          && (StatusOf(children) == Failed <==> children[i].tag == FailureTag || children[i].tag == ErrorTag)
  {
    if children != [] && !SaysSomething(children[0]) {
      var rest := children[1..];
      StatusIsTheFirstWord(rest);
      forall i | 0 < i < |children| ensures children[i] == rest[i - 1] {
      }
      if StatusOf(rest) != Passed {
        var i :| 0 <= i < |rest| && SaysSomething(rest[i]) && (forall j :: 0 <= j < i ==> !SaysSomething(rest[j]))
                 && (StatusOf(rest) == Skipped <==> rest[i].tag == SkippedTag)
                 && (StatusOf(rest) == Failed <==> rest[i].tag == FailureTag || rest[i].tag == ErrorTag);
        assert children[i + 1] == rest[i];
        forall j | 0 <= j < i + 1 ensures !SaysSomething(children[j]) {
        }
      }
    }
  }

  /** `x` is `e` or stands somewhere below it. */
  predicate Contains(e: Element, x: Element)
    decreases e
  {
    e == x || exists k :: 0 <= k < |e.children| && Contains(e.children[k], x)
  }

  lemma {:induction false} IterIsEverything(e: Element, x: Element)
    ensures x in Iter(e) <==> Contains(e, x)
    decreases e
  {
    IterAllIsEverything(e.children, x);
  }

  lemma {:induction false} IterAllIsEverything(es: seq<Element>, x: Element)
    ensures x in IterAll(es) <==> exists k :: 0 <= k < |es| && Contains(es[k], x)
    decreases es
  {
    if es != [] {
      IterIsEverything(es[0], x);
      IterAllIsEverything(es[1..], x);
      forall k | 0 < k < |es| ensures es[k] == es[1..][k - 1] {
      }
      if exists k :: 0 <= k < |es[1..]| && Contains(es[1..][k], x) {
        var k :| 0 <= k < |es[1..]| && Contains(es[1..][k], x);
        assert Contains(es[k + 1], x);
      }
    }
  }

  /** Child `k` of a suite is a test case, and it is identified with the file of record `c`. */
  predicate Stands(run: Runner, suite: Element, k: int, f: File) {
    && suite.tag == TestSuite && 0 <= k < |suite.children| && suite.children[k].tag == TestCase
    && run.identify(suite.children[k].classname, suite.name) == Some(f)
  }

  predicate Describes(run: Runner, suite: Element, k: int, c: CaseResult) {
    && Stands(run, suite, k, c.file)
    && c.name == suite.children[k].name
    && c.status == StatusOf(suite.children[k].children)
    && c.project == if run.hostIsProject then suite.host else ""
  }

  lemma {:induction false} DirectCasesStand(run: Runner, suite: Element, n: nat, c: CaseResult)
    requires n <= |suite.children| && suite.tag == TestSuite
    ensures c in DirectCases(run, suite, n) <==> exists k :: 0 <= k < n && Describes(run, suite, k, c)
  {
    hide StatusOf;
    if n > 0 {
      DirectCasesStand(run, suite, n - 1, c);
      assert suite.children[n - 1].tag == TestCase ==>
          (c in Entry(run, suite, suite.children[n - 1]) <==> Describes(run, suite, n - 1, c));
    }
  }

  lemma {:induction false} CasesInStand(run: Runner, es: seq<Element>, c: CaseResult)
    ensures c in CasesIn(run, es) <==> exists e, k :: e in es && Describes(run, e, k, c)
  {
    hide DirectCases, Entry, StatusOf;
    if es != [] {
      var front, last := es[..|es| - 1], es[|es| - 1];
      CasesInStand(run, front, c);
      assert es == front + [last];
      if last.tag == TestSuite {
        DirectCasesStand(run, last, |last.children|, c);
      }
    }
  }

  /** A record stands for a test case directly under a suite anywhere in the document, with its name, its first word and its project. */
  lemma RecordedIff(run: Runner, root: Element, c: CaseResult)
    ensures c in Parsed(run, root) <==> exists suite, k :: Contains(root, suite) && Describes(run, suite, k, c)
  {
    hide Iter, CasesIn, Contains, Describes;
    CasesInStand(run, Iter(root), c);
    forall e ensures e in Iter(root) <==> Contains(root, e) {
      IterIsEverything(root, e);
    }
  }

  lemma {:induction false} OfFileCounts(cases: seq<CaseResult>, f: File, s: Status, which: set<nat>)
    requires forall i: nat :: i in which <==> i < |cases| && cases[i].file == f && cases[i].status == s
    ensures CountStatus(OfFile(cases, f), s) == |which|
  {
    if cases == [] {
      assert which == {};
    } else {
      var n: nat := |cases| - 1;
      var front := cases[..n];
      forall i: nat ensures i in which - {n} <==> i < |front| && front[i].file == f && front[i].status == s {
      }
      OfFileCounts(front, f, s, which - {n});
      var mine := OfFile(front, f);
      if cases[n].file == f {
        assert (mine + [cases[n]])[..|mine|] == mine;
      } else {
        assert OfFile(cases, f) == mine;
      }
      if n in which {
        assert which == which - {n} + {n};
      } else {
        assert which == which - {n};
      }
    }
  }

  ghost function Numbered(cases: seq<CaseResult>, f: File, s: Status): set<nat> {
    set i: nat | i < |cases| && cases[i].file == f && cases[i].status == s
  }

  /** Each number of an outcome counts the records of its status, and the projects are those the file ran under. */
  lemma OutcomeCountsItsRecords(cases: seq<CaseResult>, f: File)
    ensures var o := OutcomeOf(cases, f);
            && o.passed == |Numbered(cases, f, Passed)| && o.skipped == |Numbered(cases, f, Skipped)|
            && o.failed == |Numbered(cases, f, Failed)|
            && (forall p :: p in o.projects <==> p != "" && exists c :: c in cases && c.file == f && c.project == p)
            && (o.status == FileSkipped <==> o.failed == 0 && o.skipped > 0)
  {
    hide OfFile, CountStatus;
    var mine := OfFile(cases, f);
    OfFileCounts(cases, f, Passed, Numbered(cases, f, Passed));
    OfFileCounts(cases, f, Skipped, Numbered(cases, f, Skipped));
    OfFileCounts(cases, f, Failed, Numbered(cases, f, Failed));
    StatusesPartition(mine);
    forall c ensures c in mine <==> c in cases && c.file == f {
      OfFileIsExact(cases, f, c);
    }
  }
}
