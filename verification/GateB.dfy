/**
 The Gate B release report: every registered check is judged from test results, written
 evidence or an in-process computation, and the judgements are folded into rows, blockers
 and one verdict.

 Test reports, evidence files, what git answers and the computed checks' results are inputs.
 */
module GateB {
  import opened Basics
  import JUnit
  import Evidence
  import Migrations

  type File = JUnit.File
  type CommitId = Evidence.CommitId

  datatype Runner = Pytest | PytestPostgres | Vitest | Playwright

  datatype Outcome = Passed | Failed | Missing | Skipped | Excepted

  /** What a document records under its declared verdict key. */
  datatype Verdict = NoVerdict | PassValue | ExceptionValue(complete: bool) | OtherValue

  datatype Source =
    | TestFiles(runner: Runner, files: seq<File>, projects: seq<string>)
    | TestCases(runner: Runner, named: seq<(File, string)>)
    | EvidenceFile(document: Option<Evidence.Document>, verdict: Verdict, mustBeFresh: bool)
    | GateAEvidence(document: Option<Evidence.Document>, passed: Option<bool>, manualGatesPassed: bool)
    | Computed(name: string)

  datatype Check = Check(id: string, row: string, category: Option<string>, source: Source)

  datatype RunnerReport = RunnerReport(cases: seq<JUnit.CaseResult>, predatesCommit: bool)

  /**
   Everything a report is built from besides its registry: `testFunctions` are the test
   functions the source of a Python file defines, `ancestorOfGate` and `changedSince` what git
   says about a recorded commit and the gate's own.
   */
  datatype Context = Context(
    treeDirty: bool,
    reports: map<Runner, RunnerReport>,
    git: Evidence.Git,
    revisions: Migrations.Revisions,
    gateCommit: CommitId,
    ancestorOfGate: CommitId -> bool,
    changedSince: CommitId -> Option<seq<string>>,
    computed: string -> Outcome,
    isPython: File -> bool,
    testFunctions: File -> seq<string>)

  /** Why a registry cannot decide every row. */
  datatype RegistryError =
    | UnregisteredRow(row: string)
    | UnknownCategory(category: Option<string>)
    | UnexpectedCategory(name: string)
    | UnknownComputed(name: string)
    | DuplicateIds
    | UncoveredRows
    | UncoveredCategories

  datatype Error = BadRegistry(fault: RegistryError) | TestsMissing | BrokenMigrations(error: Migrations.GraphError)

  // ----- the registry

  const BINDING_ROW := "report_version_binding"
  const REGRESSIONS_ROW := "blocking_regressions"

  const GATE_B_ROWS :=
    ["deterministic_and_live_readiness", "live_conversation_journeys", BINDING_ROW, "golden_dataset_size",
     "tool_routing", "nfr35_internal_thresholds", REGRESSIONS_ROW]

  const REGRESSION_CATEGORIES :=
    ["authorization", "approval", "isolation", "hard_constraints", "grounding", "idempotency", "authoritative_audit",
     "viewer_parity", "recovery", "accessibility"]

  const COMPUTED_CHECKS :=
    ["golden_case_floor", "per_capability_floor", "protected_floor_and_tag_integrity",
     "live_conversation_inventory_fresh", "live_conversation_configuration_fresh"]

  /** What one check gets wrong, if anything. */
  function CheckFault(check: Check, rows: seq<string>): Option<RegistryError> {
    if check.row !in rows then Some(UnregisteredRow(check.row))
    else if check.row == REGRESSIONS_ROW && (check.category.None? || check.category.value !in REGRESSION_CATEGORIES)
    then Some(UnknownCategory(check.category))
    else if check.row != REGRESSIONS_ROW && check.category.Some? then Some(UnexpectedCategory(check.category.value))
    else if check.source.Computed? && check.source.name !in COMPUTED_CHECKS then Some(UnknownComputed(check.source.name))
    else None
  }

  function FirstCheckFault(checks: seq<Check>, rows: seq<string>): Option<RegistryError> {
    if checks == [] then None
    else
      var earlier := FirstCheckFault(checks[..|checks| - 1], rows);
      if earlier.Some? then earlier else CheckFault(checks[|checks| - 1], rows)
  }

  predicate Covers(checks: seq<Check>, row: string) {
    exists c :: c in checks && c.row == row
  }

  predicate CoversCategory(checks: seq<Check>, category: string) {
    exists c :: c in checks && c.row == REGRESSIONS_ROW && c.category == Some(category)
  }

  predicate IdsDiffer(checks: seq<Check>) {
    forall i, j :: 0 <= i < j < |checks| ==> checks[i].id != checks[j].id
  }

  /** `validate_registry`: the first fault, in the order the faults are looked for. */
  function RegistryFault(checks: seq<Check>, rows: seq<string>): Option<RegistryError> {
    var first := FirstCheckFault(checks, rows);
    if first.Some? then first
    else if !IdsDiffer(checks) then Some(DuplicateIds)
    else if exists row :: row in rows && !Covers(checks, row) then Some(UncoveredRows)
    else if exists category :: category in REGRESSION_CATEGORIES && !CoversCategory(checks, category)
    then Some(UncoveredCategories)
    else None
  }

  method ValidateRegistry(checks: seq<Check>, rows: seq<string>) returns (fault: Option<RegistryError>)
    ensures fault == RegistryFault(checks, rows)
  {
    fault := None;
    for i := 0 to |checks|
      invariant FirstCheckFault(checks[..i], rows) == None && fault == None
    {
      assert checks[..i + 1][..i] == checks[..i];
      fault := CheckFault(checks[i], rows);
      if fault.Some? {
        FirstFaultStays(checks, rows, i + 1);
        return;
      }
    }
    assert checks[..|checks|] == checks;
    if !IdsDiffer(checks) {
      return Some(DuplicateIds);
    }
    if exists row :: row in rows && !Covers(checks, row) {
      return Some(UncoveredRows);
    }
    if exists category :: category in REGRESSION_CATEGORIES && !CoversCategory(checks, category) {
      return Some(UncoveredCategories);
    }
  }

  lemma {:induction false} FirstFaultStays(checks: seq<Check>, rows: seq<string>, n: nat)
    requires n <= |checks| && FirstCheckFault(checks[..n], rows).Some?
    ensures FirstCheckFault(checks, rows) == FirstCheckFault(checks[..n], rows)
  {
    hide CheckFault;
    if n < |checks| {
      assert checks[..|checks| - 1][..n] == checks[..n];
      FirstFaultStays(checks[..|checks| - 1], rows, n);
    } else {
      assert checks[..n] == checks;
    }
  }

  lemma {:induction false} NoCheckFaultIff(checks: seq<Check>, rows: seq<string>)
    ensures FirstCheckFault(checks, rows).None? <==> forall c :: c in checks ==> CheckFault(c, rows).None?
  {
    hide CheckFault;
    if checks != [] {
      NoCheckFaultIff(checks[..|checks| - 1], rows);
      assert checks == checks[..|checks| - 1] + [checks[|checks| - 1]];
    }
  }

  /** A registry that can decide every row. */
  ghost predicate ValidRegistry(checks: seq<Check>, rows: seq<string>) {
    && (forall c :: c in checks ==> c.row in rows)
    && (forall c :: c in checks && c.row == "blocking_regressions" ==>
          c.category.Some? && c.category.value in REGRESSION_CATEGORIES)
    && (forall c :: c in checks && c.row != "blocking_regressions" ==> c.category.None?)
    && (forall c :: c in checks && c.source.Computed? ==> c.source.name in COMPUTED_CHECKS)
    && (forall i, j :: 0 <= i < |checks| && 0 <= j < |checks| && checks[i].id == checks[j].id ==> i == j)
    && (forall row :: row in rows ==> exists i :: 0 <= i < |checks| && checks[i].row == row)
    && (forall category :: category in REGRESSION_CATEGORIES ==>
          exists i :: 0 <= i < |checks| && checks[i].row == "blocking_regressions" && checks[i].category == Some(category))
  }

  /** What a check must be to belong to a registry. */
  ghost predicate FitsRegistry(c: Check, rows: seq<string>) {
    && c.row in rows
    && (c.row == "blocking_regressions" ==> c.category.Some? && c.category.value in REGRESSION_CATEGORIES)
    && (c.row != "blocking_regressions" ==> c.category.None?)
    && (c.source.Computed? ==> c.source.name in COMPUTED_CHECKS)
  }

  lemma CheckFaultIs(c: Check, rows: seq<string>)
    ensures CheckFault(c, rows).None? <==> FitsRegistry(c, rows)
    ensures match CheckFault(c, rows)
            case None => true
            case Some(UnregisteredRow(row)) => row == c.row && row !in rows
            case Some(UnknownCategory(category)) =>
              && category == c.category && c.row in rows && c.row == "blocking_regressions"
              && (category.None? || category.value !in REGRESSION_CATEGORIES)
            case Some(UnexpectedCategory(category)) =>
              Some(category) == c.category && c.row in rows && c.row != "blocking_regressions"
            case Some(UnknownComputed(name)) =>
              c.source == Computed(name) && FitsRegistry(c.(source := TestCases(Pytest, [])), rows)
            case Some(_) => false
  {
    hide REGRESSION_CATEGORIES, COMPUTED_CHECKS;
  }

  /**
   Which fault is reported: that of the first check that does not fit; else repeated ids; else a
   row nothing decides; else a category nothing decides.
   */
  lemma FaultNamesItsCause(checks: seq<Check>, rows: seq<string>)
    ensures var fault := RegistryFault(checks, rows);
            var fit := forall i :: 0 <= i < |checks| ==> FitsRegistry(checks[i], rows);
            var repeated := exists i, j :: 0 <= i < j < |checks| && checks[i].id == checks[j].id;
            var undecided := exists row :: row in rows && !Covers(checks, row);
            && (!fit ==> exists i :: 0 <= i < |checks| && IsFirstMisfit(checks, rows, i) && fault == CheckFault(checks[i], rows))
            && (fault == Some(DuplicateIds) <==> fit && repeated)
            && (fault == Some(UncoveredRows) <==> fit && !repeated && undecided)
            && (fault == Some(UncoveredCategories) <==>
                  fit && !repeated && !undecided
                  && exists category :: category in REGRESSION_CATEGORIES && !CoversCategory(checks, category))
  {
    hide FirstCheckFault, CheckFault, FitsRegistry, Covers, CoversCategory, REGRESSION_CATEGORIES;
    FirstFaultIs(checks, rows);
    forall i | 0 <= i < |checks| ensures CheckFault(checks[i], rows).None? <==> FitsRegistry(checks[i], rows) {
      CheckFaultIs(checks[i], rows);
    }
    if exists i :: 0 <= i < |checks| && IsFirstMisfit(checks, rows, i) && FirstCheckFault(checks, rows) == CheckFault(checks[i], rows) {
      var i :| 0 <= i < |checks| && IsFirstMisfit(checks, rows, i) && FirstCheckFault(checks, rows) == CheckFault(checks[i], rows);
      CheckFaultIs(checks[i], rows);
      assert !FitsRegistry(checks[i], rows);
    }
  }

  ghost predicate IsFirstMisfit(checks: seq<Check>, rows: seq<string>, i: int) {
    0 <= i < |checks| && !FitsRegistry(checks[i], rows) && forall j :: 0 <= j < i ==> FitsRegistry(checks[j], rows)
  }

  lemma {:induction false} FirstFaultIs(checks: seq<Check>, rows: seq<string>)
    ensures if forall i :: 0 <= i < |checks| ==> FitsRegistry(checks[i], rows) then FirstCheckFault(checks, rows).None?
            else exists i :: 0 <= i < |checks| && IsFirstMisfit(checks, rows, i) && FirstCheckFault(checks, rows) == CheckFault(checks[i], rows)
  {
    hide CheckFault, FitsRegistry, IsFirstMisfit;
    if checks != [] {
      var n := |checks| - 1;
      var front := checks[..n];
      FirstFaultIs(front, rows);
      CheckFaultIs(checks[n], rows);
      assert forall i :: 0 <= i < n ==> checks[i] == front[i];
      if forall i :: 0 <= i < |front| ==> FitsRegistry(front[i], rows) {
        if !FitsRegistry(checks[n], rows) {
          LastIsFirstMisfit(checks, rows);
        }
      } else {
        var i :| 0 <= i < |front| && IsFirstMisfit(front, rows, i) && FirstCheckFault(front, rows) == CheckFault(front[i], rows);
        FirstMisfitStays(checks, rows, i);
        CheckFaultIs(checks[i], rows);
      }
    }
  }

  lemma LastIsFirstMisfit(checks: seq<Check>, rows: seq<string>)
    requires checks != [] && !FitsRegistry(checks[|checks| - 1], rows)
    requires forall i :: 0 <= i < |checks| - 1 ==> FitsRegistry(checks[i], rows)
    ensures IsFirstMisfit(checks, rows, |checks| - 1)
  {
    hide FitsRegistry;
  }

  lemma FirstMisfitStays(checks: seq<Check>, rows: seq<string>, i: int)
    requires checks != [] && IsFirstMisfit(checks[..|checks| - 1], rows, i)
    ensures IsFirstMisfit(checks, rows, i) && !FitsRegistry(checks[i], rows)
    ensures checks[i] == checks[..|checks| - 1][i]
  {
    hide FitsRegistry;
  }

  /** No fault is found exactly when every check fits and every row and category is decided by one. */
  lemma NoFaultIffValid(checks: seq<Check>, rows: seq<string>)
    ensures RegistryFault(checks, rows).None? <==> ValidRegistry(checks, rows)
  {
    hide FirstCheckFault, REGRESSION_CATEGORIES, COMPUTED_CHECKS;
    NoCheckFaultIff(checks, rows);
    forall row ensures Covers(checks, row) <==> exists i :: 0 <= i < |checks| && checks[i].row == row {
      if Covers(checks, row) {
        var c :| c in checks && c.row == row;
        var i :| 0 <= i < |checks| && checks[i] == c;
      }
    }
    forall category
      ensures CoversCategory(checks, category) <==>
                exists i :: 0 <= i < |checks| && checks[i].row == REGRESSIONS_ROW && checks[i].category == Some(category)
    {
      if CoversCategory(checks, category) {
        var c :| c in checks && c.row == REGRESSIONS_ROW && c.category == Some(category);
        var i :| 0 <= i < |checks| && checks[i] == c;
      }
    }
  }

  /** First occurrences, in order. */
  function Distinct<T(==)>(s: seq<T>): seq<T> {
    if s == [] then []
    else
      var front := Distinct(s[..|s| - 1]);
      if s[|s| - 1] in front then front else front + [s[|s| - 1]]
  }

  function FilesOf(check: Check, runner: Runner): seq<File> {
    if check.source.TestFiles? && check.source.runner == runner then check.source.files else []
  }

  function AllFiles(checks: seq<Check>, runner: Runner): seq<File> {
    if checks == [] then [] else AllFiles(checks[..|checks| - 1], runner) + FilesOf(checks[|checks| - 1], runner)
  }

  /** The test files a registry declares for a runner. */
  function Declared(checks: seq<Check>, runner: Runner): seq<File> {
    Distinct(AllFiles(checks, runner))
  }

  function CasesFrom(ctx: Context, runner: Runner): seq<JUnit.CaseResult> {
    if runner in ctx.reports then ctx.reports[runner].cases else []
  }

  // ----- judging one check

  datatype Judgement = Judgement(result: Outcome, bound: bool)

  type Outcomes = map<Runner, map<File, JUnit.FileOutcome>>

  /** Failed, then missing, then skipped; passed when none of them occurs. */
  function Worst(statuses: seq<Outcome>): Outcome {
    if Failed in statuses then Failed
    else if Missing in statuses then Missing
    else if Skipped in statuses then Skipped
    else Passed
  }

  function FileResult(outcomes: map<File, JUnit.FileOutcome>, f: File): Outcome {
    if f !in outcomes then Missing
    else match outcomes[f].status
      case FilePassed => if outcomes[f].total == 0 then Missing else Passed
      case FileSkipped => Skipped
      case FileFailed => Failed
      case FileMissing => Missing
  }

  function FileResults(outcomes: map<File, JUnit.FileOutcome>, files: seq<File>): seq<Outcome> {
    seq(|files|, i requires 0 <= i < |files| => FileResult(outcomes, files[i]))
  }

  predicate RanUnder(outcomes: map<File, JUnit.FileOutcome>, f: File, projects: seq<string>) {
    forall p :: p in projects ==> f in outcomes && p in outcomes[f].projects
  }

  function FilesResult(outcomes: map<File, JUnit.FileOutcome>, files: seq<File>, projects: seq<string>): Outcome {
    var result := Worst(FileResults(outcomes, files));
    if result == Passed && exists f :: f in files && !RanUnder(outcomes, f, projects) then Missing else result
  }

  /** The named function itself or one of its parametrised cases. */
  predicate IsNamed(c: JUnit.CaseResult, f: File, name: string) {
    c.file == f && (c.name == name || name + "[" <= c.name)
  }

  function Matching(cases: seq<JUnit.CaseResult>, f: File, name: string): seq<JUnit.CaseResult> {
    if cases == [] then []
    else
      var last := cases[|cases| - 1];
      Matching(cases[..|cases| - 1], f, name) + (if IsNamed(last, f, name) then [last] else [])
  }

  function NamedResult(cases: seq<JUnit.CaseResult>, f: File, name: string): Outcome {
    var matching := Matching(cases, f, name);
    if matching == [] then Missing
    else if exists c :: c in matching && c.status == JUnit.Failed then Failed
    else if exists c :: c in matching && c.status == JUnit.Skipped then Skipped
    else Passed
  }

  function NamedResults(cases: seq<JUnit.CaseResult>, named: seq<(File, string)>): seq<Outcome> {
    seq(|named|, i requires 0 <= i < |named| => NamedResult(cases, named[i].0, named[i].1))
  }

  /** The commit an evidence document is bound to, where it records one. */
  function RecordedCommit(doc: Evidence.Document): Option<CommitId> {
    if doc.Bindings? && doc.code.Some? then doc.code.value.commit else None
  }

  /** Measured at the gate's commit, or at an ancestor since which no live-freshness path changed. */
  predicate IsFresh(ctx: Context, commit: Option<CommitId>) {
    && commit.Some?
    && (commit.value == ctx.gateCommit
        || (ctx.ancestorOfGate(commit.value) && ctx.changedSince(commit.value) == Some([])))
  }

  function VerdictResult(verdict: Verdict): Outcome {
    match verdict
    case NoVerdict => Missing
    case PassValue => Passed
    case ExceptionValue(complete) => if complete then Excepted else Failed
    case OtherValue => Failed
  }

  predicate Readable(document: Option<Evidence.Document>) {
    document.Some? && !document.value.Unreadable? && !document.value.NotAnObject?
  }

  function GateAResult(passed: Option<bool>, manualGatesPassed: bool): Outcome {
    if passed == Some(true) then (if manualGatesPassed then Passed else Failed)
    else if passed == Some(false) then Failed
    else Missing
  }

  function FreshResult(ctx: Context, result: Outcome, doc: Evidence.Document, mustBeFresh: bool): Outcome {
    if mustBeFresh && !IsFresh(ctx, RecordedCommit(doc)) && (result == Passed || result == Excepted) then Missing
    else result
  }

  /** Bound exactly when the audit is clean. */
  ghost function Audited(ctx: Context, doc: Evidence.Document, result: Outcome)
    : Result<Judgement, Migrations.GraphError>
  {
    match Evidence.Audit(ctx.git, ctx.revisions, doc)
    case Err(e) => Err(e)
    case Ok(violations) => Ok(Judgement(result, violations == []))
  }

  ghost function Judge(ctx: Context, outcomes: Outcomes, check: Check): Result<Judgement, Migrations.GraphError> {
    match check.source
    case TestFiles(runner, files, projects) =>
      Ok(Judgement(FilesResult(if runner in outcomes then outcomes[runner] else map[], files, projects), !ctx.treeDirty))
    case TestCases(runner, named) =>
      Ok(Judgement(Worst(NamedResults(CasesFrom(ctx, runner), named)), !ctx.treeDirty))
    case EvidenceFile(document, verdict, mustBeFresh) =>
      if !Readable(document) then Ok(Judgement(Missing, false))
      else Audited(ctx, document.value, FreshResult(ctx, VerdictResult(verdict), document.value, mustBeFresh))
    case GateAEvidence(document, passed, manualGatesPassed) =>
      if !Readable(document) then Ok(Judgement(Missing, false))
      else Audited(ctx, document.value, GateAResult(passed, manualGatesPassed))
    case Computed(name) => Ok(Judgement(ctx.computed(name), true))
  }

  method TestCasesResult(ctx: Context, runner: Runner, named: seq<(File, string)>) returns (result: Outcome)
    ensures result == Worst(NamedResults(CasesFrom(ctx, runner), named))
  {
    var statuses: seq<Outcome> := [];
    for i := 0 to |named|
      invariant statuses == NamedResults(CasesFrom(ctx, runner), named[..i])
    {
      if runner !in ctx.reports {
        statuses := statuses + [Missing];
      } else {
        statuses := statuses + [NamedResult(ctx.reports[runner].cases, named[i].0, named[i].1)];
      }
    }
    assert named[..|named|] == named;
    result := Worst(statuses);
  }

  method TestFilesResult(outcomes: map<File, JUnit.FileOutcome>, files: seq<File>, projects: seq<string>)
    returns (result: Outcome)
    ensures result == FilesResult(outcomes, files, projects)
  {
    var statuses: seq<Outcome> := [];
    for i := 0 to |files|
      invariant statuses == FileResults(outcomes, files[..i])
    {
      statuses := statuses + [FileResult(outcomes, files[i])];
    }
    assert files[..|files|] == files;
    result := Worst(statuses);
    for i := 0 to |files|
      invariant result == FilesResult(outcomes, files, projects)
                || (result == Worst(statuses) && forall k :: 0 <= k < i ==> RanUnder(outcomes, files[k], projects))
      invariant result == Worst(statuses) || result == FilesResult(outcomes, files, projects)
    {
      if result == Passed && !RanUnder(outcomes, files[i], projects) {
        assert files[i] in files;
        result := Missing;
      }
    }
  }

  method EvidenceResult(ctx: Context, doc: Evidence.Document, result: Outcome)
    returns (r: Result<Judgement, Migrations.GraphError>)
    ensures r == Audited(ctx, doc, result)
  {
    var audit := Evidence.AuditEvidenceFile(ctx.git, ctx.revisions, doc);
    match audit {
      case Err(e) => r := Err(e);
      case Ok(violations) => r := Ok(Judgement(result, violations == []));
    }
  }

  method JudgeCheck(ctx: Context, outcomes: Outcomes, check: Check)
    returns (r: Result<Judgement, Migrations.GraphError>)
    ensures r == Judge(ctx, outcomes, check)
  {
    hide Audited, Worst, FilesResult, NamedResults;
    match check.source {
      case TestFiles(runner, files, projects) =>
        var result := TestFilesResult(if runner in outcomes then outcomes[runner] else map[], files, projects);
        r := Ok(Judgement(result, !ctx.treeDirty));
      case TestCases(runner, named) =>
        var result := TestCasesResult(ctx, runner, named);
        r := Ok(Judgement(result, !ctx.treeDirty));
      case EvidenceFile(document, verdict, mustBeFresh) =>
        if !Readable(document) {
          return Ok(Judgement(Missing, false));
        }
        r := EvidenceResult(ctx, document.value, FreshResult(ctx, VerdictResult(verdict), document.value, mustBeFresh));
      case GateAEvidence(document, passed, manualGatesPassed) =>
        if !Readable(document) {
          return Ok(Judgement(Missing, false));
        }
        r := EvidenceResult(ctx, document.value, GateAResult(passed, manualGatesPassed));
      case Computed(name) =>
        r := Ok(Judgement(ctx.computed(name), true));
    }
  }

  // ----- the report

  datatype Entry = Entry(check: string, row: string, category: Option<string>, result: Outcome, bound: bool)

  datatype RowStatus = RowPassed | RowFailed | RowMissing | RowSkipped | RowUnbound | RowExcepted

  datatype RowRecord = RowRecord(status: RowStatus, checks: seq<string>, blocking: seq<string>)

  datatype Report = Report(rows: map<string, RowRecord>, contributing: seq<Entry>, blocking: seq<Entry>, passed: bool)

  predicate Blocks(e: Entry) {
    e.result == Failed || e.result == Skipped || e.result == Missing || !e.bound
  }

  function EntryFor(check: Check, j: Judgement): Entry {
    Entry(check.id, check.row, check.category, j.result, j.bound)
  }

  ghost function Contributions(ctx: Context, outcomes: Outcomes, checks: seq<Check>)
    : Result<seq<Entry>, Migrations.GraphError>
  {
    if checks == [] then Ok([])
    else
      match Contributions(ctx, outcomes, checks[..|checks| - 1])
      case Err(e) => Err(e)
      case Ok(entries) =>
        match Judge(ctx, outcomes, checks[|checks| - 1])
        case Err(e) => Err(e)
        case Ok(j) => Ok(entries + [EntryFor(checks[|checks| - 1], j)])
  }

  function Blocking(entries: seq<Entry>): seq<Entry> {
    if entries == [] then []
    else
      var last := entries[|entries| - 1];
      Blocking(entries[..|entries| - 1]) + (if Blocks(last) then [last] else [])
  }

  /** A case name without its parameters: up to the first bracket of a name that ends with one. */
  function BaseName(name: string): string {
    if name != [] && name[|name| - 1] == ']' then BeforeBracket(name) else name
  }

  function BeforeBracket(name: string): string {
    if name == [] || name[0] == '[' then [] else [name[0]] + BeforeBracket(name[1..])
  }

  predicate Ran(cases: seq<JUnit.CaseResult>, f: File, function_: string) {
    exists c :: c in cases && c.file == f && BaseName(c.name) == function_
  }

  /** A declared Python file with a test function that left no case in the default suite's report. */
  predicate HasGap(ctx: Context, f: File) {
    ctx.isPython(f) && exists name :: name in ctx.testFunctions(f) && !Ran(CasesFrom(ctx, Pytest), f, name)
  }

  function RunLevel(name: string): Entry {
    Entry(name, BINDING_ROW, None, Missing, false)
  }

  function GapBlockers(ctx: Context, files: seq<File>): seq<Entry> {
    if files == [] then []
    else GapBlockers(ctx, files[..|files| - 1]) +
         (if HasGap(ctx, files[|files| - 1]) then [RunLevel("pytest_case_coverage")] else [])
  }

  const RUNNERS := [Pytest, PytestPostgres, Vitest, Playwright]

  function RunnerName(runner: Runner): string {
    match runner
    case Pytest => "pytest"
    case PytestPostgres => "pytest-postgres"
    case Vitest => "vitest"
    case Playwright => "playwright"
  }

  /** A report whose run started before the commit it is bound to. */
  predicate IsStale(ctx: Context, runner: Runner) {
    runner in ctx.reports && ctx.reports[runner].predatesCommit
  }

  function StaleBlockers(ctx: Context, runners: seq<Runner>): seq<Entry> {
    if runners == [] then []
    else
      var last := runners[|runners| - 1];
      StaleBlockers(ctx, runners[..|runners| - 1]) +
      (if IsStale(ctx, last) then [RunLevel(RunnerName(last) + "_xml_provenance")] else [])
  }

  /** Blockers of the run as a whole, added after every check has been judged. */
  function RunBlockers(ctx: Context, checks: seq<Check>): seq<Entry> {
    (if Pytest in ctx.reports then GapBlockers(ctx, Declared(checks, Pytest)) else []) + StaleBlockers(ctx, RUNNERS)
  }

  function OfRow(entries: seq<Entry>, row: string): seq<Entry> {
    if entries == [] then []
    else
      var last := entries[|entries| - 1];
      OfRow(entries[..|entries| - 1], row) + (if last.row == row then [last] else [])
  }

  function Names(entries: seq<Entry>): seq<string> {
    seq(|entries|, i requires 0 <= i < |entries| => entries[i].check)
  }

  function Results(entries: seq<Entry>): set<Outcome> {
    set e | e in entries :: e.result
  }

  function RollUp(results: set<Outcome>, rowBlocks: bool): RowStatus {
    if Failed in results then RowFailed
    else if Missing in results then RowMissing
    else if Skipped in results then RowSkipped
    else if rowBlocks then RowUnbound
    else if Excepted in results then RowExcepted
    else RowPassed
  }

  function RecordOf(contributing: seq<Entry>, blocking: seq<Entry>, row: string): RowRecord {
    var entries, blockers := OfRow(contributing, row), OfRow(blocking, row);
    RowRecord(RollUp(Results(entries), blockers != []), Names(entries), Distinct(Names(blockers)))
  }

  const FILE_RUNNERS := [Pytest, Vitest, Playwright]

  /** File outcomes are gathered for three of the four runners. */
  function FileOutcomesOf(ctx: Context, checks: seq<Check>): Outcomes {
    map runner | runner in FILE_RUNNERS && Declared(checks, runner) != [] ::
      JUnit.Outcomes(CasesFrom(ctx, runner), Declared(checks, runner))
  }

  predicate SomeFileMissing(ctx: Context, checks: seq<Check>, runner: Runner) {
    exists f :: f in Declared(checks, runner) && JUnit.OfFile(CasesFrom(ctx, runner), f) == []
  }

  /** `build_report` as a function. */
  ghost function ReportOf(ctx: Context, strict: bool, checks: seq<Check>, rows: seq<string>): Result<Report, Error> {
    var fault := RegistryFault(checks, rows);
    if fault.Some? then Err(BadRegistry(fault.value))
    else if strict && exists runner :: runner in FILE_RUNNERS && SomeFileMissing(ctx, checks, runner)
    then Err(TestsMissing)
    else
      match Contributions(ctx, FileOutcomesOf(ctx, checks), checks)
      case Err(e) => Err(BrokenMigrations(e))
      case Ok(entries) =>
        var blocking := Blocking(entries) + RunBlockers(ctx, checks);
        Ok(Report(map row | row in rows :: RecordOf(entries, blocking, row), entries, blocking, blocking == []))
  }

  method GatherOutcomes(ctx: Context, strict: bool, checks: seq<Check>) returns (r: Option<Outcomes>)
    ensures r.None? <==> strict && exists runner :: runner in FILE_RUNNERS && SomeFileMissing(ctx, checks, runner)
    ensures r.Some? ==> r.value == FileOutcomesOf(ctx, checks)
  {
    hide Declared, CasesFrom, JUnit.Outcomes, JUnit.OfFile;
    var outcomes: Outcomes := map[];
    for i := 0 to |FILE_RUNNERS|
      invariant forall k :: 0 <= k < i ==> !(strict && SomeFileMissing(ctx, checks, FILE_RUNNERS[k]))
      invariant outcomes == map runner | runner in FILE_RUNNERS[..i] && Declared(checks, runner) != [] ::
                              JUnit.Outcomes(CasesFrom(ctx, runner), Declared(checks, runner))
    {
      var runner := FILE_RUNNERS[i];
      assert runner in FILE_RUNNERS;
      var declared := Declared(checks, runner);
      if declared != [] {
        var files := JUnit.FileOutcomes(CasesFrom(ctx, runner), declared, strict);
        if files.None? {
          return None;
        }
        outcomes := outcomes[runner := files.value];
      }
    }
    assert FILE_RUNNERS[..|FILE_RUNNERS|] == FILE_RUNNERS;
    r := Some(outcomes);
  }

  method AddGapBlockers(ctx: Context, checks: seq<Check>, before: seq<Entry>) returns (blocking: seq<Entry>)
    ensures blocking == before + if Pytest in ctx.reports then GapBlockers(ctx, Declared(checks, Pytest)) else []
  {
    hide Declared, HasGap;
    blocking := before;
    if Pytest in ctx.reports {
      var declared := Declared(checks, Pytest);
      for i := 0 to |declared|
        invariant blocking == before + GapBlockers(ctx, declared[..i])
      {
        assert declared[..i + 1][..i] == declared[..i];
        if HasGap(ctx, declared[i]) {
          blocking := blocking + [RunLevel("pytest_case_coverage")];
        }
      }
      assert declared[..|declared|] == declared;
    }
  }

  method AddStaleBlockers(ctx: Context, before: seq<Entry>) returns (blocking: seq<Entry>)
    ensures blocking == before + StaleBlockers(ctx, RUNNERS)
  {
    hide RunnerName;
    blocking := before;
    var runners := RUNNERS;
    for i := 0 to |runners|
      invariant blocking == before + StaleBlockers(ctx, runners[..i])
    {
      assert runners[..i + 1][..i] == runners[..i];
      if IsStale(ctx, runners[i]) {
        blocking := blocking + [RunLevel(RunnerName(runners[i]) + "_xml_provenance")];
      }
    }
    assert runners[..|runners|] == runners;
  }

  method JudgeAll(ctx: Context, outcomes: Outcomes, checks: seq<Check>)
    returns (contributing: seq<Entry>, blocking: seq<Entry>, error: Option<Migrations.GraphError>)
    ensures Contributions(ctx, outcomes, checks) ==
            if error.Some? then Err(error.value) else Ok(contributing)
    ensures blocking == Blocking(contributing)
  {
    hide Judge, Blocks;
    contributing, blocking, error := [], [], None;
    for i := 0 to |checks|
      invariant Contributions(ctx, outcomes, checks[..i]) == Ok(contributing)
      invariant blocking == Blocking(contributing)
    {
      assert checks[..i + 1][..i] == checks[..i];
      var judged := JudgeCheck(ctx, outcomes, checks[i]);
      if judged.Err? {
        ContributionsStop(ctx, outcomes, checks, i + 1);
        return contributing, blocking, Some(judged.error);
      }
      var entry := EntryFor(checks[i], judged.value);
      assert (contributing + [entry])[..|contributing|] == contributing;
      contributing := contributing + [entry];
      if Blocks(entry) {
        blocking := blocking + [entry];
      }
    }
    assert checks[..|checks|] == checks;
  }

  lemma {:induction false} ContributionsStop(ctx: Context, outcomes: Outcomes, checks: seq<Check>, n: nat)
    requires n <= |checks| && Contributions(ctx, outcomes, checks[..n]).Err?
    ensures Contributions(ctx, outcomes, checks) == Contributions(ctx, outcomes, checks[..n])
    decreases |checks|
  {
    hide Judge;
    if n == |checks| {
      assert checks[..n] == checks;
    } else {
      assert checks[..|checks| - 1][..n] == checks[..n];
      ContributionsStop(ctx, outcomes, checks[..|checks| - 1], n);
    }
  }

  /** Evaluate every registered check and compose the report. */
  method BuildReport(ctx: Context, strict: bool, checks: seq<Check>, rows: seq<string>) returns (r: Result<Report, Error>)
    ensures r == ReportOf(ctx, strict, checks, rows)
  {
    hide RegistryFault, FileOutcomesOf, SomeFileMissing, Contributions, Blocking, GapBlockers, StaleBlockers, Declared, RecordOf;
    var fault := ValidateRegistry(checks, rows);
    if fault.Some? {
      return Err(BadRegistry(fault.value));
    }
    var outcomes := GatherOutcomes(ctx, strict, checks);
    if outcomes.None? {
      return Err(TestsMissing);
    }
    var contributing, blocking, error := JudgeAll(ctx, outcomes.value, checks);
    if error.Some? {
      return Err(BrokenMigrations(error.value));
    }
    blocking := AddGapBlockers(ctx, checks, blocking);
    blocking := AddStaleBlockers(ctx, blocking);
    assert blocking == Blocking(contributing) + RunBlockers(ctx, checks);
    var rolled: map<string, RowRecord> := map[];
    for i := 0 to |rows|
      invariant rolled == map row | row in rows[..i] :: RecordOf(contributing, blocking, row)
    {
      rolled := rolled[rows[i] := RecordOf(contributing, blocking, rows[i])];
    }
    assert rows[..|rows|] == rows;
    r := Ok(Report(rolled, contributing, blocking, blocking == []));
  }

  // ----- the verdict agrees with the rows

  lemma {:induction false} BlockingIsExact(entries: seq<Entry>, e: Entry)
    ensures e in Blocking(entries) <==> e in entries && Blocks(e)
  {
    hide Blocks;
    if entries != [] {
      BlockingIsExact(entries[..|entries| - 1], e);
      assert entries == entries[..|entries| - 1] + [entries[|entries| - 1]];
    }
  }

  lemma {:induction false} OfRowIsExact(entries: seq<Entry>, row: string, e: Entry)
    ensures e in OfRow(entries, row) <==> e in entries && e.row == row
  {
    if entries != [] {
      OfRowIsExact(entries[..|entries| - 1], row, e);
      assert entries == entries[..|entries| - 1] + [entries[|entries| - 1]];
    }
  }

  predicate RowHas(entries: seq<Entry>, row: string, result: Outcome) {
    exists e :: e in entries && e.row == row && e.result == result
  }

  predicate IsBlocked(blocking: seq<Entry>, row: string) {
    exists e :: e in blocking && e.row == row
  }

  /** What each row status says about the row's checks, in order of precedence. */
  lemma RowStatusIsHonest(entries: seq<Entry>, blocking: seq<Entry>, row: string)
    ensures var s := RecordOf(entries, blocking, row).status;
            && (s == RowFailed <==> RowHas(entries, row, Failed))
            && (s == RowMissing <==> !RowHas(entries, row, Failed) && RowHas(entries, row, Missing))
            && (s == RowSkipped <==> !RowHas(entries, row, Failed) && !RowHas(entries, row, Missing)
                                     && RowHas(entries, row, Skipped))
            && (s == RowPassed || s == RowExcepted <==>
                  !IsBlocked(blocking, row) && !RowHas(entries, row, Failed) && !RowHas(entries, row, Missing)
                  && !RowHas(entries, row, Skipped))
            && (s == RowExcepted ==> RowHas(entries, row, Excepted))
            && (s == RowPassed ==> !RowHas(entries, row, Excepted))
  {
    var mine, blockers := OfRow(entries, row), OfRow(blocking, row);
    forall e ensures e in mine <==> e in entries && e.row == row {
      OfRowIsExact(entries, row, e);
    }
    forall e ensures e in blockers <==> e in blocking && e.row == row {
      OfRowIsExact(blocking, row, e);
    }
    forall result ensures result in Results(mine) <==> RowHas(entries, row, result) {
    }
    assert blockers != [] <==> IsBlocked(blocking, row) by {
      if blockers != [] {
        assert blockers[0] in blockers;
      }
    }
  }

  /** A row lists exactly its own checks, and each check that blocks it once. */
  lemma RowListsAreExact(entries: seq<Entry>, blocking: seq<Entry>, row: string, name: string)
    ensures var r := RecordOf(entries, blocking, row);
            && (name in r.checks <==> exists e :: e in entries && e.row == row && e.check == name)
            && (name in r.blocking <==> exists e :: e in blocking && e.row == row && e.check == name)
            && NoRepeats(r.blocking)
  {
    hide Distinct, OfRow;
    NamesAreExact(entries, row, name);
    NamesAreExact(blocking, row, name);
    var names := Names(OfRow(blocking, row));
    DistinctKeepsElements(names, name);
    DistinctHasNoRepeats(names);
  }

  lemma NamesAreExact(entries: seq<Entry>, row: string, name: string)
    ensures name in Names(OfRow(entries, row)) <==> exists e :: e in entries && e.row == row && e.check == name
  {
    hide OfRow;
    var mine := OfRow(entries, row);
    forall e ensures e in mine <==> e in entries && e.row == row {
      OfRowIsExact(entries, row, e);
    }
    if name in Names(mine) {
      var i :| 0 <= i < |mine| && Names(mine)[i] == name;
      assert mine[i] in mine;
    }
    if exists e :: e in mine && e.check == name {
      var i :| 0 <= i < |mine| && mine[i].check == name;
      assert Names(mine)[i] == name;
    }
  }

  lemma {:induction false} DistinctHasNoRepeats<T>(s: seq<T>)
    ensures NoRepeats(Distinct(s))
  {
    if s != [] {
      DistinctHasNoRepeats(s[..|s| - 1]);
    }
  }

  predicate AllRowsPass(report: Report, rows: seq<string>)
    requires forall row :: row in rows ==> row in report.rows
  {
    forall row :: row in rows ==> report.rows[row].status == RowPassed || report.rows[row].status == RowExcepted
  }

  /** The judgement behind every entry, in registry order. */
  lemma {:induction false} ContributionsMirrorTheChecks(ctx: Context, outcomes: Outcomes, checks: seq<Check>)
    ensures Contributions(ctx, outcomes, checks).Ok? <==>
              forall i :: 0 <= i < |checks| ==> Judge(ctx, outcomes, checks[i]).Ok?
    ensures Contributions(ctx, outcomes, checks).Ok? ==>
              var entries := Contributions(ctx, outcomes, checks).value;
              && |entries| == |checks|
              && forall i :: 0 <= i < |checks| ==>
                   entries[i] == EntryFor(checks[i], Judge(ctx, outcomes, checks[i]).value)
  {
    hide Judge, EntryFor;
    if checks != [] {
      ContributionsMirrorTheChecks(ctx, outcomes, checks[..|checks| - 1]);
    }
  }

  lemma {:induction false} GapsBlockTheBindingRow(ctx: Context, files: seq<File>)
    ensures forall e :: e in GapBlockers(ctx, files) ==> e.row == BINDING_ROW
    ensures GapBlockers(ctx, files) == [] <==> forall f :: f in files ==> !HasGap(ctx, f)
  {
    hide HasGap;
    if files != [] {
      GapsBlockTheBindingRow(ctx, files[..|files| - 1]);
      assert files == files[..|files| - 1] + [files[|files| - 1]];
    }
  }

  lemma {:induction false} StaleReportsBlockTheBindingRow(ctx: Context, runners: seq<Runner>)
    ensures forall e :: e in StaleBlockers(ctx, runners) ==> e.row == BINDING_ROW
    ensures StaleBlockers(ctx, runners) == [] <==> forall r :: r in runners ==> !IsStale(ctx, r)
  {
    hide IsStale, RunnerName;
    if runners != [] {
      StaleReportsBlockTheBindingRow(ctx, runners[..|runners| - 1]);
      assert runners == runners[..|runners| - 1] + [runners[|runners| - 1]];
    }
  }

  lemma RunBlockersBlockTheBindingRow(ctx: Context, checks: seq<Check>)
    ensures forall e :: e in RunBlockers(ctx, checks) ==> e.row == BINDING_ROW
  {
    GapsBlockTheBindingRow(ctx, Declared(checks, Pytest));
    StaleReportsBlockTheBindingRow(ctx, RUNNERS);
  }

  lemma RowsPassIff(entries: seq<Entry>, blocking: seq<Entry>, rows: seq<string>)
    requires forall e :: e in entries ==> e.row in rows
    requires forall e :: e in entries && Blocks(e) ==> e in blocking
    ensures (forall row :: row in rows ==> var s := RecordOf(entries, blocking, row).status;
                                           s == RowPassed || s == RowExcepted)
            <==> forall e :: e in blocking ==> e.row !in rows
  {
    hide RecordOf;
    forall row | row in rows
      ensures var s := RecordOf(entries, blocking, row).status;
              s == RowPassed || s == RowExcepted <==> !IsBlocked(blocking, row)
    {
      RowStatusIsHonest(entries, blocking, row);
    }
  }

  /**
   For any registry: the gate passes if and only if every row is passed or excepted and, when
   the row run-level blockers are filed under is not registered, there is none of them.
   */
  lemma VerdictAgreesWithRowsIff(ctx: Context, strict: bool, checks: seq<Check>, rows: seq<string>)
    requires ReportOf(ctx, strict, checks, rows).Ok?
    ensures var report := ReportOf(ctx, strict, checks, rows).value;
            && report.rows.Keys == (set row | row in rows)
            && (report.passed <==>
                  AllRowsPass(report, rows) && (BINDING_ROW in rows || RunBlockers(ctx, checks) == []))
  {
    hide RecordOf, Judge, RunBlockers, FileOutcomesOf, SomeFileMissing, Blocks, RegistryFault;
    var outcomes := FileOutcomesOf(ctx, checks);
    var entries := Contributions(ctx, outcomes, checks).value;
    var run := RunBlockers(ctx, checks);
    ContributionsMirrorTheChecks(ctx, outcomes, checks);
    RunBlockersBlockTheBindingRow(ctx, checks);
    forall e ensures e in Blocking(entries) <==> e in entries && Blocks(e) {
      BlockingIsExact(entries, e);
    }
    NoFaultIffValid(checks, rows);
    forall e | e in entries ensures e.row in rows {
      var i :| 0 <= i < |entries| && entries[i] == e;
      assert checks[i] in checks;
    }
    var blocking := Blocking(entries) + run;
    RowsPassIff(entries, blocking, rows);
    if blocking != [] {
      assert blocking[0] in blocking;
    }
    if run != [] {
      assert run[0] in run && run[0] in blocking;
    }
  }

  /** With the shipped rows the verdict is exactly what the rows show. */
  lemma ShippedVerdictIsWhatTheRowsShow(ctx: Context, strict: bool, checks: seq<Check>)
    requires ReportOf(ctx, strict, checks, GATE_B_ROWS).Ok?
    ensures var report := ReportOf(ctx, strict, checks, GATE_B_ROWS).value;
            && report.rows.Keys == (set row | row in GATE_B_ROWS)
            && (report.passed <==> AllRowsPass(report, GATE_B_ROWS))
  {
    hide ReportOf, RunBlockers;
    assert GATE_B_ROWS[2] == BINDING_ROW;
    VerdictAgreesWithRowsIff(ctx, strict, checks, GATE_B_ROWS);
  }

  // One computed check per category of the regressions row, and a stale report.

  function ExampleCheck(i: nat): Check
    requires i < |REGRESSION_CATEGORIES|
  {
    Check(seq(i, _ => 'c'), REGRESSIONS_ROW, Some(REGRESSION_CATEGORIES[i]), Computed(COMPUTED_CHECKS[0]))
  }

  const EXAMPLE_CHECKS := seq(|REGRESSION_CATEGORIES|, i requires 0 <= i < |REGRESSION_CATEGORIES| => ExampleCheck(i))

  const EXAMPLE_CONTEXT :=
    Context(false, map[Vitest := RunnerReport([], true)], Evidence.Git(_ => false, _ => false, _ => false), map[], 0,
            _ => false, _ => None, _ => Passed, _ => false, _ => [])

  lemma ExampleRegistryIsValid()
    ensures ValidRegistry(EXAMPLE_CHECKS, [REGRESSIONS_ROW])
  {
    assert EXAMPLE_CHECKS[0] in EXAMPLE_CHECKS;
    assert COMPUTED_CHECKS[0] in COMPUTED_CHECKS;
    forall i, j | 0 <= i < j < |EXAMPLE_CHECKS| ensures EXAMPLE_CHECKS[i].id != EXAMPLE_CHECKS[j].id {
      assert |EXAMPLE_CHECKS[i].id| == i && |EXAMPLE_CHECKS[j].id| == j;
    }
    forall category | category in REGRESSION_CATEGORIES ensures CoversCategory(EXAMPLE_CHECKS, category) {
      var i :| 0 <= i < |REGRESSION_CATEGORIES| && REGRESSION_CATEGORIES[i] == category;
      assert EXAMPLE_CHECKS[i] in EXAMPLE_CHECKS;
    }
  }

  lemma ExampleChecksAllProve(outcomes: Outcomes)
    ensures var r := Contributions(EXAMPLE_CONTEXT, outcomes, EXAMPLE_CHECKS);
            r.Ok? && Blocking(r.value) == [] && forall e :: e in r.value ==> e.row == REGRESSIONS_ROW && !Blocks(e)
  {
    hide Contributions, Blocking;
    ContributionsMirrorTheChecks(EXAMPLE_CONTEXT, outcomes, EXAMPLE_CHECKS);
    NothingBlocksIff(Contributions(EXAMPLE_CONTEXT, outcomes, EXAMPLE_CHECKS).value);
  }

  /** Without the binding row every row can read passed while a stale report blocks the gate. */
  lemma UnregisteredBindingRowHidesABlocker()
    ensures var r := ReportOf(EXAMPLE_CONTEXT, true, EXAMPLE_CHECKS, [REGRESSIONS_ROW]);
            && r.Ok? && r.value.rows.Keys == {REGRESSIONS_ROW}
            && AllRowsPass(r.value, [REGRESSIONS_ROW]) && !r.value.passed
  {
    hide ValidRegistry, RegistryFault, RunBlockers, RecordOf, Declared, Blocking, Contributions, FileOutcomesOf, Blocks;
    ExampleRegistryIsValid();
    NoFaultIffValid(EXAMPLE_CHECKS, [REGRESSIONS_ROW]);
    forall runner, f ensures f !in Declared(EXAMPLE_CHECKS, runner) {
      DeclaredIsExact(EXAMPLE_CHECKS, runner, f);
    }
    var outcomes := FileOutcomesOf(EXAMPLE_CONTEXT, EXAMPLE_CHECKS);
    ExampleChecksAllProve(outcomes);
    NoRunBlockersIff(EXAMPLE_CONTEXT, EXAMPLE_CHECKS);
    assert IsStale(EXAMPLE_CONTEXT, Vitest);
    RunBlockersBlockTheBindingRow(EXAMPLE_CONTEXT, EXAMPLE_CHECKS);
    var entries := Contributions(EXAMPLE_CONTEXT, outcomes, EXAMPLE_CHECKS).value;
    RowsPassIff(entries, Blocking(entries) + RunBlockers(EXAMPLE_CONTEXT, EXAMPLE_CHECKS), [REGRESSIONS_ROW]);
  }

  // ----- what a passing gate means

  /** A file ran and every one of its cases passed. */
  predicate FilePassed(cases: seq<JUnit.CaseResult>, f: File) {
    && (exists c :: c in cases && c.file == f)
    && (forall c :: c in cases && c.file == f ==> c.status == JUnit.Passed)
  }

  predicate FileRanIn(cases: seq<JUnit.CaseResult>, f: File, project: string) {
    project != "" && exists c :: c in cases && c.file == f && c.project == project
  }

  /** A case of the function itself, or of the function with parameters in brackets. */
  predicate IsCaseOf(c: JUnit.CaseResult, f: File, name: string) {
    && c.file == f
    && (c.name == name || (|c.name| > |name| && c.name[..|name|] == name && c.name[|name|] == '['))
  }

  lemma NamedIff(c: JUnit.CaseResult, f: File, name: string)
    ensures IsNamed(c, f, name) <==> IsCaseOf(c, f, name)
  {
    if |c.name| > |name| && c.name[..|name|] == name && c.name[|name|] == '[' {
      assert c.name[..|name| + 1] == name + "[";
    }
    if name + "[" <= c.name {
      assert c.name[..|name|] == name && c.name[|name|] == (name + "[")[|name|];
    }
  }

  predicate NamedPassed(cases: seq<JUnit.CaseResult>, f: File, name: string) {
    && (exists c :: c in cases && IsCaseOf(c, f, name))
    && (forall c :: c in cases && IsCaseOf(c, f, name) ==> c.status == JUnit.Passed)
  }

  /** The claim a check stands for, said without any roll-up. */
  ghost predicate Proves(ctx: Context, repo: Evidence.Repo, check: Check)
    requires Evidence.Valid(repo)
  {
    match check.source
    case TestFiles(runner, files, projects) =>
      var cases := if runner in ctx.reports then ctx.reports[runner].cases else [];
      && !ctx.treeDirty
      && (forall f :: f in files ==> runner != PytestPostgres && FilePassed(cases, f))
      && (forall f, p :: f in files && p in projects ==> FileRanIn(cases, f, p))
    case TestCases(runner, named) =>
      var cases := if runner in ctx.reports then ctx.reports[runner].cases else [];
      && !ctx.treeDirty
      && (forall n :: n in named ==> NamedPassed(cases, n.0, n.1))
    case EvidenceFile(document, verdict, mustBeFresh) =>
      && document.Some? && Evidence.WellBound(repo, document.value)
      && (verdict == PassValue || verdict == ExceptionValue(true))
      && (mustBeFresh ==>
            var commit := document.value.code.value.commit.value;
            commit == ctx.gateCommit || (ctx.ancestorOfGate(commit) && ctx.changedSince(commit) == Some([])))
    case GateAEvidence(document, passed, manualGatesPassed) =>
      document.Some? && Evidence.WellBound(repo, document.value) && passed == Some(true) && manualGatesPassed
    case Computed(name) => ctx.computed(name) == Passed || ctx.computed(name) == Excepted
  }

  lemma FileResultIsPassedIff(cases: seq<JUnit.CaseResult>, declared: seq<File>, f: File)
    requires f in declared
    ensures FileResult(JUnit.Outcomes(cases, declared), f) == Passed <==> FilePassed(cases, f)
  {
    hide JUnit.OfFile, JUnit.CountStatus;
    JUnit.FileOutcomeIsHonest(cases, f);
  }

  lemma RanUnderIff(cases: seq<JUnit.CaseResult>, declared: seq<File>, f: File, projects: seq<string>)
    requires f in declared && FilePassed(cases, f)
    ensures RanUnder(JUnit.Outcomes(cases, declared), f, projects) <==>
              forall p :: p in projects ==> FileRanIn(cases, f, p)
  {
    hide JUnit.OfFile, JUnit.CountStatus;
    var mine := JUnit.OfFile(cases, f);
    forall c ensures c in mine <==> c in cases && c.file == f {
      JUnit.OfFileIsExact(cases, f, c);
    }
    assert mine != [];
    forall p ensures p in JUnit.OutcomeOf(cases, f).projects <==> FileRanIn(cases, f, p) {
    }
  }

  lemma FilesResultIsPassedIff(cases: seq<JUnit.CaseResult>, declared: seq<File>, files: seq<File>, projects: seq<string>)
    requires forall f :: f in files ==> f in declared
    ensures var result := FilesResult(JUnit.Outcomes(cases, declared), files, projects);
            && result != Excepted
            && (result == Passed <==>
                  (forall f :: f in files ==> FilePassed(cases, f))
                  && forall f, p :: f in files && p in projects ==> FileRanIn(cases, f, p))
  {
    hide JUnit.Outcomes, FilePassed, FileRanIn, RanUnder, FileResult;
    var outcomes := JUnit.Outcomes(cases, declared);
    var statuses := FileResults(outcomes, files);
    forall i | 0 <= i < |files| ensures statuses[i] == Passed <==> FilePassed(cases, files[i]) {
      FileResultIsPassedIff(cases, declared, files[i]);
    }
    FileResultsAreNeverExcepted(outcomes, files);
    WorstIsPassedIff(statuses);
    if Worst(statuses) == Passed {
      forall f | f in files ensures FilePassed(cases, f) {
        var i :| 0 <= i < |files| && files[i] == f;
        assert statuses[i] in statuses;
      }
      forall f | f in files
        ensures RanUnder(outcomes, f, projects) <==> forall p :: p in projects ==> FileRanIn(cases, f, p)
      {
        RanUnderIff(cases, declared, f, projects);
      }
    } else {
      var s :| s in statuses && s != Passed;
      var i :| 0 <= i < |statuses| && statuses[i] == s;
      assert files[i] in files;
    }
  }

  lemma FileResultsAreNeverExcepted(outcomes: map<File, JUnit.FileOutcome>, files: seq<File>)
    ensures Excepted !in FileResults(outcomes, files)
  {
  }

  lemma WorstIsPassedIff(statuses: seq<Outcome>)
    requires Excepted !in statuses
    ensures Worst(statuses) == Passed <==> forall s :: s in statuses ==> s == Passed
  {
  }

  lemma {:induction false} MatchingIsExact(cases: seq<JUnit.CaseResult>, f: File, name: string, c: JUnit.CaseResult)
    ensures c in Matching(cases, f, name) <==> c in cases && IsNamed(c, f, name)
  {
    hide IsNamed;
    if cases != [] {
      MatchingIsExact(cases[..|cases| - 1], f, name, c);
      assert cases == cases[..|cases| - 1] + [cases[|cases| - 1]];
    }
  }

  lemma NamedResultIsPassedIff(cases: seq<JUnit.CaseResult>, f: File, name: string)
    ensures NamedResult(cases, f, name) == Passed <==> NamedPassed(cases, f, name)
  {
    hide IsNamed, IsCaseOf, Matching;
    var matching := Matching(cases, f, name);
    forall c ensures c in matching <==> c in cases && IsCaseOf(c, f, name) {
      MatchingIsExact(cases, f, name, c);
      NamedIff(c, f, name);
    }
    if matching != [] {
      assert matching[0] in matching;
    }
  }

  lemma NamedResultsArePassedIff(cases: seq<JUnit.CaseResult>, named: seq<(File, string)>)
    ensures var result := Worst(NamedResults(cases, named));
            && result != Excepted
            && (result == Passed <==> forall n :: n in named ==> NamedPassed(cases, n.0, n.1))
  {
    hide NamedPassed, Matching;
    var statuses := NamedResults(cases, named);
    forall i | 0 <= i < |named| ensures statuses[i] == Passed <==> NamedPassed(cases, named[i].0, named[i].1) {
      NamedResultIsPassedIff(cases, named[i].0, named[i].1);
    }
    WorstIsPassedIff(statuses);
    if Worst(statuses) == Passed {
      forall n | n in named ensures NamedPassed(cases, n.0, n.1) {
        var i :| 0 <= i < |named| && named[i] == n;
        assert statuses[i] in statuses;
      }
    } else {
      var s :| s in statuses && s != Passed;
      var i :| 0 <= i < |statuses| && statuses[i] == s;
      assert named[i] in named;
    }
  }

  lemma {:induction false} DistinctKeepsElements<T>(s: seq<T>, x: T)
    ensures x in Distinct(s) <==> x in s
  {
    if s != [] {
      DistinctKeepsElements(s[..|s| - 1], x);
      assert s == s[..|s| - 1] + [s[|s| - 1]];
    }
  }

  lemma {:induction false} AllFilesIsExact(checks: seq<Check>, runner: Runner, f: File)
    ensures f in AllFiles(checks, runner) <==> exists c :: c in checks && f in FilesOf(c, runner)
  {
    hide FilesOf;
    if checks != [] {
      AllFilesIsExact(checks[..|checks| - 1], runner, f);
      assert checks == checks[..|checks| - 1] + [checks[|checks| - 1]];
    }
  }

  lemma DeclaredIsExact(checks: seq<Check>, runner: Runner, f: File)
    ensures f in Declared(checks, runner) <==> exists c :: c in checks && f in FilesOf(c, runner)
  {
    DistinctKeepsElements(AllFiles(checks, runner), f);
    AllFilesIsExact(checks, runner, f);
  }

  /** A check of the registry is judged, proven and bound exactly when its claim holds. */
  lemma JudgedProvenIff(ctx: Context, repo: Evidence.Repo, checks: seq<Check>, check: Check)
    requires check in checks && Evidence.AnswersFor(ctx.git, repo) && ctx.revisions == repo.revisions
    ensures var j := Judge(ctx, FileOutcomesOf(ctx, checks), check);
            j.Ok? && !Blocks(EntryFor(check, j.value)) <==> Proves(ctx, repo, check)
  {
    hide Evidence.WellBound, Evidence.Audit, FilePassed, FileRanIn, NamedPassed, FilesResult, Worst, NamedResults,
         Declared, JUnit.Outcomes, Evidence.IsAncestor, Evidence.TouchesCode;
    var j := Judge(ctx, FileOutcomesOf(ctx, checks), check);
    match check.source {
      case TestFiles(runner, files, projects) =>
        DeclaredFilesProvenIff(ctx, checks, check);
      case TestCases(runner, named) =>
        NamedResultsArePassedIff(CasesFrom(ctx, runner), named);
      case EvidenceFile(document, verdict, mustBeFresh) =>
        if document.Some? {
          Evidence.CleanIffWellBound(ctx.git, repo, document.value);
          WellBoundNamesItsCommit(repo, document.value);
        }
      case GateAEvidence(document, passed, manualGatesPassed) =>
        if document.Some? {
          Evidence.CleanIffWellBound(ctx.git, repo, document.value);
          WellBoundNamesItsCommit(repo, document.value);
        }
      case Computed(name) =>
    }
  }

  lemma WellBoundNamesItsCommit(repo: Evidence.Repo, doc: Evidence.Document)
    requires Evidence.Valid(repo)
    ensures Evidence.WellBound(repo, doc) ==> doc.Bindings? && doc.code.Some? && doc.code.value.commit.Some?
  {
    hide Evidence.IsAncestor, Migrations.Chain, Evidence.TouchesCode;
  }

  lemma DeclaredFilesProvenIff(ctx: Context, checks: seq<Check>, check: Check)
    requires check in checks && check.source.TestFiles?
    ensures var outcomes := FileOutcomesOf(ctx, checks);
            var runner := check.source.runner;
            var files := check.source.files;
            var result := FilesResult(if runner in outcomes then outcomes[runner] else map[], files, check.source.projects);
            && result != Excepted
            && (result == Passed <==>
                  (forall f :: f in files ==> runner != PytestPostgres && FilePassed(CasesFrom(ctx, runner), f))
                  && forall f, p :: f in files && p in check.source.projects ==> FileRanIn(CasesFrom(ctx, runner), f, p))
  {
    hide FilePassed, FileRanIn, FilesResult, CasesFrom, Declared, JUnit.Outcomes;
    var runner, files := check.source.runner, check.source.files;
    forall f | f in files ensures f in Declared(checks, runner) {
      assert f in FilesOf(check, runner);
      DeclaredIsExact(checks, runner, f);
    }
    if files == [] {
      NoFiles(FileOutcomesOf(ctx, checks), runner, check.source.projects);
    } else {
      assert files[0] in files;
      if runner == PytestPostgres {
        assert runner !in FileOutcomesOf(ctx, checks);
        NoOutcomes(files, check.source.projects);
      } else {
        assert runner == FILE_RUNNERS[0] || runner == FILE_RUNNERS[1] || runner == FILE_RUNNERS[2];
        FilesResultIsPassedIff(CasesFrom(ctx, runner), Declared(checks, runner), files, check.source.projects);
      }
    }
  }

  lemma NoFiles(outcomes: Outcomes, runner: Runner, projects: seq<string>)
    ensures FilesResult(if runner in outcomes then outcomes[runner] else map[], [], projects) == Passed
  {
  }

  lemma NoOutcomes(files: seq<File>, projects: seq<string>)
    requires files != []
    ensures FilesResult(map[], files, projects) == Missing
  {
    var results := FileResults(map[], files);
    assert results[0] == Missing;
    assert forall i :: 0 <= i < |results| ==> results[i] == Missing;
  }

  /** Every test function of every declared Python file left a case in the default suite's report. */
  ghost predicate SourcesAreCovered(ctx: Context, checks: seq<Check>) {
    Pytest in ctx.reports ==>
      forall c, f, name :: c in checks && f in FilesOf(c, Pytest) && ctx.isPython(f) && name in ctx.testFunctions(f) ==>
        Ran(ctx.reports[Pytest].cases, f, name)
  }

  lemma NoRunBlockersIff(ctx: Context, checks: seq<Check>)
    ensures RunBlockers(ctx, checks) == [] <==>
              SourcesAreCovered(ctx, checks) && forall runner :: runner in ctx.reports ==> !ctx.reports[runner].predatesCommit
  {
    hide Declared, FilesOf, Ran, GapBlockers, StaleBlockers;
    assert forall r :: IsStale(ctx, r) <==> r in ctx.reports && ctx.reports[r].predatesCommit;
    var files := Declared(checks, Pytest);
    forall f ensures f in files <==> exists c :: c in checks && f in FilesOf(c, Pytest) {
      DeclaredIsExact(checks, Pytest, f);
    }
    GapsBlockTheBindingRow(ctx, files);
    StaleReportsBlockTheBindingRow(ctx, RUNNERS);
    forall runner: Runner ensures runner in RUNNERS {
      EveryRunnerIsListed(runner);
    }
    if Pytest in ctx.reports && SourcesAreCovered(ctx, checks) {
      forall f | f in files ensures !HasGap(ctx, f) {
      }
    }
    if Pytest in ctx.reports && GapBlockers(ctx, files) == [] {
      forall c, f, name | c in checks && f in FilesOf(c, Pytest) && ctx.isPython(f) && name in ctx.testFunctions(f)
        ensures Ran(ctx.reports[Pytest].cases, f, name)
      {
        assert f in files && !HasGap(ctx, f);
      }
    }
  }

  lemma EveryRunnerIsListed(runner: Runner)
    ensures runner in RUNNERS
  {
    assert RUNNERS[0] == Pytest && RUNNERS[1] == PytestPostgres && RUNNERS[2] == Vitest && RUNNERS[3] == Playwright;
  }

  /**
   The gate passes, instead of blocking or refusing to report, if and only if the registry is
   valid, the claim of every check holds, no test function of a declared file went without a
   case, and no test report predates the commit it is bound to. Strictness about missing files
   never changes this.
   */
  lemma GatePassesIff(ctx: Context, repo: Evidence.Repo, strict: bool, checks: seq<Check>, rows: seq<string>)
    requires Evidence.AnswersFor(ctx.git, repo) && ctx.revisions == repo.revisions
    ensures var r := ReportOf(ctx, strict, checks, rows);
            r.Ok? && r.value.passed <==>
              && ValidRegistry(checks, rows)
              && (forall c :: c in checks ==> Proves(ctx, repo, c))
              && SourcesAreCovered(ctx, checks)
              && (forall runner :: runner in ctx.reports ==> !ctx.reports[runner].predatesCommit)
  {
    hide ValidRegistry, RegistryFault, Proves, SourcesAreCovered, IsStale, RunBlockers, RecordOf, Judge, FileOutcomesOf,
         SomeFileMissing, Blocks, EntryFor, Evidence.IsAncestor, Evidence.TouchesCode;
    var outcomes := FileOutcomesOf(ctx, checks);
    ContributionsMirrorTheChecks(ctx, outcomes, checks);
    NoFaultIffValid(checks, rows);
    NoRunBlockersIff(ctx, checks);
    forall i | 0 <= i < |checks|
      ensures Proves(ctx, repo, checks[i]) <==>
                Judge(ctx, outcomes, checks[i]).Ok? && !Blocks(EntryFor(checks[i], Judge(ctx, outcomes, checks[i]).value))
    {
      JudgedProvenIff(ctx, repo, checks, checks[i]);
    }
    if forall c :: c in checks ==> Proves(ctx, repo, c) {
      forall runner | runner in FILE_RUNNERS ensures !SomeFileMissing(ctx, checks, runner) {
        ProvenFilesAreThere(ctx, repo, checks, runner);
      }
      assert Contributions(ctx, outcomes, checks).Ok?;
    }
    if Contributions(ctx, outcomes, checks).Ok? {
      NothingBlocksIff(Contributions(ctx, outcomes, checks).value);
    }
  }

  lemma NothingBlocksIff(entries: seq<Entry>)
    ensures Blocking(entries) == [] <==> forall i :: 0 <= i < |entries| ==> !Blocks(entries[i])
  {
    hide Blocks;
    forall e ensures e in Blocking(entries) <==> e in entries && Blocks(e) {
      BlockingIsExact(entries, e);
    }
    if Blocking(entries) != [] {
      assert Blocking(entries)[0] in Blocking(entries);
    }
  }

  lemma ProvenFilesAreThere(ctx: Context, repo: Evidence.Repo, checks: seq<Check>, runner: Runner)
    requires Evidence.Valid(repo) && forall c :: c in checks ==> Proves(ctx, repo, c)
    ensures !SomeFileMissing(ctx, checks, runner)
  {
    hide Evidence.WellBound, Declared, JUnit.OfFile, NamedPassed, FileRanIn;
    forall f | f in Declared(checks, runner) ensures JUnit.OfFile(CasesFrom(ctx, runner), f) != [] {
      DeclaredIsExact(checks, runner, f);
      var c :| c in checks && f in FilesOf(c, runner);
      assert Proves(ctx, repo, c) && FilePassed(CasesFrom(ctx, runner), f);
      var k :| k in CasesFrom(ctx, runner) && k.file == f;
      JUnit.OfFileIsExact(CasesFrom(ctx, runner), f, k);
    }
  }

  /**
   From the XML tree to the verdict: when the gate passes, no test case that stands directly under
   a suite of any depth and is identified with a file some check declares has a child that says
   skipped, failure or error, and each declared file has such a test case.
   */
  lemma PassingGateReadsEveryCase(ctx: Context, repo: Evidence.Repo, strict: bool, checks: seq<Check>, rows: seq<string>,
                                  check: Check, f: File, run: JUnit.Runner, root: JUnit.Element)
    requires Evidence.AnswersFor(ctx.git, repo) && ctx.revisions == repo.revisions
    requires ReportOf(ctx, strict, checks, rows).Ok? && ReportOf(ctx, strict, checks, rows).value.passed
    requires check in checks && check.source.TestFiles? && f in check.source.files
    requires check.source.runner in ctx.reports && ctx.reports[check.source.runner].cases == JUnit.Parsed(run, root)
    ensures exists suite, k :: JUnit.Contains(root, suite) && JUnit.Stands(run, suite, k, f)
    ensures forall suite, k, i :: JUnit.Contains(root, suite) && JUnit.Stands(run, suite, k, f)
                                  && 0 <= i < |suite.children[k].children| ==>
              !JUnit.SaysSomething(suite.children[k].children[i])
  {
    hide ReportOf, ValidRegistry, SourcesAreCovered, JUnit.Parsed, Evidence.IsAncestor, Evidence.TouchesCode, FileRanIn,
         JUnit.Contains, JUnit.StatusOf, JUnit.SaysSomething;
    GatePassesIff(ctx, repo, strict, checks, rows);
    var cases := ctx.reports[check.source.runner].cases;
    assert FilePassed(cases, f);
    var c :| c in cases && c.file == f;
    JUnit.RecordedIff(run, root, c);
    forall suite, k, i | JUnit.Contains(root, suite) && JUnit.Stands(run, suite, k, f)
                         && 0 <= i < |suite.children[k].children|
      ensures !JUnit.SaysSomething(suite.children[k].children[i])
    {
      var x := suite.children[k];
      var d := JUnit.CaseResult(f, x.name, JUnit.StatusOf(x.children), if run.hostIsProject then suite.host else "");
      assert JUnit.Describes(run, suite, k, d);
      JUnit.RecordedIff(run, root, d);
      JUnit.StatusIsTheFirstWord(x.children);
    }
  }

  /** A whole-file check on the PostgreSQL run can never pass: no file outcomes are gathered for it. */
  lemma PostgresFilesNeverPass(ctx: Context, repo: Evidence.Repo, strict: bool, checks: seq<Check>, rows: seq<string>,
                               check: Check)
    requires Evidence.AnswersFor(ctx.git, repo) && ctx.revisions == repo.revisions
    requires check in checks && check.source.TestFiles? && check.source.files != []
    requires check.source.runner == PytestPostgres
    ensures var r := ReportOf(ctx, strict, checks, rows); !(r.Ok? && r.value.passed)
  {
    hide ReportOf, ValidRegistry, SourcesAreCovered, Evidence.IsAncestor, Evidence.TouchesCode, FileRanIn, FilePassed;
    GatePassesIff(ctx, repo, strict, checks, rows);
    assert check.source.files[0] in check.source.files;
  }

  /** When the gate passes, every test function of a declared Python file has a case, and it passed. */
  lemma EveryDeclaredTestFunctionPassed(ctx: Context, repo: Evidence.Repo, strict: bool, checks: seq<Check>,
                                        rows: seq<string>, check: Check, f: File, function_: string)
    requires Evidence.AnswersFor(ctx.git, repo) && ctx.revisions == repo.revisions
    requires ReportOf(ctx, strict, checks, rows).Ok? && ReportOf(ctx, strict, checks, rows).value.passed
    requires check in checks && check.source.TestFiles? && check.source.runner == Pytest && f in check.source.files
    requires ctx.isPython(f) && function_ in ctx.testFunctions(f)
    ensures Pytest in ctx.reports
    ensures exists c :: c in ctx.reports[Pytest].cases && IsCaseOf(c, f, function_) && c.status == JUnit.Passed
  {
    hide ReportOf, ValidRegistry, Evidence.IsAncestor, Evidence.TouchesCode, FileRanIn, BaseName;
    GatePassesIff(ctx, repo, strict, checks, rows);
    var cases := ctx.reports[Pytest].cases;
    assert FilePassed(cases, f);
    assert f in FilesOf(check, Pytest);
    assert Ran(cases, f, function_);
    var c :| c in cases && c.file == f && BaseName(c.name) == function_;
    BaseNameIs(c.name);
  }

  lemma {:induction false} BeforeBracketIs(name: string)
    ensures BeforeBracket(name) <= name
    ensures forall i :: 0 <= i < |BeforeBracket(name)| ==> name[i] != '['
    ensures |BeforeBracket(name)| < |name| ==> name[|BeforeBracket(name)|] == '['
  {
    if name != [] && name[0] != '[' {
      BeforeBracketIs(name[1..]);
      var rest := BeforeBracket(name[1..]);
      forall i | 0 < i < |name| ensures name[i] == name[1..][i - 1] {
      }
    }
  }

  /** The base name is what stands before the first bracket of a name that closes one, and the name itself otherwise. */
  lemma BaseNameIs(name: string)
    ensures BaseName(name) <= name
    ensures BaseName(name) == name <==> name == [] || name[|name| - 1] != ']' || '[' !in name
    ensures BaseName(name) != name ==> name[|BaseName(name)|] == '[' && '[' !in BaseName(name)
  {
    BeforeBracketIs(name);
    var b := BeforeBracket(name);
    if '[' in name {
      var i :| 0 <= i < |name| && name[i] == '[';
      assert |b| < |name|;
    }
  }

  // ----- what each entry says

  /** The contributing entries are the checks in registry order, each under its own id, row and category. */
  lemma EntriesAreTheChecks(ctx: Context, strict: bool, checks: seq<Check>, rows: seq<string>, i: nat)
    requires ReportOf(ctx, strict, checks, rows).Ok? && i < |checks|
    ensures var report := ReportOf(ctx, strict, checks, rows).value;
            var j := Judge(ctx, FileOutcomesOf(ctx, checks), checks[i]);
            && |report.contributing| == |checks| && j.Ok?
            && report.contributing[i].check == checks[i].id && report.contributing[i].row == checks[i].row
            && report.contributing[i].category == checks[i].category
            && report.contributing[i].result == j.value.result && report.contributing[i].bound == j.value.bound
  {
    hide Judge, RegistryFault, FileOutcomesOf, SomeFileMissing, RunBlockers, RecordOf;
    ContributionsMirrorTheChecks(ctx, FileOutcomesOf(ctx, checks), checks);
  }

  /** A blocker is an entry that is not proven or not bound, or one of the run's own under the binding row. */
  lemma BlockersAre(ctx: Context, strict: bool, checks: seq<Check>, rows: seq<string>, e: Entry)
    requires ReportOf(ctx, strict, checks, rows).Ok?
    ensures var report := ReportOf(ctx, strict, checks, rows).value;
            e in report.blocking <==>
              || (e in report.contributing && (e.result == Failed || e.result == Missing || e.result == Skipped || !e.bound))
              || (&& e.row == "report_version_binding" && e.category == None && e.result == Missing && !e.bound
                  && (|| (e.check == "pytest_case_coverage" && Pytest in ctx.reports
                          && exists f :: f in Declared(checks, Pytest) && HasGap(ctx, f))
                      || (exists r :: r in ctx.reports && ctx.reports[r].predatesCommit && e.check == ProvenanceCheck(r))))
  {
    hide Judge, RegistryFault, FileOutcomesOf, SomeFileMissing, RecordOf, Contributions, HasGap, RunnerName, Declared,
         GapBlockers, StaleBlockers;
    var entries := Contributions(ctx, FileOutcomesOf(ctx, checks), checks).value;
    BlockingIsExact(entries, e);
    GapBlockersAre(ctx, Declared(checks, Pytest), e);
    StaleBlockersAre(ctx, RUNNERS, e);
    forall runner: Runner ensures runner in RUNNERS {
      EveryRunnerIsListed(runner);
    }
    forall r ensures RunnerName(r) + "_xml_provenance" == ProvenanceCheck(r) {
      RunnerIsNamed(r);
    }
  }

  function ProvenanceCheck(r: Runner): string {
    (if r == Pytest then "pytest" else if r == PytestPostgres then "pytest-postgres"
     else if r == Vitest then "vitest" else "playwright") + "_xml_provenance"
  }

  lemma RunnerIsNamed(r: Runner)
    ensures RunnerName(r) + "_xml_provenance" == ProvenanceCheck(r)
  {
    match r {
      case Pytest =>
      case PytestPostgres =>
      case Vitest =>
      case Playwright =>
    }
  }

  lemma {:induction false} GapBlockersAre(ctx: Context, files: seq<File>, e: Entry)
    ensures e in GapBlockers(ctx, files) <==>
              e == Entry("pytest_case_coverage", "report_version_binding", None, Missing, false)
              && exists f :: f in files && HasGap(ctx, f)
  {
    hide HasGap;
    if files != [] {
      GapBlockersAre(ctx, files[..|files| - 1], e);
      assert files == files[..|files| - 1] + [files[|files| - 1]];
    }
  }

  lemma {:induction false} StaleBlockersAre(ctx: Context, runners: seq<Runner>, e: Entry)
    ensures e in StaleBlockers(ctx, runners) <==>
              exists r :: r in runners && IsStale(ctx, r)
                          && e == Entry(RunnerName(r) + "_xml_provenance", "report_version_binding", None, Missing, false)
  {
    hide IsStale, RunnerName;
    if runners != [] {
      StaleBlockersAre(ctx, runners[..|runners| - 1], e);
      assert runners == runners[..|runners| - 1] + [runners[|runners| - 1]];
    }
  }

  /** How evidence is judged: by its recorded verdict and its age, and bound exactly when its audit is clean. */
  lemma EvidenceIsJudged(ctx: Context, outcomes: Outcomes, check: Check)
    requires check.source.EvidenceFile? && Judge(ctx, outcomes, check).Ok?
    ensures var j := Judge(ctx, outcomes, check).value;
            var doc, v := check.source.document, check.source.verdict;
            var readable := doc.Some? && doc.value != Evidence.Unreadable && doc.value != Evidence.NotAnObject;
            var commit := if doc.Some? && doc.value.Bindings? && doc.value.code.Some? then doc.value.code.value.commit else None;
            var stale := check.source.mustBeFresh
                         && !(commit.Some? && (commit.value == ctx.gateCommit
                                               || (ctx.ancestorOfGate(commit.value) && ctx.changedSince(commit.value) == Some([]))));
            && (j.bound <==> readable && Evidence.Audit(ctx.git, ctx.revisions, doc.value) == Ok([]))
            && (j.result == Passed <==> readable && !stale && v == PassValue)
            && (j.result == Excepted <==> readable && !stale && v == ExceptionValue(true))
            && (j.result == Failed <==> readable && (v == OtherValue || v == ExceptionValue(false)))
            && j.result != Skipped
  {
    hide Evidence.Audit;
  }

  /** How evidence of an earlier gate is judged: by its recorded pass and its manual gates. */
  lemma GateAEvidenceIsJudged(ctx: Context, outcomes: Outcomes, check: Check)
    requires check.source.GateAEvidence? && Judge(ctx, outcomes, check).Ok?
    ensures var j := Judge(ctx, outcomes, check).value;
            var doc, passed := check.source.document, check.source.passed;
            var readable := doc.Some? && doc.value != Evidence.Unreadable && doc.value != Evidence.NotAnObject;
            && (j.bound <==> readable && Evidence.Audit(ctx.git, ctx.revisions, doc.value) == Ok([]))
            && (j.result == Passed <==> readable && passed == Some(true) && check.source.manualGatesPassed)
            && (j.result == Failed <==>
                  readable && (passed == Some(false) || (passed == Some(true) && !check.source.manualGatesPassed)))
            && (j.result == Missing <==> !readable || passed == None)
  {
    hide Evidence.Audit;
    match check.source.passed {
      case None =>
      case Some(true) =>
      case Some(false) =>
    }
  }

  ghost predicate HasFailedCase(cases: seq<JUnit.CaseResult>, n: (File, string)) {
    exists c :: c in cases && IsCaseOf(c, n.0, n.1) && c.status == JUnit.Failed
  }

  ghost predicate HasNoCase(cases: seq<JUnit.CaseResult>, n: (File, string)) {
    forall c :: c in cases ==> !IsCaseOf(c, n.0, n.1)
  }

  /** How named tests are judged: a failure first, then an absence, then a skip. */
  lemma NamedTestsAreJudged(cases: seq<JUnit.CaseResult>, named: seq<(File, string)>)
    ensures var result := Worst(NamedResults(cases, named));
            var failed := exists n :: n in named && HasFailedCase(cases, n);
            var absent := exists n :: n in named && HasNoCase(cases, n);
            && (result == Failed <==> failed)
            && (result == Missing <==> !failed && absent)
            && (result == Passed || result == Skipped <==> !failed && !absent)
  {
    hide NamedResult, HasFailedCase, HasNoCase;
    var results := NamedResults(cases, named);
    forall i | 0 <= i < |named|
      ensures results[i] == Failed <==> HasFailedCase(cases, named[i])
      ensures results[i] == Missing <==> HasNoCase(cases, named[i])
    {
      NamedResultIs(cases, named[i].0, named[i].1);
      FailedCaseIs(cases, named[i]);
    }
    forall r ensures r in results <==> exists i :: 0 <= i < |named| && results[i] == r {
    }
    forall n ensures n in named <==> exists i :: 0 <= i < |named| && named[i] == n {
    }
    JudgedByTheWorst(results);
  }

  lemma FailedCaseIs(cases: seq<JUnit.CaseResult>, n: (File, string))
    ensures HasFailedCase(cases, n) <==> exists c :: c in cases && IsCaseOf(c, n.0, n.1) && c.status == JUnit.Failed
    ensures HasNoCase(cases, n) <==> forall c :: c in cases ==> !IsCaseOf(c, n.0, n.1)
  {
  }

  lemma JudgedByTheWorst(results: seq<Outcome>)
    ensures Worst(results) == Failed <==> Failed in results
    ensures Worst(results) == Missing <==> Failed !in results && Missing in results
    ensures Worst(results) == Passed || Worst(results) == Skipped <==> Failed !in results && Missing !in results
  {
  }

  lemma NamedResultIs(cases: seq<JUnit.CaseResult>, f: File, name: string)
    ensures var r := NamedResult(cases, f, name);
            && (r == Failed <==> exists c :: c in cases && IsCaseOf(c, f, name) && c.status == JUnit.Failed)
            && (r == Missing <==> forall c :: c in cases ==> !IsCaseOf(c, f, name))
            && r != Excepted
  {
    hide IsNamed, IsCaseOf, Matching;
    var matching := Matching(cases, f, name);
    forall c ensures c in matching <==> c in cases && IsCaseOf(c, f, name) {
      MatchingIsExact(cases, f, name, c);
      NamedIff(c, f, name);
    }
    if matching != [] {
      assert matching[0] in matching;
    }
  }

  ghost predicate FileFailed(cases: seq<JUnit.CaseResult>, f: File) {
    exists c :: c in cases && c.file == f && c.status == JUnit.Failed
  }

  ghost predicate FileAbsent(cases: seq<JUnit.CaseResult>, f: File) {
    forall c :: c in cases ==> c.file != f
  }

  /** How whole files are judged: a failure first, then an absence, then a skip; a missing project makes a pass missing. */
  lemma FilesAreJudged(cases: seq<JUnit.CaseResult>, declared: seq<File>, files: seq<File>, projects: seq<string>)
    requires forall f :: f in files ==> f in declared
    ensures var result := FilesResult(JUnit.Outcomes(cases, declared), files, projects);
            var failed := exists f :: f in files && FileFailed(cases, f);
            var absent := exists f :: f in files && FileAbsent(cases, f);
            var passed := forall f :: f in files ==> FilePassed(cases, f);
            var everywhere := forall f, p :: f in files && p in projects ==> FileRanIn(cases, f, p);
            && (result == Failed <==> failed)
            && (result == Missing <==> !failed && (absent || (passed && !everywhere)))
            && (result == Skipped <==> !failed && !absent && !passed)
            && (result == Passed <==> passed && everywhere)
  {
    hide JUnit.Outcomes, FilePassed, FileRanIn, RanUnder, FileResult, FileFailed, FileAbsent;
    var outcomes := JUnit.Outcomes(cases, declared);
    var results := FileResults(outcomes, files);
    forall i | 0 <= i < |files|
      ensures results[i] == Failed <==> FileFailed(cases, files[i])
      ensures results[i] == Missing <==> FileAbsent(cases, files[i])
      ensures results[i] == Passed <==> FilePassed(cases, files[i])
    {
      FileResultIs(cases, declared, files[i]);
      FileResultIsPassedIff(cases, declared, files[i]);
    }
    forall r ensures r in results <==> exists i :: 0 <= i < |files| && results[i] == r {
    }
    forall f ensures f in files <==> exists i :: 0 <= i < |files| && files[i] == f {
    }
    FilesResultIsPassedIff(cases, declared, files, projects);
    FileResultsAreNeverExcepted(outcomes, files);
    WorstIsPassedIff(results);
    JudgedByTheWorst(results);
  }

  lemma FileResultIs(cases: seq<JUnit.CaseResult>, declared: seq<File>, f: File)
    requires f in declared
    ensures var r := FileResult(JUnit.Outcomes(cases, declared), f);
            && (r == Failed <==> FileFailed(cases, f))
            && (r == Missing <==> FileAbsent(cases, f))
  {
    hide JUnit.OfFile, JUnit.CountStatus;
    JUnit.FileOutcomeIsHonest(cases, f);
  }
}
