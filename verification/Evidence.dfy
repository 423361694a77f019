/**
 Auditing written evidence against a repository, and finding the commit a measurement's
 code belongs to.

 Commits form a directed acyclic graph; a commit's generation exceeds its parents'. What a
 commit touches is the set of paths git lists against its first parent; a detected rename is
 listed under its new path only. Git's answers are read off the graph, and which renames it
 detects is an input.
 */
module Evidence {
  import opened Basics
  import opened Migrations

  /** Commit ids are compared and never inspected. */
  type CommitId = nat

  type Path = string

  type Tree = map<Path, nat>

  datatype Commit = Commit(parents: seq<CommitId>, tree: Tree, generation: nat)

  /** The renames git detects between two trees, old path to new path. */
  type Renames = (Tree, Tree) -> map<Path, Path>

  datatype Repo = Repo(commits: map<CommitId, Commit>, head: CommitId, revisions: Revisions, renames: Renames)

  /** A rename goes from a path that disappears to one that appears. */
  ghost predicate SoundRenames(renames: Renames) {
    forall a, b, p :: p in renames(a, b) ==>
      p in a && p !in b && renames(a, b)[p] in b && renames(a, b)[p] !in a
  }

  ghost predicate Valid(r: Repo) {
    && SoundRenames(r.renames)
    && r.head in r.commits
    && forall c, p :: c in r.commits && p in r.commits[c].parents ==>
         p in r.commits && r.commits[p].generation < r.commits[c].generation
  }

  // ----- code paths

  const NON_CODE_PREFIXES := ["_bmad-output/", "docs/", "evidence/", ".planning/"]
  const NON_CODE_SUFFIX := ".md"

  predicate IsSpace(c: char) {
    c == ' ' || '\t' <= c <= '\r' || '\U{1C}' <= c <= '\U{1F}'
  }

  function Slashes(p: Path): Path {
    seq(|p|, i requires 0 <= i < |p| => if p[i] == '\\' then '/' else p[i])
  }

  function StripLeft(p: Path): Path {
    if p != [] && IsSpace(p[0]) then StripLeft(p[1..]) else p
  }

  function StripRight(p: Path): Path {
    if p != [] && IsSpace(p[|p| - 1]) then StripRight(p[..|p| - 1]) else p
  }

  predicate EndsWith(p: Path, suffix: Path) {
    |suffix| <= |p| && p[|p| - |suffix|..] == suffix
  }

  predicate IsCodePath(path: Path) {
    var p := StripRight(StripLeft(Slashes(path)));
    && p != ""
    && (forall prefix :: prefix in NON_CODE_PREFIXES ==> !(prefix <= p))
    && !EndsWith(p, NON_CODE_SUFFIX)
  }

  // ----- what commits change

  /** Paths whose content differs between two trees. */
  function Diff(a: Tree, b: Tree): set<Path> {
    set p | p in a.Keys + b.Keys && !(p in a && p in b && a[p] == b[p])
  }

  /** `--name-only`: the old path of a detected rename is not listed. */
  function Listed(r: Repo, a: Tree, b: Tree): set<Path> {
    Diff(a, b) - r.renames(a, b).Keys
  }

  predicate ListsCode(r: Repo, a: Tree, b: Tree) {
    exists p :: p in Listed(r, a, b) && IsCodePath(p)
  }

  function FirstParentTree(r: Repo, c: CommitId): Tree
    requires Valid(r) && c in r.commits
  {
    if r.commits[c].parents == [] then map[] else r.commits[r.commits[c].parents[0]].tree
  }

  /** `git show --name-only --first-parent -m`: a code path is listed against the first parent. */
  predicate TouchesCode(r: Repo, c: CommitId)
    requires Valid(r) && c in r.commits
  {
    ListsCode(r, FirstParentTree(r, c), r.commits[c].tree)
  }

  /** A commit that renames a code path to one that is not. */
  predicate MovesCodeAway(r: Repo, c: CommitId)
    requires Valid(r) && c in r.commits
  {
    var renamed := r.renames(FirstParentTree(r, c), r.commits[c].tree);
    exists p :: p in renamed && IsCodePath(p) && !IsCodePath(renamed[p])
  }

  // ----- ancestry

  predicate IsParentPath(r: Repo, path: seq<CommitId>) {
    && path != []
    && (forall i :: 0 <= i < |path| ==> path[i] in r.commits)
    && (forall i :: 0 < i < |path| ==> path[i] in r.commits[path[i - 1]].parents)
  }

  ghost predicate IsAncestor(r: Repo, a: CommitId, b: CommitId) {
    exists path :: IsParentPath(r, path) && path[0] == b && path[|path| - 1] == a
  }

  // ----- the audit

  const NFR27_BINDING_KEYS :=
    ["dataset", "evaluator", "model", "prompt", "tool", "policy", "application", "scenario", "solver", "code", "image"]

  datatype CodeBinding = CodeBinding(dirty: bool, commit: Option<CommitId>)

  datatype Document =
    | Unreadable
    | NotAnObject
    | NoBindings
    | Bindings(keys: set<string>, schema: Option<Revision>, code: Option<CodeBinding>, overridden: bool)

  datatype Violation =
    | UnreadableFile
    | NotAMapping
    | MissingVersionBindings
    | MissingKey(key: string)
    | MissingSchema
    | SchemaOffChain
    | MissingCode
    | DirtyWithoutOverride
    | MissingCommit
    | NotACommit
    | NotAnAncestor
    | TouchesNoCode

  /** What git answers about a recorded commit. */
  datatype Git = Git(exists_: CommitId -> bool, ancestorOfHead: CommitId -> bool, touchesCode: CommitId -> bool)

  ghost predicate AnswersFor(git: Git, r: Repo) {
    && Valid(r)
    && (forall c :: git.exists_(c) <==> c in r.commits)
    && (forall c :: git.ancestorOfHead(c) <==> IsAncestor(r, c, r.head))
    && (forall c :: c in r.commits ==> (git.touchesCode(c) <==> TouchesCode(r, c)))
  }

  function MissingKeys(keys: set<string>, n: nat): seq<Violation>
    requires n <= |NFR27_BINDING_KEYS|
  {
    if n == 0 then []
    else MissingKeys(keys, n - 1) +
         (if NFR27_BINDING_KEYS[n - 1] in keys then [] else [MissingKey(NFR27_BINDING_KEYS[n - 1])])
  }

  function SchemaViolations(chain: seq<Revision>, schema: Option<Revision>): seq<Violation> {
    match schema
    case None => [MissingSchema]
    case Some(s) => if s in chain then [] else [SchemaOffChain]
  }

  function CommitViolations(git: Git, commit: Option<CommitId>): seq<Violation> {
    if commit.None? then [MissingCommit]
    else if !git.exists_(commit.value) then [NotACommit]
    else if !git.ancestorOfHead(commit.value) then [NotAnAncestor]
    else if !git.touchesCode(commit.value) then [TouchesNoCode]
    else []
  }

  function CodeViolations(git: Git, code: Option<CodeBinding>, overridden: bool): seq<Violation> {
    match code
    case None => [MissingCode]
    case Some(c) => (if c.dirty && !overridden then [DirtyWithoutOverride] else []) + CommitViolations(git, c.commit)
  }

  /** `audit_evidence_file` as a function; a broken migration graph raises. */
  ghost function Audit(git: Git, revs: Revisions, doc: Document): Result<seq<Violation>, GraphError> {
    match doc
    case Unreadable => Ok([UnreadableFile])
    case NotAnObject => Ok([NotAMapping])
    case NoBindings => Ok([MissingVersionBindings])
    case Bindings(keys, schema, code, overridden) =>
      match Chain(revs)
      case Err(e) => Err(e)
      case Ok(chain) =>
        Ok(MissingKeys(keys, |NFR27_BINDING_KEYS|) + SchemaViolations(chain, schema)
           + CodeViolations(git, code, overridden))
  }

  method AuditKeys(keys: set<string>) returns (violations: seq<Violation>)
    ensures violations == MissingKeys(keys, |NFR27_BINDING_KEYS|)
  {
    violations := [];
    for i := 0 to |NFR27_BINDING_KEYS|
      invariant violations == MissingKeys(keys, i)
    {
      if NFR27_BINDING_KEYS[i] !in keys {
        violations := violations + [MissingKey(NFR27_BINDING_KEYS[i])];
      }
    }
  }

  method AuditCode(git: Git, code: Option<CodeBinding>, overridden: bool) returns (violations: seq<Violation>)
    ensures violations == CodeViolations(git, code, overridden)
  {
    violations := [];
    if code.None? {
      return [MissingCode];
    }
    if code.value.dirty && !overridden {
      violations := violations + [DirtyWithoutOverride];
    }
    var commit := code.value.commit;
    if commit.None? {
      violations := violations + [MissingCommit];
    } else if !git.exists_(commit.value) {
      violations := violations + [NotACommit];
    } else if !git.ancestorOfHead(commit.value) {
      violations := violations + [NotAnAncestor];
    } else if !git.touchesCode(commit.value) {
      violations := violations + [TouchesNoCode];
    }
  }

  method AuditEvidenceFile(git: Git, revs: Revisions, doc: Document) returns (r: Result<seq<Violation>, GraphError>)
    ensures r == Audit(git, revs, doc)
  {
    hide Chain, MissingKeys, CodeViolations;
    match doc {
      case Unreadable => return Ok([UnreadableFile]);
      case NotAnObject => return Ok([NotAMapping]);
      case NoBindings => return Ok([MissingVersionBindings]);
      case Bindings(keys, schema, code, overridden) =>
        var violations := AuditKeys(keys);
        var chain := ResolveChain(revs);
        if chain.Err? {
          return Err(chain.error);
        }
        if schema.None? {
          violations := violations + [MissingSchema];
        } else if schema.value !in chain.value {
          violations := violations + [SchemaOffChain];
        }
        assert violations == MissingKeys(keys, |NFR27_BINDING_KEYS|) + SchemaViolations(chain.value, schema);
        var more := AuditCode(git, code, overridden);
        r := Ok(violations + more);
    }
  }

  // ----- what clean means

  lemma {:induction false} NoMissingKeys(keys: set<string>, n: nat)
    requires n <= |NFR27_BINDING_KEYS|
    ensures MissingKeys(keys, n) == [] <==> forall i :: 0 <= i < n ==> NFR27_BINDING_KEYS[i] in keys
  {
    if n > 0 {
      NoMissingKeys(keys, n - 1);
    }
  }

  /** What a clean audit says about the document and the repository. */
  ghost predicate WellBound(r: Repo, doc: Document)
    requires Valid(r)
  {
    && doc.Bindings?
    && (forall i :: 0 <= i < |NFR27_BINDING_KEYS| ==> NFR27_BINDING_KEYS[i] in doc.keys)
    && Chain(r.revisions).Ok?
    && doc.schema.Some? && doc.schema.value in Chain(r.revisions).value
    && doc.code.Some? && (doc.code.value.dirty ==> doc.overridden)
    && doc.code.value.commit.Some?
    && doc.code.value.commit.value in r.commits
    && IsAncestor(r, doc.code.value.commit.value, r.head)
    && TouchesCode(r, doc.code.value.commit.value)
  }

  lemma CleanIffWellBound(git: Git, r: Repo, doc: Document)
    requires AnswersFor(git, r)
    ensures Audit(git, r.revisions, doc) == Ok([]) <==> WellBound(r, doc)
  {
    hide Chain, IsAncestor, TouchesCode, MissingKeys;
    if doc.Bindings? {
      NoMissingKeys(doc.keys, |NFR27_BINDING_KEYS|);
    }
  }

  lemma {:induction false} MissingKeysAre(keys: set<string>, n: nat, v: Violation)
    requires n <= |NFR27_BINDING_KEYS|
    ensures v in MissingKeys(keys, n) <==>
              v.MissingKey? && v.key !in keys && exists i :: 0 <= i < n && NFR27_BINDING_KEYS[i] == v.key
  {
    if n > 0 {
      MissingKeysAre(keys, n - 1, v);
    }
  }

  lemma SchemaViolationsAre(chain: seq<Revision>, schema: Option<Revision>, v: Violation)
    ensures v in SchemaViolations(chain, schema) <==>
              || (v == MissingSchema && schema == None)
              || (v == SchemaOffChain && schema.Some? && schema.value !in chain)
  {
  }

  lemma CodeViolationsAre(git: Git, code: Option<CodeBinding>, overridden: bool, v: Violation)
    ensures var commit := if code.Some? then code.value.commit else None;
            v in CodeViolations(git, code, overridden) <==>
              || (v == MissingCode && code == None)
              || (v == DirtyWithoutOverride && code.Some? && code.value.dirty && !overridden)
              || (v == MissingCommit && code.Some? && commit == None)
              || (v == NotACommit && commit.Some? && !git.exists_(commit.value))
              || (v == NotAnAncestor && commit.Some? && git.exists_(commit.value) && !git.ancestorOfHead(commit.value))
              || (v == TouchesNoCode && commit.Some? && git.exists_(commit.value) && git.ancestorOfHead(commit.value)
                  && !git.touchesCode(commit.value))
  {
  }

  /** A violation is reported exactly when what it names is wrong. */
  lemma ViolationsAreExact(git: Git, revs: Revisions, doc: Document, chain: seq<Revision>, v: Violation)
    requires doc.Bindings? && Chain(revs) == Ok(chain)
    ensures Audit(git, revs, doc).Ok?
    ensures var code := doc.code;
            var commit := if code.Some? then code.value.commit else None;
            v in Audit(git, revs, doc).value <==>
              || (v.MissingKey? && v.key !in doc.keys && v.key in NFR27_BINDING_KEYS)
              || (v == MissingSchema && doc.schema == None)
              || (v == SchemaOffChain && doc.schema.Some? && doc.schema.value !in chain)
              || (v == MissingCode && code == None)
              || (v == DirtyWithoutOverride && code.Some? && code.value.dirty && !doc.overridden)
              || (v == MissingCommit && code.Some? && commit == None)
              || (v == NotACommit && commit.Some? && !git.exists_(commit.value))
              || (v == NotAnAncestor && commit.Some? && git.exists_(commit.value) && !git.ancestorOfHead(commit.value))
              || (v == TouchesNoCode && commit.Some? && git.exists_(commit.value) && git.ancestorOfHead(commit.value)
                  && !git.touchesCode(commit.value))
  {
    hide Chain, MissingKeys, SchemaViolations, CodeViolations, NFR27_BINDING_KEYS;
    var n := |NFR27_BINDING_KEYS|;
    MissingKeysAre(doc.keys, n, v);
    SchemaViolationsAre(chain, doc.schema, v);
    CodeViolationsAre(git, doc.code, doc.overridden, v);
    if v.MissingKey? {
      assert v.key in NFR27_BINDING_KEYS <==> exists i :: 0 <= i < n && NFR27_BINDING_KEYS[i] == v.key;
    }
  }

  /** The place of a violation in the report: keys, schema, code, commit. */
  function Place(v: Violation): nat {
    if v.MissingKey? then 0 else if v == MissingSchema || v == SchemaOffChain then 1
    else if v == MissingCode || v == DirtyWithoutOverride then 2 else 3
  }

  /** Violations come in the order of their places, and only keys share one. */
  lemma ViolationsComeInOrder(git: Git, revs: Revisions, doc: Document)
    requires Audit(git, revs, doc).Ok?
    ensures var vs := Audit(git, revs, doc).value;
            forall i, j :: 0 <= i < j < |vs| ==> Place(vs[i]) < Place(vs[j]) || (vs[i].MissingKey? && vs[j].MissingKey?)
  {
    hide Chain, MissingKeys, NFR27_BINDING_KEYS;
    if doc.Bindings? {
      var keys := MissingKeys(doc.keys, |NFR27_BINDING_KEYS|);
      forall i | 0 <= i < |keys| ensures keys[i].MissingKey? {
        MissingKeysAre(doc.keys, |NFR27_BINDING_KEYS|, keys[i]);
      }
      assert forall v :: v in SchemaViolations(Chain(revs).value, doc.schema) ==> Place(v) == 1;
    }
  }

  /** A file that is not a bindings document is reported as what it is, and a broken migration graph raises. */
  lemma OtherDocumentsAre(git: Git, revs: Revisions, doc: Document)
    ensures doc == Unreadable ==> Audit(git, revs, doc) == Ok([UnreadableFile])
    ensures doc == NotAnObject ==> Audit(git, revs, doc) == Ok([NotAMapping])
    ensures doc == NoBindings ==> Audit(git, revs, doc) == Ok([MissingVersionBindings])
    ensures Audit(git, revs, doc).Err? <==> doc.Bindings? && Chain(revs).Err?
    ensures Audit(git, revs, doc).Err? ==> Audit(git, revs, doc).error == Chain(revs).error
  {
    hide Chain, MissingKeys;
  }

  // ----- code paths

  lemma {:induction false} StripLeftDropsBlanks(blanks: Path, rest: Path)
    requires (forall i :: 0 <= i < |blanks| ==> IsSpace(blanks[i])) && (rest == [] || !IsSpace(rest[0]))
    ensures StripLeft(blanks + rest) == rest
  {
    if blanks == [] {
      assert blanks + rest == rest;
    } else {
      assert (blanks + rest)[1..] == blanks[1..] + rest;
      StripLeftDropsBlanks(blanks[1..], rest);
    }
  }

  lemma {:induction false} StripRightDropsBlanks(rest: Path, blanks: Path)
    requires (forall i :: 0 <= i < |blanks| ==> IsSpace(blanks[i])) && (rest == [] || !IsSpace(rest[|rest| - 1]))
    ensures StripRight(rest + blanks) == rest
  {
    if blanks == [] {
      assert rest + blanks == rest;
    } else {
      assert (rest + blanks)[..|rest + blanks| - 1] == rest + blanks[..|blanks| - 1];
      StripRightDropsBlanks(rest, blanks[..|blanks| - 1]);
    }
  }

  const BLANKS := " \t\n\r\U{0B}\U{0C}\U{1C}\U{1D}\U{1E}\U{1F}"

  lemma NoBackslashIsBlank()
    ensures '\\' !in BLANKS
  {
  }

  lemma BlanksAre(c: char)
    ensures IsSpace(c) <==> c in BLANKS
  {
    var n := c as int;
    if IsSpace(c) {
      assert n == 32 || n == 9 || n == 10 || n == 11 || n == 12 || n == 13 || n == 28 || n == 29 || n == 30 || n == 31;
    }
  }

  /**
   A path, whatever blanks stand around it, is a code path exactly when it is not empty, lies in
   none of the four record directories and is no Markdown file.
   */
  lemma CodePathIff(before: Path, p: Path, after: Path)
    requires forall i :: 0 <= i < |before| ==> before[i] in BLANKS
    requires forall i :: 0 <= i < |after| ==> after[i] in BLANKS
    requires p == [] || (p[0] !in BLANKS && p[|p| - 1] !in BLANKS)
    requires '\\' !in p
    ensures IsCodePath(before + p + after) <==>
              && p != ""
              && !("_bmad-output/" <= p) && !("docs/" <= p) && !("evidence/" <= p) && !(".planning/" <= p)
              && !(|p| >= 3 && p[|p| - 3] == '.' && p[|p| - 2] == 'm' && p[|p| - 1] == 'd')
  {
    hide IsSpace, BLANKS;
    var path := before + p + after;
    forall c ensures IsSpace(c) <==> c in BLANKS {
      BlanksAre(c);
    }
    assert '\\' !in path by {
      NoBackslashIsBlank();
    }
    assert Slashes(path) == path;
    if p == [] {
      assert path == (before + after) + [];
      StripLeftDropsBlanks(before + after, []);
    } else {
      assert path == before + (p + after);
      StripLeftDropsBlanks(before, p + after);
      StripRightDropsBlanks(p, after);
    }
    PrefixesAre(p);
    SuffixIs(p);
  }

  lemma PrefixesAre(p: Path)
    ensures (forall prefix :: prefix in NON_CODE_PREFIXES ==> !(prefix <= p)) <==>
              !("_bmad-output/" <= p) && !("docs/" <= p) && !("evidence/" <= p) && !(".planning/" <= p)
  {
    assert NON_CODE_PREFIXES[0] in NON_CODE_PREFIXES && NON_CODE_PREFIXES[1] in NON_CODE_PREFIXES;
    assert NON_CODE_PREFIXES[2] in NON_CODE_PREFIXES && NON_CODE_PREFIXES[3] in NON_CODE_PREFIXES;
  }

  lemma SuffixIs(p: Path)
    ensures EndsWith(p, NON_CODE_SUFFIX) <==> |p| >= 3 && p[|p| - 3] == '.' && p[|p| - 2] == 'm' && p[|p| - 1] == 'd'
  {
    if |p| >= 3 {
      var tail := p[|p| - 3..];
      assert tail[0] == p[|p| - 3] && tail[1] == p[|p| - 2] && tail[2] == p[|p| - 1];
      assert tail == ".md" <==> tail[0] == '.' && tail[1] == 'm' && tail[2] == 'd';
    }
  }

  /** A backslash reads as a slash. */
  lemma BackslashesAreSlashes(p: Path, q: Path)
    requires |p| == |q| && forall i :: 0 <= i < |p| ==> q[i] == if p[i] == '\\' then '/' else p[i]
    ensures IsCodePath(p) <==> IsCodePath(q)
  {
    assert Slashes(p) == q && Slashes(q) == q;
  }

  // ----- evolution

  /** The later repository keeps every commit and moves HEAD forward. */
  ghost predicate HistoryMovesForward(r: Repo, s: Repo) {
    && Valid(r) && Valid(s) && s.renames == r.renames
    && r.commits.Keys <= s.commits.Keys
    && (forall c :: c in r.commits ==> s.commits[c] == r.commits[c])
    && IsAncestor(s, r.head, s.head)
  }

  /** One step: new commits on top of HEAD, with the migrations unchanged or one appended to their head. */
  ghost predicate Step(r: Repo, s: Repo) {
    && HistoryMovesForward(r, s)
    && (s.revisions == r.revisions || exists name :: Appends(r.revisions, name, s.revisions))
  }

  ghost predicate IsHistory(repos: seq<Repo>) {
    && repos != [] && Valid(repos[0])
    && forall i :: 0 <= i < |repos| - 1 ==> Step(repos[i], repos[i + 1])
  }

  lemma AncestorsCompose(r: Repo, a: CommitId, b: CommitId, c: CommitId)
    requires IsAncestor(r, a, b) && IsAncestor(r, b, c)
    ensures IsAncestor(r, a, c)
  {
    var p :| IsParentPath(r, p) && p[0] == b && p[|p| - 1] == a;
    var q :| IsParentPath(r, q) && q[0] == c && q[|q| - 1] == b;
    var whole := q + p[1..];
    forall i | 0 < i < |whole| ensures whole[i] in r.commits[whole[i - 1]].parents {
      if i >= |q| {
        assert whole[i] == p[i - |q| + 1] && whole[i - 1] == p[i - |q|];
      }
    }
    assert IsParentPath(r, whole) && whole[0] == c && whole[|whole| - 1] == a;
  }

  lemma AncestorsPersist(r: Repo, s: Repo, a: CommitId, b: CommitId)
    requires HistoryMovesForward(r, s) && IsAncestor(r, a, b)
    ensures IsAncestor(s, a, b)
  {
    var p :| IsParentPath(r, p) && p[0] == b && p[|p| - 1] == a;
    assert IsParentPath(s, p);
  }

  lemma TouchesPersist(r: Repo, s: Repo, c: CommitId)
    requires HistoryMovesForward(r, s) && c in r.commits
    ensures TouchesCode(s, c) <==> TouchesCode(r, c)
  {
    assert FirstParentTree(s, c) == FirstParentTree(r, c) by {
      if r.commits[c].parents != [] {
        assert r.commits[c].parents[0] in r.commits;
      }
    }
  }

  /**
   Well-bound evidence stays well bound across any forward move that leaves the old
   migration head on the new chain.
   */
  lemma WellBoundPersists(r: Repo, s: Repo, doc: Document)
    requires HistoryMovesForward(r, s) && WellBound(r, doc)
    requires Extends(r.revisions, s.revisions) && Chain(s.revisions).Ok?
    requires Chain(r.revisions).value != [] && Chain(r.revisions).value[0] in Chain(s.revisions).value
    ensures WellBound(s, doc)
  {
    hide Chain, IsAncestor, TouchesCode, Extends;
    var commit := doc.code.value.commit.value;
    OldChainSurvivesIff(r.revisions, s.revisions);
    assert doc.schema.value in Elements(Chain(r.revisions).value);
    AncestorsPersist(r, s, commit, r.head);
    AncestorsCompose(s, commit, r.head, s.head);
    TouchesPersist(r, s, commit);
  }

  lemma StepKeepsTheHeadOnTheChain(r: Repo, s: Repo)
    requires Step(r, s) && Chain(r.revisions).Ok?
    ensures Extends(r.revisions, s.revisions) && Chain(s.revisions).Ok?
    ensures Chain(r.revisions).value != [] && Chain(r.revisions).value[0] in Chain(s.revisions).value
  {
    hide Chain, IsAncestor, HistoryMovesForward;
    ChainIsThePathOfTheHead(r.revisions);
    if s.revisions != r.revisions {
      var name :| Appends(r.revisions, name, s.revisions);
      AppendGoesInFront(r.revisions, name, s.revisions);
      AppendedHeads(r.revisions, name, s.revisions);
    }
  }

  lemma {:induction false} WellBoundForever(repos: seq<Repo>, n: nat, doc: Document)
    requires IsHistory(repos) && n < |repos| && Valid(repos[n])
    requires WellBound(repos[0], doc)
    ensures WellBound(repos[n], doc)
  {
    hide WellBound, Chain, IsAncestor;
    if n > 0 {
      assert Step(repos[n - 1], repos[n]);
      WellBoundForever(repos, n - 1, doc);
      WellBoundHasAChain(repos[n - 1], doc);
      StepKeepsTheHeadOnTheChain(repos[n - 1], repos[n]);
      WellBoundPersists(repos[n - 1], repos[n], doc);
    }
  }

  lemma WellBoundHasAChain(r: Repo, doc: Document)
    requires Valid(r) && WellBound(r, doc)
    ensures Chain(r.revisions).Ok?
  {
  }

  /** Once an evidence file audits clean it audits clean at every later point of the history. */
  lemma CleanStaysClean(repos: seq<Repo>, n: nat, before: Git, after: Git, doc: Document)
    requires IsHistory(repos) && n < |repos|
    requires AnswersFor(before, repos[0]) && AnswersFor(after, repos[n])
    requires Audit(before, repos[0].revisions, doc) == Ok([])
    ensures Audit(after, repos[n].revisions, doc) == Ok([])
  {
    hide WellBound, Audit, IsAncestor;
    CleanIffWellBound(before, repos[0], doc);
    WellBoundForever(repos, n, doc);
    CleanIffWellBound(after, repos[n], doc);
  }

  /**
   Exactly when a forward move keeps all clean evidence clean, given one clean commit to
   bind to: the new migration graph must still have a chain, with the old head on it.
   */
  lemma CleanSurvivesIff(r: Repo, s: Repo, commit: CommitId)
    requires HistoryMovesForward(r, s) && Extends(r.revisions, s.revisions)
    requires Chain(r.revisions).Ok? && Chain(r.revisions).value != []
    requires commit in r.commits && IsAncestor(r, commit, r.head) && TouchesCode(r, commit)
    ensures (forall doc :: WellBound(r, doc) ==> WellBound(s, doc))
            <==> Chain(s.revisions).Ok? && Chain(r.revisions).value[0] in Chain(s.revisions).value
  {
    hide Chain, IsAncestor, TouchesCode, Extends, WellBound;
    if Chain(s.revisions).Ok? && Chain(r.revisions).value[0] in Chain(s.revisions).value {
      forall doc | WellBound(r, doc) ensures WellBound(s, doc) {
        WellBoundPersists(r, s, doc);
      }
    } else {
      BoundToTheHead(r, s, commit);
    }
  }

  /**
   The same, read off the migrations alone: a forward move to another sound migration graph
   with one head keeps all clean evidence clean if and only if it adds no merge migration.
   */
  lemma CleanSurvivesIffNoMerge(r: Repo, s: Repo, commit: CommitId, h: Revision)
    requires HistoryMovesForward(r, s) && Extends(r.revisions, s.revisions)
    requires Chain(r.revisions).Ok? && ClosedThroughout(r.revisions)
    requires IsHead(s.revisions, h) && ClosedThroughout(s.revisions) && AcyclicThroughout(s.revisions)
    requires commit in r.commits && IsAncestor(r, commit, r.head) && TouchesCode(r, commit)
    ensures (forall doc :: WellBound(r, doc) ==> WellBound(s, doc)) <==> AddsNoMerge(r.revisions, s.revisions)
  {
    hide Chain, IsAncestor, TouchesCode, Extends, WellBound, HistoryMovesForward, AddsNoMerge, AcyclicThroughout;
    OldHeadStaysIff(r.revisions, s.revisions, h);
    CleanSurvivesIff(r, s, commit);
  }

  /** Evidence recorded at the current migration head; it is lost when that head leaves the chain. */
  lemma BoundToTheHead(r: Repo, s: Repo, commit: CommitId)
    requires Valid(r) && Valid(s)
    requires Chain(r.revisions).Ok? && Chain(r.revisions).value != []
    requires commit in r.commits && IsAncestor(r, commit, r.head) && TouchesCode(r, commit)
    requires !(Chain(s.revisions).Ok? && Chain(r.revisions).value[0] in Chain(s.revisions).value)
    ensures exists doc :: WellBound(r, doc) && !WellBound(s, doc)
  {
    hide Chain, IsAncestor, TouchesCode;
    var keys := set i | 0 <= i < |NFR27_BINDING_KEYS| :: NFR27_BINDING_KEYS[i];
    var doc := Bindings(keys, Some(Chain(r.revisions).value[0]), Some(CodeBinding(false, Some(commit))), false);
    assert WellBound(r, doc);
    assert !WellBound(s, doc);
  }

  /** A merge migration unbinds evidence although history only moved forward. */
  lemma MergeMigrationUnbindsEvidence() returns (r: Repo, s: Repo, doc: Document)
    ensures HistoryMovesForward(r, s) && Extends(r.revisions, s.revisions) && Chain(s.revisions).Ok?
    ensures WellBound(r, doc) && !WellBound(s, doc)
  {
    hide Chain, TouchesCode, SoundRenames, Extends, WellBound, Valid, IsAncestor;
    var was, now := MergeTruncatesTheChain();
    r, s := RootRepo(was), RootRepo(now);
    RootRepoIsValid(was);
    RootRepoIsValid(now);
    BoundToTheHead(r, s, 1);
    doc :| WellBound(r, doc) && !WellBound(s, doc);
  }

  /** A repository with one commit of one code file. */
  function RootRepo(revisions: Revisions): Repo {
    Repo(map[1 := Commit([], map["a.py" := 1], 0)], 1, revisions, NO_RENAMES)
  }

  lemma RootRepoIsValid(revisions: Revisions)
    ensures var r := RootRepo(revisions); Valid(r) && IsAncestor(r, 1, 1) && TouchesCode(r, 1)
  {
    hide TouchesCode;
    var r := RootRepo(revisions);
    assert Valid(r);
    assert IsParentPath(r, [1]) && [1][0] == 1 && [1][|[1]| - 1] == 1;
    RootTouchesItsFile(r);
  }

  const NO_RENAMES: Renames := (a: Tree, b: Tree) => map[]

  lemma RootTouchesItsFile(r: Repo)
    requires Valid(r) && 1 in r.commits && r.commits[1] == Commit([], map["a.py" := 1], 0)
    ensures TouchesCode(r, 1)
  {
    assert "a.py" in Listed(r, map[], r.commits[1].tree);
    PlainNameIsCode();
  }

  lemma PlainNameIsCode()
    ensures IsCodePath("a.py")
  {
    assert Slashes("a.py") == "a.py";
    assert StripLeft("a.py") == "a.py" && StripRight("a.py") == "a.py";
    assert "a.py"[0] == 'a';
    assert "_bmad-output/"[0] == '_' && "docs/"[0] == 'd' && "evidence/"[0] == 'e' && ".planning/"[0] == '.';
    assert "a.py"[1..][0] == '.' && ".md"[1] == 'm' && "a.py"[2] == 'p';
  }

  // ----- the nearest code commit

  /** The first-parent line from `c`, newest first. */
  function FirstParents(r: Repo, c: CommitId): (line: seq<CommitId>)
    requires Valid(r) && c in r.commits
    ensures line != [] && line[0] == c
    ensures forall x :: x in line ==> x in r.commits
    decreases r.commits[c].generation
  {
    var parents := r.commits[c].parents;
    if parents == [] then [c]
    else
      assert parents[0] in parents;
      [c] + FirstParents(r, parents[0])
  }

  lemma {:induction false} FirstParentsAreLinked(r: Repo, c: CommitId, i: nat)
    requires Valid(r) && c in r.commits && i < |FirstParents(r, c)|
    ensures var line := FirstParents(r, c);
            var parents := r.commits[line[i]].parents;
            if i == |line| - 1 then parents == [] else parents != [] && parents[0] == line[i + 1]
    decreases i
  {
    var parents := r.commits[c].parents;
    if parents != [] {
      assert parents[0] in parents;
      if i > 0 {
        FirstParentsAreLinked(r, parents[0], i - 1);
      }
    }
  }

  predicate SameCode(a: Tree, b: Tree) {
    forall p :: p in Diff(a, b) ==> !IsCodePath(p)
  }

  /** Whatever code is left in `b` was in `a` already. */
  ghost predicate OnlyLosesCode(a: Tree, b: Tree) {
    forall p :: p in b && IsCodePath(p) ==> p in a && a[p] == b[p]
  }

  /** A commit that lists no code can lose code only by renaming it away. */
  lemma UnlistedCommitOnlyLosesCode(r: Repo, c: CommitId)
    requires Valid(r) && c in r.commits && !TouchesCode(r, c)
    ensures OnlyLosesCode(FirstParentTree(r, c), r.commits[c].tree)
    ensures SameCode(FirstParentTree(r, c), r.commits[c].tree) <==> !MovesCodeAway(r, c)
  {
    hide IsCodePath;
    var a, b := FirstParentTree(r, c), r.commits[c].tree;
    var renamed := r.renames(a, b);
    forall p | p in Diff(a, b) && IsCodePath(p)
      ensures p in renamed && p in a && p !in b && !IsCodePath(renamed[p])
    {
      assert p !in Listed(r, a, b);
      assert renamed[p] in Diff(a, b) && renamed[p] in Listed(r, a, b);
    }
    forall p | p in b && IsCodePath(p) ensures p in a && a[p] == b[p] {
      assert p !in Diff(a, b);
    }
    forall p | p in renamed ensures p in Diff(a, b) {
    }
  }

  lemma LossesAddUp(a: Tree, b: Tree, c: Tree)
    requires OnlyLosesCode(a, b) && OnlyLosesCode(b, c)
    ensures OnlyLosesCode(a, c)
    ensures SameCode(a, c) <==> SameCode(a, b) && SameCode(b, c)
  {
    hide IsCodePath;
    forall p | p in Diff(a, b) && IsCodePath(p) ensures p in Diff(a, c) {
    }
    forall p | p in Diff(b, c) && IsCodePath(p) ensures p in Diff(a, c) {
    }
    forall p | p in Diff(a, c) ensures p in Diff(a, b) || p in Diff(b, c) {
    }
  }

  /** Along a line of commits that list no code, the code is the same at both ends iff none of them renames code away. */
  lemma {:induction false} CodeIsUnchangedAlongTheLineIff(r: Repo, c: CommitId, k: nat)
    requires Valid(r) && c in r.commits && k < |FirstParents(r, c)|
    requires forall i :: 0 <= i < k ==> !TouchesCode(r, FirstParents(r, c)[i])
    ensures OnlyLosesCode(r.commits[FirstParents(r, c)[k]].tree, r.commits[c].tree)
    ensures SameCode(r.commits[FirstParents(r, c)[k]].tree, r.commits[c].tree) <==>
              forall i :: 0 <= i < k ==> !MovesCodeAway(r, FirstParents(r, c)[i])
    decreases k
  {
    hide FirstParents, IsCodePath, SameCode, OnlyLosesCode, TouchesCode, MovesCodeAway;
    var line := FirstParents(r, c);
    if k == 0 {
      SameTreeSameCode(r.commits[c].tree);
    } else {
      CodeIsUnchangedAlongTheLineIff(r, c, k - 1);
      FirstParentsAreLinked(r, c, k - 1);
      var x := line[k - 1];
      assert x in line && FirstParentTree(r, x) == r.commits[line[k]].tree;
      UnlistedCommitOnlyLosesCode(r, x);
      LossesAddUp(r.commits[line[k]].tree, r.commits[x].tree, r.commits[c].tree);
    }
  }

  lemma SameTreeSameCode(a: Tree)
    ensures SameCode(a, a) && OnlyLosesCode(a, a)
  {
  }

  datatype SearchError = NothingTouchesCode | CodeChanged

  /** Index of the first commit from `i` on that touches code, or the length of the line. */
  function FirstTouching(r: Repo, line: seq<CommitId>, i: nat): (k: nat)
    requires Valid(r) && (forall x :: x in line ==> x in r.commits) && i <= |line|
    ensures i <= k <= |line|
    ensures forall j :: i <= j < k ==> !TouchesCode(r, line[j])
    ensures k < |line| ==> TouchesCode(r, line[k])
    decreases |line| - i
  {
    if i == |line| || TouchesCode(r, line[i]) then i else FirstTouching(r, line, i + 1)
  }

  /** `nearest_code_commit` as a function. */
  function Search(r: Repo, commit: CommitId): Result<CommitId, SearchError>
    requires Valid(r) && commit in r.commits
  {
    var line := FirstParents(r, commit);
    var k := FirstTouching(r, line, 0);
    if k == |line| then Err(NothingTouchesCode)
    else
      assert line[k] in line;
      if line[k] != commit && ListsCode(r, r.commits[line[k]].tree, r.commits[commit].tree) then Err(CodeChanged)
      else Ok(line[k])
  }

  method NearestCodeCommit(r: Repo, commit: CommitId) returns (found: Result<CommitId, SearchError>)
    requires Valid(r) && commit in r.commits
    ensures found == Search(r, commit)
  {
    hide FirstParents, IsCodePath, TouchesCode, ListsCode;
    var line := FirstParents(r, commit);
    var i := 0;
    while i < |line| && !TouchesCode(r, line[i])
      invariant 0 <= i <= |line|
      invariant FirstTouching(r, line, 0) == FirstTouching(r, line, i)
    {
      i := i + 1;
    }
    if i == |line| {
      return Err(NothingTouchesCode);
    }
    var candidate := line[i];
    assert candidate in line;
    if candidate != commit {
      if ListsCode(r, r.commits[candidate].tree, r.commits[commit].tree) {
        return Err(CodeChanged);
      }
    }
    found := Ok(candidate);
  }

  /** `found` is `k` first-parent steps back and the first to touch code. */
  predicate IsNearest(r: Repo, commit: CommitId, found: CommitId, k: nat)
    requires Valid(r) && commit in r.commits
  {
    && k < |FirstParents(r, commit)|
    && found == FirstParents(r, commit)[k]
    && TouchesCode(r, found)
    && (forall i :: 0 <= i < k ==> !TouchesCode(r, FirstParents(r, commit)[i]))
  }

  /** One of the commits skipped on the way to `k` renames code away. */
  predicate SkipsALoss(r: Repo, commit: CommitId, k: nat)
    requires Valid(r) && commit in r.commits && k <= |FirstParents(r, commit)|
  {
    exists i :: 0 <= i < k && MovesCodeAway(r, FirstParents(r, commit)[i])
  }

  /**
   The commit found is the nearest on the first-parent line that touches code, and it has the
   code of the commit asked about if and only if no commit skipped on the way renames code away.
   The search finds nothing only when nothing on the line touches code, and it refuses what it
   found only when the code did change; a change hidden by renames again is not refused.
   */
  lemma NearestHasTheSameCodeIff(r: Repo, commit: CommitId)
    requires Valid(r) && commit in r.commits
    ensures Search(r, commit) == Err(NothingTouchesCode) <==>
              forall c :: c in FirstParents(r, commit) ==> !TouchesCode(r, c)
    ensures match Search(r, commit)
            case Ok(found) =>
              exists k :: IsNearest(r, commit, found, k) && found in r.commits
                          && !ListsCode(r, r.commits[found].tree, r.commits[commit].tree)
                          && (SameCode(r.commits[found].tree, r.commits[commit].tree) <==> !SkipsALoss(r, commit, k))
            case Err(NothingTouchesCode) => true
            case Err(CodeChanged) =>
              exists k :: 0 <= k < |FirstParents(r, commit)|
                          && IsNearest(r, commit, FirstParents(r, commit)[k], k) && SkipsALoss(r, commit, k)
                          && ListsCode(r, r.commits[FirstParents(r, commit)[k]].tree, r.commits[commit].tree)
  {
    hide FirstParents, IsCodePath, TouchesCode, ListsCode, MovesCodeAway, SameCode, OnlyLosesCode;
    var line := FirstParents(r, commit);
    var k := FirstTouching(r, line, 0);
    if k == |line| {
      forall c | c in line ensures !TouchesCode(r, c) {
        var i :| 0 <= i < |line| && line[i] == c;
      }
    } else {
      assert line[k] in line;
      CodeIsUnchangedAlongTheLineIff(r, commit, k);
      ListedCodeChanged(r, r.commits[line[k]].tree, r.commits[commit].tree);
      ListedCodeChanged(r, r.commits[commit].tree, r.commits[commit].tree);
      assert IsNearest(r, commit, line[k], k);
    }
  }

  lemma ListedCodeChanged(r: Repo, a: Tree, b: Tree)
    ensures ListsCode(r, a, b) ==> !SameCode(a, b) && a != b
  {
    hide IsCodePath;
  }

  // A file moved out of the code in one commit.

  const BEFORE_MOVE: Tree := map["a.py" := 1]
  const AFTER_MOVE: Tree := map["docs/a.py" := 1]

  const MOVED_REPO :=
    Repo(map[1 := Commit([], BEFORE_MOVE, 0), 2 := Commit([1], AFTER_MOVE, 1)], 2, map[],
         (a: Tree, b: Tree) => if a == BEFORE_MOVE && b == AFTER_MOVE then map["a.py" := "docs/a.py"] else map[])

  lemma DocsPathIsNotCode()
    ensures !IsCodePath("docs/a.py")
  {
    var p := "docs/a.py";
    assert Slashes(p) == p && StripLeft(p) == p && StripRight(p) == p;
    assert NON_CODE_PREFIXES[1] in NON_CODE_PREFIXES && NON_CODE_PREFIXES[1] <= p;
  }

  lemma MoveListsOnlyItsTarget()
    ensures Listed(MOVED_REPO, BEFORE_MOVE, AFTER_MOVE) == {"docs/a.py"}
    ensures Listed(MOVED_REPO, map[], BEFORE_MOVE) == {"a.py"}
  {
    assert MOVED_REPO.renames(BEFORE_MOVE, AFTER_MOVE) == map["a.py" := "docs/a.py"];
    assert Diff(BEFORE_MOVE, AFTER_MOVE) == {"a.py", "docs/a.py"};
  }

  lemma MovedRepoIsValid()
    ensures Valid(MOVED_REPO)
  {
  }

  /** The move lists no code, so it is skipped, and its parent is taken for the same code. */
  lemma RenamedCodeIsMissed()
    ensures Valid(MOVED_REPO) && Search(MOVED_REPO, 2) == Ok(1)
    ensures !SameCode(MOVED_REPO.commits[1].tree, MOVED_REPO.commits[2].tree)
  {
    hide IsCodePath, Listed, Valid;
    var r := MOVED_REPO;
    MovedRepoIsValid();
    PlainNameIsCode();
    DocsPathIsNotCode();
    MoveListsOnlyItsTarget();
    assert FirstParents(r, 1) == [1] && FirstParents(r, 2) == [2, 1];
    assert !TouchesCode(r, 2) && TouchesCode(r, 1);
    assert FirstTouching(r, [2, 1], 0) == FirstTouching(r, [2, 1], 1) == 1;
  }
}
