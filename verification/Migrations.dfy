/**
 The migration graph and the walk from its single head back to the root.

 A revision map gives each declared revision its `down_revision`: nothing (or anything that
 is not text), one parent, or several. The walk follows single parents only.
 */
module Migrations {
  import opened Basics

  /** Revision ids are compared and never inspected, so numbers stand for them. */
  type Revision = nat

  datatype Down = NoParent | One(parent: Revision) | Many(parents: seq<Revision>)

  type Revisions = map<Revision, Down>

  datatype GraphError = NoRevisions | HeadCount(n: nat) | Cycle(at: Revision) | Undeclared(name: Revision)

  // ----- the code

  function ParentsOf(d: Down): set<Revision> {
    match d
    case NoParent => {}
    case One(p) => {p}
    case Many(ps) => set p | p in ps
  }

  /** Parents named by the given revisions. */
  function ReferencedBy(revs: Revisions, some: set<Revision>): set<Revision>
    requires some <= revs.Keys
  {
    set r, p | r in some && p in ParentsOf(revs[r]) :: p
  }

  function Referenced(revs: Revisions): set<Revision> {
    ReferencedBy(revs, revs.Keys)
  }

  function Heads(revs: Revisions): set<Revision> {
    revs.Keys - Referenced(revs)
  }

  ghost predicate IsHead(revs: Revisions, h: Revision) {
    Heads(revs) == {h}
  }

  ghost function Head(revs: Revisions): Result<Revision, GraphError> {
    if revs == map[] then Err(NoRevisions)
    else if |Heads(revs)| != 1 then Err(HeadCount(|Heads(revs)|))
    else
      var h :| h in Heads(revs);
      Ok(h)
  }

  /** Follow single parents, recording revisions, until there is no text parent left. */
  function Walk(revs: Revisions, at: Down, chain: seq<Revision>): Result<seq<Revision>, GraphError>
    requires Elements(chain) <= revs.Keys
    decreases revs.Keys - Elements(chain)
  {
    if !at.One? then Ok(chain)
    else if at.parent in chain then Err(Cycle(at.parent))
    else if at.parent !in revs then Err(Undeclared(at.parent))
    else
      assert at.parent in revs.Keys - Elements(chain) && at.parent !in revs.Keys - Elements(chain + [at.parent]);
      Walk(revs, revs[at.parent], chain + [at.parent])
  }

  ghost function Chain(revs: Revisions): Result<seq<Revision>, GraphError> {
    match Head(revs)
    case Err(e) => Err(e)
    case Ok(h) => Walk(revs, One(h), [])
  }

  lemma ReferencedByOneMore(revs: Revisions, some: set<Revision>, x: Revision)
    requires some <= revs.Keys && x in revs
    ensures ReferencedBy(revs, some + {x}) == ReferencedBy(revs, some) + ParentsOf(revs[x])
  {
  }

  lemma ReferencedByNone(revs: Revisions)
    ensures ReferencedBy(revs, {}) == {}
  {
  }

  lemma Names(revs: Revisions, r: Revision, p: Revision)
    requires r in revs && p in ParentsOf(revs[r])
    ensures p in Referenced(revs)
  {
  }

  lemma NamedBy(revs: Revisions, p: Revision) returns (r: Revision)
    requires p in Referenced(revs)
    ensures r in revs && p in ParentsOf(revs[r])
  {
    r :| r in revs && p in ParentsOf(revs[r]);
  }

  method CollectReferenced(revs: Revisions) returns (referenced: set<Revision>)
    ensures referenced == Referenced(revs)
  {
    hide ReferencedBy;
    referenced := {};
    var done: set<Revision> := {};
    ReferencedByNone(revs);
    while revs.Keys - done != {}
      invariant done <= revs.Keys
      invariant referenced == ReferencedBy(revs, done)
      decreases revs.Keys - done
    {
      var x :| x in revs.Keys - done;
      ReferencedByOneMore(revs, done, x);
      done := done + {x};
      match revs[x] {
        case One(p) => referenced := referenced + {p};
        case Many(ps) => referenced := referenced + (set p | p in ps);
        case NoParent =>
      }
    }
    assert forall x :: x in revs.Keys ==> x in done || x in revs.Keys - done;
    assert done == revs.Keys;
  }

  method ResolveHead(revs: Revisions) returns (r: Result<Revision, GraphError>)
    ensures r == Head(revs)
  {
    if revs == map[] {
      return Err(NoRevisions);
    }
    var referenced := CollectReferenced(revs);
    var heads := revs.Keys - referenced;
    if |heads| != 1 {
      return Err(HeadCount(|heads|));
    }
    var h :| h in heads;
    SingletonIsUnique(heads, h, Head(revs).value);
    r := Ok(h);
  }

  method ResolveChain(revs: Revisions) returns (r: Result<seq<Revision>, GraphError>)
    ensures r == Chain(revs)
  {
    var head := ResolveHead(revs);
    if head.Err? {
      return Err(head.error);
    }
    var chain: seq<Revision> := [];
    var seen: set<Revision> := {};
    var current := One(head.value);
    while current.One?
      invariant seen == Elements(chain) && seen <= revs.Keys
      invariant Chain(revs) == Walk(revs, current, chain)
      decreases revs.Keys - seen, current.One?
    {
      var name := current.parent;
      if name in seen {
        return Err(Cycle(name));
      }
      ghost var before := chain;
      seen := seen + {name};
      chain := chain + [name];
      if name !in revs {
        return Err(Undeclared(name));
      }
      assert Elements(chain) == Elements(before) + {name};
      current := revs[name];
    }
    r := Ok(chain);
  }

  // ----- finite sets and sequences

  lemma SingletonIsUnique<T>(s: set<T>, a: T, b: T)
    requires |s| == 1 && a in s && b in s
    ensures a == b && s == {a}
  {
    assert |s - {a}| == 0;
    assert s - {a} == {};
  }

  lemma {:induction false} NoRepeatsFit<T>(s: seq<T>, bound: set<T>)
    requires NoRepeats(s) && Elements(s) <= bound
    ensures |s| <= |bound|
  {
    if s != [] {
      var front := s[..|s| - 1];
      var last := s[|s| - 1];
      assert Elements(front) <= bound - {last};
      NoRepeatsFit(front, bound - {last});
    }
  }

  // ----- ancestry

  /** The `n`-th single parent of a revision. */
  function Ancestor(revs: Revisions, r: Revision, n: nat): Option<Revision> {
    if n == 0 then Some(r)
    else match Ancestor(revs, r, n - 1)
         case None => None
         case Some(x) => if x in revs && revs[x].One? then Some(revs[x].parent) else None
  }

  lemma {:induction false} AncestorAdds(revs: Revisions, r: Revision, m: nat, n: nat)
    ensures Ancestor(revs, r, m).Some? ==>
              Ancestor(revs, r, m + n) == Ancestor(revs, Ancestor(revs, r, m).value, n)
    ensures Ancestor(revs, r, m).None? ==> Ancestor(revs, r, m + n).None?
  {
    if n > 0 {
      AncestorAdds(revs, r, m, n - 1);
    }
  }

  ghost predicate Reaches(revs: Revisions, r: Revision, x: Revision) {
    exists n: nat :: Ancestor(revs, r, n) == Some(x)
  }

  ghost predicate ReachesUndeclared(revs: Revisions, r: Revision) {
    exists n: nat :: Ancestor(revs, r, n).Some? && Ancestor(revs, r, n).value !in revs
  }

  ghost predicate OnCycle(revs: Revisions, r: Revision) {
    exists n: nat :: n > 0 && Ancestor(revs, r, n) == Some(r)
  }

  ghost predicate ReachesCycle(revs: Revisions, r: Revision) {
    exists n: nat :: Ancestor(revs, r, n).Some? && OnCycle(revs, Ancestor(revs, r, n).value)
  }

  /** `c` is the complete single-parent path from `h`: declared throughout and without repeats. */
  predicate IsPathFrom(revs: Revisions, h: Revision, c: seq<Revision>) {
    && c != [] && c[0] == h
    && NoRepeats(c)
    && (forall i :: 0 <= i < |c| ==> c[i] in revs)
    && (forall i :: 0 <= i < |c| - 1 ==> revs[c[i]] == One(c[i + 1]))
    && !revs[c[|c| - 1]].One?
  }

  /** A path read off so far, with `at` the step to take next. */
  predicate IsPrefixFrom(revs: Revisions, h: Revision, at: Down, c: seq<Revision>) {
    && NoRepeats(c)
    && (forall i :: 0 <= i < |c| ==> c[i] in revs)
    && (forall i :: 0 <= i < |c| - 1 ==> revs[c[i]] == One(c[i + 1]))
    && (if c == [] then at == One(h) else c[0] == h && at == revs[c[|c| - 1]])
  }

  lemma {:induction false} PathIsAncestry(revs: Revisions, c: seq<Revision>, n: nat)
    requires c != [] && (forall i :: 0 <= i < |c| ==> c[i] in revs)
    requires forall i :: 0 <= i < |c| - 1 ==> revs[c[i]] == One(c[i + 1])
    requires n < |c|
    ensures Ancestor(revs, c[0], n) == Some(c[n])
  {
    if n > 0 {
      PathIsAncestry(revs, c, n - 1);
    }
  }

  lemma {:induction false} PathEnds(revs: Revisions, h: Revision, c: seq<Revision>, n: nat)
    requires IsPathFrom(revs, h, c) && n >= |c|
    ensures Ancestor(revs, h, n).None?
  {
    if n == |c| {
      PathIsAncestry(revs, c, n - 1);
    } else {
      PathEnds(revs, h, c, n - 1);
    }
  }

  /** What the walk returns, and why it refuses. */
  lemma {:induction false} WalkFollowsThePath(revs: Revisions, h: Revision, at: Down, chain: seq<Revision>)
    requires Elements(chain) <= revs.Keys && IsPrefixFrom(revs, h, at, chain)
    ensures match Walk(revs, at, chain)
            case Ok(c) => IsPathFrom(revs, h, c)
            case Err(Undeclared(x)) => ReachesUndeclared(revs, h) && Reaches(revs, h, x) && x !in revs
            case Err(Cycle(x)) => ReachesCycle(revs, h) && Reaches(revs, h, x) && OnCycle(revs, x)
            case Err(_) => false
    decreases revs.Keys - Elements(chain)
  {
    if at.One? {
      var x := at.parent;
      if chain != [] {
        PathIsAncestry(revs, chain, |chain| - 1);
        assert Ancestor(revs, h, |chain|) == Some(x);
      } else {
        assert Ancestor(revs, h, 0) == Some(x);
      }
      if x in chain {
        var i :| 0 <= i < |chain| && chain[i] == x;
        PathIsAncestry(revs, chain, i);
        AncestorAdds(revs, h, i, |chain| - i);
        assert OnCycle(revs, x) by { assert Ancestor(revs, x, |chain| - i) == Some(x); }
      } else if x in revs {
        assert Elements(chain + [x]) == Elements(chain) + {x};
        WalkFollowsThePath(revs, h, revs[x], chain + [x]);
      }
    }
  }

  lemma HeadIsTheOnlyHead(revs: Revisions, h: Revision)
    ensures Head(revs) == Ok(h) <==> IsHead(revs, h)
  {
    if Head(revs).Ok? {
      SingletonIsUnique(Heads(revs), Head(revs).value, Head(revs).value);
    }
    if IsHead(revs, h) {
      assert h in Heads(revs) && |Heads(revs)| == 1;
      SingletonIsUnique(Heads(revs), h, Head(revs).value);
    }
  }

  /** Why there is no single head: there is no revision, or not exactly one that nothing names as a parent. */
  lemma NoHeadIff(revs: Revisions)
    ensures Head(revs) == Err(NoRevisions) <==> revs == map[]
    ensures Head(revs).Err? && revs != map[] ==> Head(revs).error == HeadCount(|Heads(revs)|) && |Heads(revs)| != 1
    ensures forall h :: h in Heads(revs) <==> h in revs && forall r :: r in revs ==> h !in ParentsOf(revs[r])
  {
    hide ReferencedBy;
    forall h | h in revs ensures h in Referenced(revs) <==> exists r :: r in revs && h in ParentsOf(revs[r]) {
      if h in Referenced(revs) {
        var r := NamedBy(revs, h);
      }
      if exists r :: r in revs && h in ParentsOf(revs[r]) {
        var r :| r in revs && h in ParentsOf(revs[r]);
        Names(revs, r, h);
      }
    }
  }

  /** What the chain's refusal names: an undeclared parent or a revision on a cycle, reached from the head. */
  lemma RefusalNamesItsCause(revs: Revisions, h: Revision)
    requires IsHead(revs, h)
    ensures match Chain(revs)
            case Ok(_) => true
            case Err(Undeclared(x)) => Reaches(revs, h, x) && x !in revs
            case Err(Cycle(x)) => Reaches(revs, h, x) && OnCycle(revs, x)
            case Err(_) => false
  {
    HeadIsTheOnlyHead(revs, h);
    ElementsOfNothing();
    WalkFollowsThePath(revs, h, One(h), []);
  }

  lemma ElementsOfNothing()
    ensures Elements<Revision>([]) == {}
  {
  }

  /** An accepted chain is the whole single-parent path of the only head. */
  lemma ChainIsThePathOfTheHead(revs: Revisions)
    ensures Chain(revs).Ok? ==>
              && Chain(revs).value != []
              && IsHead(revs, Chain(revs).value[0])
              && IsPathFrom(revs, Chain(revs).value[0], Chain(revs).value)
  {
    if Head(revs).Ok? {
      HeadIsTheOnlyHead(revs, Head(revs).value);
      ElementsOfNothing();
      WalkFollowsThePath(revs, Head(revs).value, One(Head(revs).value), []);
    }
  }

  lemma PathReachesNothingBad(revs: Revisions, h: Revision, c: seq<Revision>)
    requires IsPathFrom(revs, h, c)
    ensures !ReachesUndeclared(revs, h) && !ReachesCycle(revs, h)
  {
    forall n: nat | Ancestor(revs, h, n).Some?
      ensures n < |c| && Ancestor(revs, h, n).value == c[n]
    {
      if n >= |c| { PathEnds(revs, h, c, n); } else { PathIsAncestry(revs, c, n); }
    }
    forall n: nat, m: nat | Ancestor(revs, h, n).Some? && m > 0
      ensures Ancestor(revs, Ancestor(revs, h, n).value, m) != Ancestor(revs, h, n)
    {
      AncestorAdds(revs, h, n, m);
      if Ancestor(revs, h, n + m).Some? {
        assert c[n + m] != c[n];
      }
    }
  }

  /** The walk terminates on every map and accepts exactly the graphs whose head leads nowhere bad. */
  lemma ChainIsAcceptedIff(revs: Revisions, h: Revision)
    requires IsHead(revs, h)
    ensures Chain(revs).Ok? <==> !ReachesUndeclared(revs, h) && !ReachesCycle(revs, h)
  {
    HeadIsTheOnlyHead(revs, h);
    ElementsOfNothing();
    WalkFollowsThePath(revs, h, One(h), []);
    if Chain(revs).Ok? {
      PathReachesNothingBad(revs, h, Chain(revs).value);
    }
  }

  // ----- completeness

  ghost predicate SingleParents(revs: Revisions) {
    forall r :: r in revs ==> !revs[r].Many?
  }

  ghost predicate Closed(revs: Revisions) {
    forall r :: r in revs && revs[r].One? ==> revs[r].parent in revs
  }

  ghost predicate Acyclic(revs: Revisions) {
    forall r :: r in revs ==> !OnCycle(revs, r)
  }

  lemma {:induction false} ClosedStaysDeclared(revs: Revisions, r: Revision, n: nat)
    requires Closed(revs) && r in revs
    ensures Ancestor(revs, r, n).Some? ==> Ancestor(revs, r, n).value in revs
  {
    if n > 0 {
      ClosedStaysDeclared(revs, r, n - 1);
    }
  }

  /** Every step goes to a parent of any kind. */
  ghost predicate IsDescent(revs: Revisions, p: seq<Revision>) {
    forall i :: 0 <= i < |p| - 1 ==> p[i] in revs && p[i + 1] in ParentsOf(revs[p[i]])
  }

  /** Nothing descends from itself, through parents of any kind. */
  ghost predicate AcyclicThroughout(revs: Revisions) {
    forall p :: |p| > 1 && IsDescent(revs, p) ==> p[0] != p[|p| - 1]
  }

  ghost predicate ClosedThroughout(revs: Revisions) {
    Referenced(revs) <= revs.Keys
  }

  ghost predicate HasChildIn(revs: Revisions, s: set<Revision>, y: Revision)
    requires s <= revs.Keys
  {
    exists z :: z in s && y in ParentsOf(revs[z])
  }

  lemma ChildIn(revs: Revisions, s: set<Revision>, y: Revision) returns (z: Revision)
    requires s <= revs.Keys && HasChildIn(revs, s, y)
    ensures z in s && y in ParentsOf(revs[z])
  {
    z :| z in s && y in ParentsOf(revs[z]);
  }

  /** If every member of `s` has a child in `s`, descending paths of any length exist inside it. */
  lemma {:induction false} DescendingPath(revs: Revisions, s: set<Revision>, x: Revision, n: nat) returns (p: seq<Revision>)
    requires s <= revs.Keys && x in s
    requires forall y :: y in s ==> HasChildIn(revs, s, y)
    ensures |p| == n + 1
    ensures forall i :: 0 <= i <= n ==> p[i] in s
    ensures IsDescent(revs, p)
  {
    hide HasChildIn;
    if n == 0 {
      p := [x];
    } else {
      var q := DescendingPath(revs, s, x, n - 1);
      var z := ChildIn(revs, s, q[0]);
      p := [z] + q;
    }
  }

  lemma ChildrenForeverMeansCycle(revs: Revisions, s: set<Revision>)
    requires s != {} && s <= revs.Keys
    requires forall y :: y in s ==> HasChildIn(revs, s, y)
    ensures !AcyclicThroughout(revs)
  {
    hide HasChildIn;
    var x :| x in s;
    var p := DescendingPath(revs, s, x, |s|);
    if NoRepeats(p) {
      NoRepeatsFit(p, s);
      assert false;
    }
    var i, j :| 0 <= i < j < |p| && p[i] == p[j];
    assert IsDescent(revs, p[i..j + 1]);
  }

  /** With single parents a descent is the single-parent path. */
  lemma SingleParentsAcyclic(revs: Revisions)
    requires SingleParents(revs) && Acyclic(revs)
    ensures AcyclicThroughout(revs)
  {
    forall p | |p| > 1 && IsDescent(revs, p) ensures p[0] != p[|p| - 1] {
      var n := |p| - 1;
      forall i | 0 <= i < n ensures revs[p[i]] == One(p[i + 1]) {
      }
      DescentIsAncestry(revs, p, n);
      assert !OnCycle(revs, p[0]);
    }
  }

  lemma {:induction false} DescentIsAncestry(revs: Revisions, p: seq<Revision>, n: nat)
    requires n < |p| && forall i :: 0 <= i < |p| - 1 ==> p[i] in revs && revs[p[i]] == One(p[i + 1])
    ensures Ancestor(revs, p[0], n) == Some(p[n])
  {
    if n > 0 {
      DescentIsAncestry(revs, p, n - 1);
    }
  }

  /** Revisions off the chain would all have children off the chain. */
  lemma OffChainHasChildOffChain(revs: Revisions, c: seq<Revision>, y: Revision)
    requires SingleParents(revs) && c != [] && IsHead(revs, c[0]) && IsPathFrom(revs, c[0], c)
    requires y in revs && y !in c
    ensures HasChildIn(revs, revs.Keys - Elements(c), y)
  {
    hide ReferencedBy;
    assert y !in Heads(revs);
    var z := NamedBy(revs, y);
    assert revs[z] == One(y);
    forall i | 0 <= i < |c| ensures c[i] != z {
      if i < |c| - 1 {
        assert c[i + 1] in c;
      }
    }
  }

  /**
   With single parents and one head: the chain lists every revision exactly once, head to
   root, if and only if every parent is declared and nothing descends from itself.
   */
  lemma ChainIsCompleteIff(revs: Revisions, h: Revision)
    requires SingleParents(revs) && IsHead(revs, h)
    ensures (Chain(revs).Ok? && NoRepeats(Chain(revs).value) && Elements(Chain(revs).value) == revs.Keys)
            <==> Closed(revs) && Acyclic(revs)
  {
    ChainIsAcceptedIff(revs, h);
    ChainIsThePathOfTheHead(revs);
    if Closed(revs) && Acyclic(revs) {
      assert h in Heads(revs);
      forall n: nat ensures Ancestor(revs, h, n).Some? ==> Ancestor(revs, h, n).value in revs {
        ClosedStaysDeclared(revs, h, n);
      }
      var c := Chain(revs).value;
      var off := revs.Keys - Elements(c);
      if off != {} {
        forall y | y in off ensures HasChildIn(revs, off, y) {
          OffChainHasChildOffChain(revs, c, y);
        }
        ChildrenForeverMeansCycle(revs, off);
        SingleParentsAcyclic(revs);
      }
    } else if Chain(revs).Ok? && Elements(Chain(revs).value) == revs.Keys {
      CoveringChainIsClosedAndAcyclic(revs, Chain(revs).value);
    }
  }

  lemma CoveringChainIsClosedAndAcyclic(revs: Revisions, c: seq<Revision>)
    requires c != [] && IsPathFrom(revs, c[0], c) && Elements(c) == revs.Keys
    ensures Closed(revs) && Acyclic(revs)
  {
    PathReachesNothingBad(revs, c[0], c);
    forall r | r in revs
      ensures revs[r].One? ==> revs[r].parent in revs
      ensures !OnCycle(revs, r)
    {
      assert r in Elements(c);
      var i :| 0 <= i < |c| && c[i] == r;
      PathIsAncestry(revs, c, i);
      if i < |c| - 1 {
        assert revs[c[i]] == One(c[i + 1]) && c[i + 1] in revs;
      }
    }
  }

  /** `h` is the only head when nothing names it and `child` names everything else. */
  lemma OnlyHead(revs: Revisions, h: Revision, child: map<Revision, Revision>)
    requires h in revs && forall r :: r in revs ==> h !in ParentsOf(revs[r])
    requires forall x :: x in revs && x != h ==> x in child && child[x] in revs && x in ParentsOf(revs[child[x]])
    ensures Head(revs) == Ok(h) && Chain(revs) == Walk(revs, One(h), [])
  {
    hide ReferencedBy;
    forall x | x in revs ensures x in Referenced(revs) <==> x != h {
      if x != h {
        Names(revs, child[x], x);
      } else if h in Referenced(revs) {
        var r := NamedBy(revs, h);
        assert false;
      }
    }
    assert Heads(revs) == {h};
    HeadIsTheOnlyHead(revs, h);
  }

  lemma WalkStopsAtOnce(revs: Revisions, h: Revision)
    requires h in revs && !revs[h].One?
    ensures Walk(revs, One(h), []) == Ok([h])
  {
    ElementsOfNothing();
    var start: seq<Revision> := [];
    assert start + [h] == [h];
    assert Walk(revs, revs[h], [h]) == Ok([h]);
  }

  lemma TwoStepCycle(revs: Revisions, a: Revision, b: Revision)
    requires a in revs && b in revs && revs[a] == One(b) && revs[b] == One(a)
    ensures OnCycle(revs, a)
  {
    assert Ancestor(revs, a, 1) == Some(b);
    assert Ancestor(revs, a, 2) == Some(a);
  }

  /** A cycle the head never reaches is not rejected; it is silently left off the chain. */
  lemma UnreachableCycleIsAccepted() returns (revs: Revisions)
    ensures !Acyclic(revs) && Chain(revs) == Ok([0])
  {
    hide Walk, Chain, Head, OnCycle;
    revs := map[0 := NoParent, 1 := One(2), 2 := One(1)];
    TwoStepCycle(revs, 1, 2);
    OnlyHead(revs, 0, map[1 := 2, 2 := 1]);
    WalkStopsAtOnce(revs, 0);
  }

  // ----- growth

  ghost predicate Extends(was: Revisions, now: Revisions) {
    was.Keys <= now.Keys && forall r :: r in was ==> now[r] == was[r]
  }

  lemma PathStopsAt(revs: Revisions, d: seq<Revision>, i: nat)
    requires d != [] && IsPathFrom(revs, d[0], d) && i < |d| && !revs[d[i]].One?
    ensures i == |d| - 1
  {
    if i < |d| - 1 {
      PathStep(revs, d, i);
      assert false;
    }
  }

  lemma PathStep(revs: Revisions, d: seq<Revision>, i: nat)
    requires d != [] && IsPathFrom(revs, d[0], d) && i < |d| - 1
    ensures revs[d[i]] == One(d[i + 1])
  {
  }

  /** Once a later chain passes through the old head, it continues as the old chain did. */
  lemma {:induction false} PathsThroughOldHeadAgree(was: Revisions, now: Revisions, c: seq<Revision>, d: seq<Revision>,
                                                    k: nat, i: nat)
    requires Extends(was, now) && c != [] && d != []
    requires IsPathFrom(was, c[0], c) && IsPathFrom(now, d[0], d)
    requires k < |d| && d[k] == c[0] && i < |c|
    ensures k + i < |d| && d[k + i] == c[i]
  {
    if i > 0 {
      PathsThroughOldHeadAgree(was, now, c, d, k, i - 1);
      assert now[d[k + i - 1]] == One(c[i]);
    }
  }

  /**
   Growing the graph keeps every revision of the old chain on the new chain if and only if
   the old head is on the new chain; the old chain is then its tail.
   */
  lemma OldChainSurvivesIff(was: Revisions, now: Revisions)
    requires Extends(was, now) && Chain(was).Ok? && Chain(now).Ok?
    ensures Chain(was).value != []
    ensures var c, d := Chain(was).value, Chain(now).value;
            && (c[0] in d <==> Elements(c) <= Elements(d))
            && (c[0] in d <==> |c| <= |d| && d[|d| - |c|..] == c)
  {
    ChainIsThePathOfTheHead(was);
    ChainIsThePathOfTheHead(now);
    var c, d := Chain(was).value, Chain(now).value;
    if c[0] in d {
      var k :| 0 <= k < |d| && d[k] == c[0];
      forall i | 0 <= i < |c| ensures k + i < |d| && d[k + i] == c[i] {
        PathsThroughOldHeadAgree(was, now, c, d, k, i);
      }
      var last := k + |c| - 1;
      assert d[last] == c[|c| - 1] && !now[d[last]].One?;
      PathStopsAt(now, d, last);
      assert d[k..] == c;
    } else {
      assert c[0] in Elements(c);
    }
  }

  /** No revision added since is a merge: each names one parent, or none. */
  ghost predicate AddsNoMerge(was: Revisions, now: Revisions) {
    forall r :: r in now && r !in was ==> !now[r].Many?
  }

  /** Only added revisions name an added one or the old head. */
  lemma NewcomersHaveNewChildren(was: Revisions, now: Revisions, h: Revision, x: Revision)
    requires Extends(was, now) && ClosedThroughout(was) && IsHead(was, h) && (x !in was || x == h)
    requires x in Referenced(now)
    ensures exists z :: z in now && z !in was && x in ParentsOf(now[z])
  {
    hide ReferencedBy;
    assert h in Heads(was);
    var z := NamedBy(now, x);
    if z in was {
      Names(was, z, x);
      assert false;
    }
  }

  /** A revision on a path that is named by one of the path's own single steps is on the path. */
  lemma ParentOnThePath(revs: Revisions, d: seq<Revision>, z: Revision, x: Revision)
    requires d != [] && IsPathFrom(revs, d[0], d) && z in d && revs[z] == One(x)
    ensures x in d
  {
    var i :| 0 <= i < |d| && d[i] == z;
    if i == |d| - 1 {
      assert false;
    }
    PathStep(revs, d, i);
    assert d[i + 1] in d;
  }

  /** Off the new chain every newcomer, and the old head where only single parents were added, has a child off the chain. */
  lemma NewcomersOffTheChain(was: Revisions, now: Revisions, c: seq<Revision>, d: seq<Revision>, off: set<Revision>)
    requires Extends(was, now) && ClosedThroughout(was)
    requires c != [] && IsHead(was, c[0])
    requires d != [] && IsHead(now, d[0]) && IsPathFrom(now, d[0], d)
    requires off == set x | x in now && x !in d && (x !in was || x == c[0])
    requires forall z :: z in d && z !in was ==> !now[z].Many?
    ensures forall x :: x in off ==> HasChildIn(now, off, x)
  {
    hide IsPathFrom, ReferencedBy, ClosedThroughout;
    forall x | x in off ensures HasChildIn(now, off, x) {
      assert x !in Heads(now);
      NewcomersHaveNewChildren(was, now, c[0], x);
      var z :| z in now && z !in was && x in ParentsOf(now[z]);
      if z in d {
        ParentOnThePath(now, d, z, x);
      }
      assert z in off;
    }
  }

  /**
   On graphs whose parents are all declared and where nothing descends from itself: growing to
   a new single head keeps the old chain, as the tail of the new one, if and only if no merge
   was added.
   */
  lemma OldHeadStaysIff(was: Revisions, now: Revisions, h: Revision)
    requires Extends(was, now) && Chain(was).Ok? && IsHead(now, h)
    requires ClosedThroughout(was) && ClosedThroughout(now) && AcyclicThroughout(now)
    ensures Chain(was).value != [] && Chain(now).Ok?
    ensures Chain(was).value[0] in Chain(now).value <==> AddsNoMerge(was, now)
  {
    hide Chain, AcyclicThroughout, ClosedThroughout;
    ChainIsThePathOfTheHead(was);
    SoundGraphHasAChain(now, h);
    ChainIsThePathOfTheHead(now);
    var c, d := Chain(was).value, Chain(now).value;
    var off := set x | x in now && x !in d && (x !in was || x == c[0]);
    if c[0] in d {
      MergesAreOffTheChain(was, now, c, d);
      if !AddsNoMerge(was, now) {
        var m :| m in now && m !in was && now[m].Many?;
        assert m in off;
        NewcomersOffTheChain(was, now, c, d, off);
        ChildrenForeverMeansCycle(now, off);
        assert false;
      }
    } else if AddsNoMerge(was, now) {
      assert c[0] in off;
      NewcomersOffTheChain(was, now, c, d, off);
      ChildrenForeverMeansCycle(now, off);
      assert false;
    }
  }

  /** Once the chain passes through the old head, every merge on it is an old one. */
  lemma MergesAreOffTheChain(was: Revisions, now: Revisions, c: seq<Revision>, d: seq<Revision>)
    requires Extends(was, now) && c != [] && d != []
    requires IsPathFrom(was, c[0], c) && IsPathFrom(now, d[0], d) && c[0] in d
    ensures forall z :: z in d && z !in was ==> !now[z].Many?
  {
    var k :| 0 <= k < |d| && d[k] == c[0];
    PathsThroughOldHeadAgree(was, now, c, d, k, |c| - 1);
    PathStopsAt(now, d, k + |c| - 1);
    forall z | z in d && z !in was ensures !now[z].Many? {
      var i :| 0 <= i < |d| && d[i] == z;
      if now[z].Many? {
        PathStopsAt(now, d, i);
        assert false;
      }
    }
  }

  /** One head, declared parents and no cycle: the walk is accepted. */
  lemma SoundGraphHasAChain(revs: Revisions, h: Revision)
    requires IsHead(revs, h) && ClosedThroughout(revs) && AcyclicThroughout(revs)
    ensures Chain(revs).Ok?
  {
    hide ReferencedBy;
    assert h in Heads(revs);
    assert Closed(revs) by {
      forall r | r in revs && revs[r].One? ensures revs[r].parent in revs {
        Names(revs, r, revs[r].parent);
      }
    }
    forall n: nat ensures Ancestor(revs, h, n).Some? ==> Ancestor(revs, h, n).value in revs {
      ClosedStaysDeclared(revs, h, n);
    }
    forall r: Revision, n: nat | n > 0 ensures Ancestor(revs, r, n) != Some(r) {
      if Ancestor(revs, r, n) == Some(r) {
        var p := AncestorsDescend(revs, r, n);
        assert false;
      }
    }
    ChainIsAcceptedIff(revs, h);
  }

  lemma {:induction false} AncestorsDescend(revs: Revisions, r: Revision, n: nat) returns (p: seq<Revision>)
    requires Ancestor(revs, r, n).Some?
    ensures |p| == n + 1 && p[0] == r && p[n] == Ancestor(revs, r, n).value && IsDescent(revs, p)
  {
    p := [r];
    if n > 0 {
      var q := AncestorsDescend(revs, r, n - 1);
      p := q + [Ancestor(revs, r, n).value];
    }
  }

  /** Append a migration on top of the head. */
  ghost predicate Appends(was: Revisions, name: Revision, now: Revisions) {
    && name !in was && name !in Referenced(was)
    && Chain(was).Ok? && Chain(was).value != []
    && now == was[name := One(Chain(was).value[0])]
  }

  lemma AppendedHeads(was: Revisions, name: Revision, now: Revisions)
    requires Appends(was, name, now)
    ensures IsHead(now, name) && Extends(was, now)
  {
    hide ReferencedBy;
    var h := Chain(was).value[0];
    ChainIsThePathOfTheHead(was);
    forall x | x in now ensures x in Referenced(now) <==> x != name {
      if x == h {
        Names(now, name, h);
      } else if x in was {
        assert x !in Heads(was);
        var r := NamedBy(was, x);
        Names(now, r, x);
      } else if x in Referenced(now) {
        var r := NamedBy(now, x);
        if r != name {
          Names(was, r, x);
        }
        assert false;
      }
    }
    assert Heads(now) == {name};
  }

  lemma PathIsUnique(revs: Revisions, h: Revision, c: seq<Revision>, d: seq<Revision>)
    requires IsPathFrom(revs, h, c) && IsPathFrom(revs, h, d)
    ensures c == d
  {
    forall n | 0 <= n < |c| && n < |d| ensures c[n] == d[n] {
      PathIsAncestry(revs, c, n);
      PathIsAncestry(revs, d, n);
    }
    if |c| < |d| {
      PathIsAncestry(revs, d, |c|);
      PathEnds(revs, h, c, |c|);
    } else if |d| < |c| {
      PathIsAncestry(revs, c, |d|);
      PathEnds(revs, h, d, |d|);
    }
  }

  /** A migration appended to the head goes in front of the chain and disturbs nothing else. */
  lemma AppendGoesInFront(was: Revisions, name: Revision, now: Revisions)
    requires Appends(was, name, now)
    ensures Chain(now) == Ok([name] + Chain(was).value)
  {
    var c := Chain(was).value;
    AppendedHeads(was, name, now);
    ChainIsThePathOfTheHead(was);
    var d := [name] + c;
    assert IsPathFrom(now, name, d);
    PathReachesNothingBad(now, name, d);
    ChainIsAcceptedIff(now, name);
    ChainIsThePathOfTheHead(now);
    HeadIsTheOnlyHead(now, name);
    PathIsUnique(now, name, Chain(now).value, d);
  }

  /** A merge of two branches truncates the chain: revisions below it drop off. */
  lemma MergeTruncatesTheChain() returns (was: Revisions, now: Revisions)
    ensures Extends(was, now) && Chain(was) == Ok([1]) && Chain(now) == Ok([4])
  {
    hide Walk, Chain, Head;
    was := map[1 := NoParent];
    now := map[1 := NoParent, 2 := One(1), 3 := One(1), 4 := Many([2, 3])];
    OnlyHead(was, 1, map[]);
    WalkStopsAtOnce(was, 1);
    OnlyHead(now, 4, map[1 := 2, 2 := 4, 3 := 4]);
    WalkStopsAtOnce(now, 4);
  }
}
