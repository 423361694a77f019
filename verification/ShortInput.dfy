/**
 Cutting a small coherent instance out of a full week: greedy choice of tasks and members,
 demand scaling, and hourly aggregation of outbound rows.

 Times are minutes on one clock; an unparsable timestamp is absent. Volumes, rates and hours
 are reals. The order in which Python iterates a set is an input.

 The parts follow the script: ranking and picking tasks, gathering members, counting demand,
 measuring capacity, scaling, writing. Main results: `SliceOfAWeekIsCoherent`,
 `WrittenHoursAreScaled` and `LoadIsMetIff`.
 */
module ShortInput {
  import opened Basics

  type TaskId = nat
  type ContactId = nat

  const MAX_MEMBERS: nat := 14
  const MEMBERS_PER_TASK: nat := 3
  const DEMAND_LOAD: real := 1.3
  const MAX_HOURS_PER_WEEK: real := 56.0
  const N_OUTBOUND_TASKS: nat := 3
  const N_INBOUND_TASKS: nat := 2
  const N_INDIRECT_TASKS: nat := 2

  datatype Family = OB | IB | IND

  /** A qualification row: who can do which task, and how fast. */
  datatype Qualification = Qualification(task: TaskId, contact: ContactId, rate: real)

  /** A demand row: an outbound band, one task of an inbound window, or an indirect requirement. */
  datatype Row = Row(task: TaskId, area: nat, start: Option<nat>, endParses: bool, volume: real)

  /** An inbound window and the work it brings, task by task. */
  datatype Inbound = Inbound(start: Option<nat>, tasks: seq<(TaskId, real)>)

  /** A roster or availability window of a member. */
  datatype Window = Window(contact: ContactId, start: Option<nat>, end: Option<nat>)

  datatype Horizon = Horizon(first: nat, end: nat)

  /** What the script reads. */
  datatype Week = Week(
    outbound: seq<Row>,
    inbound: seq<Inbound>,
    indirect: seq<Row>,
    quals: seq<Qualification>,
    rosters: seq<Window>,
    availability: seq<Window>,
    horizon: Horizon)

  /** Demand per task in the order the tasks were first met. */
  datatype Demand = Demand(order: seq<TaskId>, amount: map<TaskId, real>)

  /** What the selection is made against: qualifications and who is rostered or available. */
  datatype Supply = Supply(quals: seq<Qualification>, rostered: set<ContactId>, available: set<ContactId>)

  predicate ValidDemand(d: Demand) {
    NoRepeats(d.order) && d.amount.Keys == Elements(d.order)
  }

  // ----- stable sort

  ghost predicate Ordering<T(!new)>(leq: (T, T) -> bool) {
    && (forall x, y :: leq(x, y) || leq(y, x))
    && (forall x, y, z :: leq(x, y) && leq(y, z) ==> leq(x, z))
  }

  predicate Sorted<T>(s: seq<T>, leq: (T, T) -> bool) {
    forall i, j :: 0 <= i < j < |s| ==> leq(s[i], s[j])
  }

  /** Place `x` after everything not above it. */
  function Insert<T>(s: seq<T>, x: T, leq: (T, T) -> bool): seq<T> {
    if s == [] then [x]
    else if leq(s[|s| - 1], x) then s + [x]
    else Insert(s[..|s| - 1], x, leq) + [s[|s| - 1]]
  }

  function SortBy<T>(s: seq<T>, leq: (T, T) -> bool): seq<T> {
    if s == [] then [] else Insert(SortBy(s[..|s| - 1], leq), s[|s| - 1], leq)
  }

  lemma {:induction false} InsertSorts<T(!new)>(s: seq<T>, x: T, leq: (T, T) -> bool)
    requires Ordering(leq) && Sorted(s, leq)
    ensures Sorted(Insert(s, x, leq), leq)
    ensures multiset(Insert(s, x, leq)) == multiset(s) + multiset{x}
  {
    if s != [] {
      var front, last := s[..|s| - 1], s[|s| - 1];
      assert s == front + [last];
      if leq(last, x) {
        forall i, j | 0 <= i < j < |s + [x]| ensures leq((s + [x])[i], (s + [x])[j]) {
          if j == |s| && i < |s| - 1 {
            assert leq(s[i], last);
          }
        }
      } else {
        InsertSorts(front, x, leq);
        var inner := Insert(front, x, leq);
        forall i | 0 <= i < |inner| ensures leq(inner[i], last) {
          assert inner[i] in multiset(inner);
          assert inner[i] in front || inner[i] == x;
        }
      }
    }
  }

  lemma {:induction false} SortBySorts<T(!new)>(s: seq<T>, leq: (T, T) -> bool)
    requires Ordering(leq)
    ensures Sorted(SortBy(s, leq), leq) && multiset(SortBy(s, leq)) == multiset(s)
    ensures |SortBy(s, leq)| == |s| && forall x :: x in SortBy(s, leq) <==> x in s
  {
    hide Insert, Ordering, Sorted;
    if s == [] {
      NothingIsSorted(leq);
    } else {
      var front, x := s[..|s| - 1], s[|s| - 1];
      SortBySorts(front, leq);
      InsertSorts(SortBy(front, leq), x, leq);
      assert s == front + [x];
    }
    SamePopulation(SortBy(s, leq), s);
  }

  lemma NothingIsSorted<T(!new)>(leq: (T, T) -> bool)
    ensures Sorted([], leq)
  {
  }

  lemma SamePopulation<T>(a: seq<T>, b: seq<T>)
    requires multiset(a) == multiset(b)
    ensures |a| == |b| && forall x :: x in a <==> x in b
  {
    assert |multiset(a)| == |a| && |multiset(b)| == |b|;
    forall x ensures x in a <==> x in b {
      assert x in multiset(a) <==> x in multiset(b);
    }
  }

  lemma {:induction false} PermutationHasNoRepeats<T>(a: seq<T>, b: seq<T>)
    requires multiset(a) == multiset(b) && NoRepeats(b)
    ensures NoRepeats(a)
  {
    forall i, j | 0 <= i < j < |a| ensures a[i] != a[j] {
      if a[i] == a[j] {
        TwiceInMultiset(a, i, j);
        OnceInMultiset(b, a[i]);
        assert false;
      }
    }
  }

  lemma TwiceInMultiset<T>(a: seq<T>, i: nat, j: nat)
    requires i < j < |a| && a[i] == a[j]
    ensures multiset(a)[a[i]] >= 2
  {
    assert a == a[..j] + [a[j]] + a[j + 1..];
    assert a[i] in a[..j];
  }

  lemma {:induction false} OnceInMultiset<T>(b: seq<T>, x: T)
    requires NoRepeats(b)
    ensures multiset(b)[x] <= 1
  {
    if b != [] {
      var front := b[..|b| - 1];
      assert b == front + [b[|b| - 1]];
      OnceInMultiset(front, x);
      if b[|b| - 1] == x {
        assert x !in front;
      }
    }
  }

  // ----- suppliers

  function Scheduled(s: Supply): set<ContactId> {
    s.rostered + s.available
  }

  predicate Supplies(s: Supply, q: Qualification, t: TaskId) {
    q.task == t && q.contact in Scheduled(s) && q.rate > 0.0
  }

  function Keep(quals: seq<Qualification>, s: Supply, t: TaskId): seq<Qualification> {
    if quals == [] then []
    else Keep(quals[..|quals| - 1], s, t) + (if Supplies(s, quals[|quals| - 1], t) then [quals[|quals| - 1]] else [])
  }

  /** Qualified, scheduled, positive-rate rows of a task. */
  function Candidates(s: Supply, t: TaskId): seq<Qualification> {
    Keep(s.quals, s, t)
  }

  lemma {:induction false} KeepIsExact(quals: seq<Qualification>, s: Supply, t: TaskId, q: Qualification)
    ensures q in Keep(quals, s, t) <==> q in quals && Supplies(s, q, t)
  {
    if quals != [] {
      KeepIsExact(quals[..|quals| - 1], s, t, q);
      assert quals == quals[..|quals| - 1] + [quals[|quals| - 1]];
    }
  }

  // ----- choosing tasks

  function Larger(d: Demand): (TaskId, TaskId) -> bool {
    (x: TaskId, y: TaskId) => AmountOf(d, x) >= AmountOf(d, y)
  }

  function AmountOf(d: Demand, t: TaskId): real {
    if t in d.amount then d.amount[t] else 0.0
  }

  function Supplied(order: seq<TaskId>, s: Supply): seq<TaskId> {
    if order == [] then []
    else Supplied(order[..|order| - 1], s) + (if Candidates(s, order[|order| - 1]) != [] then [order[|order| - 1]] else [])
  }

  /** Tasks of one family that have supply, largest demand first. */
  function Ranked(d: Demand, s: Supply): seq<TaskId> {
    SortBy(Supplied(d.order, s), Larger(d))
  }

  /** Walk the ranking, skip what is kept already, stop once `n` are taken. */
  function Taken(ranked: seq<TaskId>, kept: set<TaskId>, n: nat, taken: seq<TaskId>): seq<TaskId>
    decreases |ranked|
  {
    if ranked == [] then taken
    else if ranked[0] in kept then Taken(ranked[1..], kept, n, taken)
    else if |taken| + 1 >= n then taken + [ranked[0]]
    else Taken(ranked[1..], kept + {ranked[0]}, n, taken + [ranked[0]])
  }

  function Picked(d: Demand, s: Supply, kept: set<TaskId>, n: nat): seq<TaskId> {
    Taken(Ranked(d, s), kept, n, [])
  }

  lemma {:induction false} SuppliedIsExact(order: seq<TaskId>, s: Supply, t: TaskId)
    ensures t in Supplied(order, s) <==> t in order && Candidates(s, t) != []
  {
    hide Candidates;
    if order != [] {
      SuppliedIsExact(order[..|order| - 1], s, t);
      assert order == order[..|order| - 1] + [order[|order| - 1]];
    }
  }

  lemma {:induction false} SuppliedHasNoRepeats(order: seq<TaskId>, s: Supply)
    requires NoRepeats(order)
    ensures NoRepeats(Supplied(order, s))
  {
    hide Candidates;
    if order != [] {
      var front, last := order[..|order| - 1], order[|order| - 1];
      SuppliedHasNoRepeats(front, s);
      SuppliedIsExact(front, s, last);
      assert last !in front;
    }
  }

  /** The ranking lists the supplied tasks once each, in decreasing demand. */
  lemma RankedIsASortedListing(d: Demand, s: Supply)
    requires ValidDemand(d)
    ensures NoRepeats(Ranked(d, s)) && Sorted(Ranked(d, s), Larger(d))
    ensures forall t :: t in Ranked(d, s) <==> t in d.amount && Candidates(s, t) != []
  {
    hide SortBy, Candidates, Supplied;
    SortBySorts(Supplied(d.order, s), Larger(d));
    SuppliedHasNoRepeats(d.order, s);
    PermutationHasNoRepeats(Ranked(d, s), Supplied(d.order, s));
    forall t ensures t in Ranked(d, s) <==> t in d.amount && Candidates(s, t) != [] {
      SuppliedIsExact(d.order, s, t);
      assert t in d.order <==> t in Elements(d.order);
    }
  }

  /** What is taken from a ranking: a leading part of what was not kept. */
  lemma {:induction false} TakenIsTheTop(ranked: seq<TaskId>, kept: set<TaskId>, n: nat, taken: seq<TaskId>, t: TaskId,
                                         u: TaskId, leq: (TaskId, TaskId) -> bool)
    requires NoRepeats(ranked) && Sorted(ranked, leq)
    requires n == 0 ==> taken == []
    requires n > 0 ==> |taken| < n
    ensures var r := Taken(ranked, kept, n, taken);
            && taken <= r
            && |r| <= (if n == 0 then 1 else n)
            && (t in r && t !in taken ==> t in ranked && t !in kept)
            && (u in ranked && u !in kept && u !in r ==> |r| >= n && (t in r && t !in taken ==> leq(t, u)))
    decreases |ranked|
  {
    if ranked != [] {
      var x, rest := ranked[0], ranked[1..];
      assert forall y :: y in rest ==> y in ranked && y != x;
      assert u in ranked && u != x ==> u in rest;
      if x in kept {
        TakenIsTheTop(rest, kept, n, taken, t, u, leq);
      } else {
        assert u in rest ==> leq(x, u);
        if |taken| + 1 < n {
          TakenIsTheTop(rest, kept + {x}, n, taken + [x], t, u, leq);
          var r := Taken(rest, kept + {x}, n, taken + [x]);
          assert r[|taken|] == (taken + [x])[|taken|] == x;
          assert t !in taken + [x] || t in taken || t == x;
        }
      }
    }
  }

  /**
   A family's pick keeps only tasks that have supply and were not kept yet, at most `n` of
   them, and leaves one out only when `n` are taken, none of which has less demand.
   */
  lemma PickTakesTheLargestSupplied(d: Demand, s: Supply, kept: set<TaskId>, n: nat, t: TaskId, u: TaskId)
    requires ValidDemand(d) && n > 0
    ensures var p := Picked(d, s, kept, n);
            && |p| <= n
            && (t in p ==> t in d.amount && Candidates(s, t) != [] && t !in kept)
            && (u in d.amount && Candidates(s, u) != [] && u !in kept && u !in p ==>
                  |p| == n && (t in p ==> AmountOf(d, t) >= AmountOf(d, u)))
  {
    hide Ranked, Candidates;
    RankedIsASortedListing(d, s);
    TakenIsTheTop(Ranked(d, s), kept, n, [], t, u, Larger(d));
  }

  // ----- choosing members

  /** Rostered suppliers first, faster first. */
  function Better(s: Supply): (Qualification, Qualification) -> bool {
    (a: Qualification, b: Qualification) =>
      (a.contact in s.rostered && b.contact !in s.rostered)
      || ((a.contact in s.rostered <==> b.contact in s.rostered) && a.rate >= b.rate)
  }

  function First<T>(s: seq<T>, n: nat): (r: seq<T>)
    ensures |r| <= n && r <= s
  {
    if |s| <= n then s else s[..n]
  }

  /** The best few candidates of a task. */
  function Chosen(s: Supply, t: TaskId): (c: seq<Qualification>)
    ensures |c| <= MEMBERS_PER_TASK
  {
    First(SortBy(Candidates(s, t), Better(s)), MEMBERS_PER_TASK)
  }

  /** Add one task's choices: under the cap freely, over it only the first. */
  function AddChosen(chosen: seq<Qualification>, members: set<ContactId>, covered: bool): (r: (set<ContactId>, bool)) {
    if chosen == [] then (members, covered)
    else
      var (m, c) := AddChosen(chosen[..|chosen| - 1], members, covered);
      var cid := chosen[|chosen| - 1].contact;
      if |m| < MAX_MEMBERS || cid in m || !c then (m + {cid}, true) else (m, c)
  }

  lemma NoneIsAdded(members: set<ContactId>)
    ensures AddChosen([], members, false) == (members, false)
  {
  }

  lemma OneIsAdded(chosen: seq<Qualification>, q: Qualification, members: set<ContactId>)
    ensures var before, after := AddChosen(chosen, members, false), AddChosen(chosen + [q], members, false);
            if |before.0| < MAX_MEMBERS || q.contact in before.0 || !before.1
            then after.0 == before.0 + {q.contact} && after.1
            else after.0 == before.0 && after.1 == before.1
  {
    assert (chosen + [q])[..|chosen|] == chosen;
  }

  function Gathered(s: Supply, order: seq<TaskId>): set<ContactId> {
    if order == [] then {}
    else AddChosen(Chosen(s, order[|order| - 1]), Gathered(s, order[..|order| - 1]), false).0
  }

  lemma CandidatesAreChosen(s: Supply, t: TaskId)
    requires Candidates(s, t) != []
    ensures Chosen(s, t) != []
    ensures forall q :: q in Chosen(s, t) ==> q in s.quals && Supplies(s, q, t)
  {
    hide SortBy, Keep;
    SortBySorts(Candidates(s, t), Better(s));
    forall q | q in Chosen(s, t) ensures q in s.quals && Supplies(s, q, t) {
      assert q in SortBy(Candidates(s, t), Better(s));
      KeepIsExact(s.quals, s, t, q);
    }
  }

  /** The first choice is always added, whatever the cap; members only grow. */
  lemma {:induction false} FirstChoiceIsAdded(chosen: seq<Qualification>, members: set<ContactId>)
    ensures var r := AddChosen(chosen, members, false);
            && members <= r.0
            && (r.1 <==> chosen != [])
            && (chosen != [] ==> chosen[0].contact in r.0)
            && (forall c :: c in r.0 ==> c in members || exists q :: q in chosen && q.contact == c)
  {
    if chosen != [] {
      var front := chosen[..|chosen| - 1];
      FirstChoiceIsAdded(front, members);
      assert chosen == front + [chosen[|chosen| - 1]];
    }
  }

  /** A task that starts under the cap adds at most its choices and stays within it; one that starts at or over adds at most one. */
  lemma {:induction false} AddedMembers(chosen: seq<Qualification>, members: set<ContactId>)
    ensures var r := AddChosen(chosen, members, false).0;
            && |members| <= |r| <= |members| + |chosen|
            && (|members| < MAX_MEMBERS ==> |r| <= MAX_MEMBERS)
            && (|members| >= MAX_MEMBERS ==> |r| <= |members| + 1)
            && (|members| >= MAX_MEMBERS && chosen == [] ==> |r| == |members|)
  {
    if chosen != [] {
      var front := chosen[..|chosen| - 1];
      AddedMembers(front, members);
      FirstChoiceIsAdded(front, members);
      OneMoreElement(AddChosen(front, members, false).0, chosen[|chosen| - 1].contact);
    }
  }

  lemma {:induction false} GatheredGrows(s: Supply, order: seq<TaskId>, k: nat)
    requires k <= |order|
    ensures Gathered(s, order[..k]) <= Gathered(s, order)
  {
    hide Chosen, AddChosen;
    if k < |order| {
      var front := order[..|order| - 1];
      GatheredGrows(s, front, k);
      assert front[..k] == order[..k];
      FirstChoiceIsAdded(Chosen(s, order[|order| - 1]), Gathered(s, front));
    } else {
      assert order[..k] == order;
    }
  }

  /** Every kept task keeps at least one qualified, scheduled, positive-rate supplier. */
  lemma EveryKeptTaskHasAKeptSupplier(s: Supply, order: seq<TaskId>, t: TaskId)
    requires t in order && Candidates(s, t) != []
    ensures exists q :: q in s.quals && Supplies(s, q, t) && q.contact in Gathered(s, order)
  {
    hide Chosen, AddChosen, Candidates;
    var k :| 0 <= k < |order| && order[k] == t;
    CandidatesAreChosen(s, t);
    var q := Chosen(s, t)[0];
    assert q in Chosen(s, t);
    assert order[..k + 1][..k] == order[..k];
    FirstChoiceIsAdded(Chosen(s, t), Gathered(s, order[..k]));
    GatheredGrows(s, order, k + 1);
    assert Supplies(s, q, t) && q.contact in Gathered(s, order);
  }

  /**
   The member cap: going over it by `m` takes `m` tasks beyond those that filled it, so the
   total never exceeds the cap plus one per task, and sixteen with the shipped sizes.
   */
  lemma {:induction false} MembersStayNearTheCap(s: Supply, order: seq<TaskId>)
    ensures var m := |Gathered(s, order)|;
            && m <= MAX_MEMBERS + |order|
            && (m <= MAX_MEMBERS ==> m <= MEMBERS_PER_TASK * |order|)
            && (m > MAX_MEMBERS ==> MEMBERS_PER_TASK * (|order| - (m - MAX_MEMBERS)) >= MAX_MEMBERS)
            && (|order| <= N_OUTBOUND_TASKS + N_INBOUND_TASKS + N_INDIRECT_TASKS ==> m <= 16)
  {
    hide Chosen, AddChosen;
    if order != [] {
      MembersStayNearTheCap(s, order[..|order| - 1]);
      AddedMembers(Chosen(s, order[|order| - 1]), Gathered(s, order[..|order| - 1]));
    }
  }

  /** A candidate is passed over only for a full set of choices, each at least as good. */
  lemma ChoicesAreTheBest(s: Supply, t: TaskId, q: Qualification, c: Qualification)
    requires q in Candidates(s, t) && q !in Chosen(s, t) && c in Chosen(s, t)
    ensures |Chosen(s, t)| == 3
    ensures c.contact in s.rostered || (q.contact !in s.rostered)
    ensures (c.contact in s.rostered <==> q.contact in s.rostered) ==> c.rate >= q.rate
  {
    hide SortBy, Candidates;
    var sorted := SortBy(Candidates(s, t), Better(s));
    SortBySorts(Candidates(s, t), Better(s));
    assert q in sorted;
    var j :| 0 <= j < |sorted| && sorted[j] == q;
    var i :| 0 <= i < |Chosen(s, t)| && Chosen(s, t)[i] == c;
    assert sorted[i] == c;
  }

  // ----- the whole selection

  function KeptTasks(ob: Demand, ib: Demand, ind: Demand, s: Supply): set<TaskId> {
    var k1 := Elements(Picked(ob, s, {}, N_OUTBOUND_TASKS));
    var k2 := k1 + Elements(Picked(ib, s, k1, N_INBOUND_TASKS));
    k2 + Elements(Picked(ind, s, k2, N_INDIRECT_TASKS))
  }

  lemma {:induction false} UnionFits<T>(a: set<T>, b: set<T>)
    ensures |a + b| <= |a| + |b|
  {
    if b == {} {
      assert a + b == a;
    } else {
      var x :| x in b;
      UnionFits(a, b - {x});
      OneMoreElement(a + (b - {x}), x);
      assert a + b == a + (b - {x}) + {x};
    }
  }

  lemma PickedTasksHaveSupply(d: Demand, s: Supply, kept: set<TaskId>, n: nat)
    requires ValidDemand(d) && n > 0
    ensures |Elements(Picked(d, s, kept, n))| <= n
    ensures forall t :: t in Elements(Picked(d, s, kept, n)) ==> Candidates(s, t) != []
  {
    hide Picked, Candidates;
    var p := Picked(d, s, kept, n);
    ElementsFit(p);
    PickTakesTheLargestSupplied(d, s, kept, n, 0, 0);
    forall t | t in Elements(p) ensures Candidates(s, t) != [] {
      PickTakesTheLargestSupplied(d, s, kept, n, t, t);
    }
  }

  /**
   The slice is coherent: in whatever order the kept tasks are visited, there are at most
   seven of them, each keeps a qualified, scheduled, positive-rate supplier, and at most
   sixteen members are kept.
   */
  lemma SliceIsCoherent(ob: Demand, ib: Demand, ind: Demand, s: Supply, order: seq<TaskId>)
    requires ValidDemand(ob) && ValidDemand(ib) && ValidDemand(ind)
    requires NoRepeats(order) && Elements(order) == KeptTasks(ob, ib, ind, s)
    ensures |order| <= 7 && |Gathered(s, order)| <= 16
    ensures forall t :: t in order ==>
              exists q :: q in s.quals && Supplies(s, q, t) && q.contact in Gathered(s, order)
  {
    hide Picked, Candidates, Gathered;
    var k1 := Elements(Picked(ob, s, {}, N_OUTBOUND_TASKS));
    var p2 := Elements(Picked(ib, s, k1, N_INBOUND_TASKS));
    var p3 := Elements(Picked(ind, s, k1 + p2, N_INDIRECT_TASKS));
    PickedTasksHaveSupply(ob, s, {}, N_OUTBOUND_TASKS);
    PickedTasksHaveSupply(ib, s, k1, N_INBOUND_TASKS);
    PickedTasksHaveSupply(ind, s, k1 + p2, N_INDIRECT_TASKS);
    UnionFits(k1, p2);
    UnionFits(k1 + p2, p3);
    ElementsFit(order);
    MembersStayNearTheCap(s, order);
    forall t | t in order
      ensures exists q :: q in s.quals && Supplies(s, q, t) && q.contact in Gathered(s, order)
    {
      assert t in Elements(order);
      EveryKeptTaskHasAKeptSupplier(s, order, t);
    }
  }

  function AllInFamily(tasks: seq<TaskId>, family: Family): map<TaskId, Family> {
    map t | t in tasks :: family
  }

  lemma NothingTaken(family: Family)
    ensures Elements<TaskId>([]) == {} && AllInFamily([], family) == map[]
  {
  }

  lemma OneMoreTaken(taken: seq<TaskId>, t: TaskId, kept: set<TaskId>, families: map<TaskId, Family>, family: Family)
    ensures kept + Elements(taken + [t]) == kept + Elements(taken) + {t}
    ensures families + AllInFamily(taken + [t], family) == (families + AllInFamily(taken, family))[t := family]
  {
  }

  // ----- the builder object

  /** The sets the script fills in place. */
  class Slice {
    var keepTasks: set<TaskId>
    var familyOf: map<TaskId, Family>
    var keepMembers: set<ContactId>
    var covered: set<TaskId>
    var hourly: map<Bucket, real>

    constructor ()
      ensures keepTasks == {} && familyOf == map[] && keepMembers == {} && covered == {} && hourly == map[]
    {
      keepTasks, familyOf, keepMembers, covered, hourly := {}, map[], {}, {}, map[];
    }

    method Pick(d: Demand, s: Supply, n: nat, family: Family)
      requires ValidDemand(d)
      modifies this`keepTasks, this`familyOf
      ensures keepTasks == old(keepTasks) + Elements(Picked(d, s, old(keepTasks), n))
      ensures familyOf == old(familyOf) + AllInFamily(Picked(d, s, old(keepTasks), n), family)
    {
      hide Ranked, Elements, AllInFamily;
      var ranked := Ranked(d, s);
      NothingTaken(family);
      ghost var goal := Picked(d, s, keepTasks, n);
      ghost var before, was := keepTasks, familyOf;
      var taken: seq<TaskId> := [];
      var i := 0;
      while i < |ranked|
        invariant i <= |ranked|
        invariant goal == Taken(ranked[i..], keepTasks, n, taken)
        invariant keepTasks == before + Elements(taken)
        invariant familyOf == was + AllInFamily(taken, family)
      {
        assert ranked[i..][1..] == ranked[i + 1..];
        if ranked[i] !in keepTasks {
          OneMoreTaken(taken, ranked[i], before, was, family);
          keepTasks := keepTasks + {ranked[i]};
          familyOf := familyOf[ranked[i] := family];
          taken := taken + [ranked[i]];
          if |taken| >= n {
            return;
          }
        }
        i := i + 1;
      }
    }

    method GatherMembers(s: Supply, order: seq<TaskId>)
      requires keepMembers == {} && covered == {} && NoRepeats(order)
      modifies this`keepMembers, this`covered
      ensures keepMembers == Gathered(s, order)
      ensures covered == set t | t in order && Chosen(s, t) != []
    {
      hide Chosen, AddChosen;
      for i := 0 to |order|
        invariant keepMembers == Gathered(s, order[..i])
        invariant covered == set t | t in order[..i] && Chosen(s, t) != []
      {
        var t := order[i];
        assert order[..i + 1] == order[..i] + [t] && t !in order[..i];
        AddOneTask(s, t);
      }
      assert order[..|order|] == order;
    }

    method AddOneTask(s: Supply, t: TaskId)
      requires t !in covered
      modifies this`keepMembers, this`covered
      ensures keepMembers == AddChosen(Chosen(s, t), old(keepMembers), false).0
      ensures covered == old(covered) + if Chosen(s, t) != [] then {t} else {}
    {
      hide Chosen, AddChosen;
      var chosen := Chosen(s, t);
      NoneIsAdded(old(keepMembers));
      for j := 0 to |chosen|
        invariant keepMembers == AddChosen(chosen[..j], old(keepMembers), false).0
        invariant t in covered <==> AddChosen(chosen[..j], old(keepMembers), false).1
        invariant covered == old(covered) || covered == old(covered) + {t}
      {
        assert chosen[..j + 1] == chosen[..j] + [chosen[j]];
        OneIsAdded(chosen[..j], chosen[j], old(keepMembers));
        var cid := chosen[j].contact;
        if |keepMembers| < MAX_MEMBERS || cid in keepMembers || t !in covered {
          keepMembers := keepMembers + {cid};
          covered := covered + {t};
        }
      }
      assert chosen[..|chosen|] == chosen;
      FirstChoiceIsAdded(chosen, old(keepMembers));
    }

    method AggregateOutbound(rows: seq<Row>, h: Horizon, scale: real)
      requires hourly == map[]
      modifies this`hourly
      ensures hourly == Hourly(rows, keepTasks, h, scale)
    {
      hide Times;
      for i := 0 to |rows|
        invariant hourly == Hourly(rows[..i], keepTasks, h, scale)
      {
        assert rows[..i + 1][..i] == rows[..i] && rows[..i + 1][i] == rows[i];
        if Emitted(rows[i], keepTasks, h) {
          var key := BucketOf(rows[i]);
          hourly := AddTo(hourly, key, Times(scale, rows[i].volume));
        }
      }
      assert rows[..|rows|] == rows;
    }
  }

  // ----- outbound rows

  datatype Bucket = Bucket(task: TaskId, area: nat, hour: nat)

  predicate InHorizon(r: Row, h: Horizon) {
    r.start.Some? && h.first <= r.start.value < h.end
  }

  /** Rows the aggregation writes out. */
  predicate Emitted(r: Row, kept: set<TaskId>, h: Horizon) {
    r.task in kept && InHorizon(r, h)
  }

  /** Rows the volume count looked at: also the end must parse and the volume be positive. */
  predicate Measured(r: Row, h: Horizon) {
    InHorizon(r, h) && r.endParses && r.volume > 0.0
  }

  function BucketOf(r: Row): Bucket
    requires r.start.Some?
  {
    Bucket(r.task, r.area, r.start.value / 60)
  }

  function Times(scale: real, v: real): real {
    scale * v
  }

  lemma TimesAdds(scale: real, a: real, b: real)
    ensures Times(scale, a + b) == Times(scale, a) + Times(scale, b) && Times(scale, 0.0) == 0.0
  {
  }

  /** `d[k] += v` on a dictionary whose missing entries count as zero. */
  function AddTo<K>(m: map<K, real>, k: K, v: real): map<K, real> {
    m[k := (if k in m then m[k] else 0.0) + v]
  }

  function Hourly(rows: seq<Row>, kept: set<TaskId>, h: Horizon, scale: real): map<Bucket, real> {
    if rows == [] then map[]
    else
      var m := Hourly(rows[..|rows| - 1], kept, h, scale);
      var r := rows[|rows| - 1];
      if !Emitted(r, kept, h) then m
      else AddTo(m, BucketOf(r), Times(scale, r.volume))
  }

  function Total(rows: seq<Row>, p: Row -> bool): real {
    if rows == [] then 0.0
    else Total(rows[..|rows| - 1], p) + (if p(rows[|rows| - 1]) then rows[|rows| - 1].volume else 0.0)
  }

  function InBucket(kept: set<TaskId>, h: Horizon, b: Bucket): Row -> bool {
    (r: Row) => Emitted(r, kept, h) && BucketOf(r) == b
  }

  /** Each hourly band holds exactly the scaled volume of the rows that start in that hour. */
  lemma {:induction false} EachBucketConservesItsRows(rows: seq<Row>, kept: set<TaskId>, h: Horizon, scale: real,
                                                      b: Bucket)
    ensures var m := Hourly(rows, kept, h, scale);
            && (b in m ==> m[b] == Times(scale, Total(rows, InBucket(kept, h, b))))
            && (b !in m ==> Total(rows, InBucket(kept, h, b)) == 0.0)
  {
    hide Times;
    if rows != [] {
      EachBucketConservesItsRows(rows[..|rows| - 1], kept, h, scale, b);
      TimesAdds(scale, Total(rows[..|rows| - 1], InBucket(kept, h, b)), rows[|rows| - 1].volume);
    }
  }

  /** The sum of a finite map's values. */
  ghost function SumOf<K>(m: map<K, real>): real {
    if m == map[] then 0.0
    else
      var k :| k in m;
      m[k] + SumOf(m - {k})
  }

  lemma {:induction false} SumOfAnyKey<K>(m: map<K, real>, k: K)
    requires k in m
    ensures SumOf(m) == m[k] + SumOf(m - {k})
    decreases |m|
  {
    var j :| j in m && SumOf(m) == m[j] + SumOf(m - {j});
    if j != k {
      SumOfAnyKey(m - {j}, k);
      SumOfAnyKey(m - {k}, j);
      assert m - {j} - {k} == m - {k} - {j};
    }
  }

  lemma AddingToABucket<K>(m: map<K, real>, k: K, v: real)
    ensures SumOf(AddTo(m, k, v)) == SumOf(m) + v
  {
    var n := AddTo(m, k, v);
    SumOfAnyKey(n, k);
    assert n - {k} == m - {k};
    if k in m {
      SumOfAnyKey(m, k);
    } else {
      assert m - {k} == m;
    }
  }

  function IsEmitted(kept: set<TaskId>, h: Horizon): Row -> bool {
    (r: Row) => Emitted(r, kept, h)
  }

  /** Hourly bucketing loses and invents nothing: the bands add up to the scaled volume of the kept rows. */
  lemma {:induction false} BucketingConservesVolume(rows: seq<Row>, kept: set<TaskId>, h: Horizon, scale: real)
    ensures SumOf(Hourly(rows, kept, h, scale)) == Times(scale, Total(rows, IsEmitted(kept, h)))
  {
    hide Times, AddTo, SumOf;
    SumOfNothing();
    TimesAdds(scale, 0.0, 0.0);
    if rows != [] {
      var front, r := rows[..|rows| - 1], rows[|rows| - 1];
      BucketingConservesVolume(front, kept, h, scale);
      if Emitted(r, kept, h) {
        AddingToABucket(Hourly(front, kept, h, scale), BucketOf(r), Times(scale, r.volume));
        TimesAdds(scale, Total(front, IsEmitted(kept, h)), r.volume);
      }
    }
  }

  lemma SumOfNothing()
    ensures SumOf<Bucket>(map[]) == 0.0
  {
  }

  function IsMeasured(kept: set<TaskId>, h: Horizon): Row -> bool {
    (r: Row) => r.task in kept && Measured(r, h)
  }

  /** Rows written out although the volume count ignored them. */
  function IsUnmeasured(kept: set<TaskId>, h: Horizon): Row -> bool {
    (r: Row) => Emitted(r, kept, h) && !Measured(r, h)
  }

  lemma {:induction false} EmittedSplits(rows: seq<Row>, kept: set<TaskId>, h: Horizon)
    ensures Total(rows, IsEmitted(kept, h)) == Total(rows, IsMeasured(kept, h)) + Total(rows, IsUnmeasured(kept, h))
  {
    if rows != [] {
      EmittedSplits(rows[..|rows| - 1], kept, h);
    }
  }

  /**
   The volume written out is the volume the scale was computed from if and only if the rows
   the count ignored add up to nothing. The count also skips rows whose end does not parse
   and rows without positive volume; the aggregation does not.
   */
  lemma EmittedMatchesMeasuredIff(rows: seq<Row>, kept: set<TaskId>, h: Horizon, scale: real)
    requires scale > 0.0
    ensures SumOf(Hourly(rows, kept, h, scale)) == Times(scale, Total(rows, IsMeasured(kept, h)))
            <==> Total(rows, IsUnmeasured(kept, h)) == 0.0
  {
    hide SumOf, Hourly, Times;
    BucketingConservesVolume(rows, kept, h, scale);
    EmittedSplits(rows, kept, h);
    var a, b := Total(rows, IsMeasured(kept, h)), Total(rows, IsUnmeasured(kept, h));
    TimesAdds(scale, a, b);
    TimesIsZeroIff(scale, b);
  }

  lemma TimesIsZeroIff(scale: real, v: real)
    requires scale > 0.0
    ensures Times(scale, v) == 0.0 <==> v == 0.0
  {
  }

  // ----- counting demand

  /** Measured volume per task, in the order the tasks were first met. */
  function DemandOf(rows: seq<Row>, h: Horizon): Demand {
    if rows == [] then Demand([], map[])
    else
      var d, r := DemandOf(rows[..|rows| - 1], h), rows[|rows| - 1];
      if !Measured(r, h) then d
      else Demand(if r.task in d.amount then d.order else d.order + [r.task], AddTo(d.amount, r.task, r.volume))
  }

  method CountDemand(rows: seq<Row>, h: Horizon) returns (d: Demand)
    ensures d == DemandOf(rows, h)
  {
    d := Demand([], map[]);
    for i := 0 to |rows|
      invariant d == DemandOf(rows[..i], h)
    {
      assert rows[..i + 1][..i] == rows[..i];
      if Measured(rows[i], h) {
        d := Demand(if rows[i].task in d.amount then d.order else d.order + [rows[i].task],
                    AddTo(d.amount, rows[i].task, rows[i].volume));
      }
    }
    assert rows[..|rows|] == rows;
  }

  function MeasuredFor(h: Horizon, t: TaskId): Row -> bool {
    (r: Row) => r.task == t && Measured(r, h)
  }

  /** The count is a proper demand: each task's amount is its measured volume, and positive where listed. */
  lemma {:induction false} DemandIsMeasured(rows: seq<Row>, h: Horizon, t: TaskId)
    ensures var d := DemandOf(rows, h);
            && ValidDemand(d)
            && AmountOf(d, t) == Total(rows, MeasuredFor(h, t))
            && (t in d.amount ==> d.amount[t] > 0.0)
  {
    if rows != [] {
      var front, r := rows[..|rows| - 1], rows[|rows| - 1];
      DemandIsMeasured(front, h, t);
      DemandIsMeasured(front, h, r.task);
      var d := DemandOf(front, h);
      if Measured(r, h) {
        OrderGrows(d, r.task);
      }
    }
  }

  lemma OrderGrows(d: Demand, t: TaskId)
    requires ValidDemand(d)
    ensures t !in d.amount ==> NoRepeats(d.order + [t])
    ensures Elements(d.order + [t]) == d.amount.Keys + {t}
    ensures t in d.amount ==> d.amount.Keys + {t} == d.amount.Keys
  {
    assert t in d.order <==> t in Elements(d.order);
  }

  // ----- the week as a whole

  predicate Overlaps(w: Window, h: Horizon) {
    w.start.Some? && w.end.Some? && w.start.value < h.end && w.end.value > h.first
  }

  function ContactsOf(windows: seq<Window>, h: Horizon): set<ContactId> {
    set w | w in windows && Overlaps(w, h) :: w.contact
  }

  function SupplyOf(w: Week): Supply {
    Supply(w.quals, ContactsOf(w.rosters, w.horizon), ContactsOf(w.availability, w.horizon))
  }

  /** The tasks of an inbound window as rows of their own. */
  function Entries(i: Inbound): seq<Row> {
    seq(|i.tasks|, k requires 0 <= k < |i.tasks| => Row(i.tasks[k].0, 0, i.start, true, i.tasks[k].1))
  }

  function AllEntries(inbound: seq<Inbound>): seq<Row> {
    if inbound == [] then [] else AllEntries(inbound[..|inbound| - 1]) + Entries(inbound[|inbound| - 1])
  }

  function OutboundDemand(w: Week): Demand {
    DemandOf(w.outbound, w.horizon)
  }

  function InboundDemand(w: Week): Demand {
    DemandOf(AllEntries(w.inbound), w.horizon)
  }

  /** The tasks the script keeps. */
  function KeptOf(w: Week): set<TaskId> {
    KeptTasks(OutboundDemand(w), InboundDemand(w), DemandOf(w.indirect, w.horizon), SupplyOf(w))
  }

  /** A visiting order of the kept tasks. */
  ghost predicate Visits(w: Week, order: seq<TaskId>) {
    NoRepeats(order) && Elements(order) == KeptOf(w)
  }

  /** A window of the contact that starts before the horizon ends and ends after it starts. */
  ghost predicate Works(windows: seq<Window>, c: ContactId, h: Horizon) {
    exists i :: 0 <= i < |windows| && windows[i].contact == c && windows[i].start.Some? && windows[i].end.Some?
                && windows[i].start.value < h.end && h.first < windows[i].end.value
  }

  lemma WorksIff(windows: seq<Window>, c: ContactId, h: Horizon)
    ensures c in ContactsOf(windows, h) <==> Works(windows, c, h)
  {
    if c in ContactsOf(windows, h) {
      var w :| w in windows && Overlaps(w, h) && w.contact == c;
      var i :| 0 <= i < |windows| && windows[i] == w;
    }
  }

  /** A task's candidates are its qualifications at a positive rate whose member works in the horizon. */
  lemma CandidatesAre(w: Week, t: TaskId, q: Qualification)
    ensures q in Candidates(SupplyOf(w), t) <==>
              && q in w.quals && q.task == t && q.rate > 0.0
              && (Works(w.rosters, q.contact, w.horizon) || Works(w.availability, q.contact, w.horizon))
  {
    hide ContactsOf, Works;
    KeepIsExact(w.quals, SupplyOf(w), t, q);
    WorksIff(w.rosters, q.contact, w.horizon);
    WorksIff(w.availability, q.contact, w.horizon);
  }

  /** The slice cut from any week is coherent. */
  lemma SliceOfAWeekIsCoherent(w: Week, order: seq<TaskId>)
    requires Visits(w, order)
    ensures var s := SupplyOf(w);
            && |order| <= 7 && |Gathered(s, order)| <= 16
            && forall t :: t in order ==>
                 exists q :: q in Candidates(s, t) && q.contact in Gathered(s, order)
  {
    hide KeptTasks, DemandOf, Gathered;
    DemandIsMeasured(w.outbound, w.horizon, 0);
    DemandIsMeasured(AllEntries(w.inbound), w.horizon, 0);
    DemandIsMeasured(w.indirect, w.horizon, 0);
    SliceIsCoherent(OutboundDemand(w), InboundDemand(w), DemandOf(w.indirect, w.horizon), SupplyOf(w), order);
    forall t, q | q in w.quals && Supplies(SupplyOf(w), q, t) ensures q in Candidates(SupplyOf(w), t) {
      KeepIsExact(w.quals, SupplyOf(w), t, q);
    }
  }

  // ----- capacity

  function Min(a: real, b: real): real {
    if a <= b then a else b
  }

  function Max(a: real, b: real): real {
    if a >= b then a else b
  }

  /** Hours of a window inside the horizon. */
  function Inside(w: Window, h: Horizon): real
    requires Overlaps(w, h)
  {
    var first := if h.first >= w.start.value then h.first else w.start.value;
    var end := if h.end <= w.end.value then h.end else w.end.value;
    if end > first then (end - first) as real / 60.0 else 0.0
  }

  function WindowHours(windows: seq<Window>, c: ContactId, h: Horizon): real {
    if windows == [] then 0.0
    else
      var w := windows[|windows| - 1];
      WindowHours(windows[..|windows| - 1], c, h) + (if w.contact == c && Overlaps(w, h) then Inside(w, h) else 0.0)
  }

  /** Hours a member can deliver: rostered, or available when not rostered at all, capped at the weekly limit. */
  function Deliverable(w: Week, c: ContactId): real {
    var rostered := WindowHours(w.rosters, c, w.horizon);
    Min(MAX_HOURS_PER_WEEK, if rostered == 0.0 then WindowHours(w.availability, c, w.horizon) else rostered)
  }

  function HoursByMember(w: Week, members: set<ContactId>): map<ContactId, real> {
    map c | c in members :: Deliverable(w, c)
  }

  /** Capacity of the kept members, never below one hour. */
  ghost function Capacity(w: Week, members: set<ContactId>): (c: real)
    ensures c >= 1.0
  {
    Max(1.0, SumOf(HoursByMember(w, members)))
  }

  method MeasureCapacity(w: Week, members: set<ContactId>) returns (c: real)
    ensures c == Capacity(w, members)
  {
    hide Deliverable, SumOf;
    var total, left := 0.0, members;
    NoHours(w);
    while left != {}
      invariant left <= members
      invariant total == SumOf(HoursByMember(w, members - left))
      decreases left
    {
      var m :| m in left;
      ghost var done := HoursByMember(w, members - left);
      AddingToABucket(done, m, Deliverable(w, m));
      left := left - {m};
      assert HoursByMember(w, members - left) == AddTo(done, m, Deliverable(w, m));
      total := total + Deliverable(w, m);
    }
    assert members - left == members;
    c := Max(1.0, total);
  }

  lemma NoHours(w: Week)
    ensures forall members: set<ContactId> :: SumOf(HoursByMember(w, members - members)) == 0.0
  {
    forall members: set<ContactId> ensures SumOf(HoursByMember(w, members - members)) == 0.0 {
      assert HoursByMember(w, members - members) == map[];
    }
  }

  // ----- hours of work

  function RatesOf(quals: seq<Qualification>, members: set<ContactId>, t: TaskId): (r: seq<real>)
    ensures forall i :: 0 <= i < |r| ==> r[i] > 0.0
  {
    if quals == [] then []
    else
      var q := quals[|quals| - 1];
      RatesOf(quals[..|quals| - 1], members, t) +
      (if q.task == t && q.contact in members && q.rate > 0.0 then [q.rate] else [])
  }

  function SumRates(rates: seq<real>): (r: real)
    requires forall i :: 0 <= i < |rates| ==> rates[i] > 0.0
    ensures r >= 0.0 && (rates != [] ==> r > 0.0)
  {
    if rates == [] then 0.0 else SumRates(rates[..|rates| - 1]) + rates[|rates| - 1]
  }

  /** Mean positive rate of a task's kept members, or a default; never zero, so it can divide. */
  function ReferenceRate(quals: seq<Qualification>, members: set<ContactId>, t: TaskId): (r: real)
    ensures r > 0.0
  {
    var rates := RatesOf(quals, members, t);
    if rates == [] then 100.0 else SumRates(rates) / |rates| as real
  }

  /** Units per hour of each task, once the members are chosen. */
  function RateIn(w: Week, order: seq<TaskId>): TaskId -> real {
    (t: TaskId) => ReferenceRate(w.quals, Gathered(SupplyOf(w), order), t)
  }

  /** Hours for a volume at a rate. */
  function Per(v: real, r: real): real
    requires r > 0.0
  {
    v / r
  }

  lemma PerLaws(k: real, a: real, b: real, r: real)
    requires r > 0.0
    ensures Per(a + b, r) == Per(a, r) + Per(b, r) && Per(0.0, r) == 0.0
    ensures Per(Times(k, a), r) == Times(k, Per(a, r))
    ensures (a > 0.0 ==> Per(a, r) > 0.0) && (a <= 0.0 ==> Per(a, r) <= 0.0)
  {
    assert (a + b) / r == a / r + b / r;
    assert k * a / r == k * (a / r);
    assert a / r * r == a;
  }

  /** Hours of the rows that satisfy `p`. */
  function HoursOf(rows: seq<Row>, p: Row -> bool, rate: TaskId -> real): real
    requires forall t :: rate(t) > 0.0
  {
    if rows == [] then 0.0
    else
      var r := rows[|rows| - 1];
      HoursOf(rows[..|rows| - 1], p, rate) + (if p(r) then Per(r.volume, rate(r.task)) else 0.0)
  }

  /** Hours for the counted demand of the listed tasks. */
  function TaskHours(tasks: seq<TaskId>, d: Demand, rate: TaskId -> real): real
    requires forall t :: rate(t) > 0.0
  {
    if tasks == [] then 0.0
    else
      var t := tasks[|tasks| - 1];
      TaskHours(tasks[..|tasks| - 1], d, rate) + Per(AmountOf(d, t), rate(t))
  }

  lemma {:induction false} OneMoreCounted(tasks: seq<TaskId>, d: Demand, e: Demand, rate: TaskId -> real, x: TaskId, v: real)
    requires NoRepeats(tasks) && forall t :: rate(t) > 0.0
    requires forall t :: AmountOf(e, t) == AmountOf(d, t) + if t == x then v else 0.0
    ensures TaskHours(tasks, e, rate) == TaskHours(tasks, d, rate) + if x in tasks then Per(v, rate(x)) else 0.0
  {
    hide Per, AmountOf;
    if tasks != [] {
      var front, t := tasks[..|tasks| - 1], tasks[|tasks| - 1];
      OneMoreCounted(front, d, e, rate, x, v);
      PerLaws(1.0, AmountOf(d, t), v, rate(t));
      assert tasks == front + [t] && t !in front;
    }
  }

  /** Summed task by task or row by row, the counted hours are the same. */
  lemma {:induction false} TaskHoursCountTheRows(rows: seq<Row>, h: Horizon, tasks: seq<TaskId>, rate: TaskId -> real)
    requires NoRepeats(tasks) && forall t :: rate(t) > 0.0
    ensures TaskHours(tasks, DemandOf(rows, h), rate) == HoursOf(rows, IsMeasured(Elements(tasks), h), rate)
  {
    hide Per, TaskHours;
    if rows == [] {
      NoTaskHours(tasks, rate);
    } else {
      var front, r := rows[..|rows| - 1], rows[|rows| - 1];
      TaskHoursCountTheRows(front, h, tasks, rate);
      if Measured(r, h) {
        OneMoreCounted(tasks, DemandOf(front, h), DemandOf(rows, h), rate, r.task, r.volume);
      }
    }
  }

  lemma {:induction false} NoTaskHours(tasks: seq<TaskId>, rate: TaskId -> real)
    requires forall t :: rate(t) > 0.0
    ensures TaskHours(tasks, Demand([], map[]), rate) == 0.0
  {
    if tasks != [] {
      NoTaskHours(tasks[..|tasks| - 1], rate);
      PerLaws(1.0, 0.0, 0.0, rate(tasks[|tasks| - 1]));
    }
  }

  lemma {:induction false} HoursSplit(rows: seq<Row>, p: Row -> bool, q: Row -> bool, a: Row -> bool, b: Row -> bool,
                                      rate: TaskId -> real)
    requires forall t :: rate(t) > 0.0
    requires forall r :: (a(r) <==> p(r) && q(r)) && (b(r) <==> p(r) && !q(r))
    ensures HoursOf(rows, p, rate) == HoursOf(rows, a, rate) + HoursOf(rows, b, rate)
  {
    hide Per;
    if rows != [] {
      HoursSplit(rows[..|rows| - 1], p, q, a, b, rate);
    }
  }

  lemma {:induction false} HoursAgree(rows: seq<Row>, p: Row -> bool, q: Row -> bool, rate: TaskId -> real)
    requires forall t :: rate(t) > 0.0
    requires forall r :: r in rows ==> p(r) == q(r)
    ensures HoursOf(rows, p, rate) == HoursOf(rows, q, rate)
  {
    hide Per;
    if rows != [] {
      HoursAgree(rows[..|rows| - 1], p, q, rate);
    }
  }

  lemma {:induction false} HoursSign(rows: seq<Row>, p: Row -> bool, rate: TaskId -> real)
    requires forall t :: rate(t) > 0.0
    ensures (forall r :: r in rows && p(r) ==> r.volume > 0.0) ==> HoursOf(rows, p, rate) >= 0.0
    ensures (forall r :: r in rows && p(r) ==> r.volume <= 0.0) ==> HoursOf(rows, p, rate) <= 0.0
  {
    hide Per;
    if rows != [] {
      HoursSign(rows[..|rows| - 1], p, rate);
      var r := rows[|rows| - 1];
      PerLaws(1.0, r.volume, 0.0, rate(r.task));
      assert r in rows;
    }
  }

  lemma {:induction false} HoursConcat(a: seq<Row>, b: seq<Row>, p: Row -> bool, rate: TaskId -> real)
    requires forall t :: rate(t) > 0.0
    ensures HoursOf(a + b, p, rate) == HoursOf(a, p, rate) + HoursOf(b, p, rate)
  {
    hide Per;
    if b == [] {
      assert a + b == a;
    } else {
      assert (a + b)[..|a + b| - 1] == a + b[..|b| - 1];
      HoursConcat(a, b[..|b| - 1], p, rate);
    }
  }

  // ----- what is written out

  /** The band a row falls into holds more than nothing, so it is written. */
  function IsWritten(rows: seq<Row>, kept: set<TaskId>, h: Horizon): Row -> bool {
    (r: Row) => Emitted(r, kept, h) && Total(rows, InBucket(kept, h, BucketOf(r))) > 0.0
  }

  /** Bands with more than nothing in them. */
  function Bands(hourly: map<Bucket, real>): map<Bucket, real> {
    map b | b in hourly && hourly[b] > 0.0 :: hourly[b]
  }

  function BandHours(bands: map<Bucket, real>, rate: TaskId -> real): map<Bucket, real>
    requires forall t :: rate(t) > 0.0
  {
    map b | b in bands :: Per(bands[b], rate(b.task))
  }

  /** The hours of the bands chosen by `full`. */
  function ChosenHours(m: map<Bucket, real>, full: Bucket -> bool, rate: TaskId -> real): map<Bucket, real>
    requires forall t :: rate(t) > 0.0
  {
    map b | b in m && full(b) :: Per(m[b], rate(b.task))
  }

  function IsChosen(kept: set<TaskId>, h: Horizon, full: Bucket -> bool): Row -> bool {
    (r: Row) => Emitted(r, kept, h) && full(BucketOf(r))
  }

  lemma ChosenOneMore(m: map<Bucket, real>, full: Bucket -> bool, rate: TaskId -> real, b: Bucket, v: real)
    requires forall t :: rate(t) > 0.0
    ensures SumOf(ChosenHours(AddTo(m, b, v), full, rate))
         == SumOf(ChosenHours(m, full, rate)) + if full(b) then Per(v, rate(b.task)) else 0.0
  {
    hide Per, SumOf;
    var was, now := ChosenHours(m, full, rate), ChosenHours(AddTo(m, b, v), full, rate);
    if full(b) {
      PerLaws(1.0, if b in m then m[b] else 0.0, v, rate(b.task));
      assert now == AddTo(was, b, Per(v, rate(b.task)));
      AddingToABucket(was, b, Per(v, rate(b.task)));
    } else {
      assert now == was;
    }
  }

  lemma {:induction false} ChosenBandsHoldTheirRows(rows: seq<Row>, kept: set<TaskId>, h: Horizon, scale: real,
                                                    full: Bucket -> bool, rate: TaskId -> real)
    requires forall t :: rate(t) > 0.0
    ensures SumOf(ChosenHours(Hourly(rows, kept, h, scale), full, rate))
         == Times(scale, HoursOf(rows, IsChosen(kept, h, full), rate))
  {
    hide Per, SumOf, Times, AddTo, ChosenHours;
    if rows == [] {
      NoChosenHours(full, rate);
      TimesAdds(scale, 0.0, 0.0);
    } else {
      var front, r := rows[..|rows| - 1], rows[|rows| - 1];
      ChosenBandsHoldTheirRows(front, kept, h, scale, full, rate);
      if Emitted(r, kept, h) {
        ChosenOneMore(Hourly(front, kept, h, scale), full, rate, BucketOf(r), Times(scale, r.volume));
        PerLaws(scale, r.volume, 0.0, rate(r.task));
        TimesAdds(scale, HoursOf(front, IsChosen(kept, h, full), rate), Per(r.volume, rate(r.task)));
      }
    }
  }

  lemma NoChosenHours(full: Bucket -> bool, rate: TaskId -> real)
    requires forall t :: rate(t) > 0.0
    ensures SumOf(ChosenHours(map[], full, rate)) == 0.0
  {
    assert ChosenHours(map[], full, rate) == map[];
  }

  /** The written outbound bands need exactly the scaled hours of the rows in them. */
  lemma WrittenBandsHoldTheirRows(rows: seq<Row>, kept: set<TaskId>, h: Horizon, scale: real, rate: TaskId -> real)
    requires scale > 0.0 && forall t :: rate(t) > 0.0
    ensures SumOf(BandHours(Bands(Hourly(rows, kept, h, scale)), rate))
         == Times(scale, HoursOf(rows, IsWritten(rows, kept, h), rate))
  {
    hide Per, SumOf, Total, Hourly;
    var m := Hourly(rows, kept, h, scale);
    var full := (b: Bucket) => Total(rows, InBucket(kept, h, b)) > 0.0;
    forall b | b in m ensures m[b] > 0.0 <==> full(b) {
      EachBucketConservesItsRows(rows, kept, h, scale, b);
      TimesSign(scale, Total(rows, InBucket(kept, h, b)));
    }
    assert BandHours(Bands(m), rate) == ChosenHours(m, full, rate);
    ChosenBandsHoldTheirRows(rows, kept, h, scale, full, rate);
    HoursAgree(rows, IsChosen(kept, h, full), IsWritten(rows, kept, h), rate);
  }

  lemma TimesSign(scale: real, v: real)
    requires scale > 0.0
    ensures Times(scale, v) > 0.0 <==> v > 0.0
  {
  }

  /** The kept tasks of an inbound window, scaled. */
  function KeptTasksOf(tasks: seq<(TaskId, real)>, kept: set<TaskId>, scale: real): seq<(TaskId, real)> {
    if tasks == [] then []
    else
      var t := tasks[|tasks| - 1];
      KeptTasksOf(tasks[..|tasks| - 1], kept, scale) + (if t.0 in kept then [(t.0, Times(scale, t.1))] else [])
  }

  predicate StartsIn(i: Inbound, h: Horizon) {
    i.start.Some? && h.first <= i.start.value < h.end
  }

  /** Inbound windows of the horizon, pruned to the kept tasks; empty ones are dropped. */
  function WrittenInbound(inbound: seq<Inbound>, kept: set<TaskId>, h: Horizon, scale: real): seq<Inbound> {
    if inbound == [] then []
    else
      var out, i := WrittenInbound(inbound[..|inbound| - 1], kept, h, scale), inbound[|inbound| - 1];
      if !StartsIn(i, h) || KeptTasksOf(i.tasks, kept, scale) == [] then out
      else out + [Inbound(i.start, KeptTasksOf(i.tasks, kept, scale))]
  }

  method WriteInbound(inbound: seq<Inbound>, kept: set<TaskId>, h: Horizon, scale: real) returns (out: seq<Inbound>)
    ensures out == WrittenInbound(inbound, kept, h, scale)
  {
    hide Times;
    out := [];
    for i := 0 to |inbound|
      invariant out == WrittenInbound(inbound[..i], kept, h, scale)
    {
      assert inbound[..i + 1][..i] == inbound[..i];
      if StartsIn(inbound[i], h) {
        var tasks: seq<(TaskId, real)> := [];
        for k := 0 to |inbound[i].tasks|
          invariant tasks == KeptTasksOf(inbound[i].tasks[..k], kept, scale)
        {
          assert inbound[i].tasks[..k + 1][..k] == inbound[i].tasks[..k];
          var t := inbound[i].tasks[k];
          if t.0 in kept {
            tasks := tasks + [(t.0, Times(scale, t.1))];
          }
        }
        assert inbound[i].tasks[..|inbound[i].tasks|] == inbound[i].tasks;
        if tasks != [] {
          out := out + [Inbound(inbound[i].start, tasks)];
        }
      }
    }
    assert inbound[..|inbound|] == inbound;
  }

  function EveryRow(): Row -> bool {
    (r: Row) => true
  }

  lemma {:induction false} KeptTasksHours(start: Option<nat>, tasks: seq<(TaskId, real)>, kept: set<TaskId>, h: Horizon,
                                          scale: real, rate: TaskId -> real)
    requires StartsIn(Inbound(start, tasks), h) && forall t :: rate(t) > 0.0
    ensures HoursOf(Entries(Inbound(start, KeptTasksOf(tasks, kept, scale))), EveryRow(), rate)
         == Times(scale, HoursOf(Entries(Inbound(start, tasks)), IsEmitted(kept, h), rate))
  {
    hide Per, Times;
    TimesAdds(scale, 0.0, 0.0);
    if tasks != [] {
      var front, t := tasks[..|tasks| - 1], tasks[|tasks| - 1];
      KeptTasksHours(start, front, kept, h, scale, rate);
      var all, before := Entries(Inbound(start, tasks)), Entries(Inbound(start, front));
      assert all == before + [Row(t.0, 0, start, true, t.1)] && all[..|all| - 1] == before;
      if t.0 in kept {
        var out := KeptTasksOf(front, kept, scale);
        var now, was := Entries(Inbound(start, KeptTasksOf(tasks, kept, scale))), Entries(Inbound(start, out));
        assert now == was + [Row(t.0, 0, start, true, Times(scale, t.1))] && now[..|now| - 1] == was;
        PerLaws(scale, t.1, 0.0, rate(t.0));
        TimesAdds(scale, HoursOf(before, IsEmitted(kept, h), rate), Per(t.1, rate(t.0)));
      } else {
        assert KeptTasksOf(tasks, kept, scale) == KeptTasksOf(front, kept, scale);
      }
    }
  }

  /** The written inbound windows need exactly the scaled hours of the kept entries. */
  lemma {:induction false} WrittenInboundHours(inbound: seq<Inbound>, kept: set<TaskId>, h: Horizon, scale: real,
                                               rate: TaskId -> real)
    requires forall t :: rate(t) > 0.0
    ensures HoursOf(AllEntries(WrittenInbound(inbound, kept, h, scale)), EveryRow(), rate)
         == Times(scale, HoursOf(AllEntries(inbound), IsEmitted(kept, h), rate))
  {
    hide Per, Times, HoursOf, KeptTasksOf, Entries, Emitted, AllEntries, WrittenInbound;
    TimesAdds(scale, 0.0, 0.0);
    NoHoursOfNothing(IsEmitted(kept, h), rate);
    NoHoursOfNothing(EveryRow(), rate);
    if inbound == [] {
      NoInbound(kept, h, scale);
    } else {
      var front, i := inbound[..|inbound| - 1], inbound[|inbound| - 1];
      assert inbound == front + [i];
      WrittenInboundHours(front, kept, h, scale, rate);
      InboundSplits(front, i, kept, h, scale);
      HoursConcat(AllEntries(front), Entries(i), IsEmitted(kept, h), rate);
      TimesAdds(scale, HoursOf(AllEntries(front), IsEmitted(kept, h), rate), HoursOf(Entries(i), IsEmitted(kept, h), rate));
      OneWindowHours(i, kept, h, scale, rate);
      var out, tasks := WrittenInbound(front, kept, h, scale), KeptTasksOf(i.tasks, kept, scale);
      if StartsIn(i, h) && tasks != [] {
        EntriesSplit(out, Inbound(i.start, tasks));
        HoursConcat(AllEntries(out), Entries(Inbound(i.start, tasks)), EveryRow(), rate);
      }
    }
  }

  lemma NoInbound(kept: set<TaskId>, h: Horizon, scale: real)
    ensures AllEntries([]) == [] && WrittenInbound([], kept, h, scale) == []
  {
  }

  lemma EntriesSplit(inbound: seq<Inbound>, i: Inbound)
    ensures AllEntries(inbound + [i]) == AllEntries(inbound) + Entries(i)
  {
    hide Entries;
    assert (inbound + [i])[..|inbound|] == inbound;
  }

  lemma InboundSplits(inbound: seq<Inbound>, i: Inbound, kept: set<TaskId>, h: Horizon, scale: real)
    ensures AllEntries(inbound + [i]) == AllEntries(inbound) + Entries(i)
    ensures var out, tasks := WrittenInbound(inbound, kept, h, scale), KeptTasksOf(i.tasks, kept, scale);
            WrittenInbound(inbound + [i], kept, h, scale) ==
            if StartsIn(i, h) && tasks != [] then out + [Inbound(i.start, tasks)] else out
  {
    hide Entries, KeptTasksOf;
    EntriesSplit(inbound, i);
    assert (inbound + [i])[..|inbound|] == inbound;
  }

  lemma OneWindowHours(i: Inbound, kept: set<TaskId>, h: Horizon, scale: real, rate: TaskId -> real)
    requires forall t :: rate(t) > 0.0
    ensures var tasks := KeptTasksOf(i.tasks, kept, scale);
            Times(scale, HoursOf(Entries(i), IsEmitted(kept, h), rate)) ==
            if StartsIn(i, h) && tasks != [] then HoursOf(Entries(Inbound(i.start, tasks)), EveryRow(), rate) else 0.0
  {
    hide Per, Times, HoursOf, KeptTasksOf;
    TimesAdds(scale, 0.0, 0.0);
    NoHoursOfNothing(EveryRow(), rate);
    if StartsIn(i, h) {
      KeptTasksHours(i.start, i.tasks, kept, h, scale, rate);
      assert i == Inbound(i.start, i.tasks);
      assert Entries(Inbound(i.start, [])) == [];
    } else {
      NoneHours(Entries(i), IsEmitted(kept, h), rate);
    }
  }

  lemma NoHoursOfNothing(p: Row -> bool, rate: TaskId -> real)
    requires forall t :: rate(t) > 0.0
    ensures HoursOf([], p, rate) == 0.0
  {
  }

  lemma {:induction false} NoneHours(rows: seq<Row>, p: Row -> bool, rate: TaskId -> real)
    requires (forall t :: rate(t) > 0.0) && forall r :: r in rows ==> !p(r)
    ensures HoursOf(rows, p, rate) == 0.0
  {
    if rows != [] {
      NoneHours(rows[..|rows| - 1], p, rate);
    }
  }

  // ----- the load

  /** `required_h`: hours for what was counted of the kept tasks, at the kept members' rates. */
  function RequiredHours(w: Week, order: seq<TaskId>): real {
    TaskHours(order, OutboundDemand(w), RateIn(w, order)) + TaskHours(order, InboundDemand(w), RateIn(w, order))
  }

  ghost function CapacityOf(w: Week, order: seq<TaskId>): (c: real)
    ensures c >= 1.0
  {
    Capacity(w, Gathered(SupplyOf(w), order))
  }

  function DemandScale(required: real, capacity: real): real {
    if required > 0.0 then Min(1.0, capacity * DEMAND_LOAD / required) else 1.0
  }

  ghost function ScaleOf(w: Week, order: seq<TaskId>): real {
    DemandScale(RequiredHours(w, order), CapacityOf(w, order))
  }

  /** The most hours the scaled instance is meant to ask for. */
  ghost function Load(w: Week, order: seq<TaskId>): real {
    DEMAND_LOAD * CapacityOf(w, order)
  }

  /** Hours the written instance asks for: its outbound bands and its inbound windows. */
  ghost function WrittenHours(w: Week, order: seq<TaskId>): real {
    var kept, rate, scale := Elements(order), RateIn(w, order), ScaleOf(w, order);
    SumOf(BandHours(Bands(Hourly(w.outbound, kept, w.horizon, scale)), rate))
    + HoursOf(AllEntries(WrittenInbound(w.inbound, kept, w.horizon, scale)), EveryRow(), rate)
  }

  function WrittenUncounted(rows: seq<Row>, kept: set<TaskId>, h: Horizon): Row -> bool {
    (r: Row) => IsWritten(rows, kept, h)(r) && !Measured(r, h)
  }

  function CountedUnwritten(rows: seq<Row>, kept: set<TaskId>, h: Horizon): Row -> bool {
    (r: Row) => IsMeasured(kept, h)(r) && !IsWritten(rows, kept, h)(r)
  }

  /** Hours written without having been counted, less those counted and not written. */
  function Surplus(w: Week, order: seq<TaskId>): real {
    var kept, h, rate := Elements(order), w.horizon, RateIn(w, order);
    HoursOf(w.outbound, WrittenUncounted(w.outbound, kept, h), rate)
    + HoursOf(AllEntries(w.inbound), IsUnmeasured(kept, h), rate)
    - HoursOf(w.outbound, CountedUnwritten(w.outbound, kept, h), rate)
  }

  lemma ScaleTimesRequired(required: real, capacity: real)
    requires capacity >= 1.0 && required >= 0.0
    ensures var k := DemandScale(required, capacity);
            0.0 < k <= 1.0 && Times(k, required) == Min(required, DEMAND_LOAD * capacity)
  {
    if required > 0.0 {
      var full := capacity * DEMAND_LOAD / required;
      assert full * required == capacity * DEMAND_LOAD;
      if full >= 1.0 {
        assert full * required >= 1.0 * required;
      } else {
        assert full * required <= 1.0 * required;
      }
      assert full > 0.0;
    }
  }

  lemma RequiredIsCounted(w: Week, order: seq<TaskId>)
    requires NoRepeats(order)
    ensures var kept, h, rate := Elements(order), w.horizon, RateIn(w, order);
            && RequiredHours(w, order) == HoursOf(w.outbound, IsMeasured(kept, h), rate)
                                        + HoursOf(AllEntries(w.inbound), IsMeasured(kept, h), rate)
            && RequiredHours(w, order) >= 0.0
  {
    hide TaskHours, DemandOf, HoursOf, ReferenceRate, Gathered;
    var kept, h, rate := Elements(order), w.horizon, RateIn(w, order);
    TaskHoursCountTheRows(w.outbound, h, order, rate);
    TaskHoursCountTheRows(AllEntries(w.inbound), h, order, rate);
    HoursSign(w.outbound, IsMeasured(kept, h), rate);
    HoursSign(AllEntries(w.inbound), IsMeasured(kept, h), rate);
  }

  /** What was counted is scaled to the lesser of itself and the load. */
  lemma ScaledDemandMeetsTheLoad(w: Week, order: seq<TaskId>)
    requires Visits(w, order)
    ensures 0.0 < ScaleOf(w, order) <= 1.0
    ensures Times(ScaleOf(w, order), RequiredHours(w, order)) == Min(RequiredHours(w, order), Load(w, order))
  {
    hide RequiredHours, CapacityOf, DemandScale;
    RequiredIsCounted(w, order);
    ScaleTimesRequired(RequiredHours(w, order), CapacityOf(w, order));
  }

  /** The written instance asks for the scaled hours of what was counted and of the surplus. */
  lemma WrittenHoursAreScaled(w: Week, order: seq<TaskId>)
    requires Visits(w, order)
    ensures WrittenHours(w, order) == Times(ScaleOf(w, order), RequiredHours(w, order) + Surplus(w, order))
  {
    hide HoursOf, SumOf, ScaleOf, RequiredHours, Times, Hourly, WrittenInbound, AllEntries, ReferenceRate, Gathered, Total;
    var kept, h, rate, scale := Elements(order), w.horizon, RateIn(w, order), ScaleOf(w, order);
    ScaledDemandMeetsTheLoad(w, order);
    RequiredIsCounted(w, order);
    WrittenBandsHoldTheirRows(w.outbound, kept, h, scale, rate);
    WrittenInboundHours(w.inbound, kept, h, scale, rate);
    var entries, written := AllEntries(w.inbound), IsWritten(w.outbound, kept, h);
    var both := (r: Row) => IsMeasured(kept, h)(r) && written(r);
    HoursSplit(w.outbound, written, IsMeasured(kept, h), both, WrittenUncounted(w.outbound, kept, h), rate);
    HoursSplit(w.outbound, IsMeasured(kept, h), written, both, CountedUnwritten(w.outbound, kept, h), rate);
    HoursSplit(entries, IsEmitted(kept, h), IsMeasured(kept, h), IsMeasured(kept, h), IsUnmeasured(kept, h), rate);
    TimesAdds(scale, HoursOf(w.outbound, written, rate), HoursOf(entries, IsEmitted(kept, h), rate));
  }

  /**
   The written instance stays within the load if and only if its surplus fits what the counted
   demand leaves free of the load.
   */
  lemma LoadIsMetIff(w: Week, order: seq<TaskId>)
    requires Visits(w, order)
    ensures WrittenHours(w, order) <= Load(w, order)
            <==> Surplus(w, order) <= Max(0.0, Load(w, order) - RequiredHours(w, order))
  {
    hide WrittenHours, RequiredHours, CapacityOf, Surplus, Times, KeptOf, DemandScale, DemandOf;
    WrittenHoursAreScaled(w, order);
    ScaledDemandMeetsTheLoad(w, order);
    RequiredIsCounted(w, order);
    FitsIff(RequiredHours(w, order), CapacityOf(w, order), Surplus(w, order));
  }

  lemma FitsIff(required: real, capacity: real, surplus: real)
    requires capacity >= 1.0 && required >= 0.0
    ensures var load := DEMAND_LOAD * capacity;
            Times(DemandScale(required, capacity), required + surplus) <= load <==> surplus <= Max(0.0, load - required)
  {
    var k, load := DemandScale(required, capacity), DEMAND_LOAD * capacity;
    hide DemandScale, Times;
    ScaleTimesRequired(required, capacity);
    TimesAdds(k, required, surplus);
    if required <= load {
      ScaleIsOne(required, capacity);
    } else {
      TimesSign(k, surplus);
    }
  }

  lemma ScaleIsOne(required: real, capacity: real)
    requires capacity >= 1.0 && 0.0 <= required <= DEMAND_LOAD * capacity
    ensures DemandScale(required, capacity) == 1.0 && forall v :: Times(1.0, v) == v
  {
    if required > 0.0 {
      assert capacity * DEMAND_LOAD / required * required == capacity * DEMAND_LOAD;
    }
  }

  /** If every outbound end of the horizon parses, the load is met. */
  lemma ParsedWeekMeetsTheLoad(w: Week, order: seq<TaskId>)
    requires Visits(w, order)
    requires forall r :: r in w.outbound && InHorizon(r, w.horizon) ==> r.endParses
    ensures WrittenHours(w, order) <= Load(w, order)
  {
    hide WrittenHours, RequiredHours, Load, Visits, Surplus;
    ParsedWeekHasNoSurplus(w, order);
    LoadIsMetIff(w, order);
  }

  lemma ParsedWeekHasNoSurplus(w: Week, order: seq<TaskId>)
    requires forall r :: r in w.outbound && InHorizon(r, w.horizon) ==> r.endParses
    ensures Surplus(w, order) <= 0.0
  {
    hide HoursOf, AllEntries, ReferenceRate, Gathered, Total;
    var kept, h, rate := Elements(order), w.horizon, RateIn(w, order);
    HoursSign(w.outbound, WrittenUncounted(w.outbound, kept, h), rate);
    HoursSign(w.outbound, CountedUnwritten(w.outbound, kept, h), rate);
    EntriesParse(w.inbound);
    HoursSign(AllEntries(w.inbound), IsUnmeasured(kept, h), rate);
    forall r | r in w.outbound && WrittenUncounted(w.outbound, kept, h)(r) ensures r.volume <= 0.0 {
      assert IsWritten(w.outbound, kept, h)(r) && Emitted(r, kept, h);
    }
    forall r | r in w.outbound && CountedUnwritten(w.outbound, kept, h)(r) ensures r.volume > 0.0 {
      assert IsMeasured(kept, h)(r);
    }
    assert forall r :: r in AllEntries(w.inbound) && IsUnmeasured(kept, h)(r) ==> r.volume <= 0.0;
  }

  lemma {:induction false} EntriesParse(inbound: seq<Inbound>)
    ensures forall r :: r in AllEntries(inbound) ==> r.endParses
  {
    if inbound != [] {
      EntriesParse(inbound[..|inbound| - 1]);
    }
  }

  lemma {:induction false} TotalHoldsEachRow(rows: seq<Row>, p: Row -> bool, r: Row)
    requires r in rows && p(r) && forall x :: x in rows && p(x) ==> x.volume > 0.0
    ensures Total(rows, p) >= r.volume
  {
    var front, last := rows[..|rows| - 1], rows[|rows| - 1];
    assert last in rows;
    if r in front {
      TotalHoldsEachRow(front, p, r);
    } else {
      TotalIsNotNegative(front, p);
    }
  }

  lemma {:induction false} TotalIsNotNegative(rows: seq<Row>, p: Row -> bool)
    requires forall x :: x in rows && p(x) ==> x.volume > 0.0
    ensures Total(rows, p) >= 0.0
  {
    if rows != [] {
      TotalIsNotNegative(rows[..|rows| - 1], p);
      assert rows[|rows| - 1] in rows;
    }
  }

  /** If every row of the horizon was counted, the written hours are exactly the lesser of the counted ones and the load. */
  lemma CountedWeekIsScaledExactly(w: Week, order: seq<TaskId>)
    requires Visits(w, order)
    requires forall r :: r in w.outbound && InHorizon(r, w.horizon) ==> Measured(r, w.horizon)
    requires forall r :: r in AllEntries(w.inbound) && InHorizon(r, w.horizon) ==> Measured(r, w.horizon)
    ensures WrittenHours(w, order) == Min(RequiredHours(w, order), Load(w, order))
  {
    hide WrittenHours, RequiredHours, Load, Visits, Surplus, ScaleOf, Times;
    CountedWeekHasNoSurplus(w, order);
    WrittenHoursAreScaled(w, order);
    ScaledDemandMeetsTheLoad(w, order);
  }

  lemma CountedWeekHasNoSurplus(w: Week, order: seq<TaskId>)
    requires forall r :: r in w.outbound && InHorizon(r, w.horizon) ==> Measured(r, w.horizon)
    requires forall r :: r in AllEntries(w.inbound) && InHorizon(r, w.horizon) ==> Measured(r, w.horizon)
    ensures Surplus(w, order) == 0.0
  {
    hide HoursOf, AllEntries, ReferenceRate, Gathered, Total;
    var kept, h, rate := Elements(order), w.horizon, RateIn(w, order);
    forall r | r in w.outbound ensures !WrittenUncounted(w.outbound, kept, h)(r) {
      assert IsWritten(w.outbound, kept, h)(r) ==> Emitted(r, kept, h);
    }
    forall r | r in w.outbound ensures !CountedUnwritten(w.outbound, kept, h)(r) {
      if IsMeasured(kept, h)(r) {
        assert Emitted(r, kept, h);
        TotalHoldsEachRow(w.outbound, InBucket(kept, h, BucketOf(r)), r);
        assert IsWritten(w.outbound, kept, h)(r);
      }
    }
    NoneHours(w.outbound, WrittenUncounted(w.outbound, kept, h), rate);
    NoneHours(w.outbound, CountedUnwritten(w.outbound, kept, h), rate);
    NoneHours(AllEntries(w.inbound), IsUnmeasured(kept, h), rate);
  }

  // ----- a week that is written above its load

  /** One task, one member with an hour of roster, a small counted row and a large one whose end does not parse. */
  const OVERLOADED :=
    Week([Row(7, 0, Some(30), true, 1.0), Row(7, 0, Some(30), false, 10000.0)], [], [], [Qualification(7, 1, 100.0)],
         [Window(1, Some(0), Some(60))], [], Horizon(0, 600))

  lemma PicksTheOnlyTask(d: Demand, s: Supply, n: nat, t: TaskId)
    requires ValidDemand(d) && n > 0 && d.amount.Keys == {t} && Candidates(s, t) != []
    ensures Elements(Picked(d, s, {}, n)) == {t}
  {
    hide Picked, Candidates;
    var p := Picked(d, s, {}, n);
    forall u | u in p ensures u == t {
      PickTakesTheLargestSupplied(d, s, {}, n, u, u);
    }
    PickTakesTheLargestSupplied(d, s, {}, n, t, t);
    assert p != [] ==> p[0] in p;
  }

  lemma PicksNothing(s: Supply, kept: set<TaskId>, n: nat)
    requires n > 0
    ensures Elements(Picked(Demand([], map[]), s, kept, n)) == {}
  {
    hide Picked, Candidates;
    var p := Picked(Demand([], map[]), s, kept, n);
    forall u | u in p ensures false {
      PickTakesTheLargestSupplied(Demand([], map[]), s, kept, n, u, u);
    }
  }

  lemma OverloadedDemand()
    ensures var d := OutboundDemand(OVERLOADED); ValidDemand(d) && d.amount.Keys == {7}
    ensures InboundDemand(OVERLOADED) == Demand([], map[])
    ensures DemandOf(OVERLOADED.indirect, OVERLOADED.horizon) == Demand([], map[])
  {
    hide DemandOf;
    var rows, h := OVERLOADED.outbound, OVERLOADED.horizon;
    assert rows[..1] == [rows[0]] && rows[..1][..0] == [];
    assert Measured(rows[0], h) && !Measured(rows[1], h);
    forall t ensures Total(rows, MeasuredFor(h, t)) == if t == 7 then 1.0 else 0.0 {
      assert Total(rows[..1], MeasuredFor(h, t)) == if t == 7 then 1.0 else 0.0;
    }
    var d := OutboundDemand(OVERLOADED);
    forall t ensures t in d.amount <==> t == 7 {
      DemandIsMeasured(rows, h, t);
    }
    DemandIsMeasured(rows, h, 7);
    NothingCounted(h);
  }

  lemma NothingCounted(h: Horizon)
    ensures DemandOf([], h) == Demand([], map[])
  {
  }

  lemma OverloadedSelection()
    ensures Visits(OVERLOADED, [7]) && Gathered(SupplyOf(OVERLOADED), [7]) == {1}
  {
    hide Picked, Candidates, DemandOf, Gathered, AddChosen, Chosen;
    var s, q := SupplyOf(OVERLOADED), OVERLOADED.quals[0];
    assert OVERLOADED.rosters[0] in OVERLOADED.rosters && Overlaps(OVERLOADED.rosters[0], OVERLOADED.horizon);
    assert q in s.quals && Supplies(s, q, 7);
    assert Candidates(s, 7) != [] by { SupplierIsACandidate(s, q, 7); }
    KeepsTheOnlyTask(OVERLOADED, 7);
    assert Elements([7]) == {7};
    EveryKeptTaskHasAKeptSupplier(s, [7], 7);
    GatheredForOne(s, 7);
    CandidatesAreChosen(s, 7);
    FirstChoiceIsAdded(Chosen(s, 7), {});
  }

  lemma KeepsTheOnlyTask(w: Week, t: TaskId)
    requires w == OVERLOADED && t == 7 && Candidates(SupplyOf(w), t) != []
    ensures KeptOf(w) == {t}
  {
    hide Picked, Candidates, DemandOf, SupplyOf;
    OverloadedDemand();
    var s, none := SupplyOf(w), Demand([], map[]);
    PicksTheOnlyTask(OutboundDemand(w), s, N_OUTBOUND_TASKS, t);
    var k1 := Elements(Picked(OutboundDemand(w), s, {}, N_OUTBOUND_TASKS));
    PicksNothing(s, k1, N_INBOUND_TASKS);
    var k2 := k1 + Elements(Picked(none, s, k1, N_INBOUND_TASKS));
    PicksNothing(s, k2, N_INDIRECT_TASKS);
    assert KeptTasks(OutboundDemand(w), none, none, s) == k2 + Elements(Picked(none, s, k2, N_INDIRECT_TASKS));
  }

  lemma SupplierIsACandidate(s: Supply, q: Qualification, t: TaskId)
    requires q in s.quals && Supplies(s, q, t)
    ensures Candidates(s, t) != []
  {
    hide Keep;
    KeepIsExact(s.quals, s, t, q);
  }

  lemma GatheredForOne(s: Supply, t: TaskId)
    ensures Gathered(s, [t]) == AddChosen(Chosen(s, t), {}, false).0
  {
    hide AddChosen, Chosen;
    assert [t][..0] == [];
    assert Gathered(s, []) == {};
  }

  lemma OverloadedCapacity()
    ensures Capacity(OVERLOADED, {1}) == 1.0
  {
    var windows, h := OVERLOADED.rosters, OVERLOADED.horizon;
    assert windows[..0] == [];
    assert WindowHours(windows, 1, h) == 1.0;
    var m := HoursByMember(OVERLOADED, {1});
    assert m == map[1 := 1.0];
    SumOfAnyKey(m, 1);
    assert m - {1} == map[];
  }

  lemma OverloadedRate()
    ensures ReferenceRate(OVERLOADED.quals, {1}, 7) == 100.0
  {
    var quals := OVERLOADED.quals;
    assert quals[..0] == [];
    assert RatesOf(quals, {1}, 7) == [100.0];
    assert [100.0][..0] == [];
    assert SumRates([100.0]) == 100.0;
  }

  lemma OverloadedHours(rate: TaskId -> real, kept: set<TaskId>)
    requires (forall t :: rate(t) > 0.0) && rate(7) == 100.0 && kept == {7}
    ensures var rows, h := OVERLOADED.outbound, OVERLOADED.horizon;
            && HoursOf(rows, IsMeasured(kept, h), rate) == 0.01
            && HoursOf(rows, WrittenUncounted(rows, kept, h), rate) == 100.0
            && HoursOf(rows, CountedUnwritten(rows, kept, h), rate) == 0.0
  {
    var rows, h := OVERLOADED.outbound, OVERLOADED.horizon;
    assert rows[..1] == [rows[0]] && rows[..1][..0] == [];
    var b := Bucket(7, 0, 0);
    assert BucketOf(rows[0]) == b && BucketOf(rows[1]) == b;
    assert Total(rows[..1], InBucket(kept, h, b)) == 1.0;
    assert Total(rows, InBucket(kept, h, b)) == 10001.0;
    assert IsWritten(rows, kept, h)(rows[0]) && IsWritten(rows, kept, h)(rows[1]);
    assert HoursOf(rows[..1], IsMeasured(kept, h), rate) == 0.01;
    assert HoursOf(rows[..1], WrittenUncounted(rows, kept, h), rate) == 0.0;
    assert HoursOf(rows[..1], CountedUnwritten(rows, kept, h), rate) == 0.0;
  }

  lemma OverloadedSurplus()
    requires Gathered(SupplyOf(OVERLOADED), [7]) == {1}
    ensures RequiredHours(OVERLOADED, [7]) == 0.01 && Surplus(OVERLOADED, [7]) == 100.0
  {
    hide HoursOf, ReferenceRate, Gathered, RequiredHours, SupplyOf, IsMeasured, WrittenUncounted, CountedUnwritten, IsUnmeasured;
    var h, rate, kept := OVERLOADED.horizon, RateIn(OVERLOADED, [7]), Elements([7]);
    OverloadedRate();
    assert rate(7) == 100.0;
    OverloadedHours(rate, kept);
    RequiredIsCounted(OVERLOADED, [7]);
    NoHoursOfNothing(IsMeasured(kept, h), rate);
    NoHoursOfNothing(IsUnmeasured(kept, h), rate);
    assert AllEntries(OVERLOADED.inbound) == [];
  }

  /** The selection keeps the task for its one counted unit, and writes out the ten thousand uncounted ones. */
  lemma UnparsedEndsOverloadTheWeek()
    ensures Visits(OVERLOADED, [7])
    ensures RequiredHours(OVERLOADED, [7]) < Load(OVERLOADED, [7]) < WrittenHours(OVERLOADED, [7])
  {
    hide WrittenHours, Gathered, Capacity, Visits, RequiredHours, Surplus;
    OverloadedSelection();
    OverloadedCapacity();
    OverloadedSurplus();
    LoadIsMetIff(OVERLOADED, [7]);
  }

  // ----- what the selection and its measures are made of

  /** Elements of a sequence that tie with `x`, in order. */
  function Ties<T>(s: seq<T>, x: T, leq: (T, T) -> bool): seq<T> {
    if s == [] then []
    else
      var last := s[|s| - 1];
      Ties(s[..|s| - 1], x, leq) + (if leq(last, x) && leq(x, last) then [last] else [])
  }

  lemma {:induction false} TiesConcat<T>(a: seq<T>, b: seq<T>, x: T, leq: (T, T) -> bool)
    ensures Ties(a + b, x, leq) == Ties(a, x, leq) + Ties(b, x, leq)
  {
    if b == [] {
      assert a + b == a;
    } else {
      assert (a + b)[..|a + b| - 1] == a + b[..|b| - 1];
      TiesConcat(a, b[..|b| - 1], x, leq);
    }
  }

  lemma TiesOfOne<T>(y: T, x: T, leq: (T, T) -> bool)
    ensures Ties([y], x, leq) == if leq(y, x) && leq(x, y) then [y] else []
  {
    assert [y][..0] == [];
  }

  lemma {:induction false} InsertIsStable<T(!new)>(s: seq<T>, y: T, x: T, leq: (T, T) -> bool)
    requires Ordering(leq)
    ensures Ties(Insert(s, y, leq), x, leq) == Ties(s, x, leq) + Ties([y], x, leq)
  {
    hide Ordering, Ties;
    if s == [] {
      TiesOfNothing(x, leq);
    } else {
      var front, last := s[..|s| - 1], s[|s| - 1];
      assert s == front + [last];
      TiesConcat(front, [last], x, leq);
      if leq(last, y) {
        TiesConcat(s, [y], x, leq);
      } else {
        InsertIsStable(front, y, x, leq);
        TiesConcat(Insert(front, y, leq), [last], x, leq);
        TiesOfOne(last, x, leq);
        TiesOfOne(y, x, leq);
        NotBothTie(last, y, x, leq);
      }
    }
  }

  lemma TiesOfNothing<T>(x: T, leq: (T, T) -> bool)
    ensures Ties([], x, leq) == []
  {
  }

  lemma NotBothTie<T(!new)>(a: T, b: T, x: T, leq: (T, T) -> bool)
    requires Ordering(leq) && !leq(a, b)
    ensures !(leq(a, x) && leq(x, a) && leq(b, x) && leq(x, b))
  {
  }

  /** Sorting keeps the order of elements that tie. */
  lemma {:induction false} SortByIsStable<T(!new)>(s: seq<T>, x: T, leq: (T, T) -> bool)
    requires Ordering(leq)
    ensures Ties(SortBy(s, leq), x, leq) == Ties(s, x, leq)
  {
    hide Ordering, Ties, Insert;
    if s != [] {
      var front, last := s[..|s| - 1], s[|s| - 1];
      SortByIsStable(front, x, leq);
      InsertIsStable(SortBy(front, leq), last, x, leq);
      TiesConcat(front, [last], x, leq);
      assert s == front + [last];
    }
  }

  /** Tasks are listed in the order they were first counted: counting more rows only appends. */
  lemma {:induction false} DemandOrderGrows(rows: seq<Row>, h: Horizon, k: nat)
    requires k <= |rows|
    ensures DemandOf(rows[..k], h).order <= DemandOf(rows, h).order
  {
    if k < |rows| {
      DemandOrderGrows(rows[..|rows| - 1], h, k);
      assert rows[..|rows| - 1][..k] == rows[..k];
    } else {
      assert rows[..k] == rows;
    }
  }

  /** Which rows count and where they are filed, said in minutes. */
  lemma RowsAreFiledByTheHour(r: Row, kept: set<TaskId>, h: Horizon, b: Bucket)
    ensures Measured(r, h) <==> r.start.Some? && h.first <= r.start.value < h.end && r.endParses && r.volume > 0.0
    ensures Emitted(r, kept, h) <==> r.task in kept && r.start.Some? && h.first <= r.start.value < h.end
    ensures InBucket(kept, h, b)(r) <==>
              && Emitted(r, kept, h) && r.task == b.task && r.area == b.area
              && 60 * b.hour <= r.start.value < 60 * b.hour + 60
  {
  }

  lemma {:induction false} SkippedAtTheCap(chosen: seq<Qualification>, members: set<ContactId>, q: Qualification)
    requires q in chosen && q.contact !in AddChosen(chosen, members, false).0
    ensures |AddChosen(chosen, members, false).0| >= MAX_MEMBERS
  {
    var front, last := chosen[..|chosen| - 1], chosen[|chosen| - 1];
    assert chosen == front + [last];
    if q in front {
      if q.contact !in AddChosen(front, members, false).0 {
        SkippedAtTheCap(front, members, q);
        OneMoreElement(AddChosen(front, members, false).0, last.contact);
      }
    }
  }

  /** A chosen supplier is left out only because the members had reached the cap. */
  lemma ChosenIsKeptUnlessFull(s: Supply, order: seq<TaskId>, k: nat, q: Qualification)
    requires k < |order| && q in Chosen(s, order[k]) && q.contact !in Gathered(s, order)
    ensures |Gathered(s, order[..k + 1])| >= 14
  {
    hide Chosen, AddChosen;
    assert order[..k + 1][..k] == order[..k];
    GatheredGrows(s, order, k + 1);
    SkippedAtTheCap(Chosen(s, order[k]), Gathered(s, order[..k]), q);
  }

  /** Rows of qualified, kept members with a positive rate, by position. */
  ghost function RatedRows(quals: seq<Qualification>, members: set<ContactId>, t: TaskId): set<nat> {
    set i: nat | i < |quals| && IsRated(quals[i], members, t)
  }

  function RateTotal(quals: seq<Qualification>, members: set<ContactId>, t: TaskId): real {
    if quals == [] then 0.0
    else
      var q := quals[0];
      (if q.task == t && q.contact in members && q.rate > 0.0 then q.rate else 0.0) + RateTotal(quals[1..], members, t)
  }

  lemma {:induction false} RateTotalLast(quals: seq<Qualification>, q: Qualification, members: set<ContactId>, t: TaskId)
    ensures RateTotal(quals + [q], members, t) ==
            RateTotal(quals, members, t) + if q.task == t && q.contact in members && q.rate > 0.0 then q.rate else 0.0
  {
    if quals == [] {
      assert quals + [q] == [q] && [q][1..] == [];
    } else {
      assert (quals + [q])[1..] == quals[1..] + [q];
      RateTotalLast(quals[1..], q, members, t);
    }
  }

  predicate IsRated(q: Qualification, members: set<ContactId>, t: TaskId) {
    q.task == t && q.contact in members && q.rate > 0.0
  }

  lemma {:induction false} RatesAreCounted(quals: seq<Qualification>, members: set<ContactId>, t: TaskId, which: set<nat>)
    requires forall i: nat :: i in which <==> i < |quals| && IsRated(quals[i], members, t)
    ensures |RatesOf(quals, members, t)| == |which|
  {
    if quals == [] {
      assert which == {};
    } else {
      var n: nat := |quals| - 1;
      var front := quals[..n];
      forall i: nat ensures i in which - {n} <==> i < |front| && IsRated(front[i], members, t) {
      }
      RatesAreCounted(front, members, t, which - {n});
      if n in which {
        assert which == which - {n} + {n};
      } else {
        assert which == which - {n};
      }
    }
  }

  lemma RatesLast(front: seq<Qualification>, q: Qualification, members: set<ContactId>, t: TaskId)
    ensures RatesOf(front + [q], members, t) ==
            RatesOf(front, members, t) + if IsRated(q, members, t) then [q.rate] else []
  {
    assert (front + [q])[..|front|] == front;
  }

  lemma SumLast(rates: seq<real>, last: real)
    requires (forall i :: 0 <= i < |rates| ==> rates[i] > 0.0) && last > 0.0
    ensures SumRates(rates + [last]) == SumRates(rates) + last
  {
    assert (rates + [last])[..|rates|] == rates;
  }

  lemma {:induction false} RatesAddUp(quals: seq<Qualification>, members: set<ContactId>, t: TaskId)
    ensures SumRates(RatesOf(quals, members, t)) == RateTotal(quals, members, t)
  {
    hide RateTotal, RatesOf, SumRates;
    if quals == [] {
      NoRateTotal(members, t);
    } else {
      var front, q := quals[..|quals| - 1], quals[|quals| - 1];
      RatesAddUp(front, members, t);
      assert quals == front + [q];
      RateTotalLast(front, q, members, t);
      RatesLast(front, q, members, t);
      var rates := RatesOf(front, members, t);
      if IsRated(q, members, t) {
        SumLast(rates, q.rate);
      } else {
        assert rates + [] == rates;
      }
    }
  }

  lemma NoRateTotal(members: set<ContactId>, t: TaskId)
    ensures RateTotal([], members, t) == 0.0 == SumRates(RatesOf([], members, t))
  {
  }

  /** The reference rate is the mean of the rated rows, and a hundred when there is none. */
  lemma ReferenceRateIsTheMean(quals: seq<Qualification>, members: set<ContactId>, t: TaskId)
    ensures var n := |RatedRows(quals, members, t)|;
            if n == 0 then ReferenceRate(quals, members, t) == 100.0
            else ReferenceRate(quals, members, t) * n as real == RateTotal(quals, members, t)
  {
    hide RatesOf, SumRates, RateTotal;
    RatesAreCounted(quals, members, t, RatedRows(quals, members, t));
    RatesAddUp(quals, members, t);
    var rates := RatesOf(quals, members, t);
    if rates != [] {
      var n := |rates| as real;
      assert SumRates(rates) / n * n == SumRates(rates);
    }
  }

  predicate NotBefore(t: nat, lo: nat) {
    lo <= t
  }

  /** The minutes from `lo` on and before `hi`. */
  ghost function Minutes(lo: nat, hi: nat): set<nat> {
    set t: nat | t < hi && NotBefore(t, lo)
  }

  /** Minutes that lie in a window and in the horizon. */
  ghost function SharedMinutes(w: Window, h: Horizon): set<nat>
    requires w.start.Some? && w.end.Some?
  {
    Minutes(h.first, h.end) * Minutes(w.start.value, w.end.value)
  }

  lemma {:induction false} RangeSize(lo: nat, hi: nat)
    requires lo <= hi
    ensures |Minutes(lo, hi)| == hi - lo
  {
    if lo == hi {
      assert Minutes(lo, hi) == {};
    } else {
      RangeSize(lo, hi - 1);
      assert Minutes(lo, hi) == Minutes(lo, hi - 1) + {hi - 1};
    }
  }

  /** A window's hours are the minutes it shares with the horizon, by the sixty. */
  lemma InsideIsWhatIsShared(w: Window, h: Horizon)
    requires w.start.Some? && w.end.Some?
    ensures (if Overlaps(w, h) then Inside(w, h) else 0.0) * 60.0 == |SharedMinutes(w, h)| as real
  {
    var first := if h.first >= w.start.value then h.first else w.start.value;
    var end := if h.end <= w.end.value then h.end else w.end.value;
    if first < end {
      assert SharedMinutes(w, h) == Minutes(first, end);
      RangeSize(first, end);
    } else {
      assert SharedMinutes(w, h) == {};
    }
  }

  /** A member's hours add up over their own windows, and a window that does not parse counts nothing. */
  lemma WindowHoursAddUp(windows: seq<Window>, w: Window, c: ContactId, h: Horizon)
    ensures var more := WindowHours(windows + [w], c, h) - WindowHours(windows, c, h);
            if w.contact == c && w.start.Some? && w.end.Some? then more * 60.0 == |SharedMinutes(w, h)| as real
            else more == 0.0
  {
    assert (windows + [w])[..|windows|] == windows;
    if w.start.Some? && w.end.Some? {
      InsideIsWhatIsShared(w, h);
    }
  }

  /** Availability counts only for members without a rostered hour, and nobody delivers more than the weekly limit. */
  lemma DeliverableIs(w: Week, c: ContactId, other: seq<Window>)
    ensures Deliverable(w, c) <= 56.0
    ensures WindowHours(w.rosters, c, w.horizon) != 0.0 ==>
              Deliverable(w, c) == Deliverable(w.(availability := other), c)
              && (Deliverable(w, c) == 56.0 || Deliverable(w, c) == WindowHours(w.rosters, c, w.horizon))
    ensures WindowHours(w.rosters, c, w.horizon) == 0.0 ==>
              Deliverable(w, c) == 56.0 || Deliverable(w, c) == WindowHours(w.availability, c, w.horizon)
  {
  }

  /** A kept task of a window with its volume scaled. */
  predicate IsScaledTask(t: (TaskId, real), kept: set<TaskId>, scale: real, x: (TaskId, real)) {
    x.0 == t.0 && t.0 in kept && x.1 == scale * t.1
  }

  lemma ScaledTaskIs(t: (TaskId, real), kept: set<TaskId>, scale: real, x: (TaskId, real))
    ensures IsScaledTask(t, kept, scale, x) <==> t.0 in kept && x == (t.0, Times(scale, t.1))
  {
    var v := scale * t.1;
    assert Times(scale, t.1) == v;
    if x == (t.0, v) {
      assert x.1 == v;
    }
    if x.0 == t.0 && x.1 == v {
      assert x == (t.0, v);
    }
  }

  lemma {:induction false} KeptTasksAreScaled(tasks: seq<(TaskId, real)>, kept: set<TaskId>, scale: real, x: (TaskId, real))
    ensures x in KeptTasksOf(tasks, kept, scale) <==>
              exists k :: 0 <= k < |tasks| && IsScaledTask(tasks[k], kept, scale, x)
  {
    hide Times, IsScaledTask;
    if tasks != [] {
      var n := |tasks| - 1;
      var front := tasks[..n];
      KeptTasksAreScaled(front, kept, scale, x);
      ScaledTaskIs(tasks[n], kept, scale, x);
      assert forall k :: 0 <= k < n ==> front[k] == tasks[k];
    }
  }

  /** Each written window is one of the horizon's with its own start, holding its kept tasks scaled, and none is empty. */
  lemma {:induction false} WrittenWindowsAre(inbound: seq<Inbound>, kept: set<TaskId>, h: Horizon, scale: real, x: Inbound)
    ensures x in WrittenInbound(inbound, kept, h, scale) <==>
              && x.tasks != []
              && exists i :: i in inbound && i.start.Some? && h.first <= i.start.value < h.end && x.start == i.start
                             && x.tasks == KeptTasksOf(i.tasks, kept, scale)
  {
    hide KeptTasksOf;
    if inbound != [] {
      var front, last := inbound[..|inbound| - 1], inbound[|inbound| - 1];
      WrittenWindowsAre(front, kept, h, scale, x);
      assert inbound == front + [last];
    }
  }

  /** Every picked task is filed under the family it was picked for. */
  lemma PickedTasksHaveTheirFamily(tasks: seq<TaskId>, family: Family, t: TaskId)
    ensures t in AllInFamily(tasks, family) <==> t in tasks
    ensures t in tasks ==> AllInFamily(tasks, family)[t] == family
  {
  }
}
