/**
 The bounded live multi-turn suite: an aggregate budget checked before every case and after
 every turn, and the readiness verdict drawn from what ran.

 What each turn used and whether it passed is an input, as is a turn that raises. The clock
 is read by position; reading 0 is the start.
 */
module Suite {
  import opened Basics

  datatype Use = Use(requests: nat, toolCalls: nat, tokens: nat, spend: real)

  const Nothing := Use(0, 0, 0, 0.0)

  function Plus(a: Use, b: Use): Use {
    Use(a.requests + b.requests, a.toolCalls + b.toolCalls, a.tokens + b.tokens, a.spend + b.spend)
  }

  /** A live turn either ends with a verdict and its usage, or raises out of the case. */
  datatype LiveTurn = Ran(passed: bool, use: Use) | Raises

  type LiveCase = seq<LiveTurn>

  datatype Limits = Limits(cases: nat, use: Use, elapsed: real)

  datatype Env = Env(limits: Limits, clock: nat -> real)

  /** `LiveSuiteBudgetV1` refuses anything but positive ceilings. */
  predicate Constructible(l: Limits) {
    l.cases > 0 && l.use.requests > 0 && l.use.toolCalls > 0 && l.use.tokens > 0 && l.use.spend > 0.0 && l.elapsed > 0.0
  }

  datatype StopReason = CaseLimitExhausted | ElapsedExhausted | AggregateBudgetExhausted

  /** `_over_budget` at clock reading `reading`. */
  function Over(env: Env, reading: nat, totals: Use): Option<StopReason> {
    if env.clock(reading) - env.clock(0) >= env.limits.elapsed then Some(ElapsedExhausted)
    else if totals.requests >= env.limits.use.requests || totals.toolCalls >= env.limits.use.toolCalls
            || totals.tokens >= env.limits.use.tokens || totals.spend >= env.limits.use.spend
    then Some(AggregateBudgetExhausted)
    else None
  }

  // ----- the loops

  datatype Ending = Finished | Cut(reason: StopReason) | Failed

  datatype CaseEnd = CaseEnd(totals: Use, reading: nat, verdicts: seq<bool>, ending: Ending)

  function RunTurns(env: Env, turns: LiveCase, totals: Use, reading: nat, verdicts: seq<bool>): CaseEnd {
    if turns == [] then CaseEnd(totals, reading, verdicts, Finished)
    else if turns[0].Raises? then CaseEnd(totals, reading, verdicts, Failed)
    else
      var after := Plus(totals, turns[0].use);
      var seen := verdicts + [turns[0].passed];
      match Over(env, reading, after)
      case Some(reason) => CaseEnd(after, reading + 1, seen, Cut(reason))
      case None => RunTurns(env, turns[1..], after, reading + 1, seen)
  }

  datatype CaseResult = CaseResult(passed: bool, isPartial: bool, raised: bool, verdicts: seq<bool>)

  predicate AllTrue(s: seq<bool>) {
    forall i :: 0 <= i < |s| ==> s[i]
  }

  function ResultOf(e: CaseEnd): CaseResult {
    CaseResult(e.ending == Finished && AllTrue(e.verdicts), e.ending != Finished, e.ending == Failed, e.verdicts)
  }

  datatype State = State(totals: Use, reading: nat, results: seq<CaseResult>, stopped: Option<StopReason>)

  const Start := State(Nothing, 1, [], None)

  function RunCases(env: Env, cases: seq<LiveCase>, st: State): State {
    if cases == [] then st
    else if |st.results| >= env.limits.cases then st.(stopped := Some(CaseLimitExhausted))
    else match Over(env, st.reading, st.totals)
         case Some(reason) => st.(reading := st.reading + 1, stopped := Some(reason))
         case None =>
           var e := RunTurns(env, cases[0], st.totals, st.reading + 1, []);
           var next := State(e.totals, e.reading, st.results + [ResultOf(e)], None);
           if e.ending.Cut? then next.(stopped := Some(e.ending.reason)) else RunCases(env, cases[1..], next)
  }

  datatype Readiness = Eligible | Excepted | Blocked

  function ReadinessVerdict(allPassed: bool, stopped: Option<StopReason>, exceptionValid: bool): Readiness {
    if stopped.None? && allPassed then Eligible else if exceptionValid then Excepted else Blocked
  }

  predicate AllPassed(results: seq<CaseResult>) {
    forall i :: 0 <= i < |results| ==> results[i].passed
  }

  function SuiteReadiness(env: Env, cases: seq<LiveCase>, exceptionValid: bool): Readiness {
    var end := RunCases(env, cases, Start);
    ReadinessVerdict(end.results != [] && AllPassed(end.results), end.stopped, exceptionValid)
  }

  method RunCase(env: Env, turns: LiveCase, totals: Use, reading: nat) returns (e: CaseEnd)
    ensures e == RunTurns(env, turns, totals, reading, [])
  {
    var sum, at := totals, reading;
    var verdicts: seq<bool> := [];
    var i := 0;
    while i < |turns|
      invariant i <= |turns|
      invariant RunTurns(env, turns, totals, reading, []) == RunTurns(env, turns[i..], sum, at, verdicts)
    {
      assert turns[i..][1..] == turns[i + 1..];
      if turns[i].Raises? {
        return CaseEnd(sum, at, verdicts, Failed);
      }
      sum := Plus(sum, turns[i].use);
      verdicts := verdicts + [turns[i].passed];
      var over := Over(env, at, sum);
      at := at + 1;
      if over.Some? {
        return CaseEnd(sum, at, verdicts, Cut(over.value));
      }
      i := i + 1;
    }
    e := CaseEnd(sum, at, verdicts, Finished);
  }

  method RunBoundedSuite(env: Env, cases: seq<LiveCase>, exceptionValid: bool) returns (end: State, readiness: Readiness)
    ensures end == RunCases(env, cases, Start)
    ensures readiness == SuiteReadiness(env, cases, exceptionValid)
  {
    end := Start;
    var i := 0;
    while i < |cases| && end.stopped.None?
      invariant i <= |cases|
      invariant RunCases(env, cases, Start) == if end.stopped.None? then RunCases(env, cases[i..], end) else end
      decreases |cases| - i, end.stopped.None?
    {
      assert cases[i..][1..] == cases[i + 1..];
      if |end.results| >= env.limits.cases {
        end := end.(stopped := Some(CaseLimitExhausted));
      } else {
        var over := Over(env, end.reading, end.totals);
        if over.Some? {
          end := end.(reading := end.reading + 1, stopped := over);
        } else {
          var e := RunCase(env, cases[i], end.totals, end.reading + 1);
          end := State(e.totals, e.reading, end.results + [ResultOf(e)], None);
          if e.ending.Cut? {
            end := end.(stopped := Some(e.ending.reason));
          }
          i := i + 1;
        }
      }
    }
    readiness := ReadinessVerdict(end.results != [] && AllPassed(end.results), end.stopped, exceptionValid);
  }

  // ----- what eligible means

  function UseOf(t: LiveTurn): Use {
    if t.Ran? then t.use else Nothing
  }

  function Sum(turns: seq<LiveTurn>): Use {
    if turns == [] then Nothing else Plus(UseOf(turns[0]), Sum(turns[1..]))
  }

  function Flat(cases: seq<LiveCase>): seq<LiveTurn> {
    if cases == [] then [] else cases[0] + Flat(cases[1..])
  }

  /** Turn `i` of a case ran, passed, and left the budget open. */
  predicate TurnIsFine(env: Env, turns: LiveCase, totals: Use, reading: nat, i: nat)
    requires i < |turns|
  {
    turns[i].Ran? && turns[i].passed && Over(env, reading + i, Plus(totals, Sum(turns[..i + 1]))).None?
  }

  predicate CaseIsFine(env: Env, turns: LiveCase, totals: Use, reading: nat) {
    forall i :: 0 <= i < |turns| ==> TurnIsFine(env, turns, totals, reading, i)
  }

  lemma SumFirst(t: LiveTurn, turns: seq<LiveTurn>)
    ensures Sum([t] + turns) == Plus(UseOf(t), Sum(turns))
  {
    hide Plus, UseOf;
    assert ([t] + turns)[1..] == turns;
  }

  lemma PlusLaws(a: Use, b: Use, c: Use)
    ensures Plus(Plus(a, b), c) == Plus(a, Plus(b, c)) && Plus(a, Nothing) == a && Plus(Nothing, a) == a
  {
  }

  lemma {:induction false} SumConcat(a: seq<LiveTurn>, b: seq<LiveTurn>)
    ensures Sum(a + b) == Plus(Sum(a), Sum(b))
  {
    hide Plus, UseOf;
    PlusLaws(Sum(b), Nothing, Nothing);
    if a == [] {
      assert a + b == b;
    } else {
      assert (a + b)[1..] == a[1..] + b;
      SumConcat(a[1..], b);
      PlusLaws(UseOf(a[0]), Sum(a[1..]), Sum(b));
    }
  }

  lemma TurnShift(env: Env, turns: LiveCase, totals: Use, reading: nat, i: nat)
    requires i + 1 < |turns|
    ensures TurnIsFine(env, turns, totals, reading, i + 1) ==
            TurnIsFine(env, turns[1..], Plus(totals, UseOf(turns[0])), reading + 1, i)
  {
    hide Over, Sum;
    assert turns[..i + 2] == [turns[0]] + turns[1..][..i + 1];
    SumFirst(turns[0], turns[1..][..i + 1]);
  }

  lemma FineTail(env: Env, turns: LiveCase, totals: Use, reading: nat)
    requires turns != []
    ensures CaseIsFine(env, turns, totals, reading) <==>
              TurnIsFine(env, turns, totals, reading, 0)
              && CaseIsFine(env, turns[1..], Plus(totals, UseOf(turns[0])), reading + 1)
  {
    hide TurnIsFine;
    var rest, after, at := turns[1..], Plus(totals, UseOf(turns[0])), reading + 1;
    if CaseIsFine(env, turns, totals, reading) {
      forall i | 0 <= i < |rest| ensures TurnIsFine(env, rest, after, at, i) {
        TurnShift(env, turns, totals, reading, i);
        assert TurnIsFine(env, turns, totals, reading, i + 1);
      }
    }
    if TurnIsFine(env, turns, totals, reading, 0) && CaseIsFine(env, rest, after, at) {
      forall i | 0 <= i < |turns| ensures TurnIsFine(env, turns, totals, reading, i) {
        if i > 0 {
          TurnShift(env, turns, totals, reading, i - 1);
          assert TurnIsFine(env, rest, after, at, i - 1);
        }
      }
    }
  }

  /** A case counts as passed exactly when every turn ran, passed, and left the budget open. */
  lemma {:induction false} CasePassesIff(env: Env, turns: LiveCase, totals: Use, reading: nat, verdicts: seq<bool>)
    requires AllTrue(verdicts)
    ensures var e := RunTurns(env, turns, totals, reading, verdicts);
            && (ResultOf(e).passed <==> CaseIsFine(env, turns, totals, reading))
            && (ResultOf(e).passed ==>
                  e.totals == Plus(totals, Sum(turns)) && e.reading == reading + |turns|
                  && |e.verdicts| == |verdicts| + |turns|)
    decreases |turns|
  {
    hide Over, TurnIsFine;
    if turns != [] {
      FineTail(env, turns, totals, reading);
      assert turns == [turns[0]] + turns[1..];
      SumFirst(turns[0], turns[1..]);
      FirstTurnIsFineIff(env, turns, totals, reading);
      if turns[0].Ran? {
        var after := Plus(totals, turns[0].use);
        if turns[0].passed {
          if Over(env, reading, after).None? {
            CasePassesIff(env, turns[1..], after, reading + 1, verdicts + [true]);
          }
        } else {
          FailedVerdictStays(env, turns, totals, reading, verdicts, |verdicts|);
        }
      }
    }
  }

  lemma FirstTurnIsFineIff(env: Env, turns: LiveCase, totals: Use, reading: nat)
    requires turns != []
    ensures TurnIsFine(env, turns, totals, reading, 0) <==>
              turns[0].Ran? && turns[0].passed && Over(env, reading, Plus(totals, turns[0].use)).None?
  {
    hide Over;
    var none: seq<LiveTurn> := [];
    assert turns[..1] == [turns[0]] + none;
    SumFirst(turns[0], none);
  }

  /** Once a failing verdict is recorded the case cannot pass. */
  lemma {:induction false} FailedVerdictStays(env: Env, turns: LiveCase, totals: Use, reading: nat, verdicts: seq<bool>,
                                              k: nat)
    requires (k < |verdicts| && !verdicts[k]) || (k == |verdicts| && turns != [] && turns[0].Ran? && !turns[0].passed)
    ensures !ResultOf(RunTurns(env, turns, totals, reading, verdicts)).passed
    decreases |turns|
  {
    hide Over;
    if turns != [] && turns[0].Ran? {
      var seen := verdicts + [turns[0].passed];
      assert !seen[k];
      FailedVerdictStays(env, turns[1..], Plus(totals, turns[0].use), reading + 1, seen, k);
    }
  }

  /** Case `c` starts inside the budget and is fine, counting everything before it. */
  predicate NthIsFine(env: Env, cases: seq<LiveCase>, totals: Use, reading: nat, c: nat)
    requires c < |cases|
  {
    var before := Flat(cases[..c]);
    var at := reading + c + |before|;
    && Over(env, at, Plus(totals, Sum(before))).None?
    && CaseIsFine(env, cases[c], Plus(totals, Sum(before)), at + 1)
  }

  predicate AllFine(env: Env, cases: seq<LiveCase>, totals: Use, reading: nat) {
    forall c :: 0 <= c < |cases| ==> NthIsFine(env, cases, totals, reading, c)
  }

  lemma NthShift(env: Env, cases: seq<LiveCase>, totals: Use, reading: nat, c: nat)
    requires c + 1 < |cases|
    ensures NthIsFine(env, cases, totals, reading, c + 1) ==
            NthIsFine(env, cases[1..], Plus(totals, Sum(cases[0])), reading + 1 + |cases[0]|, c)
  {
    hide Over, Sum, CaseIsFine;
    assert cases[..c + 1][0] == cases[0] && cases[..c + 1][1..] == cases[1..][..c];
    SumConcat(cases[0], Flat(cases[1..][..c]));
  }

  lemma FineCases(env: Env, cases: seq<LiveCase>, totals: Use, reading: nat)
    requires cases != []
    ensures AllFine(env, cases, totals, reading) <==>
              NthIsFine(env, cases, totals, reading, 0)
              && AllFine(env, cases[1..], Plus(totals, Sum(cases[0])), reading + 1 + |cases[0]|)
  {
    hide NthIsFine;
    var rest, after, at := cases[1..], Plus(totals, Sum(cases[0])), reading + 1 + |cases[0]|;
    if AllFine(env, cases, totals, reading) {
      forall c | 0 <= c < |rest| ensures NthIsFine(env, rest, after, at, c) {
        NthShift(env, cases, totals, reading, c);
        assert NthIsFine(env, cases, totals, reading, c + 1);
      }
    }
    if NthIsFine(env, cases, totals, reading, 0) && AllFine(env, rest, after, at) {
      forall c | 0 <= c < |cases| ensures NthIsFine(env, cases, totals, reading, c) {
        if c > 0 {
          NthShift(env, cases, totals, reading, c - 1);
          assert NthIsFine(env, rest, after, at, c - 1);
        }
      }
    }
  }

  lemma FirstCaseIsFineIff(env: Env, cases: seq<LiveCase>, totals: Use, reading: nat)
    requires cases != []
    ensures NthIsFine(env, cases, totals, reading, 0) <==>
              Over(env, reading, totals).None? && CaseIsFine(env, cases[0], totals, reading + 1)
  {
    hide Over, CaseIsFine;
    assert cases[..0] == [];
    assert Plus(totals, Nothing) == totals;
  }

  lemma {:induction false} FailedResultStays(env: Env, cases: seq<LiveCase>, st: State, k: nat)
    requires k < |st.results| && !st.results[k].passed
    ensures !AllPassed(RunCases(env, cases, st).results)
    decreases |cases|
  {
    hide Over, RunTurns, ResultOf;
    if cases != [] && |st.results| < env.limits.cases && Over(env, st.reading, st.totals).None? {
      var e := RunTurns(env, cases[0], st.totals, st.reading + 1, []);
      var next := State(e.totals, e.reading, st.results + [ResultOf(e)], None);
      assert !next.results[k].passed;
      if !e.ending.Cut? {
        FailedResultStays(env, cases[1..], next, k);
      }
    }
  }

  lemma {:induction false} SuiteIsCleanIff(env: Env, cases: seq<LiveCase>, st: State)
    requires st.stopped.None? && AllPassed(st.results)
    ensures var end := RunCases(env, cases, st);
            && (end.stopped.None? && AllPassed(end.results) <==>
                  (cases == [] || |st.results| + |cases| <= env.limits.cases) && AllFine(env, cases, st.totals, st.reading))
            && (end.stopped.None? ==> |end.results| == |st.results| + |cases|)
    decreases |cases|
  {
    hide Over, RunTurns, NthIsFine, CaseIsFine;
    if cases != [] {
      FineCases(env, cases, st.totals, st.reading);
      FirstCaseIsFineIff(env, cases, st.totals, st.reading);
      if |st.results| < env.limits.cases && Over(env, st.reading, st.totals).None? {
        var e := RunTurns(env, cases[0], st.totals, st.reading + 1, []);
        CasePassesIff(env, cases[0], st.totals, st.reading + 1, []);
        var next := State(e.totals, e.reading, st.results + [ResultOf(e)], None);
        if ResultOf(e).passed {
          SuiteIsCleanIff(env, cases[1..], next);
        } else if !e.ending.Cut? {
          FailedResultStays(env, cases[1..], next, |st.results|);
          CasesAreCounted(env, cases[1..], next);
        }
      }
    }
  }

  lemma {:induction false} CasesAreCounted(env: Env, cases: seq<LiveCase>, st: State)
    requires st.stopped.None?
    ensures var end := RunCases(env, cases, st);
            end.stopped.None? ==> |end.results| == |st.results| + |cases|
    decreases |cases|
  {
    hide Over, RunTurns, ResultOf;
    if cases != [] && |st.results| < env.limits.cases && Over(env, st.reading, st.totals).None? {
      var e := RunTurns(env, cases[0], st.totals, st.reading + 1, []);
      if !e.ending.Cut? {
        CasesAreCounted(env, cases[1..], State(e.totals, e.reading, st.results + [ResultOf(e)], None));
      }
    }
  }

  /**
   The suite is eligible if and only if there is at least one case, the case limit admits
   them all, every turn of every case ran and passed, and no check before a case or after a
   turn, the last one included, found a ceiling reached.
   */
  lemma EligibleIff(env: Env, cases: seq<LiveCase>, exceptionValid: bool)
    ensures SuiteReadiness(env, cases, exceptionValid) == Eligible <==>
              cases != [] && |cases| <= env.limits.cases && AllFine(env, cases, Nothing, 1)
  {
    hide AllFine, RunTurns;
    SuiteIsCleanIff(env, cases, Start);
    var end := RunCases(env, cases, Start);
  }

  // ----- overruns

  predicate Below(a: Use, b: Use) {
    a.requests < b.requests && a.toolCalls < b.toolCalls && a.tokens < b.tokens && a.spend < b.spend
  }

  predicate Within(a: Use, b: Use) {
    a.requests <= b.requests && a.toolCalls <= b.toolCalls && a.tokens <= b.tokens && a.spend <= b.spend
  }

  ghost predicate EachTurnWithin(turns: seq<LiveTurn>, most: Use) {
    forall t :: t in turns ==> Within(UseOf(t), most)
  }

  lemma OpenBudgetIff(env: Env, reading: nat, totals: Use)
    ensures Over(env, reading, totals).None? <==>
              Below(totals, env.limits.use) && env.clock(reading) < env.clock(0) + env.limits.elapsed
  {
  }

  lemma {:induction false} TurnsOverrunByOne(env: Env, turns: LiveCase, totals: Use, reading: nat, verdicts: seq<bool>,
                                             most: Use)
    requires EachTurnWithin(turns, most) && Within(Nothing, most) && Below(totals, env.limits.use)
    ensures var e := RunTurns(env, turns, totals, reading, verdicts);
            && Below(e.totals, Plus(env.limits.use, most))
            && (!e.ending.Cut? ==> Below(e.totals, env.limits.use))
    decreases |turns|
  {
    if turns != [] && turns[0].Ran? {
      var after := Plus(totals, turns[0].use);
      assert turns[0] in turns && Within(UseOf(turns[0]), most);
      if Over(env, reading, after).None? {
        OpenBudgetIff(env, reading, after);
        TurnsOverrunByOne(env, turns[1..], after, reading + 1, verdicts + [turns[0].passed], most);
      }
    }
  }

  lemma {:induction false} CasesOverrunByOne(env: Env, cases: seq<LiveCase>, st: State, most: Use)
    requires forall c :: c in cases ==> EachTurnWithin(c, most)
    requires Within(Nothing, most) && Below(st.totals, env.limits.use) && |st.results| <= env.limits.cases
    ensures var end := RunCases(env, cases, st);
            Below(end.totals, Plus(env.limits.use, most)) && |end.results| <= env.limits.cases
    decreases |cases|
  {
    hide Over, RunTurns, ResultOf, EachTurnWithin;
    if cases != [] && |st.results| < env.limits.cases && Over(env, st.reading, st.totals).None? {
      assert cases[0] in cases;
      var e := RunTurns(env, cases[0], st.totals, st.reading + 1, []);
      TurnsOverrunByOne(env, cases[0], st.totals, st.reading + 1, [], most);
      if !e.ending.Cut? {
        CasesOverrunByOne(env, cases[1..], State(e.totals, e.reading, st.results + [ResultOf(e)], None), most);
      }
    }
  }

  /** Every total overruns its ceiling by less than one turn, and recorded cases never exceed the limit. */
  lemma SuiteOverrunsByLessThanOneTurn(env: Env, cases: seq<LiveCase>, most: Use)
    requires Constructible(env.limits) && Within(Nothing, most)
    requires forall c :: c in cases ==> EachTurnWithin(c, most)
    ensures var end := RunCases(env, cases, Start);
            Below(end.totals, Plus(env.limits.use, most)) && |end.results| <= env.limits.cases
  {
    hide EachTurnWithin;
    CasesOverrunByOne(env, cases, Start, most);
  }

  // ----- when turns start

  /** A recorded case's turn that was started: it ended with a verdict, or it raised. */
  predicate Started(r: CaseResult, i: nat) {
    i < |r.verdicts| || (i == |r.verdicts| && r.raised)
  }

  /** What had been used when turn `i` of a case started, and the clock reading of the check before it. */
  predicate StartsOpen(env: Env, totals: Use, reading: nat, turns: LiveCase, i: nat)
    requires i <= |turns|
  {
    Over(env, reading + i, Plus(totals, Sum(turns[..i]))).None?
  }

  /** Within a case: the totals are what its verdicts used, and every started turn started with the budget open. */
  lemma {:induction false} TurnsStartOpen(env: Env, turns: LiveCase, totals: Use, reading: nat, verdicts: seq<bool>)
    requires Over(env, reading, totals).None?
    ensures var e := RunTurns(env, turns, totals, reading + 1, verdicts);
            var n := |e.verdicts| - |verdicts|;
            && 0 <= n <= |turns| && verdicts <= e.verdicts
            && (e.ending == Failed ==> n < |turns|)
            && e.totals == Plus(totals, Sum(turns[..n])) && e.reading == reading + 1 + n
            && (forall i :: 0 <= i < n || (i == n && e.ending == Failed) ==> StartsOpen(env, totals, reading, turns, i))
    decreases |turns|
  {
    hide Over, Plus;
    PlusLaws(totals, Nothing, Nothing);
    assert turns[..0] == [];
    if turns != [] && turns[0].Ran? {
      var after, seen := Plus(totals, turns[0].use), verdicts + [turns[0].passed];
      var rest := turns[1..];
      if Over(env, reading + 1, after).None? {
        TurnsStartOpen(env, rest, after, reading + 1, seen);
        var e := RunTurns(env, rest, after, reading + 2, seen);
        var n := |e.verdicts| - |verdicts|;
        forall i | 0 < i <= |turns| ensures Plus(totals, Sum(turns[..i])) == Plus(after, Sum(rest[..i - 1])) {
          UseShift(turns, totals, i);
        }
        forall i | 0 <= i < n || (i == n && e.ending == Failed) ensures StartsOpen(env, totals, reading, turns, i) {
          if i > 0 {
            assert StartsOpen(env, after, reading + 1, rest, i - 1);
          }
        }
      } else {
        UseShift(turns, totals, 1);
        PlusLaws(after, Nothing, Nothing);
        assert rest[..0] == [];
      }
    }
  }

  lemma UseShift(turns: LiveCase, totals: Use, i: nat)
    requires 0 < i <= |turns| && turns[0].Ran?
    ensures Plus(totals, Sum(turns[..i])) == Plus(Plus(totals, turns[0].use), Sum(turns[1..][..i - 1]))
  {
    hide Plus;
    assert turns[..i] == [turns[0]] + turns[1..][..i - 1];
    SumFirst(turns[0], turns[1..][..i - 1]);
    PlusLaws(totals, turns[0].use, Sum(turns[1..][..i - 1]));
  }

  /** One recorded result per case from the first on, with no more verdicts than turns. */
  predicate Fit(cases: seq<LiveCase>, results: seq<CaseResult>) {
    && |results| <= |cases|
    && forall k :: 0 <= k < |results| ==>
         |results[k].verdicts| <= |cases[k]| && (results[k].raised ==> |results[k].verdicts| < |cases[k]|)
  }

  /** The turns of the recorded cases that ended with a verdict, in order. */
  function Executed(cases: seq<LiveCase>, results: seq<CaseResult>): seq<LiveTurn>
    requires Fit(cases, results)
  {
    if results == [] then []
    else
      var n := |results| - 1;
      Executed(cases, results[..n]) + cases[n][..|results[n].verdicts|]
  }

  /** Turn `i` of case `c` started with the budget open. */
  predicate TurnStartsOpen(env: Env, cases: seq<LiveCase>, results: seq<CaseResult>, c: nat, i: nat)
    requires Fit(cases, results) && c < |results| && i <= |cases[c]|
  {
    var before := Executed(cases, results[..c]);
    StartsOpen(env, Sum(before), 1 + c + |before|, cases[c], i)
  }

  /** What a suite that has recorded `results` may claim about every turn it started. */
  ghost predicate Accounted(env: Env, cases: seq<LiveCase>, results: seq<CaseResult>, totals: Use) {
    && Fit(cases, results)
    && totals == Sum(Executed(cases, results))
    && forall c, i :: 0 <= c < |results| && 0 <= i <= |cases[c]| && Started(results[c], i) ==>
         TurnStartsOpen(env, cases, results, c, i)
  }

  lemma {:induction false} CasesStartOpen(env: Env, cases: seq<LiveCase>, k: nat, st: State)
    requires k <= |cases| && |st.results| == k && st.stopped.None?
    requires Accounted(env, cases, st.results, st.totals) && st.reading == 1 + k + |Executed(cases, st.results)|
    ensures var end := RunCases(env, cases[k..], st);
            Accounted(env, cases, end.results, end.totals)
    decreases |cases| - k
  {
    hide Over, RunTurns, TurnStartsOpen, Plus, Sum, ResultOf, Executed;
    if k < |cases| && k < env.limits.cases && Over(env, st.reading, st.totals).None? {
      var e := RunTurns(env, cases[k], st.totals, st.reading + 1, []);
      AccountOneMore(env, cases, k, st);
      var next := State(e.totals, e.reading, st.results + [ResultOf(e)], None);
      assert cases[k..][1..] == cases[k + 1..];
      if !e.ending.Cut? {
        CasesStartOpen(env, cases, k + 1, next);
      }
    }
  }

  /** What is recorded later does not change how earlier turns started. */
  lemma RecordOneMore(env: Env, cases: seq<LiveCase>, results: seq<CaseResult>, r: CaseResult, c: nat, i: nat)
    requires Fit(cases, results + [r]) && c < |results| && i <= |cases[c]|
    ensures Fit(cases, results) && (results + [r])[c] == results[c]
    ensures TurnStartsOpen(env, cases, results + [r], c, i) == TurnStartsOpen(env, cases, results, c, i)
  {
    hide Executed, Sum, StartsOpen;
    assert forall k :: 0 <= k < |results| ==> (results + [r])[k] == results[k];
    assert (results + [r])[..c] == results[..c];
  }

  lemma AccountOneMore(env: Env, cases: seq<LiveCase>, k: nat, st: State)
    requires k < |cases| && |st.results| == k
    requires Accounted(env, cases, st.results, st.totals) && st.reading == 1 + k + |Executed(cases, st.results)|
    requires Over(env, st.reading, st.totals).None?
    ensures var e := RunTurns(env, cases[k], st.totals, st.reading + 1, []);
            var results := st.results + [ResultOf(e)];
            && Accounted(env, cases, results, e.totals)
            && e.reading == 1 + (k + 1) + |Executed(cases, results)|
  {
    hide Over, RunTurns, TurnStartsOpen, StartsOpen, Plus, Sum, Executed;
    var e := RunTurns(env, cases[k], st.totals, st.reading + 1, []);
    var r := ResultOf(e);
    var results := st.results + [r];
    TurnsStartOpen(env, cases[k], st.totals, st.reading, []);
    assert results[..k] == st.results;
    ExecutedOneMore(cases, st.results, r);
    SumConcat(Executed(cases, st.results), cases[k][..|e.verdicts|]);
    forall c, i | 0 <= c < |results| && 0 <= i <= |cases[c]| && Started(results[c], i)
      ensures TurnStartsOpen(env, cases, results, c, i)
    {
      if c < k {
        RecordOneMore(env, cases, st.results, r, c, i);
      } else {
        assert StartsOpen(env, st.totals, st.reading, cases[k], i);
        LastTurnStartsOpen(env, cases, results, i);
      }
    }
  }

  lemma ExecutedOneMore(cases: seq<LiveCase>, results: seq<CaseResult>, r: CaseResult)
    requires Fit(cases, results + [r]) && Fit(cases, results)
    ensures Executed(cases, results + [r]) == Executed(cases, results) + cases[|results|][..|r.verdicts|]
  {
    assert (results + [r])[..|results|] == results;
  }

  lemma LastTurnStartsOpen(env: Env, cases: seq<LiveCase>, results: seq<CaseResult>, i: nat)
    requires Fit(cases, results) && results != [] && i <= |cases[|results| - 1]|
    ensures var k := |results| - 1;
            var before := Executed(cases, results[..k]);
            TurnStartsOpen(env, cases, results, k, i) == StartsOpen(env, Sum(before), 1 + k + |before|, cases[k], i)
  {
    hide Executed, Sum, StartsOpen;
  }

  /**
   Every turn the suite starts, whether it ends with a verdict or raises, starts with each
   total below its ceiling and time left; the totals at the end are what those turns used.
   */
  lemma EveryTurnStartsBelowTheCeilings(env: Env, cases: seq<LiveCase>)
    ensures var end := RunCases(env, cases, Start);
            && Fit(cases, end.results)
            && end.totals == Sum(Executed(cases, end.results))
            && forall c, i :: 0 <= c < |end.results| && 0 <= i <= |cases[c]| && Started(end.results[c], i) ==>
                 var before := Executed(cases, end.results[..c]);
                 && i < |cases[c]|
                 && Below(Plus(Sum(before), Sum(cases[c][..i])), env.limits.use)
                 && env.clock(1 + c + |before| + i) < env.clock(0) + env.limits.elapsed
  {
    hide Over, RunCases, Sum, Plus, Below, Executed, TurnStartsOpen;
    StartIsAccounted(env, cases);
    assert cases[0..] == cases;
    CasesStartOpen(env, cases, 0, Start);
    var end := RunCases(env, cases, Start);
    forall c, i | 0 <= c < |end.results| && 0 <= i <= |cases[c]| && Started(end.results[c], i)
      ensures var before := Executed(cases, end.results[..c]);
              && i < |cases[c]|
              && Below(Plus(Sum(before), Sum(cases[c][..i])), env.limits.use)
              && env.clock(1 + c + |before| + i) < env.clock(0) + env.limits.elapsed
    {
      OpenTurnIsBelow(env, cases, end.results, c, i);
    }
  }

  lemma OpenTurnIsBelow(env: Env, cases: seq<LiveCase>, results: seq<CaseResult>, c: nat, i: nat)
    requires Fit(cases, results) && c < |results| && i <= |cases[c]| && TurnStartsOpen(env, cases, results, c, i)
    ensures var before := Executed(cases, results[..c]);
            && Below(Plus(Sum(before), Sum(cases[c][..i])), env.limits.use)
            && env.clock(1 + c + |before| + i) < env.clock(0) + env.limits.elapsed
  {
    hide Executed, Sum, Over;
    var before := Executed(cases, results[..c]);
    OpenBudgetIff(env, 1 + c + |before| + i, Plus(Sum(before), Sum(cases[c][..i])));
  }

  lemma StartIsAccounted(env: Env, cases: seq<LiveCase>)
    ensures Accounted(env, cases, [], Nothing) && Executed(cases, []) == []
  {
    SumOfNoTurns();
  }

  lemma SumOfNoTurns()
    ensures Sum([]) == Nothing
  {
  }

  /** A recorded pass is never partial: a case cut short, even after its last turn, does not count. */
  lemma {:induction false} RecordedPassesAreComplete(env: Env, cases: seq<LiveCase>, st: State)
    requires forall r :: r in st.results && r.passed ==> !r.isPartial && AllTrue(r.verdicts)
    ensures forall r :: r in RunCases(env, cases, st).results && r.passed ==> !r.isPartial && AllTrue(r.verdicts)
    decreases |cases|
  {
    hide Over, RunTurns;
    if cases != [] && |st.results| < env.limits.cases && Over(env, st.reading, st.totals).None? {
      var e := RunTurns(env, cases[0], st.totals, st.reading + 1, []);
      var next := State(e.totals, e.reading, st.results + [ResultOf(e)], None);
      if !e.ending.Cut? {
        RecordedPassesAreComplete(env, cases[1..], next);
      }
    }
  }

  // ----- what is recorded and why the suite stopped

  /** A recorded case carries the verdicts of the turns that ended, in order, and says how it ended. */
  predicate RecordsItsTurns(r: CaseResult, turns: LiveCase) {
    && |r.verdicts| <= |turns|
    && (forall i :: 0 <= i < |r.verdicts| ==> turns[i].Ran? && r.verdicts[i] == turns[i].passed)
    && (r.raised ==> |r.verdicts| < |turns| && turns[|r.verdicts|].Raises?)
    && (r.raised ==> r.isPartial)
    && (!r.isPartial ==> |r.verdicts| == |turns|)
    && (r.passed <==> !r.isPartial && forall i :: 0 <= i < |r.verdicts| ==> r.verdicts[i])
  }

  lemma {:induction false} TurnsAreRecorded(env: Env, turns: LiveCase, totals: Use, reading: nat, verdicts: seq<bool>)
    ensures var e := RunTurns(env, turns, totals, reading, verdicts);
            && verdicts <= e.verdicts && |e.verdicts| <= |verdicts| + |turns|
            && (forall i :: 0 <= i < |e.verdicts| - |verdicts| ==>
                  turns[i].Ran? && e.verdicts[|verdicts| + i] == turns[i].passed)
            && (e.ending == Failed ==>
                  |e.verdicts| < |verdicts| + |turns| && turns[|e.verdicts| - |verdicts|].Raises?)
            && (e.ending == Finished ==> |e.verdicts| == |verdicts| + |turns|)
            && (e.ending.Cut? ==> e.reading > reading && e.ending.reason != CaseLimitExhausted
                                  && Over(env, e.reading - 1, e.totals) == Some(e.ending.reason))
            && e.reading >= reading
    decreases |turns|
  {
    hide Plus;
    if turns != [] && turns[0].Ran? {
      var after, seen := Plus(totals, turns[0].use), verdicts + [turns[0].passed];
      if Over(env, reading, after).None? {
        TurnsAreRecorded(env, turns[1..], after, reading + 1, seen);
        var e := RunTurns(env, turns, totals, reading, verdicts);
        forall i | 0 <= i < |e.verdicts| - |verdicts|
          ensures turns[i].Ran? && e.verdicts[|verdicts| + i] == turns[i].passed
        {
          if i > 0 {
            assert turns[1..][i - 1] == turns[i] && e.verdicts[|seen| + (i - 1)] == turns[1..][i - 1].passed;
          } else {
            assert e.verdicts[|verdicts|] == seen[|verdicts|];
          }
        }
      }
    }
  }

  /** Every recorded case says what its turns did. */
  lemma {:induction false} ResultsRecordTheirTurns(env: Env, cases: seq<LiveCase>, st: State)
    requires st.stopped.None?
    ensures var end := RunCases(env, cases, st);
            && st.results <= end.results && |end.results| <= |st.results| + |cases|
            && forall k :: 0 <= k < |end.results| - |st.results| ==> RecordsItsTurns(end.results[|st.results| + k], cases[k])
    decreases |cases|
  {
    hide Over, RunTurns, RecordsItsTurns;
    if cases != [] && |st.results| < env.limits.cases && Over(env, st.reading, st.totals).None? {
      var e := RunTurns(env, cases[0], st.totals, st.reading + 1, []);
      var next := State(e.totals, e.reading, st.results + [ResultOf(e)], None);
      CaseIsRecorded(env, cases[0], st.totals, st.reading + 1);
      if !e.ending.Cut? {
        ResultsRecordTheirTurns(env, cases[1..], next);
        var end := RunCases(env, cases, st);
        forall k | 0 <= k < |end.results| - |st.results| ensures RecordsItsTurns(end.results[|st.results| + k], cases[k]) {
          if k > 0 {
            assert RecordsItsTurns(end.results[|next.results| + (k - 1)], cases[1..][k - 1]);
          } else {
            assert end.results[|st.results|] == next.results[|st.results|];
          }
        }
      }
    }
  }

  lemma CaseIsRecorded(env: Env, turns: LiveCase, totals: Use, reading: nat)
    ensures RecordsItsTurns(ResultOf(RunTurns(env, turns, totals, reading, [])), turns)
  {
    hide RunTurns;
    TurnsAreRecorded(env, turns, totals, reading, []);
    var e := RunTurns(env, turns, totals, reading, []);
    forall i | 0 <= i < |e.verdicts| ensures turns[i].Ran? && e.verdicts[i] == turns[i].passed {
      assert e.verdicts[0 + i] == turns[i].passed;
    }
  }

  /**
   Why the suite stopped: it did not and recorded every case; the case limit was reached with
   cases left; the time was up at the last check; or time remained and a total had reached its
   ceiling.
   */
  lemma {:induction false} StopReasonIs(env: Env, cases: seq<LiveCase>, st: State)
    requires st.stopped.None? && st.reading >= 1
    ensures var end := RunCases(env, cases, st);
            && end.reading >= 1
            && match end.stopped
               case None => |end.results| == |st.results| + |cases|
               case Some(CaseLimitExhausted) => |end.results| >= env.limits.cases && |end.results| < |st.results| + |cases|
               case Some(ElapsedExhausted) => env.clock(end.reading - 1) - env.clock(0) >= env.limits.elapsed
               case Some(AggregateBudgetExhausted) =>
                 env.clock(end.reading - 1) - env.clock(0) < env.limits.elapsed && !Below(end.totals, env.limits.use)
    decreases |cases|
  {
    hide RunTurns;
    if cases != [] && |st.results| < env.limits.cases && Over(env, st.reading, st.totals).None? {
      var e := RunTurns(env, cases[0], st.totals, st.reading + 1, []);
      TurnsAreRecorded(env, cases[0], st.totals, st.reading + 1, []);
      if !e.ending.Cut? {
        StopReasonIs(env, cases[1..], State(e.totals, e.reading, st.results + [ResultOf(e)], None));
      }
    }
  }

  /** What is not eligible is excepted under a valid exception and blocked otherwise. */
  lemma NotEligibleIs(env: Env, cases: seq<LiveCase>, exceptionValid: bool)
    ensures var r := SuiteReadiness(env, cases, exceptionValid);
            var clean := cases != [] && |cases| <= env.limits.cases && AllFine(env, cases, Nothing, 1);
            && (r == Eligible <==> clean)
            && (r == Excepted <==> !clean && exceptionValid)
            && (r == Blocked <==> !clean && !exceptionValid)
  {
    hide AllFine, RunCases;
    EligibleIff(env, cases, exceptionValid);
  }
}
