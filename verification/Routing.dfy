/**
 Live routing measurement: passes over the golden cases under one spend ceiling, the
 percentages they report, and the verdict drawn from them.

 Money and percentages are reals; Python's `round` is nearest with ties to even. What each
 case did (passed or not, priced or not) is an input.
 */
module Routing {
  import opened Basics

  const OVERALL_THRESHOLD: real := 90.0
  const PROTECTED_THRESHOLD: real := 100.0
  const HALF_MICRO: real := 0.0000005

  /** A live-eligible case: offered on the chat path, on an allowed capability, of a protected class. */
  datatype Case = Case(id: nat, offered: bool, allowed: bool, protected: bool)

  /** What running a case gave: its verdict and, when it could be computed, its cost. */
  datatype CaseRun = CaseRun(passed: bool, cost: Option<real>)

  datatype Record = Record(id: nat, counted: bool, protected: bool, ran: bool, passed: bool, cost: Option<real>)

  datatype StopReason = SpendCeilingReached | CaseUnpriced

  datatype Code = Code(commit: nat, dirty: bool)

  datatype Pass = Pass(
    code: Option<Code>,
    complete: bool,
    stopped: Option<StopReason>,
    records: seq<Record>,
    overall: Option<real>,
    protectedShare: Option<real>,
    cost: real,
    spendMeasured: bool)

  // ----- percentages

  function Share(n: nat, d: nat): (q: real)
    requires d > 0
    ensures q * d as real == n as real
  {
    n as real / d as real
  }

  /** `round(numerator / denominator * 100, 2)`, or nothing to measure. */
  function Percentage(n: nat, d: nat): Option<real> {
    if d == 0 then None else Some(RoundHalfEven(Share(n, d) * 100.0 * 100.0) as real / 100.0)
  }

  /** `round(x, 6)`. */
  function RoundMicro(x: real): (r: real)
    ensures -HALF_MICRO <= r - x <= HALF_MICRO
  {
    RoundHalfEven(x * 1000000.0) as real / 1000000.0
  }

  /** A rounded percentage reaches a whole percentage exactly when the exact one is within half a hundredth. */
  lemma RoundedReaches(n: nat, d: nat, t: nat)
    requires d > 0
    ensures Percentage(n, d).value >= t as real <==> 20000 * n >= (200 * t - 1) * d
  {
    hide Share, RoundHalfEven;
    var q := Share(n, d);
    var x := q * 100.0 * 100.0;
    assert q * 20000.0 == 2.0 * x;
    RoundHalfEvenAgainstInteger(x, 100 * t);
    assert RoundHalfEven(x) >= 100 * t <==> x >= (100 * t) as real - 0.5;
    CrossMultiply(q, n, d, 200 * t - 1);
  }

  lemma CrossMultiply(q: real, n: nat, d: nat, want: int)
    requires d > 0 && q * d as real == n as real
    ensures q * 20000.0 >= want as real <==> 20000 * n >= want * d
  {
    Scaling(q * 20000.0, want as real, d as real);
    assert q * 20000.0 * d as real == (q * d as real) * 20000.0;
    assert want as real * d as real == (want * d) as real;
  }

  lemma Scaling(x: real, y: real, d: real)
    requires d > 0.0
    ensures x >= y <==> x * d >= y * d
  {
  }

  /** The protected bar lets nothing slip by rounding exactly below twenty thousand cases. */
  lemma ProtectedBarIsExactIff(d: nat)
    requires d > 0
    ensures (forall n: nat :: n <= d && Percentage(n, d).value >= PROTECTED_THRESHOLD ==> n == d) <==> d < 20000
  {
    forall n: nat ensures Percentage(n, d).value >= 100.0 <==> 20000 * n >= 19999 * d {
      RoundedReaches(n, d, 100);
    }
    if d >= 20000 {
      assert Percentage(d - 1, d).value >= 100.0;
    }
  }

  /** The smallest positive shortfall, in tenths of a case, a population of `d` can have below nine tenths. */
  function SmallestShortfall(d: nat): (k: nat)
    ensures 1 <= k <= 10 && (9 * d - k) % 10 == 0
  {
    (9 * d + 9) % 10 + 1
  }

  /**
   The overall bar means nine tenths exactly while the population is smaller than two
   thousand times its smallest possible shortfall; below two thousand cases that always holds.
   */
  lemma OverallBarIsExactIff(d: nat)
    requires d > 0
    ensures (forall n: nat :: Percentage(n, d).value >= OVERALL_THRESHOLD ==> 10 * n >= 9 * d)
            <==> d < 2000 * SmallestShortfall(d)
    ensures d < 2000 ==> d < 2000 * SmallestShortfall(d)
  {
    forall n: nat ensures Percentage(n, d).value >= 90.0 <==> 20000 * n >= 17999 * d {
      RoundedReaches(n, d, 90);
    }
    var k := SmallestShortfall(d);
    if d >= 2000 * k {
      var n := (9 * d - k) / 10;
      assert 10 * n == 9 * d - k;
      assert Percentage(n, d).value >= 90.0;
    } else {
      forall n: nat | Percentage(n, d).value >= 90.0 ensures 10 * n >= 9 * d {
        ShortfallIsAtLeast(n, d);
      }
    }
  }

  lemma ShortfallIsAtLeast(n: nat, d: nat)
    ensures 10 * n < 9 * d ==> 9 * d - 10 * n >= SmallestShortfall(d)
  {
    hide SmallestShortfall;
    var k := SmallestShortfall(d);
    var most := (9 * d - k) / 10;
    assert 10 * most == 9 * d - k;
    assert 10 * n < 9 * d ==> n <= most;
  }

  /** The first population for which the overall bar admits a share below nine tenths is 2009. */
  lemma OverallBarFirstFailsAt2009()
    ensures forall d: nat, n: nat :: 0 < d < 2009 && Percentage(n, d).value >= OVERALL_THRESHOLD ==> 10 * n >= 9 * d
    ensures Percentage(1808, 2009).value >= OVERALL_THRESHOLD && 10 * 1808 < 9 * 2009
  {
    forall d: nat, n: nat | 0 < d < 2009 && Percentage(n, d).value >= OVERALL_THRESHOLD ensures 10 * n >= 9 * d {
      OverallBarIsExactIff(d);
    }
    RoundedReaches(1808, 2009, 90);
  }

  // ----- one pass

  datatype Loop = Loop(records: seq<Record>, spend: real, unpriced: nat, stopped: Option<StopReason>)

  function NotOffered(c: Case): Record {
    Record(c.id, false, c.protected, false, false, None)
  }

  function Ran(c: Case, r: CaseRun): Record {
    Record(c.id, c.allowed, c.protected, true, r.passed, r.cost)
  }

  /** The case loop from what is recorded so far. */
  function Measure(cases: seq<Case>, runs: seq<CaseRun>, ceiling: real, before: real, sofar: Loop): Loop
    requires |cases| == |runs|
    decreases |cases|
  {
    if cases == [] then sofar
    else if before + sofar.spend >= ceiling then sofar.(stopped := Some(SpendCeilingReached))
    else if !cases[0].offered then
      Measure(cases[1..], runs[1..], ceiling, before, sofar.(records := sofar.records + [NotOffered(cases[0])]))
    else
      var next := sofar.(records := sofar.records + [Ran(cases[0], runs[0])]);
      match runs[0].cost
      case None => next.(unpriced := next.unpriced + 1, stopped := Some(CaseUnpriced))
      case Some(cost) => Measure(cases[1..], runs[1..], ceiling, before, next.(spend := next.spend + cost))
  }

  function Count(records: seq<Record>, p: Record -> bool): nat {
    if records == [] then 0
    else Count(records[..|records| - 1], p) + (if p(records[|records| - 1]) then 1 else 0)
  }

  const IsCounted := (r: Record) => r.counted
  const IsCountedPass := (r: Record) => r.counted && r.passed
  const IsProtected := (r: Record) => r.counted && r.protected
  const IsProtectedPass := (r: Record) => r.counted && r.protected && r.passed

  const EmptyLoop := Loop([], 0.0, 0, None)

  function PassOf(cases: seq<Case>, code: Option<Code>, measured: bool, end: Loop): Pass {
    Pass(code,
         end.stopped.None? && |end.records| == |cases|,
         end.stopped,
         end.records,
         Percentage(Count(end.records, IsCountedPass), Count(end.records, IsCounted)),
         Percentage(Count(end.records, IsProtectedPass), Count(end.records, IsProtected)),
         RoundMicro(end.spend),
         measured && end.unpriced == 0)
  }

  function RoutingPass(cases: seq<Case>, runs: seq<CaseRun>, ceiling: real, before: real, code: Option<Code>,
                       measured: bool): Pass
    requires |cases| == |runs|
  {
    PassOf(cases, code, measured, Measure(cases, runs, ceiling, before, EmptyLoop))
  }

  method CountWhere(records: seq<Record>, p: Record -> bool) returns (n: nat)
    ensures n == Count(records, p)
  {
    n := 0;
    for i := 0 to |records|
      invariant n == Count(records[..i], p)
    {
      assert records[..i + 1][..i] == records[..i];
      if p(records[i]) {
        n := n + 1;
      }
    }
    assert records[..|records|] == records;
  }

  method RunRoutingPass(cases: seq<Case>, runs: seq<CaseRun>, ceiling: real, before: real, code: Option<Code>,
                        measured: bool)
    returns (p: Pass)
    requires |cases| == |runs|
    ensures p == RoutingPass(cases, runs, ceiling, before, code, measured)
  {
    hide Percentage, RoundMicro;
    var records: seq<Record> := [];
    var spend := 0.0;
    var unpriced := 0;
    var stopped: Option<StopReason> := None;
    var i := 0;
    while i < |cases| && stopped.None?
      invariant i <= |cases|
      invariant Measure(cases, runs, ceiling, before, EmptyLoop) ==
                if stopped.None? then Measure(cases[i..], runs[i..], ceiling, before, Loop(records, spend, unpriced, None))
                else Loop(records, spend, unpriced, stopped)
      decreases |cases| - i, stopped.None?
    {
      assert cases[i..][1..] == cases[i + 1..] && runs[i..][1..] == runs[i + 1..];
      if before + spend >= ceiling {
        stopped := Some(SpendCeilingReached);
      } else if !cases[i].offered {
        records := records + [NotOffered(cases[i])];
        i := i + 1;
      } else {
        records := records + [Ran(cases[i], runs[i])];
        if runs[i].cost.None? {
          unpriced := unpriced + 1;
          stopped := Some(CaseUnpriced);
        } else {
          spend := spend + runs[i].cost.value;
          i := i + 1;
        }
      }
    }
    var counted := CountWhere(records, IsCounted);
    var countedPass := CountWhere(records, IsCountedPass);
    var guarded := CountWhere(records, IsProtected);
    var guardedPass := CountWhere(records, IsProtectedPass);
    p := Pass(code, stopped.None? && |records| == |cases|, stopped, records,
              Percentage(countedPass, counted), Percentage(guardedPass, guarded),
              RoundMicro(spend), measured && unpriced == 0);
  }

  /** How case `i` is recorded: its own verdict and cost, or as not offered and not counted. */
  function Recorded(c: Case, r: CaseRun): Record {
    if c.offered then Ran(c, r) else NotOffered(c)
  }

  /** The loop records the cases in order and skips none. */
  lemma {:induction false} MeasureFollowsTheCases(cases: seq<Case>, runs: seq<CaseRun>, ceiling: real, before: real,
                                                  l: Loop)
    requires |cases| == |runs|
    ensures var end := Measure(cases, runs, ceiling, before, l).records;
            && l.records <= end && |end| <= |l.records| + |cases|
            && forall i :: 0 <= i < |end| - |l.records| ==> end[|l.records| + i] == Recorded(cases[i], runs[i])
    decreases |cases|
  {
    if cases != [] && before + l.spend < ceiling {
      var r := Recorded(cases[0], runs[0]);
      var next := Loop(l.records + [r], l.spend + CostOf(r), l.unpriced, l.stopped);
      if !(r.ran && r.cost.None?) {
        MeasureFollowsTheCases(cases[1..], runs[1..], ceiling, before, next);
        var end := Measure(cases, runs, ceiling, before, l).records;
        assert end == Measure(cases[1..], runs[1..], ceiling, before, next).records;
        forall i | 0 <= i < |end| - |l.records| ensures end[|l.records| + i] == Recorded(cases[i], runs[i]) {
          if i > 0 {
            assert end[|next.records| + (i - 1)] == Recorded(cases[1..][i - 1], runs[1..][i - 1]);
          } else {
            assert end[|l.records|] == next.records[|l.records|];
          }
        }
      }
    }
  }

  // ----- what a pass spends

  function CostOf(r: Record): real {
    if r.cost.Some? then r.cost.value else 0.0
  }

  function Spent(records: seq<Record>): real {
    if records == [] then 0.0 else Spent(records[..|records| - 1]) + CostOf(records[|records| - 1])
  }

  /** What holds of the loop at any point: spend is the sum of the recorded costs, and every record began below the ceiling. */
  ghost predicate LoopInvariant(l: Loop, ceiling: real, before: real) {
    && l.spend == Spent(l.records)
    && (forall i :: 0 <= i < |l.records| ==> before + Spent(l.records[..i]) < ceiling)
    && (forall i :: 0 <= i < |l.records| - 1 ==> (l.records[i].ran ==> l.records[i].cost.Some?))
    && (l.unpriced == 0 <==> forall i :: 0 <= i < |l.records| && l.records[i].ran ==> l.records[i].cost.Some?)
    && l.unpriced <= 1
    && (l.stopped.None? ==> l.unpriced == 0)
    && (l.stopped == Some(SpendCeilingReached) ==> before + l.spend >= ceiling && l.unpriced == 0)
    && (l.stopped == Some(CaseUnpriced) ==> l.unpriced == 1)
  }

  lemma AppendRecord(l: Loop, r: Record, ceiling: real, before: real)
    requires LoopInvariant(l, ceiling, before) && l.stopped.None? && before + l.spend < ceiling
    ensures LoopInvariant(
              if r.ran && r.cost.None?
              then Loop(l.records + [r], l.spend, 1, Some(CaseUnpriced))
              else Loop(l.records + [r], l.spend + CostOf(r), 0, None),
              ceiling, before)
  {
    hide Spent;
    var records := l.records + [r];
    SpentGrows(l.records, r);
    forall i | 0 <= i < |records| ensures before + Spent(records[..i]) < ceiling {
      assert records[..i] == l.records[..i];
      assert l.records[..|l.records|] == l.records;
    }
    assert forall i :: 0 <= i < |l.records| ==> records[i] == l.records[i];
    assert records[|l.records|] == r;
  }

  lemma SpentGrows(records: seq<Record>, r: Record)
    ensures Spent(records + [r]) == Spent(records) + CostOf(r)
  {
    assert (records + [r])[..|records|] == records;
  }

  lemma {:induction false} MeasureKeepsTheInvariant(cases: seq<Case>, runs: seq<CaseRun>, ceiling: real, before: real,
                                                    l: Loop)
    requires |cases| == |runs|
    requires LoopInvariant(l, ceiling, before) && l.stopped.None?
    ensures LoopInvariant(Measure(cases, runs, ceiling, before, l), ceiling, before)
    ensures var end := Measure(cases, runs, ceiling, before, l);
            end.stopped.None? ==> |end.records| == |l.records| + |cases|
    decreases |cases|
  {
    hide LoopInvariant;
    if cases != [] {
      if before + l.spend >= ceiling {
        StopAtCeiling(l, ceiling, before);
      } else {
        LoopHasNoUnpriced(l, ceiling, before);
        var r := if cases[0].offered then Ran(cases[0], runs[0]) else NotOffered(cases[0]);
        AppendRecord(l, r, ceiling, before);
        if !(r.ran && r.cost.None?) {
          MeasureKeepsTheInvariant(cases[1..], runs[1..], ceiling, before,
                                   Loop(l.records + [r], l.spend + CostOf(r), 0, None));
        }
      }
    }
  }

  lemma StopAtCeiling(l: Loop, ceiling: real, before: real)
    requires LoopInvariant(l, ceiling, before) && l.stopped.None? && before + l.spend >= ceiling
    ensures LoopInvariant(l.(stopped := Some(SpendCeilingReached)), ceiling, before)
  {
  }

  lemma LoopHasNoUnpriced(l: Loop, ceiling: real, before: real)
    requires LoopInvariant(l, ceiling, before) && l.stopped.None?
    ensures l.unpriced == 0
  {
  }

  /**
   In every pass: a case starts only while recorded spend is below the ceiling, at most the
   last record is unpriced, and the pass is complete exactly when it did not stop early.
   */
  lemma PassStartsCasesBelowTheCeiling(cases: seq<Case>, runs: seq<CaseRun>, ceiling: real, before: real,
                                       code: Option<Code>, measured: bool)
    requires |cases| == |runs|
    ensures var p := RoutingPass(cases, runs, ceiling, before, code, measured);
            && (forall i :: 0 <= i < |p.records| ==> before + Spent(p.records[..i]) < ceiling)
            && (forall i :: 0 <= i < |p.records| - 1 && p.records[i].ran ==> p.records[i].cost.Some?)
            && (p.complete <==> p.stopped.None?)
            && (p.complete ==> |p.records| == |cases|)
            && p.cost == RoundMicro(Spent(p.records))
            && (p.stopped == Some(SpendCeilingReached) ==> before + Spent(p.records) >= ceiling)
            && (p.stopped == Some(CaseUnpriced) <==> exists i :: 0 <= i < |p.records| && p.records[i].ran && p.records[i].cost.None?)
            && (p.spendMeasured <==> measured && p.stopped != Some(CaseUnpriced))
            && p.code == code
  {
    hide Percentage, RoundMicro, Measure;
    assert LoopInvariant(EmptyLoop, ceiling, before);
    MeasureKeepsTheInvariant(cases, runs, ceiling, before, EmptyLoop);
    var end := Measure(cases, runs, ceiling, before, EmptyLoop);
    if forall i :: 0 <= i < |end.records| && end.records[i].ran ==> end.records[i].cost.Some? {
      assert end.unpriced == 0;
    } else {
      var i :| 0 <= i < |end.records| && end.records[i].ran && !end.records[i].cost.Some?;
      assert end.unpriced == 1;
      match end.stopped {
        case None =>
        case Some(SpendCeilingReached) =>
        case Some(CaseUnpriced) =>
      }
      var p := RoutingPass(cases, runs, ceiling, before, code, measured);
      assert p.records[i].ran && p.records[i].cost.None?;
    }
  }

  ghost predicate CostsWithin(runs: seq<CaseRun>, most: real) {
    forall r: CaseRun :: r in runs && r.cost.Some? ==> r.cost.value <= most
  }

  ghost predicate RecordsWithin(records: seq<Record>, most: real) {
    forall r: Record :: r in records ==> CostOf(r) <= most
  }

  lemma {:induction false} MeasuredCostsWithin(cases: seq<Case>, runs: seq<CaseRun>, ceiling: real, before: real, l: Loop,
                                               most: real)
    requires |cases| == |runs| && CostsWithin(runs, most) && RecordsWithin(l.records, most) && most >= 0.0
    ensures RecordsWithin(Measure(cases, runs, ceiling, before, l).records, most)
    decreases |cases|
  {
    if cases != [] && before + l.spend < ceiling {
      assert runs[0] in runs;
      var r := if cases[0].offered then Ran(cases[0], runs[0]) else NotOffered(cases[0]);
      assert RecordsWithin(l.records + [r], most);
      if !(r.ran && r.cost.None?) {
        assert CostsWithin(runs[1..], most);
        MeasuredCostsWithin(cases[1..], runs[1..], ceiling, before, Loop(l.records + [r], l.spend + CostOf(r), l.unpriced, l.stopped), most);
      }
    }
  }

  /** A pass that spends anything overruns the ceiling by less than its dearest case. */
  lemma PassSpendIsBounded(cases: seq<Case>, runs: seq<CaseRun>, ceiling: real, before: real, code: Option<Code>,
                           measured: bool, most: real)
    requires |cases| == |runs| && CostsWithin(runs, most) && most >= 0.0
    ensures var p := RoutingPass(cases, runs, ceiling, before, code, measured);
            p.records == [] || before + Spent(p.records) < ceiling + most
  {
    hide Percentage, RoundMicro, Measure;
    PassStartsCasesBelowTheCeiling(cases, runs, ceiling, before, code, measured);
    MeasuredCostsWithin(cases, runs, ceiling, before, EmptyLoop, most);
    var p := RoutingPass(cases, runs, ceiling, before, code, measured);
    if p.records != [] {
      var last := p.records[|p.records| - 1];
      assert last in p.records && CostOf(last) <= most;
    }
  }

  // ----- all passes of one invocation

  /** What each pass of the invocation meets: the code it reads and what its cases did. */
  datatype Attempt = Attempt(code: Option<Code>, runs: seq<CaseRun>)

  function RecordedSpend(passes: seq<Pass>): real {
    if passes == [] then 0.0 else RecordedSpend(passes[..|passes| - 1]) + passes[|passes| - 1].cost
  }

  function TrueSpend(passes: seq<Pass>): real {
    if passes == [] then 0.0 else TrueSpend(passes[..|passes| - 1]) + Spent(passes[|passes| - 1].records)
  }

  predicate Fits(cases: seq<Case>, attempts: seq<Attempt>) {
    forall a :: a in attempts ==> |a.runs| == |cases|
  }

  /** The pass loop: every pass counts what earlier passes recorded against the same ceiling. */
  function Invocation(cases: seq<Case>, attempts: seq<Attempt>, ceiling: real): (passes: seq<Pass>)
    requires Fits(cases, attempts)
    ensures |passes| == |attempts|
  {
    if attempts == [] then []
    else
      var n := |attempts| - 1;
      assert attempts[n] in attempts;
      var earlier := Invocation(cases, attempts[..n], ceiling);
      earlier + [RoutingPass(cases, attempts[n].runs, ceiling, RecordedSpend(earlier), attempts[n].code, true)]
  }

  method GenerateRuns(cases: seq<Case>, attempts: seq<Attempt>, ceiling: real) returns (recorded: seq<Pass>, spent: real)
    requires Fits(cases, attempts)
    ensures recorded == Invocation(cases, attempts, ceiling)
    ensures spent == RecordedSpend(recorded)
  {
    hide RoutingPass;
    recorded, spent := [], 0.0;
    for i := 0 to |attempts|
      invariant recorded == Invocation(cases, attempts[..i], ceiling)
      invariant spent == RecordedSpend(recorded)
    {
      assert attempts[..i + 1][..i] == attempts[..i] && attempts[i] in attempts;
      ghost var earlier := recorded;
      var p := RunRoutingPass(cases, attempts[i].runs, ceiling, spent, attempts[i].code, true);
      recorded := recorded + [p];
      spent := spent + p.cost;
      assert recorded[..|recorded| - 1] == earlier;
    }
    assert attempts[..|attempts|] == attempts;
  }

  /** Recording each pass to six decimals drifts by at most half a unit per pass. */
  lemma {:induction false} RecordedSpendDrifts(cases: seq<Case>, attempts: seq<Attempt>, ceiling: real)
    requires Fits(cases, attempts)
    ensures var passes := Invocation(cases, attempts, ceiling);
            && TrueSpend(passes) - RecordedSpend(passes) <= |passes| as real * HALF_MICRO
            && RecordedSpend(passes) - TrueSpend(passes) <= |passes| as real * HALF_MICRO
  {
    hide RoutingPass;
    if attempts != [] {
      var n := |attempts| - 1;
      assert attempts[n] in attempts;
      RecordedSpendDrifts(cases, attempts[..n], ceiling);
      var earlier := Invocation(cases, attempts[..n], ceiling);
      var passes := Invocation(cases, attempts, ceiling);
      assert passes[..n] == earlier;
      PassStartsCasesBelowTheCeiling(cases, attempts[n].runs, ceiling, RecordedSpend(earlier), attempts[n].code, true);
      assert (n + 1) as real * HALF_MICRO == n as real * HALF_MICRO + HALF_MICRO;
    }
  }

  /**
   Across every invocation, what was truly spent stays below the ceiling plus one dearest
   case plus half a unit of recording error per earlier pass.
   */
  lemma {:induction false} InvocationSpendIsBounded(cases: seq<Case>, attempts: seq<Attempt>, ceiling: real, most: real)
    requires Fits(cases, attempts) && ceiling > 0.0 && most >= 0.0
    requires forall a :: a in attempts ==> CostsWithin(a.runs, most)
    ensures var passes := Invocation(cases, attempts, ceiling);
            var earlier := if passes == [] then 0 else |passes| - 1;
            TrueSpend(passes) < ceiling + most + earlier as real * HALF_MICRO
  {
    hide RoutingPass, CostsWithin;
    if attempts != [] {
      var n := |attempts| - 1;
      var a := attempts[n];
      assert a in attempts;
      var earlier := Invocation(cases, attempts[..n], ceiling);
      var passes := Invocation(cases, attempts, ceiling);
      assert passes[..n] == earlier;
      InvocationSpendIsBounded(cases, attempts[..n], ceiling, most);
      RecordedSpendDrifts(cases, attempts[..n], ceiling);
      PassSpendIsBounded(cases, a.runs, ceiling, RecordedSpend(earlier), a.code, true, most);
      Scaled(n);
    }
  }

  lemma Scaled(n: nat)
    ensures n > 0 ==> (n - 1) as real * HALF_MICRO <= n as real * HALF_MICRO
    ensures n as real * HALF_MICRO >= 0.0
  {
  }

  // ----- the verdict

  datatype Reason =
    | FewerThanRequiredRuns
    | RunIncomplete
    | RunsDisagreeOnCode
    | CleanVersionBindingMissing
    | RunsDisagreeOnPopulation
    | OverallBelowThreshold
    | ProtectedBelowThreshold
    | SpendNotMeasured

  function Codes(runs: seq<Pass>, bound: Option<Code>): set<Option<Code>> {
    (set r | r in runs :: r.code) + (if bound.Some? then {bound} else {})
  }

  function Ids(records: seq<Record>): multiset<nat> {
    if records == [] then multiset{} else Ids(records[..|records| - 1]) + multiset{records[|records| - 1].id}
  }

  function Populations(runs: seq<Pass>): set<multiset<nat>> {
    set r | r in runs :: Ids(r.records)
  }

  predicate Below(share: Option<real>, threshold: real) {
    share.None? || share.value < threshold
  }

  predicate AnyIncomplete(runs: seq<Pass>) {
    exists r :: r in runs && !r.complete
  }

  predicate AnyUnbound(runs: seq<Pass>) {
    exists r :: r in runs && r.code.None?
  }

  predicate AnyUnclean(runs: seq<Pass>) {
    exists r :: r in runs && (r.code.None? || r.code.value.dirty)
  }

  predicate AnyOverallBelow(runs: seq<Pass>) {
    exists r :: r in runs && Below(r.overall, OVERALL_THRESHOLD)
  }

  predicate AnyProtectedBelow(runs: seq<Pass>) {
    exists r :: r in runs && Below(r.protectedShare, PROTECTED_THRESHOLD)
  }

  predicate AnyUnmeasured(runs: seq<Pass>) {
    exists r :: r in runs && !r.spendMeasured
  }

  /** The rules in order, each with whether it is broken. */
  function Rules(runs: seq<Pass>, required: nat, bound: Option<Code>): seq<(bool, Reason)> {
    [(|runs| < required, FewerThanRequiredRuns),
     (AnyIncomplete(runs), RunIncomplete),
     (|Codes(runs, bound)| > 1 || AnyUnbound(runs), RunsDisagreeOnCode),
     (AnyUnclean(runs), CleanVersionBindingMissing),
     (|Populations(runs)| > 1, RunsDisagreeOnPopulation),
     (AnyOverallBelow(runs), OverallBelowThreshold),
     (AnyProtectedBelow(runs), ProtectedBelowThreshold),
     (AnyUnmeasured(runs), SpendNotMeasured)]
  }

  function Broken(rules: seq<(bool, Reason)>): seq<Reason> {
    if rules == [] then []
    else Broken(rules[..|rules| - 1]) + (if rules[|rules| - 1].0 then [rules[|rules| - 1].1] else [])
  }

  /** `routing_verdict` as a function: every reason, in order. */
  function Reasons(runs: seq<Pass>, required: nat, bound: Option<Code>): seq<Reason> {
    Broken(Rules(runs, required, bound))
  }

  lemma {:induction false} BrokenIsExact(rules: seq<(bool, Reason)>, reason: Reason)
    ensures reason in Broken(rules) <==> exists k :: 0 <= k < |rules| && rules[k].0 && rules[k].1 == reason
  {
    if rules != [] {
      var front := rules[..|rules| - 1];
      BrokenIsExact(front, reason);
      assert forall k :: 0 <= k < |front| ==> front[k] == rules[k];
    }
  }

  lemma NoneBroken(rules: seq<(bool, Reason)>)
    ensures Broken(rules) == [] <==> forall k :: 0 <= k < |rules| ==> !rules[k].0
  {
    hide Broken;
    if Broken(rules) != [] {
      BrokenIsExact(rules, Broken(rules)[0]);
    }
    forall k | 0 <= k < |rules| && rules[k].0 ensures Broken(rules) != [] {
      BrokenIsExact(rules, rules[k].1);
    }
  }

  /** The routing verdict's checks, appended one by one. */
  method RoutingVerdict(runs: seq<Pass>, required: nat, bound: Option<Code>) returns (reasons: seq<Reason>)
    ensures reasons == Reasons(runs, required, bound)
  {
    var rules := Rules(runs, required, bound);
    reasons := [];
    for k := 0 to |rules|
      invariant reasons == Broken(rules[..k])
    {
      assert rules[..k + 1][..k] == rules[..k];
      if rules[k].0 {
        reasons := reasons + [rules[k].1];
      }
    }
    assert rules[..|rules|] == rules;
  }

  datatype Verdict = Passed | Excepted | Blocked

  function VerdictOf(reasons: seq<Reason>, exceptionValid: bool): Verdict {
    if reasons == [] then Passed else if exceptionValid then Excepted else Blocked
  }

  /** Stopping early, for either cause and in any pass, rules out `passed`, exception or not. */
  lemma EarlyStopNeverPasses(cases: seq<Case>, attempts: seq<Attempt>, ceiling: real, required: nat, bound: Option<Code>,
                             exceptionValid: bool, j: nat)
    requires Fits(cases, attempts) && j < |attempts|
    requires Invocation(cases, attempts, ceiling)[j].stopped.Some?
    ensures VerdictOf(Reasons(Invocation(cases, attempts, ceiling), required, bound), exceptionValid) != Passed
  {
    hide Invocation, Percentage, Rules, Broken, Count;
    var passes := Invocation(cases, attempts, ceiling);
    PassesDescribeTheirCases(cases, attempts, ceiling, j);
    assert passes[j] in passes && !passes[j].complete;
    NoReasonIff(passes, required, bound);
  }

  /** Pass `j` of an invocation, with what the passes before it recorded. */
  lemma {:induction false} PassAt(cases: seq<Case>, attempts: seq<Attempt>, ceiling: real, j: nat)
    requires Fits(cases, attempts) && j < |attempts|
    ensures attempts[j] in attempts && Fits(cases, attempts[..j])
    ensures Invocation(cases, attempts, ceiling)[j] ==
            RoutingPass(cases, attempts[j].runs, ceiling, RecordedSpend(Invocation(cases, attempts[..j], ceiling)),
                        attempts[j].code, true)
  {
    hide RoutingPass, RecordedSpend;
    var n := |attempts| - 1;
    if j < n {
      PassAt(cases, attempts[..n], ceiling, j);
      assert attempts[..n][..j] == attempts[..j];
    }
  }

  /** A case that is offered carries its own verdict and cost and counts if it is allowed; any other never ran. */
  predicate IsTheRecordOf(r: Record, c: Case, run: CaseRun) {
    && r.id == c.id && r.protected == c.protected
    && (r.ran <==> c.offered) && (r.counted <==> c.offered && c.allowed)
    && (r.passed <==> c.offered && run.passed)
    && r.cost == if c.offered then run.cost else None
  }

  lemma RecordedIsTheRecord(c: Case, run: CaseRun)
    ensures IsTheRecordOf(Recorded(c, run), c, run)
  {
  }

  /** What every pass of every invocation reports about its cases. */
  lemma PassesDescribeTheirCases(cases: seq<Case>, attempts: seq<Attempt>, ceiling: real, j: nat)
    requires Fits(cases, attempts) && j < |attempts|
    ensures attempts[j] in attempts
    ensures var p := Invocation(cases, attempts, ceiling)[j];
            && (p.complete <==> p.stopped.None?)
            && |p.records| <= |cases| && (p.complete ==> |p.records| == |cases|)
            && (forall i :: 0 <= i < |p.records| ==> IsTheRecordOf(p.records[i], cases[i], attempts[j].runs[i]))
            && p.overall == Percentage(Count(p.records, IsCountedPass), Count(p.records, IsCounted))
            && p.protectedShare == Percentage(Count(p.records, IsProtectedPass), Count(p.records, IsProtected))
  {
    hide Invocation, Percentage, RoutingPass, Count, Recorded, RecordedSpend;
    PassAt(cases, attempts, ceiling, j);
    var before := RecordedSpend(Invocation(cases, attempts[..j], ceiling));
    PassDescribesItsCases(cases, attempts[j].runs, ceiling, before, attempts[j].code, true);
  }

  lemma PassDescribesItsCases(cases: seq<Case>, runs: seq<CaseRun>, ceiling: real, before: real, code: Option<Code>,
                              measured: bool)
    requires |cases| == |runs|
    ensures var p := RoutingPass(cases, runs, ceiling, before, code, measured);
            && (p.complete <==> p.stopped.None?)
            && |p.records| <= |cases| && (p.complete ==> |p.records| == |cases|)
            && (forall i :: 0 <= i < |p.records| ==> IsTheRecordOf(p.records[i], cases[i], runs[i]))
            && p.overall == Percentage(Count(p.records, IsCountedPass), Count(p.records, IsCounted))
            && p.protectedShare == Percentage(Count(p.records, IsProtectedPass), Count(p.records, IsProtected))
  {
    hide Percentage, Measure, Count, Recorded, Spent;
    MeasureFollowsTheCases(cases, runs, ceiling, before, EmptyLoop);
    PassStartsCasesBelowTheCeiling(cases, runs, ceiling, before, code, measured);
    var p := RoutingPass(cases, runs, ceiling, before, code, measured);
    forall i | 0 <= i < |p.records| ensures IsTheRecordOf(p.records[i], cases[i], runs[i]) {
      assert p.records[|EmptyLoop.records| + i] == Recorded(cases[i], runs[i]);
      RecordedIsTheRecord(cases[i], runs[i]);
    }
  }

  lemma {:induction false} CountAtMost(records: seq<Record>, p: Record -> bool, q: Record -> bool)
    requires forall r :: p(r) ==> q(r)
    ensures Count(records, p) <= Count(records, q)
    ensures Count(records, p) == Count(records, q) ==> forall r :: r in records && q(r) ==> p(r)
  {
    if records != [] {
      var front := records[..|records| - 1];
      CountAtMost(front, p, q);
      assert records == front + [records[|records| - 1]];
    }
  }

  /** Cases that count: offered to the chat path and on an allowed capability. */
  ghost function CountedCases(cases: seq<Case>): set<nat> {
    set i: nat | i < |cases| && cases[i].offered && cases[i].allowed
  }

  ghost function ProtectedCases(cases: seq<Case>): set<nat> {
    set i: nat | i < |cases| && cases[i].offered && cases[i].allowed && cases[i].protected
  }

  ghost function PassedCases(cases: seq<Case>, runs: seq<CaseRun>): set<nat>
    requires |cases| == |runs|
  {
    set i: nat | i < |cases| && cases[i].offered && cases[i].allowed && runs[i].passed
  }

  /** Counting records is counting the cases they stand for. */
  lemma {:induction false} CountIsACount(records: seq<Record>, p: Record -> bool, which: set<nat>)
    requires forall i: nat :: i in which <==> i < |records| && p(records[i])
    ensures Count(records, p) == |which|
  {
    if records == [] {
      assert which == {};
    } else {
      var n: nat := |records| - 1;
      var front := records[..n];
      forall i: nat ensures i in which - {n} <==> i < |front| && p(front[i]) {
      }
      CountIsACount(front, p, which - {n});
      if n in which {
        assert which == which - {n} + {n};
      } else {
        assert which == which - {n};
      }
    }
  }

  /**
   A `passed` verdict means what the thresholds say, case by case: the required number of
   complete passes, in each of them every protected case passed and at least nine tenths of all
   counted cases, for every population small enough for the rounded percentages to be exact.
   */
  lemma PassedMeansTheThresholdsHold(cases: seq<Case>, attempts: seq<Attempt>, ceiling: real, required: nat,
                                     bound: Option<Code>, j: nat)
    requires Fits(cases, attempts) && j < |attempts|
    requires Reasons(Invocation(cases, attempts, ceiling), required, bound) == []
    ensures attempts[j] in attempts && |attempts| >= required
    ensures Invocation(cases, attempts, ceiling)[j].complete
    ensures ProtectedCases(cases) != {} && CountedCases(cases) != {}
    ensures |ProtectedCases(cases)| < 20000 ==> forall i :: i in ProtectedCases(cases) ==> attempts[j].runs[i].passed
    ensures var counted := |CountedCases(cases)|;
            counted < 2000 * SmallestShortfall(counted) ==> 10 * |PassedCases(cases, attempts[j].runs)| >= 9 * counted
  {
    hide Invocation, Percentage, Rules, Broken, Count, SmallestShortfall;
    var passes := Invocation(cases, attempts, ceiling);
    var p := passes[j];
    assert p in passes;
    NoReasonIff(passes, required, bound);
    PassesDescribeTheirCases(cases, attempts, ceiling, j);
    var guarded, counted := Count(p.records, IsProtected), Count(p.records, IsCounted);
    CountIsACount(p.records, IsProtected, ProtectedCases(cases));
    CountIsACount(p.records, IsCounted, CountedCases(cases));
    CountIsACount(p.records, IsCountedPass, PassedCases(cases, attempts[j].runs));
    NothingToMeasure(Count(p.records, IsProtectedPass), guarded);
    NothingToMeasure(Count(p.records, IsCountedPass), counted);
    ProtectedBarIsExactIff(guarded);
    OverallBarIsExactIff(counted);
    CountAtMost(p.records, IsProtectedPass, IsProtected);
    forall i | i in ProtectedCases(cases) && guarded < 20000 ensures attempts[j].runs[i].passed {
      assert p.records[i] in p.records && IsProtected(p.records[i]);
    }
  }

  lemma NothingToMeasure(n: nat, d: nat)
    ensures Percentage(n, d).None? <==> d == 0
  {
  }

  /** No reason at all is the conjunction of every rule. */
  lemma NoReasonIff(runs: seq<Pass>, required: nat, bound: Option<Code>)
    ensures Reasons(runs, required, bound) == [] <==>
              && |runs| >= required
              && (forall r :: r in runs ==> r.complete && r.spendMeasured)
              && (forall r :: r in runs ==> r.code.Some? && !r.code.value.dirty)
              && (forall r, s :: r in runs && s in runs ==> r.code == s.code && Ids(r.records) == Ids(s.records))
              && (bound.Some? ==> forall r :: r in runs ==> r.code == bound)
              && (forall r :: r in runs ==> !Below(r.overall, OVERALL_THRESHOLD))
              && (forall r :: r in runs ==> !Below(r.protectedShare, PROTECTED_THRESHOLD))
  {
    hide Ids, Below, Codes, Populations, Broken;
    CodesDisagreeIff(runs, bound);
    PopulationsDisagreeIff(runs);
    var rules := Rules(runs, required, bound);
    NoneBroken(rules);
    assert |rules| == 8;
    assert (forall k :: 0 <= k < 8 ==> !rules[k].0) <==>
             !rules[0].0 && !rules[1].0 && !rules[2].0 && !rules[3].0 && !rules[4].0 && !rules[5].0 && !rules[6].0 && !rules[7].0;
  }

  lemma OneAtMostIff<T>(s: set<T>)
    ensures |s| > 1 <==> exists a, b :: a in s && b in s && a != b
  {
    if |s| > 1 {
      var a :| a in s;
      assert |s - {a}| > 0;
      var b :| b in s - {a};
    } else {
      forall a, b | a in s && b in s ensures a == b {
        assert |s - {a}| == 0;
        assert s - {a} == {};
      }
    }
  }

  lemma {:induction false} IdsAreCounted(records: seq<Record>, x: nat, which: set<nat>)
    requires forall i: nat :: i in which <==> i < |records| && records[i].id == x
    ensures Ids(records)[x] == |which|
  {
    if records == [] {
      assert which == {};
    } else {
      var n: nat := |records| - 1;
      var front := records[..n];
      forall i: nat ensures i in which - {n} <==> i < |front| && front[i].id == x {
      }
      IdsAreCounted(front, x, which - {n});
      if n in which {
        assert which == which - {n} + {n};
      } else {
        assert which == which - {n};
      }
    }
  }

  /** Each reason is given exactly when its own rule is broken. */
  lemma ReasonsAreExact(runs: seq<Pass>, required: nat, bound: Option<Code>)
    ensures var reasons := Reasons(runs, required, bound);
            && (FewerThanRequiredRuns in reasons <==> |runs| < required)
            && (RunIncomplete in reasons <==> exists r :: r in runs && !r.complete)
            && (RunsDisagreeOnCode in reasons <==>
                  (exists r :: r in runs && r.code.None?)
                  || (exists r, s :: r in runs && s in runs && r.code != s.code)
                  || (bound.Some? && exists r :: r in runs && r.code != bound))
            && (CleanVersionBindingMissing in reasons <==> exists r :: r in runs && (r.code.None? || r.code.value.dirty))
            && (RunsDisagreeOnPopulation in reasons <==>
                  exists r, s :: r in runs && s in runs && Ids(r.records) != Ids(s.records))
            && (OverallBelowThreshold in reasons <==>
                  exists r :: r in runs && (r.overall.None? || r.overall.value < 90.0))
            && (ProtectedBelowThreshold in reasons <==>
                  exists r :: r in runs && (r.protectedShare.None? || r.protectedShare.value < 100.0))
            && (SpendNotMeasured in reasons <==> exists r :: r in runs && !r.spendMeasured)
  {
    hide Ids, Codes, Populations, Broken;
    CodesDisagreeIff(runs, bound);
    PopulationsDisagreeIff(runs);
    BrokenAmongEight(|runs| < required, AnyIncomplete(runs), |Codes(runs, bound)| > 1 || AnyUnbound(runs), AnyUnclean(runs),
                     |Populations(runs)| > 1, AnyOverallBelow(runs), AnyProtectedBelow(runs), AnyUnmeasured(runs));
  }

  lemma BrokenAmongEight(a: bool, b: bool, c: bool, d: bool, e: bool, f: bool, g: bool, h: bool)
    ensures var rules := [(a, FewerThanRequiredRuns), (b, RunIncomplete), (c, RunsDisagreeOnCode),
                          (d, CleanVersionBindingMissing), (e, RunsDisagreeOnPopulation), (f, OverallBelowThreshold),
                          (g, ProtectedBelowThreshold), (h, SpendNotMeasured)];
            && (FewerThanRequiredRuns in Broken(rules) <==> a) && (RunIncomplete in Broken(rules) <==> b)
            && (RunsDisagreeOnCode in Broken(rules) <==> c) && (CleanVersionBindingMissing in Broken(rules) <==> d)
            && (RunsDisagreeOnPopulation in Broken(rules) <==> e) && (OverallBelowThreshold in Broken(rules) <==> f)
            && (ProtectedBelowThreshold in Broken(rules) <==> g) && (SpendNotMeasured in Broken(rules) <==> h)
  {
    hide Broken;
    var rules := [(a, FewerThanRequiredRuns), (b, RunIncomplete), (c, RunsDisagreeOnCode),
                  (d, CleanVersionBindingMissing), (e, RunsDisagreeOnPopulation), (f, OverallBelowThreshold),
                  (g, ProtectedBelowThreshold), (h, SpendNotMeasured)];
    forall k | 0 <= k < 8 ensures rules[k].1 in Broken(rules) <==> rules[k].0 {
      BrokenIsExact(rules, rules[k].1);
    }
    assert rules[0].1 == FewerThanRequiredRuns && rules[1].1 == RunIncomplete && rules[2].1 == RunsDisagreeOnCode;
    assert rules[3].1 == CleanVersionBindingMissing && rules[4].1 == RunsDisagreeOnPopulation;
    assert rules[5].1 == OverallBelowThreshold && rules[6].1 == ProtectedBelowThreshold && rules[7].1 == SpendNotMeasured;
  }

  lemma CodesDisagreeIff(runs: seq<Pass>, bound: Option<Code>)
    ensures |Codes(runs, bound)| > 1 <==>
              (exists r, s :: r in runs && s in runs && r.code != s.code)
              || (bound.Some? && exists r :: r in runs && r.code != bound)
  {
    OneAtMostIff(Codes(runs, bound));
    assert forall r :: r in runs ==> r.code in Codes(runs, bound);
    assert bound.Some? ==> bound in Codes(runs, bound);
  }

  lemma PopulationsDisagreeIff(runs: seq<Pass>)
    ensures |Populations(runs)| > 1 <==> exists r, s :: r in runs && s in runs && Ids(r.records) != Ids(s.records)
  {
    hide Ids;
    OneAtMostIff(Populations(runs));
    assert forall r :: r in runs ==> Ids(r.records) in Populations(runs);
  }

  /** Without a reason the verdict is passed; with one, a valid exception decides between excepted and blocked. */
  lemma VerdictIs(cases: seq<Case>, attempts: seq<Attempt>, ceiling: real, required: nat, bound: Option<Code>,
                  exceptionValid: bool)
    requires Fits(cases, attempts)
    ensures var reasons := Reasons(Invocation(cases, attempts, ceiling), required, bound);
            var v := VerdictOf(reasons, exceptionValid);
            && (v == Passed <==> reasons == [])
            && (v == Excepted <==> reasons != [] && exceptionValid)
            && (v == Blocked <==> reasons != [] && !exceptionValid)
  {
  }
}
