/**
 The governed lexicographic solve: minimise unmet hours, lock that value as a
 constraint, minimise cost, and fall back to the round-one snapshot.

 CP-SAT is an oracle: a function of the model it is asked about and of the
 parameters it is given. Every theorem quantifies over all sound oracles and all
 monotone clocks. The clock is read by position: reading `k` is `clock(k)`.
 */
module GovernedSolve {
  import opened Basics

  /** A solution vector, one value per model variable. */
  type Assignment = seq<int>

  /** What `CpSatBuilder` hands over: hard constraints and the two objectives. */
  datatype Problem = Problem(
    variables: nat,
    feasible: Assignment -> bool,
    unmet: Assignment -> int,
    cost: Assignment -> int)

  datatype Objective = Unmet | Cost

  /** The solver-facing model: base constraints plus what the two rounds add to it. */
  datatype CpModel = CpModel(objective: Objective, unmetBounds: seq<int>, hint: Option<Assignment>)

  datatype Status = OPTIMAL | FEASIBLE | INFEASIBLE | MODEL_INVALID | UNKNOWN

  datatype Response = Response(
    status: Status,
    solution: Assignment,
    objectiveValue: real,
    deterministicTime: real)

  datatype Params = Params(wall: real, deterministic: Option<real>, workers: nat, seed: int)

  datatype Config = Config(
    wallLimit: real,
    deterministicLimit: Option<real>,
    workers: nat,
    seed: int)

  datatype Env = Env(oracle: (CpModel, Params) -> Response, clock: nat -> real)

  datatype Float = NaN | Finite(value: real)

  datatype Reason = DeterministicBudgetExhausted

  datatype Ceiling = Wall | Deterministic

  datatype LexResult = LexResult(
    status: Status,
    round1: Float,
    round2: Float,
    wallTime: real,
    snapshot: Option<Assignment>,
    reason: Option<Reason>)

  /** One `Solve` call: what was asked, when the budget was read, and the answer. */
  datatype SolveCall = SolveCall(model: CpModel, params: Params, readAt: real, response: Response)

  datatype Run = Run(result: LexResult, calls: seq<SolveCall>)

  // ----- the oracle's promise

  ghost predicate Satisfies(p: Problem, m: CpModel, a: Assignment) {
    && |a| == p.variables
    && p.feasible(a)
    && forall b :: b in m.unmetBounds ==> p.unmet(a) <= b
  }

  function Evaluate(p: Problem, o: Objective, a: Assignment): int {
    match o
    case Unmet => p.unmet(a)
    case Cost => p.cost(a)
  }

  predicate Solved(s: Status) {
    s == OPTIMAL || s == FEASIBLE
  }

  ghost predicate SoundResponse(p: Problem, m: CpModel, r: Response) {
    && (Solved(r.status) ==>
          Satisfies(p, m, r.solution)
          && r.objectiveValue == Evaluate(p, m.objective, r.solution) as real)
    && (r.status == OPTIMAL ==>
          forall a :: Satisfies(p, m, a) ==> Evaluate(p, m.objective, r.solution) <= Evaluate(p, m.objective, a))
    && (r.status == INFEASIBLE ==> forall a :: !Satisfies(p, m, a))
  }

  ghost predicate Sound(p: Problem, env: Env) {
    && (forall m, q :: SoundResponse(p, m, env.oracle(m, q)))
    && (forall i: nat, j: nat :: i <= j ==> env.clock(i) <= env.clock(j))
  }

  /** An oracle that, granted a positive deterministic time, reports no more than it was granted. */
  ghost predicate HonoursDeterministicLimit(env: Env) {
    forall m, q: Params :: q.deterministic.Some? && q.deterministic.value > 0.0 ==>
      env.oracle(m, q).deterministicTime <= q.deterministic.value
  }

  // ----- what the code computes

  datatype Budget = Granted(params: Params) | Exhausted(ceiling: Ceiling)

  /** The budget left at clock reading `now`, wall ceiling first. */
  function RemainingBudget(cfg: Config, started: real, now: real, used: real): Budget {
    var wall := cfg.wallLimit - (now - started);
    if wall <= 0.0 then Exhausted(Wall)
    else match cfg.deterministicLimit
         case None => Granted(Params(wall, None, cfg.workers, cfg.seed))
         case Some(limit) =>
           if limit - used <= 0.0 then Exhausted(Deterministic)
           else Granted(Params(wall, Some(limit - used), cfg.workers, cfg.seed))
  }

  function ReasonFor(c: Ceiling): Option<Reason> {
    match c
    case Wall => None
    case Deterministic => Some(DeterministicBudgetExhausted)
  }

  /** A hint is seeded only when the snapshot has one value per variable. */
  function Seeded(p: Problem, snapshot: Assignment): Option<Assignment> {
    if |snapshot| == p.variables then Some(snapshot) else None
  }

  const RoundOneModel := CpModel(Unmet, [], None)

  function RoundTwoModel(p: Problem, first: Response): CpModel {
    CpModel(Cost, [RoundHalfEven(first.objectiveValue)], Seeded(p, first.solution))
  }

  /** The whole governed solve as a function of the oracle and the clock. */
  function LexRun(p: Problem, cfg: Config, env: Env): Run {
    var started := env.clock(0);
    match RemainingBudget(cfg, started, env.clock(1), 0.0)
    case Exhausted(c) =>
      Run(LexResult(UNKNOWN, NaN, NaN, env.clock(2) - started, None, ReasonFor(c)), [])
    case Granted(q1) =>
      var first := env.oracle(RoundOneModel, q1);
      var call1 := SolveCall(RoundOneModel, q1, env.clock(1), first);
      if !Solved(first.status) then
        Run(LexResult(first.status, NaN, NaN, env.clock(2) - started, None, None), [call1])
      else RoundTwo(p, cfg, env, call1)
  }

  /** Lock the round-one value, minimise cost, and fall back to the snapshot. */
  function RoundTwo(p: Problem, cfg: Config, env: Env, call1: SolveCall): Run {
    var started, first := env.clock(0), call1.response;
    var fallbackCost := Finite(p.cost(first.solution) as real);
    match RemainingBudget(cfg, started, env.clock(2), first.deterministicTime)
    case Exhausted(c) =>
      Run(LexResult(UNKNOWN, Finite(first.objectiveValue), fallbackCost,
                    env.clock(3) - started, Some(first.solution), ReasonFor(c)),
          [call1])
    case Granted(q2) =>
      var model2 := RoundTwoModel(p, first);
      var second := env.oracle(model2, q2);
      var calls := [call1, SolveCall(model2, q2, env.clock(2), second)];
      if !Solved(second.status) then
        Run(LexResult(second.status, Finite(first.objectiveValue), fallbackCost,
                      env.clock(3) - started, Some(first.solution), None),
            calls)
      else
        Run(LexResult(second.status, Finite(first.objectiveValue), Finite(second.objectiveValue),
                      env.clock(3) - started, None, None),
            calls)
  }

  /** The vector `_GovernedLexResult.value` reads: the snapshot, else the solver's last solution. */
  function Published(r: Run): (a: Assignment)
    requires r.result.snapshot.Some? || r.calls != []
  {
    if r.result.snapshot.Some? then r.result.snapshot.value
    else r.calls[|r.calls| - 1].response.solution
  }

  // ----- the solver object

  /** The mutable solver and model, driven in the order the source drives them. */
  class Solver {
    const problem: Problem
    const env: Env
    var readings: nat
    var model: CpModel
    var params: Params
    var response: Response
    ghost var calls: seq<SolveCall>
    ghost var lastReading: real

    constructor (p: Problem, e: Env)
      ensures problem == p && env == e && readings == 0 && calls == []
    {
      problem, env := p, e;
      readings, calls, lastReading := 0, [], 0.0;
      model := CpModel(Unmet, [], None);
      params := Params(0.0, None, 0, 0);
      response := Response(UNKNOWN, [], 0.0, 0.0);
    }

    method PerfCounter() returns (t: real)
      modifies this`readings, this`lastReading
      ensures t == env.clock(old(readings)) == lastReading && readings == old(readings) + 1
    {
      t := env.clock(readings);
      readings, lastReading := readings + 1, t;
    }

    method Solve() returns (s: Status)
      modifies this`response, this`calls
      ensures response == env.oracle(model, params) && s == response.status
      ensures calls == old(calls) + [SolveCall(model, params, lastReading, response)]
    {
      response := env.oracle(model, params);
      calls := calls + [SolveCall(model, params, lastReading, response)];
      s := response.status;
    }

    method ApplyRemainingBudget(cfg: Config, started: real, used: real) returns (exhausted: Option<Ceiling>)
      requires params.workers == cfg.workers && params.seed == cfg.seed
      modifies this`readings, this`lastReading, this`params
      ensures readings == old(readings) + 1 && lastReading == env.clock(old(readings))
      ensures params.workers == cfg.workers && params.seed == cfg.seed
      ensures match RemainingBudget(cfg, started, env.clock(old(readings)), used)
              case Exhausted(c) => exhausted == Some(c)
              case Granted(q) => exhausted == None && params == q
    {
      var now := PerfCounter();
      var wallRemaining := cfg.wallLimit - (now - started);
      if wallRemaining <= 0.0 {
        return Some(Wall);
      }
      params := params.(wall := wallRemaining);
      if cfg.deterministicLimit.Some? {
        var remaining := cfg.deterministicLimit.value - used;
        if remaining <= 0.0 {
          return Some(Deterministic);
        }
        params := params.(deterministic := Some(remaining));
      } else {
        params := params.(deterministic := None);
      }
      return None;
    }

    method SolveLexicographicGoverned(cfg: Config) returns (r: LexResult)
      requires readings == 0 && calls == []
      modifies this
      ensures Run(r, calls) == LexRun(problem, cfg, env)
    {
      var started := PerfCounter();
      params := params.(workers := cfg.workers, seed := cfg.seed);
      model := CpModel(Unmet, [], None);
      var exhausted := ApplyRemainingBudget(cfg, started, 0.0);
      if exhausted.Some? {
        var stop := PerfCounter();
        return LexResult(UNKNOWN, NaN, NaN, stop - started, None, ReasonFor(exhausted.value));
      }
      var firstStatus := Solve();
      if !Solved(firstStatus) {
        var stop := PerfCounter();
        return LexResult(firstStatus, NaN, NaN, stop - started, None, None);
      }
      r := SolveForCost(cfg, started);
    }

    /** The second half: the solver holds the round-one solution when this starts. */
    method SolveForCost(cfg: Config, started: real) returns (r: LexResult)
      requires readings == 2 && |calls| == 1 && calls[0].response == response
      requires started == env.clock(0) && model == RoundOneModel
      requires params.workers == cfg.workers && params.seed == cfg.seed
      modifies this
      ensures Run(r, calls) == RoundTwo(problem, cfg, env, old(calls[0]))
    {
      var round1Value := response.objectiveValue;
      var snapshot := response.solution;
      var round1Cost := problem.cost(response.solution);
      var used := response.deterministicTime;

      model := model.(unmetBounds := model.unmetBounds + [RoundHalfEven(round1Value)]);
      model := model.(objective := Cost);
      if |snapshot| == problem.variables {
        model := model.(hint := Some(snapshot));
      }
      var exhausted := ApplyRemainingBudget(cfg, started, used);
      if exhausted.Some? {
        var stop := PerfCounter();
        return LexResult(UNKNOWN, Finite(round1Value), Finite(round1Cost as real),
                         stop - started, Some(snapshot), ReasonFor(exhausted.value));
      }
      assert model == RoundTwoModel(problem, response);
      var secondStatus := Solve();
      var stop := PerfCounter();
      if !Solved(secondStatus) {
        return LexResult(secondStatus, Finite(round1Value), Finite(round1Cost as real),
                         stop - started, Some(snapshot), None);
      }
      return LexResult(secondStatus, Finite(round1Value), Finite(response.objectiveValue),
                       stop - started, None, None);
    }
  }

  // ----- what holds of every run

  ghost predicate IsFeasible(p: Problem, a: Assignment) {
    |a| == p.variables && p.feasible(a)
  }

  /** (unmet, cost) of `a` is lexicographically no larger than that of any feasible assignment. */
  ghost predicate IsLexMinimum(p: Problem, a: Assignment) {
    && IsFeasible(p, a)
    && forall b :: IsFeasible(p, b) ==>
         p.unmet(a) < p.unmet(b) || (p.unmet(a) == p.unmet(b) && p.cost(a) <= p.cost(b))
  }

  /** The lock admits exactly the assignments at least as good as the round-one value. */
  lemma LockIsExact(p: Problem, env: Env, q: Params, a: Assignment)
    requires Sound(p, env)
    ensures var first := env.oracle(RoundOneModel, q);
            Solved(first.status) ==>
              && (Satisfies(p, RoundTwoModel(p, first), a) <==>
                    IsFeasible(p, a) && p.unmet(a) as real <= first.objectiveValue)
              && Satisfies(p, RoundTwoModel(p, first), first.solution)
              && RoundTwoModel(p, first).hint == Some(first.solution)
  {
    var first := env.oracle(RoundOneModel, q);
    assert SoundResponse(p, RoundOneModel, first);
    if Solved(first.status) {
      RoundHalfEvenAgainstInteger(first.objectiveValue, p.unmet(first.solution));
      assert RoundTwoModel(p, first).unmetBounds == [p.unmet(first.solution)];
      assert p.unmet(first.solution) in RoundTwoModel(p, first).unmetBounds;
    }
  }

  /** Every exit path agrees: whatever is read is feasible, no worse than round one, and priced right. */
  lemma EveryExitPublishesAFeasibleSchedule(p: Problem, cfg: Config, env: Env)
    requires Sound(p, env)
    ensures var run := LexRun(p, cfg, env);
            && (run.result.round1.NaN? <==> run.result.round2.NaN?)
            && (run.result.round1.NaN? <==> run.calls == [] || !Solved(run.calls[0].response.status))
            && (run.result.round1.Finite? ==>
                  && run.calls != []
                  && IsFeasible(p, Published(run))
                  && p.unmet(Published(run)) as real <= run.result.round1.value
                  && run.result.round1.value == p.unmet(run.calls[0].response.solution) as real
                  && run.result.round2 == Finite(p.cost(Published(run)) as real))
  {
    var run := LexRun(p, cfg, env);
    if run.result.round1.Finite? {
      var call1 := run.calls[0];
      assert SoundResponse(p, RoundOneModel, call1.response);
      LockIsExact(p, env, call1.params, Published(run));
      if |run.calls| == 2 {
        assert SoundResponse(p, run.calls[1].model, run.calls[1].response);
      }
    }
  }

  /** Round two starts from a schedule that satisfies its own lock, so it is never proved infeasible. */
  lemma RoundTwoIsNeverInfeasible(p: Problem, cfg: Config, env: Env)
    requires Sound(p, env)
    ensures var run := LexRun(p, cfg, env);
            |run.calls| == 2 ==>
              && run.calls[1].response.status != INFEASIBLE
              && run.calls[1].model.hint.Some?
              && Satisfies(p, run.calls[1].model, run.calls[1].model.hint.value)
  {
    var run := LexRun(p, cfg, env);
    if |run.calls| == 2 {
      LockIsExact(p, env, run.calls[0].params, run.calls[0].response.solution);
      assert SoundResponse(p, run.calls[1].model, run.calls[1].response);
    }
  }

  /** Both rounds OPTIMAL: the published schedule is a lexicographic minimum over all feasible ones. */
  lemma BothRoundsOptimalIsLexMinimum(p: Problem, cfg: Config, env: Env)
    requires Sound(p, env)
    ensures var run := LexRun(p, cfg, env);
            |run.calls| == 2 && run.calls[0].response.status == OPTIMAL && run.result.status == OPTIMAL ==>
              IsLexMinimum(p, Published(run))
  {
    var run := LexRun(p, cfg, env);
    if |run.calls| == 2 && run.calls[0].response.status == OPTIMAL && run.result.status == OPTIMAL {
      EveryExitPublishesAFeasibleSchedule(p, cfg, env);
      assert SoundResponse(p, RoundOneModel, run.calls[0].response);
      forall b | IsFeasible(p, b)
        ensures p.unmet(Published(run)) <= p.unmet(b)
      {
        assert Satisfies(p, RoundOneModel, b);
      }
      OptimalStatusMinimisesCostUnderTheLock(p, cfg, env);
    }
  }

  /** What the reported OPTIMAL status means by itself: least cost among schedules meeting the lock. */
  lemma OptimalStatusMinimisesCostUnderTheLock(p: Problem, cfg: Config, env: Env)
    requires Sound(p, env)
    ensures var run := LexRun(p, cfg, env);
            run.result.status == OPTIMAL ==>
              && |run.calls| == 2
              && run.result.round1.Finite?
              && forall b :: IsFeasible(p, b) && p.unmet(b) as real <= run.result.round1.value ==>
                   p.cost(Published(run)) <= p.cost(b)
  {
    var run := LexRun(p, cfg, env);
    if run.result.status == OPTIMAL {
      assert SoundResponse(p, run.calls[1].model, run.calls[1].response);
      forall b | IsFeasible(p, b) && p.unmet(b) as real <= run.result.round1.value
        ensures p.cost(Published(run)) <= p.cost(b)
      {
        LockIsExact(p, env, run.calls[0].params, b);
      }
    }
  }

  /** How many rounds a run got to: it stops at a refused budget or an unsolved round. */
  lemma EveryStepIsTaken(p: Problem, cfg: Config, env: Env)
    ensures var run := LexRun(p, cfg, env);
            var exhausted := (n: nat, used: real) =>
              env.clock(n) - env.clock(0) >= cfg.wallLimit
              || (cfg.deterministicLimit.Some? && used >= cfg.deterministicLimit.value);
            && (run.calls == [] <==> exhausted(1, 0.0))
            && (|run.calls| == 2 <==>
                  run.calls != [] && Solved(run.calls[0].response.status)
                  && !exhausted(2, run.calls[0].response.deterministicTime))
            && (run.calls != [] ==> run.calls[0].model == CpModel(Unmet, [], None) && run.calls[0].readAt == env.clock(1))
            && (|run.calls| == 2 ==> run.calls[1].model.objective == Cost && run.calls[1].readAt == env.clock(2))
            && (forall i :: 0 <= i < |run.calls| ==>
                  run.calls[i].response == env.oracle(run.calls[i].model, run.calls[i].params))
  {
  }

  /**
   The reported status is that of the last solve, and UNKNOWN when a round was refused its
   budget; the reported time runs from the start to the reading after the last step.
   */
  lemma ReportedStatusIsTheLastSolves(p: Problem, cfg: Config, env: Env)
    ensures var run := LexRun(p, cfg, env);
            var n := |run.calls|;
            var refused := n == 0 || (n == 1 && Solved(run.calls[0].response.status));
            && n <= 2
            && run.result.status == (if refused then UNKNOWN else run.calls[n - 1].response.status)
            && run.result.wallTime == env.clock(if refused then n + 2 else n + 1) - env.clock(0)
            && (run.result.snapshot.Some? <==>
                  n > 0 && Solved(run.calls[0].response.status) && (n == 1 || !Solved(run.calls[1].response.status)))
            && (run.result.snapshot.Some? ==> run.result.snapshot.value == run.calls[0].response.solution)
  {
  }

  /** INFEASIBLE is reported exactly when the first solve answered it, and then there is no schedule at all. */
  lemma InfeasibleIsReportedIff(p: Problem, cfg: Config, env: Env)
    requires Sound(p, env)
    ensures var run := LexRun(p, cfg, env);
            && (run.result.status == INFEASIBLE <==> run.calls != [] && run.calls[0].response.status == INFEASIBLE)
            && (run.result.status == INFEASIBLE ==> forall a :: !IsFeasible(p, a))
  {
    hide Sound;
    var run := LexRun(p, cfg, env);
    RoundTwoIsNeverInfeasible(p, cfg, env);
    if run.result.status == INFEASIBLE {
      FirstAnswerIsSound(p, env, run.calls[0].params);
      forall a ensures !IsFeasible(p, a) {
        assert IsFeasible(p, a) ==> Satisfies(p, RoundOneModel, a);
      }
    }
  }

  lemma FirstAnswerIsSound(p: Problem, env: Env, q: Params)
    requires Sound(p, env)
    ensures SoundResponse(p, RoundOneModel, env.oracle(RoundOneModel, q))
  {
  }

  /** A sound run that reports OPTIMAL after a first solve of status `s`. */
  ghost predicate ReportsOptimalAfter(p: Problem, cfg: Config, env: Env, s: Status) {
    var run := LexRun(p, cfg, env);
    Sound(p, env) && run.result.status == OPTIMAL && run.calls != [] && run.calls[0].response.status == s
  }

  /**
   OPTIMAL is the second round's status. What it promises is decided by the first solve's
   status: whatever the problem, the solver, the clock and the budget, it means a
   lexicographic minimum if and only if the first solve was OPTIMAL too.
   */
  lemma OptimalStatusIsLexMinimumIff(s: Status)
    requires Solved(s)
    ensures (forall p, cfg, env :: ReportsOptimalAfter(p, cfg, env, s) ==>
               LexRun(p, cfg, env).calls != [] && IsLexMinimum(p, Published(LexRun(p, cfg, env))))
            <==> s == OPTIMAL
  {
    hide LexRun, IsLexMinimum, Sound;
    if s == OPTIMAL {
      forall p, cfg, env | ReportsOptimalAfter(p, cfg, env, s)
        ensures LexRun(p, cfg, env).calls != [] && IsLexMinimum(p, Published(LexRun(p, cfg, env)))
      {
        OptimalStatusMinimisesCostUnderTheLock(p, cfg, env);
        BothRoundsOptimalIsLexMinimum(p, cfg, env);
      }
    } else {
      var p, cfg, env := OptimalStatusCanMissTheLexMinimum();
      assert ReportsOptimalAfter(p, cfg, env, FEASIBLE);
    }
  }

  /** A sound run that reports OPTIMAL and publishes a schedule that is not a lexicographic minimum. */
  lemma OptimalStatusCanMissTheLexMinimum() returns (p: Problem, cfg: Config, env: Env)
    ensures Sound(p, env)
    ensures var run := LexRun(p, cfg, env);
            run.result.status == OPTIMAL && |run.calls| == 2 && run.calls[0].response.status == FEASIBLE
            && !IsLexMinimum(p, Published(run))
  {
    p := Problem(1, a => a == [0] || a == [1], a => if a == [0] then 5 else 0, a => if a == [0] then 1 else 9);
    cfg := Config(10.0, None, 1, 0);
    var oracle := (m: CpModel, q: Params) =>
      if m.objective == Unmet && m.unmetBounds == [] then Response(FEASIBLE, [0], 5.0, 0.0)
      else if m.objective == Cost && m.unmetBounds == [5] then Response(OPTIMAL, [0], 1.0, 0.0)
      else Response(UNKNOWN, [], 0.0, 0.0);
    env := Env(oracle, i => 0.0);
    assert IsFeasible(p, [1]) && p.unmet([1]) == 0;
    RoundHalfEvenAgainstInteger(5.0, 5);
    forall m, q ensures SoundResponse(p, m, env.oracle(m, q)) {
    }
    var run := LexRun(p, cfg, env);
    assert run.calls[1].model.unmetBounds == [5];
    assert Published(run) == [0];
  }

  /**
   One budget for both rounds. Every wall grant ends exactly at start plus the wall limit,
   counted from the reading that sized it; the round-two deterministic grant is what round
   one left; nothing is asked of the solver once a ceiling is spent.
   */
  lemma TheTwoRoundsShareOneBudget(p: Problem, cfg: Config, env: Env)
    requires Sound(p, env)
    ensures var run := LexRun(p, cfg, env);
            && |run.calls| <= 2
            && (forall i :: 0 <= i < |run.calls| ==>
                  && run.calls[i].params.wall > 0.0
                  && run.calls[i].readAt + run.calls[i].params.wall == env.clock(0) + cfg.wallLimit
                  && run.calls[i].params.workers == cfg.workers
                  && run.calls[i].params.seed == cfg.seed
                  && (run.calls[i].params.deterministic.Some? <==> cfg.deterministicLimit.Some?)
                  && (cfg.deterministicLimit.Some? ==> run.calls[i].params.deterministic.value > 0.0))
            && (cfg.deterministicLimit.Some? && |run.calls| >= 1 ==>
                  run.calls[0].params.deterministic == cfg.deterministicLimit)
            && (cfg.deterministicLimit.Some? && |run.calls| == 2 ==>
                  run.calls[0].response.deterministicTime + run.calls[1].params.deterministic.value
                  == cfg.deterministicLimit.value)
            && run.result.wallTime >= 0.0
  {
  }

  /** With a solver that honours its grant, the deterministic time of all rounds stays within the limit. */
  lemma DeterministicTimeIsConserved(p: Problem, cfg: Config, env: Env)
    requires Sound(p, env) && HonoursDeterministicLimit(env)
    requires cfg.deterministicLimit.Some? && cfg.deterministicLimit.value >= 0.0
    ensures var calls, limit := LexRun(p, cfg, env).calls, cfg.deterministicLimit.value;
            && |calls| <= 2
            && (|calls| == 1 ==> calls[0].response.deterministicTime <= limit)
            && (|calls| == 2 ==> calls[0].response.deterministicTime + calls[1].response.deterministicTime <= limit)
  {
    var run := LexRun(p, cfg, env);
    TheTwoRoundsShareOneBudget(p, cfg, env);
    if |run.calls| >= 1 {
      assert run.calls[0].response == env.oracle(run.calls[0].model, run.calls[0].params);
    }
    if |run.calls| == 2 {
      assert run.calls[1].response == env.oracle(run.calls[1].model, run.calls[1].params);
    }
  }

  /**
   The deterministic-exhausted reason is reported exactly when the next round was due, wall
   time remained at the reading that refused it, and the deterministic allowance was used up.
   */
  lemma DeterministicReasonOnlyWhileWallTimeRemains(p: Problem, cfg: Config, env: Env)
    requires Sound(p, env)
    ensures var run := LexRun(p, cfg, env);
            var n := |run.calls|;
            run.result.reason == Some(DeterministicBudgetExhausted) <==>
              && n < 2
              && (n == 1 ==> Solved(run.calls[0].response.status))
              && env.clock(n + 1) < env.clock(0) + cfg.wallLimit
              && cfg.deterministicLimit.Some?
              && (if n == 0 then 0.0 else run.calls[0].response.deterministicTime) >= cfg.deterministicLimit.value
    ensures LexRun(p, cfg, env).result.reason.Some? ==> LexRun(p, cfg, env).result.status == UNKNOWN
  {
  }

  // ----- reading the schedule out

  /** A task variable of the builder and the row it stands for. */
  datatype TaskVariable = TaskVariable(index: nat, contact: string, task: string)

  function Selected(vars: seq<TaskVariable>, a: Assignment): seq<TaskVariable>
    requires forall v :: v in vars ==> v.index < |a|
  {
    if vars == [] then []
    else
      var rest := Selected(vars[..|vars| - 1], a);
      if a[vars[|vars| - 1].index] == 1 then rest + [vars[|vars| - 1]] else rest
  }

  lemma {:induction false} SelectedIsExact(vars: seq<TaskVariable>, a: Assignment, v: TaskVariable)
    requires forall w :: w in vars ==> w.index < |a|
    ensures v in Selected(vars, a) <==> v in vars && a[v.index] == 1
    ensures |Selected(vars, a)| <= |vars|
  {
    if vars != [] {
      var front := vars[..|vars| - 1];
      assert vars == front + [vars[|vars| - 1]];
      SelectedIsExact(front, a, v);
    }
  }

  /** The NaN-guarded row loop of the adapter: no schedule, no rows. */
  method ExtractRows(p: Problem, cfg: Config, env: Env, vars: seq<TaskVariable>) returns (rows: seq<TaskVariable>)
    requires Sound(p, env)
    requires forall v :: v in vars ==> v.index < p.variables
    ensures LexRun(p, cfg, env).result.round1.NaN? ==> rows == []
    ensures LexRun(p, cfg, env).result.round1.Finite? ==>
              && LexRun(p, cfg, env).calls != []
              && IsFeasible(p, Published(LexRun(p, cfg, env)))
              && rows == Selected(vars, Published(LexRun(p, cfg, env)))
  {
    rows := [];
    var run := LexRun(p, cfg, env);
    EveryExitPublishesAFeasibleSchedule(p, cfg, env);
    if run.result.round1.Finite? {
      var a := Published(run);
      for i := 0 to |vars|
        invariant rows == Selected(vars[..i], a)
      {
        assert vars[..i + 1][..i] == vars[..i];
        if a[vars[i].index] == 1 {
          rows := rows + [vars[i]];
        }
      }
      assert vars[..|vars|] == vars;
    }
  }
}
