/**
 Multi-turn evaluation: each turn resumes from earlier outcomes, and its own messages are
 recovered by dropping as many messages as were injected.

 What the runtime does in a turn is an input: the framework messages it added, or nothing
 when the turn failed, timed out or recovered only a draft.
 */
module MultiTurn {
  import opened Basics
  import opened Transcript
  import opened AgentTurn

  const HISTORY_MESSAGE_BOUND: nat := 100

  datatype HistoryMode = Independent | RawTurn(padding: nat) | RehydratedActivities(fillers: nat)

  datatype GoldenTurn = GoldenTurn(prompt: string, mode: HistoryMode)

  /**
   What a turn did: the messages it added, or no transcript at all; whether it was suspended for
   approval; the names of its runtime's output tools; and the text it showed.
   */
  datatype TurnRun = TurnRun(added: Option<seq<Message>>, suspended: bool, outputTools: set<string>, visible: string)

  datatype TurnOutcome = TurnOutcome(turn: Turn, toolResults: seq<ToolOutcome>, visible: string)

  datatype Activity = PlannerMessage(text: string) | AgentResponse(text: string)

  // ----- history

  function Padding(n: nat): (t: Turn)
    ensures |t| == n
  {
    seq(n, i requires 0 <= i < n =>
      OwnedMessage(if i % 2 == 0 then User else Assistant, [TextPart("filler message " + Decimal(i))]))
  }

  /** The last transcript that holds anything, else the last one. */
  function LastTranscript(outcomes: seq<TurnOutcome>): Turn
    requires outcomes != []
  {
    var n := |outcomes| - 1;
    if outcomes[n].turn != [] || n == 0 then outcomes[n].turn
    else LastTranscript(outcomes[..n])
  }

  function Fillers(n: nat): seq<Activity> {
    seq(n, i requires 0 <= i < n => PlannerMessage("filler activity " + Decimal(i)))
  }

  function Activities(turns: seq<GoldenTurn>, outcomes: seq<TurnOutcome>): seq<Activity>
    requires |turns| == |outcomes|
  {
    if turns == [] then []
    else
      var n := |turns| - 1;
      Activities(turns[..n], outcomes[..n]) + [PlannerMessage(turns[n].prompt), AgentResponse(outcomes[n].visible)]
  }

  /** The last `HISTORY_MESSAGE_BOUND` elements. */
  function Bounded<T>(s: seq<T>): (r: seq<T>)
    ensures |r| == (if |s| < 100 then |s| else 100) && r == s[|s| - |r|..]
  {
    if |s| <= HISTORY_MESSAGE_BOUND then s else s[|s| - HISTORY_MESSAGE_BOUND..]
  }

  function RehydratedMessage(a: Activity): Turn {
    match a
    case PlannerMessage(text) => if text == "" then [] else [OwnedMessage(User, [TextPart(text)])]
    case AgentResponse(text) =>
      [OwnedMessage(Assistant, [TextPart(if text == "" then "The previous turn did not complete." else text)])]
  }

  function Rehydrated(activities: seq<Activity>): Turn {
    if activities == [] then []
    else Rehydrated(activities[..|activities| - 1]) + RehydratedMessage(activities[|activities| - 1])
  }

  /** What a turn is given: exactly what the use case will hand to the runtime. */
  function Injected(turn: GoldenTurn, turns: seq<GoldenTurn>, outcomes: seq<TurnOutcome>): Turn
    requires |turns| == |outcomes|
    requires turn.mode.RawTurn? ==> outcomes != []
  {
    match turn.mode
    case Independent => []
    case RawTurn(padding) => Bounded(LastTranscript(outcomes) + Padding(padding))
    case RehydratedActivities(fillers) => Rehydrated(Bounded(Fillers(fillers) + Activities(turns, outcomes)))
  }

  /** The transcript a turn leaves: rebuilt history and added messages, translated together. */
  function OutcomeTurn(injected: Turn, run: TurnRun): Turn {
    if run.added.None? || Framework(injected).Err? then []
    else Owned(Framework(injected).value + run.added.value)
  }

  /** The outcome of a turn: a suspended one carries its transcript and no tool results. */
  function OutcomeOfRun(injected: Turn, run: TurnRun): TurnOutcome {
    var turn := OutcomeTurn(injected, run);
    TurnOutcome(turn, if run.suspended then [] else ToolResults(turn, run.outputTools), run.visible)
  }

  /** A case is loaded only if its first turn starts without history. */
  predicate Loadable(turns: seq<GoldenTurn>) {
    turns != [] ==> turns[0].mode == Independent
  }

  function Outcomes(turns: seq<GoldenTurn>, runs: seq<TurnRun>): (os: seq<TurnOutcome>)
    requires |turns| == |runs| && Loadable(turns)
    ensures |os| == |turns|
  {
    if turns == [] then []
    else
      var n := |turns| - 1;
      var before := Outcomes(turns[..n], runs[..n]);
      before + [OutcomeOfRun(Injected(turns[n], turns[..n], before), runs[n])]
  }

  /** Python's `messages[n:]`. */
  function From<T>(s: seq<T>, n: nat): seq<T> {
    if n <= |s| then s[n..] else []
  }

  /** `_trim_outcome_to_current_turn`: an outcome without injected history is left alone. */
  function Trimmed(o: TurnOutcome, injectedCount: nat, excluded: set<string>): TurnOutcome {
    if injectedCount == 0 then o
    else
      var turn := From(o.turn, injectedCount);
      o.(turn := turn, toolResults := ToolResults(turn, excluded))
  }

  // ----- the double

  function CountResponses(ms: seq<Message>): nat {
    if ms == [] then 0 else CountResponses(ms[..|ms| - 1]) + (if ms[|ms| - 1].Response? then 1 else 0)
  }

  /** `history_response_offset_for`: assistant messages that hold at least one part. */
  function ResponseOffset(t: Turn): nat {
    if t == [] then 0
    else ResponseOffset(t[..|t| - 1]) + (if t[|t| - 1].role == Assistant && t[|t| - 1].parts != [] then 1 else 0)
  }

  /** Which scripted response the double plays next. */
  function ResponseIndex(ms: seq<Message>, offset: nat): int {
    CountResponses(ms) - offset
  }

  lemma {:induction false} CountResponsesConcat(a: seq<Message>, b: seq<Message>)
    ensures CountResponses(a + b) == CountResponses(a) + CountResponses(b)
  {
    if b == [] {
      assert a + b == a;
    } else {
      assert (a + b)[..|a + b| - 1] == a + b[..|b| - 1];
      CountResponsesConcat(a, b[..|b| - 1]);
    }
  }

  /** The offset is the number of responses the rebuilt history holds, for every accepted history. */
  lemma {:induction false} OffsetCountsRebuiltResponses(t: Turn)
    requires Accepted(t)
    ensures CountResponses(RebuiltAll(t)) == ResponseOffset(t)
  {
    hide Rebuilt, Refused;
    if t != [] {
      OffsetCountsRebuiltResponses(t[..|t| - 1]);
      CountResponsesConcat(RebuiltAll(t[..|t| - 1]), Rebuilt(t[|t| - 1]));
      ResponsesOfOne(t[|t| - 1]);
    }
  }

  lemma ResponsesOfOne(m: OwnedMessage)
    requires Refused(m).None?
    ensures CountResponses(Rebuilt(m)) == if m.role == Assistant && m.parts != [] then 1 else 0
  {
    if Rebuilt(m) != [] {
      assert Rebuilt(m)[..0] == [];
    }
  }

  // ----- normal form is kept

  lemma NormalConcat(a: Turn, b: Turn)
    ensures IsNormal(a) && IsNormal(b) ==> IsNormal(a + b)
  {
  }

  lemma {:induction false} LastTranscriptIsOneOfThem(outcomes: seq<TurnOutcome>)
    requires outcomes != []
    requires forall o :: o in outcomes ==> IsNormal(o.turn)
    ensures IsNormal(LastTranscript(outcomes))
  {
    var n := |outcomes| - 1;
    if outcomes[n].turn == [] && n > 0 {
      LastTranscriptIsOneOfThem(outcomes[..n]);
    } else {
      assert outcomes[n] in outcomes;
    }
  }

  lemma {:induction false} RehydratedIsNormal(activities: seq<Activity>)
    ensures IsNormal(Rehydrated(activities))
  {
    if activities != [] {
      RehydratedIsNormal(activities[..|activities| - 1]);
    }
  }

  lemma PaddingIsNormal(n: nat)
    ensures IsNormal(Padding(n))
  {
    hide Decimal;
    forall m | m in Padding(n) ensures NormalMessage(m) {
      var i :| 0 <= i < n && m == Padding(n)[i];
    }
  }

  lemma InjectedIsNormal(turn: GoldenTurn, turns: seq<GoldenTurn>, outcomes: seq<TurnOutcome>)
    requires |turns| == |outcomes|
    requires turn.mode.RawTurn? ==> outcomes != []
    requires forall o :: o in outcomes ==> IsNormal(o.turn)
    ensures IsNormal(Injected(turn, turns, outcomes))
  {
    hide Padding, LastTranscript, Rehydrated, NormalMessage;
    match turn.mode {
      case Independent =>
      case RawTurn(padding) =>
        LastTranscriptIsOneOfThem(outcomes);
        PaddingIsNormal(padding);
        NormalConcat(LastTranscript(outcomes), Padding(padding));
      case RehydratedActivities(fillers) =>
        RehydratedIsNormal(Bounded(Fillers(fillers) + Activities(turns, outcomes)));
    }
  }

  lemma OutcomeTurnIsNormal(injected: Turn, run: TurnRun)
    ensures IsNormal(OutcomeTurn(injected, run))
  {
    hide Owned, Framework;
    if run.added.Some? && Framework(injected).Ok? {
      OwnedIsNormal(Framework(injected).value + run.added.value);
    }
  }

  /** Every outcome of every case, whatever the turns did and whichever failed, is in normal form. */
  lemma {:induction false} EveryOutcomeIsNormal(turns: seq<GoldenTurn>, runs: seq<TurnRun>)
    requires |turns| == |runs| && Loadable(turns)
    ensures forall o :: o in Outcomes(turns, runs) ==> IsNormal(o.turn)
  {
    hide IsNormal, OutcomeTurn, Injected, ToolResults;
    if turns != [] {
      var n := |turns| - 1;
      EveryOutcomeIsNormal(turns[..n], runs[..n]);
      OutcomeTurnIsNormal(Injected(turns[n], turns[..n], Outcomes(turns[..n], runs[..n])), runs[n]);
    }
  }

  /** Outcomes of a prefix of the case are a prefix of its outcomes. */
  lemma {:induction false} OutcomesArePrefixClosed(turns: seq<GoldenTurn>, runs: seq<TurnRun>, k: nat)
    requires |turns| == |runs| && Loadable(turns) && k <= |turns|
    ensures Outcomes(turns[..k], runs[..k]) == Outcomes(turns, runs)[..k]
  {
    hide OutcomeOfRun, Injected;
    if k < |turns| {
      var n := |turns| - 1;
      OutcomesArePrefixClosed(turns[..n], runs[..n], k);
      assert turns[..n][..k] == turns[..k] && runs[..n][..k] == runs[..k];
    } else {
      assert turns[..k] == turns && runs[..k] == runs;
    }
  }

  /** The history injected into turn `k` of a case. */
  function InjectedAt(turns: seq<GoldenTurn>, runs: seq<TurnRun>, k: nat): Turn
    requires |turns| == |runs| && Loadable(turns) && k < |turns|
  {
    Injected(turns[k], turns[..k], Outcomes(turns[..k], runs[..k]))
  }

  lemma {:induction false} OutcomeAt(turns: seq<GoldenTurn>, runs: seq<TurnRun>, k: nat)
    requires |turns| == |runs| && Loadable(turns) && k < |turns|
    ensures Outcomes(turns, runs)[k] == OutcomeOfRun(InjectedAt(turns, runs, k), runs[k])
  {
    hide OutcomeOfRun, Injected;
    OutcomesArePrefixClosed(turns, runs, k + 1);
    assert turns[..k + 1][..k] == turns[..k] && runs[..k + 1][..k] == runs[..k];
  }

  // ----- main results

  /** The messages turn `k` added. */
  function AddedBy(run: TurnRun): seq<Message> {
    if run.added.Some? then run.added.value else []
  }

  /**
   In every turn of every case the injected history is in normal form and accepted, dropping
   the injected count leaves exactly the messages this turn added, and the double's next
   response index counts this turn's own responses from zero. The tool results the turn is
   judged by are those of its messages, unless it was suspended without injected history: then
   they stay empty, although a suspended turn with history gets them back.
   */
  lemma EachTurnIsJudgedOnItsOwnMessages(turns: seq<GoldenTurn>, runs: seq<TurnRun>, k: nat, sofar: seq<Message>)
    requires |turns| == |runs| && Loadable(turns) && k < |turns|
    ensures var injected := InjectedAt(turns, runs, k);
            var scoped := Trimmed(Outcomes(turns, runs)[k], |injected|, runs[k].outputTools);
            var own := ToolResults(Owned(AddedBy(runs[k])), runs[k].outputTools);
            && IsNormal(injected)
            && Framework(injected).Ok?
            && scoped.turn == Owned(AddedBy(runs[k]))
            && (scoped.toolResults == own <==> !(runs[k].suspended && injected == [] && own != []))
            && ResponseIndex(Framework(injected).value + sofar, ResponseOffset(injected)) == CountResponses(sofar)
  {
    hide Outcomes, Injected, Owned, RebuiltAll, IsNormal, ToolResults, CountResponses, ResponseOffset;
    var before := Outcomes(turns[..k], runs[..k]);
    EveryOutcomeIsNormal(turns[..k], runs[..k]);
    InjectedIsNormal(turns[k], turns[..k], before);
    var injected := InjectedAt(turns, runs, k);
    OutcomeAt(turns, runs, k);
    NormalFormIsFixed(injected);
    RoundTripIsNormalization(injected);
    OffsetCountsRebuiltResponses(injected);
    CountResponsesConcat(RebuiltAll(injected), sofar);
    OwnedOfNothing();
    if runs[k].added.Some? {
      OwnedConcat(RebuiltAll(injected), runs[k].added.value);
    }
  }

  /** What the turn is judged by, given the history injected into it. */
  function ScopedRun(injected: Turn, run: TurnRun): TurnOutcome {
    Trimmed(OutcomeOfRun(injected, run), |injected|, run.outputTools)
  }

  /**
   Known before the turn starts: it will be judged by its own tool results, whatever it does, if
   and only if history is injected into it.
   */
  lemma JudgedByItsToolResultsIff(injected: Turn)
    requires IsNormal(injected)
    ensures (forall run :: ScopedRun(injected, run).toolResults == ToolResults(Owned(AddedBy(run)), run.outputTools))
            <==> injected != []
  {
    hide Owned, RebuiltAll, IsNormal, ToolResults;
    NormalFormIsFixed(injected);
    RoundTripIsNormalization(injected);
    OwnedOfNothing();
    forall run | injected != []
      ensures ScopedRun(injected, run).toolResults == ToolResults(Owned(AddedBy(run)), run.outputTools)
    {
      if run.added.Some? {
        OwnedConcat(RebuiltAll(injected), run.added.value);
      }
    }
    if injected == [] {
      PendingTurnLosesItsToolResults();
      assert ScopedRun([], PENDING_RUN).toolResults != ToolResults(Owned(AddedBy(PENDING_RUN)), PENDING_RUN.outputTools);
    }
  }

  // A prompt, one tool round and a request for approval.

  const PENDING_RESULT := ToolReturn("solve", Text("ok"), "c1")
  const PENDING_SCRIPT := [ToolRound([], [PENDING_RESULT]), Attempt([], Deferred(["promote"]), [])]
  const PENDING_MESSAGES :=
    [Request([UserPrompt(Text("p"))]), Response([]), Request([PENDING_RESULT]), Response([]), Request([])]
  const PENDING_RUN := TurnRun(Some(PENDING_MESSAGES), true, OUTPUT_TOOL_NAMES, "")

  /** Whatever its configuration, this is the run the runtime makes of the script. */
  lemma PendingRunIsTheRuntimes(cfg: Config)
    ensures Matches(PENDING_RUN, [], TurnReply(cfg, [], Prompt("p"), PENDING_SCRIPT))
  {
    hide ViewOf, Owned, ToolResults, Judge, RebuiltAll;
    NothingToRebuild();
    var start := [Request([UserPrompt(Text("p"))])];
    var round, ask := PENDING_SCRIPT[0], PENDING_SCRIPT[1];
    assert [] + start == start && PENDING_SCRIPT[1..] == [ask];
    var seen := start + Added(round);
    var view := ViewOf(cfg, seen + Added(ask));
    ApprovalIsDelivered(cfg, view, 0, None, ask);
    assert seen + Added(ask) + [Request([])] == PENDING_MESSAGES;
    assert Drive(cfg, seen, 0, None, [ask]) == Ended(Some(ask.output), OtherError, PENDING_MESSAGES, None, 1);
    assert EndOf(cfg, [], Prompt("p"), PENDING_SCRIPT) == OneMore(Drive(cfg, seen, 0, None, [ask]));
    assert [] + PENDING_MESSAGES == PENDING_MESSAGES;
  }

  lemma PendingTranscript()
    ensures Owned(PENDING_MESSAGES) ==
            [OwnedMessage(User, [TextPart("p")])] + OwnedRequestPart(PENDING_RESULT)
  {
    var m := PENDING_MESSAGES;
    assert m == [m[0]] + [m[1]] + [m[2]] + [m[3]] + [m[4]];
    OwnedConcat([m[0]] + [m[1]] + [m[2]] + [m[3]], [m[4]]);
    OwnedConcat([m[0]] + [m[1]] + [m[2]], [m[3]]);
    OwnedConcat([m[0]] + [m[1]], [m[2]]);
    OwnedConcat([m[0]], [m[1]]);
    forall i | 0 <= i < 5 ensures Owned([m[i]]) == OwnedOf(m[i]) {
      OwnedSingle(m[i]);
    }
    assert [UserPrompt(Text("p"))][..0] == [] && [PENDING_RESULT][..0] == [];
    assert OwnedRequest([UserPrompt(Text("p"))]) == [OwnedMessage(User, [TextPart("p")])];
    assert OwnedRequest([PENDING_RESULT]) == OwnedRequestPart(PENDING_RESULT);
  }

  lemma PendingTurnLosesItsToolResults()
    ensures ToolResults(Owned(AddedBy(PENDING_RUN)), OUTPUT_TOOL_NAMES) == [ToolOutcome("c1", "solve", "ok")]
    ensures ScopedRun([], PENDING_RUN).toolResults == []
  {
    hide Owned, Framework;
    PendingTranscript();
    var turn := Owned(PENDING_MESSAGES);
    var user := OwnedMessage(User, [TextPart("p")]);
    assert turn[..1] == [user] && [user][..0] == [];
    assert ToolResults([user], OUTPUT_TOOL_NAMES) == [];
    assert turn[1].parts[..0] == [];
    assert ResultsOfParts(turn[1].parts, OUTPUT_TOOL_NAMES) == [ToolOutcome("c1", "solve", "ok")];
  }

  /** A first turn that the runtime suspends is judged without the tool result its messages hold. */
  lemma SuspendedFirstTurnLosesItsToolResults(cfg: Config)
    ensures Matches(PENDING_RUN, [], TurnReply(cfg, [], Prompt("p"), PENDING_SCRIPT))
    ensures var turns, runs := [GoldenTurn("p", Independent)], [PENDING_RUN];
            && InjectedAt(turns, runs, 0) == []
            && ToolResults(Owned(AddedBy(runs[0])), OUTPUT_TOOL_NAMES) == [ToolOutcome("c1", "solve", "ok")]
            && Trimmed(Outcomes(turns, runs)[0], 0, OUTPUT_TOOL_NAMES).toolResults == []
  {
    hide Owned, Outcomes, ToolResults, Framework, Matches;
    PendingRunIsTheRuntimes(cfg);
    PendingTurnLosesItsToolResults();
    OutcomeAt([GoldenTurn("p", Independent)], [PENDING_RUN], 0);
  }

  // ----- the runtime's own turns

  /** A run that leaves what the runtime's reply carries. */
  ghost predicate Matches(run: TurnRun, injected: Turn, reply: Reply) {
    match reply
    case Raised(_) => OutcomeTurn(injected, run) == []
    case Returned(o) =>
      && OutcomeOfRun(injected, run).turn == o.turn
      && OutcomeOfRun(injected, run).toolResults == o.toolResults
      && (run.suspended <==> o.status == Suspended)
  }

  /** Whatever the agent runtime does in a turn is one of the runs considered here. */
  lemma RuntimeTurnIsARun(cfg: Config, injected: Turn, opening: Opening, script: seq<Event>, visible: string)
    returns (run: TurnRun)
    requires Accepted(injected)
    ensures Matches(run, injected, TurnReply(cfg, injected, opening, script)) && run.visible == visible
  {
    hide Drive, RebuiltAll, Owned, ToolResults, DraftIds;
    var h := RebuiltAll(injected);
    var e := EndOf(cfg, h, opening, script);
    var added := AppendedBy(cfg, h, opening, script);
    var reply := TurnReply(cfg, injected, opening, script);
    NothingHasNoToolResults(OUTPUT_TOOL_NAMES);
    run := TurnRun(if e.accepted.Some? && reply.Returned? then Some(added) else None,
                   reply.Returned? && reply.outcome.status == Suspended, OUTPUT_TOOL_NAMES, visible);
  }

  lemma NothingHasNoToolResults(excluded: set<string>)
    ensures ToolResults([], excluded) == []
  {
  }

  /**
   A whole case driven by the runtime, each turn resuming from what the runtime left before, is
   one of the cases above: there are runs whose histories and outcomes are the runtime's own.
   */
  lemma {:induction false} RuntimeDrivesTheCase(cfg: Config, turns: seq<GoldenTurn>, scripts: seq<seq<Event>>,
                                                shows: Reply -> string)
    returns (runs: seq<TurnRun>)
    requires |turns| == |scripts| && Loadable(turns)
    ensures |runs| == |turns|
    ensures forall k :: 0 <= k < |turns| ==>
              var injected := InjectedAt(turns, runs, k);
              var reply := TurnReply(cfg, injected, Prompt(turns[k].prompt), scripts[k]);
              Matches(runs[k], injected, reply) && runs[k].visible == shows(reply)
  {
    hide Matches, TurnReply, Injected, Outcomes, IsNormal;
    runs := [];
    if turns != [] {
      var n := |turns| - 1;
      var front := RuntimeDrivesTheCase(cfg, turns[..n], scripts[..n], shows);
      var injected := Injected(turns[n], turns[..n], Outcomes(turns[..n], front));
      EveryOutcomeIsNormal(turns[..n], front);
      InjectedIsNormal(turns[n], turns[..n], Outcomes(turns[..n], front));
      NormalFormIsFixed(injected);
      var reply := TurnReply(cfg, injected, Prompt(turns[n].prompt), scripts[n]);
      var last := RuntimeTurnIsARun(cfg, injected, Prompt(turns[n].prompt), scripts[n], shows(reply));
      runs := front + [last];
      assert runs[..n] == front;
      forall k | 0 <= k < n ensures InjectedAt(turns, runs, k) == InjectedAt(turns[..n], front, k) {
        assert runs[..k] == front[..k] && turns[..n][..k] == turns[..k];
      }
    }
  }

  /** Everything the turns of a case added, failed turns contributing nothing. */
  function AllAdded(runs: seq<TurnRun>): seq<Message> {
    if runs == [] then []
    else AllAdded(runs[..|runs| - 1]) + AddedBy(runs[|runs| - 1])
  }

  predicate ResumesThroughout(turns: seq<GoldenTurn>) {
    Loadable(turns) && forall i :: 1 <= i < |turns| ==> turns[i].mode == RawTurn(0)
  }

  /**
   A case that resumes turn by turn carries the whole conversation: what the next turn would
   resume from is one translation of everything added so far, failures skipped, as long as
   that fits the bound.
   */
  lemma {:induction false} ResumingCarriesTheWholeConversation(turns: seq<GoldenTurn>, runs: seq<TurnRun>)
    requires |turns| == |runs| && turns != [] && ResumesThroughout(turns)
    requires |Owned(AllAdded(runs))| <= HISTORY_MESSAGE_BOUND
    ensures LastTranscript(Outcomes(turns, runs)) == Owned(AllAdded(runs))
  {
    hide Owned, Outcomes, InjectedAt, LastTranscript, AllAdded;
    var n := |turns| - 1;
    var before := Outcomes(turns[..n], runs[..n]);
    OwnedConcat(AllAdded(runs[..n]), AddedBy(runs[n]));
    OwnedOfNothing();
    AllAddedSplits(runs);
    OutcomesArePrefixClosed(turns, runs, n);
    LastTranscriptSplits(Outcomes(turns, runs));
    if n > 0 {
      ResumingCarriesTheWholeConversation(turns[..n], runs[..n]);
    } else {
      assert runs[..n] == [];
      AllAddedOfNothing();
    }
    ResumedInjection(turns, runs);
    TurnExtendsItsHistory(turns, runs, n);
  }

  lemma AllAddedSplits(runs: seq<TurnRun>)
    requires runs != []
    ensures AllAdded(runs) == AllAdded(runs[..|runs| - 1]) + AddedBy(runs[|runs| - 1])
  {
  }

  lemma AllAddedOfNothing()
    ensures AllAdded([]) == []
  {
  }

  lemma LastTranscriptSplits(outcomes: seq<TurnOutcome>)
    requires outcomes != []
    ensures var n := |outcomes| - 1;
            LastTranscript(outcomes) ==
            if outcomes[n].turn != [] || n == 0 then outcomes[n].turn else LastTranscript(outcomes[..n])
  {
  }

  /** The last turn of a resuming case is given the transcript before it, whole while it fits the bound. */
  lemma ResumedInjection(turns: seq<GoldenTurn>, runs: seq<TurnRun>)
    requires |turns| == |runs| && turns != [] && ResumesThroughout(turns)
    ensures var n := |turns| - 1;
            var before := Outcomes(turns[..n], runs[..n]);
            InjectedAt(turns, runs, n) == if n == 0 then [] else Bounded(LastTranscript(before))
  {
    hide Outcomes, LastTranscript, Bounded;
    var n := |turns| - 1;
    if n > 0 {
      var last := LastTranscript(Outcomes(turns[..n], runs[..n]));
      assert last + Padding(0) == last;
    }
  }

  /** A turn that produced messages leaves its history followed by them; any other leaves nothing. */
  lemma TurnExtendsItsHistory(turns: seq<GoldenTurn>, runs: seq<TurnRun>, k: nat)
    requires |turns| == |runs| && Loadable(turns) && k < |turns|
    ensures Outcomes(turns, runs)[k].turn ==
            if runs[k].added.Some? then InjectedAt(turns, runs, k) + Owned(runs[k].added.value) else []
  {
    hide Outcomes, Injected, Owned, RebuiltAll, IsNormal, ToolResults;
    EveryOutcomeIsNormal(turns[..k], runs[..k]);
    InjectedIsNormal(turns[k], turns[..k], Outcomes(turns[..k], runs[..k]));
    var injected := InjectedAt(turns, runs, k);
    OutcomeAt(turns, runs, k);
    NormalFormIsFixed(injected);
    RoundTripIsNormalization(injected);
    if runs[k].added.Some? {
      OwnedConcat(RebuiltAll(injected), runs[k].added.value);
    }
  }

  lemma OwnedOfNothing()
    ensures Owned([]) == []
  {
  }

  /**
   Trimming by count is right for every continuation of a history exactly when normalising
   the history keeps its length. Normal form is what guarantees that here.
   */
  lemma TrimmingByCountIsExactIff(h: Turn)
    requires Accepted(h)
    ensures (forall added: seq<Message> :: From(Owned(RebuiltAll(h) + added), |h|) == Owned(added))
            <==> |Normalize(h)| == |h|
  {
    hide Owned, Normalize, RebuiltAll;
    RoundTripIsNormalization(h);
    forall added: seq<Message> | |Normalize(h)| == |h|
      ensures From(Owned(RebuiltAll(h) + added), |h|) == Owned(added)
    {
      OwnedConcat(RebuiltAll(h), added);
    }
    if |Normalize(h)| != |h| {
      var probe := if |Normalize(h)| > |h| then [] else [Request([SystemPrompt("probe")])];
      OwnedProbe();
      OwnedOfNothing();
      OwnedConcat(RebuiltAll(h), probe);
      assert From(Owned(RebuiltAll(h) + probe), |h|) != Owned(probe);
    }
  }

  lemma OwnedProbe()
    ensures |Owned([Request([SystemPrompt("probe")])])| == 1
  {
    OwnedSingle(Request([SystemPrompt("probe")]));
    assert [SystemPrompt("probe")][..0] == [];
  }

  /** A history outside normal form for which trimming by count returns the wrong messages. */
  lemma TrimmingFailsOutsideNormalForm() returns (h: Turn)
    ensures Accepted(h) && |Normalize(h)| == 2 && |h| == 1
    ensures !forall added: seq<Message> :: From(Owned(RebuiltAll(h) + added), |h|) == Owned(added)
  {
    var m := OwnedMessage(User, [TextPart("a"), TextPart("b")]);
    h := [m];
    assert h[..0] == [];
    assert |NormalizeMessage(m)| == 2;
    TrimmingByCountIsExactIff(h);
  }

  // ----- the loop over turns

  function ScopedAt(turns: seq<GoldenTurn>, runs: seq<TurnRun>, k: nat): TurnOutcome
    requires |turns| == |runs| && Loadable(turns) && k < |turns|
  {
    Trimmed(Outcomes(turns, runs)[k], |InjectedAt(turns, runs, k)|, runs[k].outputTools)
  }

  lemma OneMoreOutcome(turns: seq<GoldenTurn>, runs: seq<TurnRun>, i: nat)
    requires |turns| == |runs| && Loadable(turns) && i < |turns|
    ensures Outcomes(turns[..i + 1], runs[..i + 1]) ==
            Outcomes(turns[..i], runs[..i]) + [OutcomeOfRun(InjectedAt(turns, runs, i), runs[i])]
  {
    hide OutcomeOfRun, Injected;
    assert turns[..i + 1][..i] == turns[..i] && runs[..i + 1][..i] == runs[..i];
  }

  /** One turn on its history. */
  method ExecuteTurn(history: Turn, run: TurnRun) returns (outcome: TurnOutcome)
    ensures outcome == OutcomeOfRun(history, run)
  {
    hide Owned, ToolResults, Framework;
    var rebuilt := ToFrameworkMessages(history);
    var turn := [];
    if rebuilt.Ok? && run.added.Some? {
      turn := ToOwnedTurn(rebuilt.value + run.added.value);
    }
    outcome := TurnOutcome(turn, if run.suspended then [] else ToolResults(turn, run.outputTools), run.visible);
  }

  /** Drive the turns of a case, keep the full outcomes, and scope each to its own messages. */
  method IterTurnEvaluations(turns: seq<GoldenTurn>, runs: seq<TurnRun>)
    returns (outcomes: seq<TurnOutcome>, scoped: seq<TurnOutcome>)
    requires |turns| == |runs| && Loadable(turns)
    ensures outcomes == Outcomes(turns, runs)
    ensures |scoped| == |turns|
    ensures forall k :: 0 <= k < |turns| ==>
              scoped[k] == ScopedAt(turns, runs, k) && scoped[k].turn == Owned(AddedBy(runs[k]))
  {
    hide Outcomes, Injected, Framework, Owned, Trimmed, IsNormal, ToolResults, OutcomeOfRun;
    outcomes, scoped := [], [];
    NoOutcomesYet();
    assert turns[..0] == [] && runs[..0] == [];
    for i := 0 to |turns|
      invariant outcomes == Outcomes(turns[..i], runs[..i])
      invariant |scoped| == i
      invariant forall k :: 0 <= k < i ==> scoped[k] == ScopedAt(turns, runs, k)
    {
      var history := Injected(turns[i], turns[..i], outcomes);
      var outcome := ExecuteTurn(history, runs[i]);
      OneMoreOutcome(turns, runs, i);
      OutcomeAt(turns, runs, i);
      outcomes := outcomes + [outcome];
      scoped := scoped + [Trimmed(outcome, |history|, runs[i].outputTools)];
    }
    assert turns[..|turns|] == turns && runs[..|runs|] == runs;
    forall k | 0 <= k < |turns| ensures scoped[k].turn == Owned(AddedBy(runs[k])) {
      EachTurnIsJudgedOnItsOwnMessages(turns, runs, k, []);
    }
  }

  lemma NoOutcomesYet()
    ensures Outcomes([], []) == []
  {
  }

  // ----- what a turn is given

  /** What a turn's activity says: even ones are the prompts, odd ones what was shown. */
  lemma {:induction false} ActivitiesAlternate(turns: seq<GoldenTurn>, outcomes: seq<TurnOutcome>, k: nat)
    requires |turns| == |outcomes| && k < |turns|
    ensures |Activities(turns, outcomes)| == 2 * |turns|
    ensures Activities(turns, outcomes)[2 * k] == PlannerMessage(turns[k].prompt)
    ensures Activities(turns, outcomes)[2 * k + 1] == AgentResponse(outcomes[k].visible)
  {
    var n := |turns| - 1;
    ActivitiesAreTwice(turns[..n], outcomes[..n]);
    if k < n {
      ActivitiesAlternate(turns[..n], outcomes[..n], k);
    }
  }

  lemma {:induction false} ActivitiesAreTwice(turns: seq<GoldenTurn>, outcomes: seq<TurnOutcome>)
    requires |turns| == |outcomes|
    ensures |Activities(turns, outcomes)| == 2 * |turns|
  {
    if turns != [] {
      ActivitiesAreTwice(turns[..|turns| - 1], outcomes[..|turns| - 1]);
    }
  }

  /** A planner's words, or what the agent showed, or that it did not complete. */
  function Says(a: Activity): Shown {
    if a.PlannerMessage? then Shown(User, KText, a.text, "", "", "")
    else Shown(Assistant, KText, if a.text == "" then "The previous turn did not complete." else a.text, "", "", "")
  }

  /** The activities that say anything: all but an empty prompt. */
  function SaidBy(activities: seq<Activity>): seq<seq<Shown>> {
    if activities == [] then []
    else
      var last := Says(activities[|activities| - 1]);
      SaidBy(activities[..|activities| - 1]) + (if last.text == "" then [] else [[last]])
  }

  lemma {:induction false} RehydratedSaysTheActivities(activities: seq<Activity>)
    ensures TurnReads(Rehydrated(activities)) == SaidBy(activities)
  {
    if activities != [] {
      var front, a := activities[..|activities| - 1], activities[|activities| - 1];
      RehydratedSaysTheActivities(front);
      TurnReadsConcat(Rehydrated(front), RehydratedMessage(a));
      OneActivityReads(a);
    }
  }

  lemma OneActivityReads(a: Activity)
    ensures TurnReads(RehydratedMessage(a)) == if Says(a).text == "" then [] else [[Says(a)]]
  {
    if RehydratedMessage(a) != [] {
      var m := RehydratedMessage(a)[0];
      assert MessageShows(m) == [PartShows(m.role, m.parts[0])];
      assert TurnReads([m]) == [MessageShows(m)];
    }
  }

  /**
   A resumed turn is given the last hundred messages of the last transcript that holds anything,
   followed by the filler; an independent one nothing.
   */
  lemma ResumedTurnIsGiven(turn: GoldenTurn, turns: seq<GoldenTurn>, outcomes: seq<TurnOutcome>)
    requires |turns| == |outcomes| && !turn.mode.RehydratedActivities? && (turn.mode.RawTurn? ==> outcomes != [])
    ensures var given := Injected(turn, turns, outcomes);
            if turn.mode == Independent then given == []
            else
              var last, padding := LastTranscript(outcomes), turn.mode.padding;
              && |given| == (if |last| + padding < 100 then |last| + padding else 100)
              && forall i :: 0 <= i < |given| ==>
                   var k := |last| + padding - |given| + i;
                   if k < |last| then given[i] == last[k]
                   else given[i] == FillerMessage(k - |last|)
  {
    hide LastTranscript, FillerMessage, Bounded, Padding, Rehydrated, Activities, Fillers;
    if turn.mode.RawTurn? {
      var last, padding := LastTranscript(outcomes), turn.mode.padding;
      PaddedLength(last, padding);
      forall i | 0 <= i < |Bounded(last + Padding(padding))| {
        PaddedAt(last, padding, i);
      }
    }
  }

  lemma PaddedLength(last: Turn, padding: nat)
    ensures |Bounded(last + Padding(padding))| == (if |last| + padding < 100 then |last| + padding else 100)
  {
    hide Padding;
    PaddingIs(padding);
  }

  lemma PaddedAt(last: Turn, padding: nat, i: nat)
    requires i < |Bounded(last + Padding(padding))|
    ensures var given := Bounded(last + Padding(padding));
            var k := |last| + padding - |given| + i;
            given[i] == if k < |last| then last[k] else FillerMessage(k - |last|)
  {
    hide Padding, FillerMessage;
    PaddingIs(padding);
    BoundedIs(last + Padding(padding));
  }

  /** The `k`-th filler message: the roles take turns, beginning with the planner. */
  function FillerMessage(k: nat): OwnedMessage {
    var text := TextPart("filler message " + Decimal(k));
    if k % 2 == 1 then OwnedMessage(Assistant, [text]) else OwnedMessage(User, [text])
  }

  lemma PaddingIs(n: nat)
    ensures |Padding(n)| == n
    ensures forall k :: 0 <= k < n ==> Padding(n)[k] == FillerMessage(k)
  {
    hide Decimal;
  }

  /**
   A turn with rehydrated history is given what the last hundred activities said: the filler
   prompts first, then each earlier prompt with what was shown for it.
   */
  lemma RehydratedTurnIsGiven(turn: GoldenTurn, turns: seq<GoldenTurn>, outcomes: seq<TurnOutcome>)
    requires |turns| == |outcomes| && turn.mode.RehydratedActivities?
    ensures var all := Fillers(turn.mode.fillers) + Activities(turns, outcomes);
            && |Fillers(turn.mode.fillers)| == turn.mode.fillers
            && (forall i :: 0 <= i < turn.mode.fillers ==> all[i] == PlannerMessage("filler activity " + Decimal(i)))
            && TurnReads(Injected(turn, turns, outcomes)) == SaidBy(if |all| < 100 then all else all[|all| - 100..])
  {
    hide Activities, Rehydrated, TurnReads, SaidBy, Decimal, Bounded;
    var all := Fillers(turn.mode.fillers) + Activities(turns, outcomes);
    RehydratedSaysTheActivities(Bounded(all));
    BoundedIs(all);
  }

  lemma BoundedIs<T>(s: seq<T>)
    ensures Bounded(s) == if |s| < 100 then s else s[|s| - 100..]
  {
    assert |s| < 100 ==> s[|s| - |s|..] == s;
  }

  /** The transcript at `i` holds something, and none after it does. */
  predicate LastHeldAt(outcomes: seq<TurnOutcome>, i: int) {
    && 0 <= i < |outcomes| && outcomes[i].turn != []
    && forall j :: i < j < |outcomes| ==> outcomes[j].turn == []
  }

  /** The last transcript is the last one that holds anything, and empty when none does. */
  lemma {:induction false} LastTranscriptHolds(outcomes: seq<TurnOutcome>)
    requires outcomes != []
    ensures (exists i :: LastHeldAt(outcomes, i) && LastTranscript(outcomes) == outcomes[i].turn)
            || (LastTranscript(outcomes) == [] && forall i :: 0 <= i < |outcomes| ==> outcomes[i].turn == [])
  {
    var n := |outcomes| - 1;
    if outcomes[n].turn != [] {
      assert LastHeldAt(outcomes, n);
    } else if n > 0 {
      var front := outcomes[..n];
      LastTranscriptHolds(front);
      if LastTranscript(front) != [] {
        var i :| LastHeldAt(front, i) && LastTranscript(front) == front[i].turn;
        assert LastHeldAt(outcomes, i);
      }
    }
  }
}
