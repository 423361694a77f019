/**
 One agent turn: message scans, the two output validators, the retry loop, and the mapping
 of how the run ended to an owned outcome.

 The framework is an environment. A script lists what it does step by step: tool rounds,
 output attempts, unreadable replies, faults. Theorems quantify over all scripts.
 The grounded answer type is assumed throughout: both validators are registered.
 */
module AgentTurn {
  import opened Basics
  import opened Transcript

  const SCHEDULING_DRAFT := "scheduling_draft"

  // ----- what a run's messages say

  predicate HasUserPrompt(m: Message) {
    m.Request? && exists p :: p in m.asked && p.UserPrompt?
  }

  /** Index of the last message that carries a user prompt, or 0. */
  function StartOfRun(ms: seq<Message>): (i: nat)
    ensures ms != [] ==> i < |ms|
    ensures ms == [] ==> i == 0
  {
    if ms == [] then 0
    else if HasUserPrompt(ms[|ms| - 1]) then |ms| - 1
    else StartOfRun(ms[..|ms| - 1])
  }

  function ThisRun(ms: seq<Message>): seq<Message> {
    ms[StartOfRun(ms)..]
  }

  /** All request parts, in order. */
  function PartsIn(ms: seq<Message>): seq<RequestPart> {
    if ms == [] then []
    else PartsIn(ms[..|ms| - 1]) + (if ms[|ms| - 1].Request? then ms[|ms| - 1].asked else [])
  }

  /** The string a structured tool result holds under `key`, if it is an object with one. */
  function StringField(c: Content, key: string): Option<string> {
    if c.Data? && c.value.JObject? && key in c.value.members && c.value.members[key].JString?
    then Some(c.value.members[key].s) else None
  }

  function DraftIdOf(p: RequestPart): seq<string> {
    if p.ToolReturn? && p.tool == SCHEDULING_DRAFT && StringField(p.result, "draft_id").Some?
    then [StringField(p.result, "draft_id").value] else []
  }

  function DraftIdsOf(parts: seq<RequestPart>): seq<string> {
    if parts == [] then [] else DraftIdsOf(parts[..|parts| - 1]) + DraftIdOf(parts[|parts| - 1])
  }

  function DraftIds(ms: seq<Message>): seq<string> {
    DraftIdsOf(PartsIn(ThisRun(ms)))
  }

  predicate IsCitableResult(p: RequestPart, citable: set<string>) {
    p.ToolReturn? && p.tool in citable && StringField(p.result, "result_id").Some?
    && StringField(p.result, "result_id").value != ""
  }

  function ResultIdsOf(parts: seq<RequestPart>, citable: set<string>): set<string> {
    set p | p in parts && IsCitableResult(p, citable) :: StringField(p.result, "result_id").value
  }

  function ResultIds(ms: seq<Message>, citable: set<string>): set<string> {
    ResultIdsOf(PartsIn(ThisRun(ms)), citable)
  }

  /** Rows of a structured tool result: the list under `items`. */
  function RowsOf(p: RequestPart): seq<Json> {
    if p.ToolReturn? && p.result.Data? && p.result.value.JObject?
       && "items" in p.result.value.members && p.result.value.members["items"].JArray?
    then p.result.value.members["items"].items else []
  }

  predicate HasHandle(row: Json) {
    row.JObject? && "ev" in row.members && row.members["ev"].JString?
  }

  function RecordHandlesOf(parts: seq<RequestPart>): set<string> {
    set p, row | p in parts && row in RowsOf(p) && HasHandle(row) :: row.members["ev"].s
  }

  function RecordHandles(ms: seq<Message>): set<string> {
    RecordHandlesOf(PartsIn(ThisRun(ms)))
  }

  function FirstTextPrompt(parts: seq<RequestPart>): Option<string> {
    if parts == [] then None
    else if parts[0].UserPrompt? && parts[0].content.Text? then Some(parts[0].content.s)
    else FirstTextPrompt(parts[1..])
  }

  /** The planner's prompt, found from the end of the conversation. */
  function CurrentPrompt(ms: seq<Message>): Option<string> {
    if ms == [] then None
    else
      var last := ms[|ms| - 1];
      if last.Request? && FirstTextPrompt(last.asked).Some? then FirstTextPrompt(last.asked)
      else CurrentPrompt(ms[..|ms| - 1])
  }

  method MessagesThisRun(ms: seq<Message>) returns (r: seq<Message>)
    ensures r == ThisRun(ms)
  {
    var start := 0;
    for i := 0 to |ms|
      invariant start == StartOfRun(ms[..i]) && start <= |ms|
    {
      assert ms[..i + 1][..i] == ms[..i];
      if ms[i].Request? && exists p :: p in ms[i].asked && p.UserPrompt? {
        start := i;
      }
    }
    assert ms[..|ms|] == ms;
    r := ms[start..];
  }

  method DraftIdsThisRun(ms: seq<Message>) returns (ids: seq<string>)
    ensures ids == DraftIds(ms)
  {
    hide StartOfRun, DraftIdsOf;
    NothingHoldsNoDrafts();
    ids := [];
    var run := MessagesThisRun(ms);
    for i := 0 to |run|
      invariant ids == DraftIdsOf(PartsIn(run[..i]))
    {
      assert run[..i + 1][..i] == run[..i];
      if run[i].Request? {
        var more := DraftIdsInParts(run[i].asked);
        ids := ids + more;
        DraftIdsOfConcat(PartsIn(run[..i]), run[i].asked);
      } else {
        assert PartsIn(run[..i + 1]) == PartsIn(run[..i]);
      }
    }
    assert run[..|run|] == run;
  }

  method DraftIdsInParts(parts: seq<RequestPart>) returns (ids: seq<string>)
    ensures ids == DraftIdsOf(parts)
  {
    ids := [];
    for j := 0 to |parts|
      invariant ids == DraftIdsOf(parts[..j])
    {
      assert parts[..j + 1][..j] == parts[..j];
      if parts[j].ToolReturn? && parts[j].tool == SCHEDULING_DRAFT {
        var id := StringField(parts[j].result, "draft_id");
        if id.Some? {
          ids := ids + [id.value];
        }
      }
    }
    assert parts[..|parts|] == parts;
  }

  method ResultIdsThisRun(ms: seq<Message>, citable: set<string>) returns (found: set<string>)
    ensures found == ResultIds(ms, citable)
  {
    found := {};
    var run := MessagesThisRun(ms);
    for i := 0 to |run|
      invariant found == ResultIdsOf(PartsIn(run[..i]), citable)
    {
      assert run[..i + 1][..i] == run[..i];
      if run[i].Request? {
        var parts := run[i].asked;
        ghost var before := PartsIn(run[..i]);
        for j := 0 to |parts|
          invariant found == ResultIdsOf(before + parts[..j], citable)
        {
          assert before + parts[..j + 1] == before + parts[..j] + [parts[j]];
          if IsCitableResult(parts[j], citable) {
            found := found + {StringField(parts[j].result, "result_id").value};
          }
        }
        assert parts[..|parts|] == parts;
      }
    }
    assert run[..|run|] == run;
  }

  method RecordHandlesThisRun(ms: seq<Message>) returns (found: set<string>)
    ensures found == RecordHandles(ms)
  {
    found := {};
    var run := MessagesThisRun(ms);
    for i := 0 to |run|
      invariant found == RecordHandlesOf(PartsIn(run[..i]))
    {
      assert run[..i + 1][..i] == run[..i];
      if run[i].Request? {
        var more := RecordHandlesInParts(run[i].asked);
        found := found + more;
      }
    }
    assert run[..|run|] == run;
  }

  method RecordHandlesInParts(parts: seq<RequestPart>) returns (found: set<string>)
    ensures found == RecordHandlesOf(parts)
  {
    found := {};
    for j := 0 to |parts|
      invariant found == RecordHandlesOf(parts[..j])
    {
      assert parts[..j + 1] == parts[..j] + [parts[j]];
      var more := RecordHandlesInRows(RowsOf(parts[j]));
      found := found + more;
    }
    assert parts[..|parts|] == parts;
  }

  method RecordHandlesInRows(rows: seq<Json>) returns (found: set<string>)
    ensures found == set row | row in rows && HasHandle(row) :: row.members["ev"].s
  {
    found := {};
    for k := 0 to |rows|
      invariant found == set row | row in rows[..k] && HasHandle(row) :: row.members["ev"].s
    {
      assert rows[..k + 1] == rows[..k] + [rows[k]];
      if HasHandle(rows[k]) {
        found := found + {rows[k].members["ev"].s};
      }
    }
    assert rows[..|rows|] == rows;
  }

  // ----- the validators

  datatype Output =
    | Answer(text: string)
    | Clarification(question: string)
    | Refusal(detail: string)
    | Draft(draftId: string)
    | Deferred(calls: seq<string>)
    | Unrecognised

  datatype Rule =
    | EmptyAnswer
    | ClaimWithoutCalculation
    | FactWithoutInspection
    | ClaimTagMalformed
    | ClaimGap
    | QuantityWithoutClaim
    | DraftOutputWithoutDraft
    | DraftOutputMissing

  datatype Verdict = Accept(output: Output) | Retry(rule: Rule)

  /** The prose rules, as predicates on the answer text. */
  datatype TextRules = TextRules(
    blank: string -> bool,
    hasHandles: string -> bool,
    hasFactTags: string -> bool,
    hasBrokenTags: string -> bool,
    hasMalformedPlaceholders: string -> bool,
    leavesGap: string -> bool,
    asksQuantity: string -> bool)

  datatype Config = Config(text: TextRules, citable: set<string>, maxRetries: nat, declaredCodes: set<string>)

  /** All that the validators read from the conversation. */
  datatype View = View(drafts: seq<string>, results: set<string>, records: set<string>, prompt: Option<string>)

  function ViewOf(cfg: Config, ms: seq<Message>): View {
    View(DraftIds(ms), ResultIds(ms, cfg.citable), RecordHandles(ms), CurrentPrompt(ms))
  }

  predicate AsksForAQuantity(cfg: Config, prompt: Option<string>) {
    prompt.Some? && cfg.text.asksQuantity(prompt.value)
  }

  function RejectUncitedClaim(cfg: Config, view: View, retry: nat, o: Output): Verdict {
    if !o.Answer? then Accept(o)
    else
      var t := cfg.text;
      var handles := t.hasHandles(o.text);
      var lastAttempt := retry >= cfg.maxRetries;
      if t.blank(o.text) then Retry(EmptyAnswer)
      else if handles && view.results == {} && !lastAttempt then Retry(ClaimWithoutCalculation)
      else if t.hasFactTags(o.text) && view.records == {} && !lastAttempt then Retry(FactWithoutInspection)
      else if t.hasBrokenTags(o.text) && !lastAttempt then Retry(ClaimTagMalformed)
      else if t.hasMalformedPlaceholders(o.text) && !lastAttempt then Retry(ClaimGap)
      else if !handles && AsksForAQuantity(cfg, view.prompt) then Retry(QuantityWithoutClaim)
      else if !handles && t.leavesGap(o.text) then Retry(ClaimGap)
      else Accept(o)
  }

  function RequireDraftOutput(ids: seq<string>, o: Output): Verdict {
    if o.Draft? then
      if ids == [] then Retry(DraftOutputWithoutDraft)
      else if o.draftId !in ids then Accept(Draft(ids[|ids| - 1]))
      else Accept(o)
    else if o.Deferred? then Accept(o)
    else if ids != [] then Retry(DraftOutputMissing)
    else Accept(o)
  }

  /** Validators run in registration order; the first retry wins. */
  function Validate(cfg: Config, view: View, retry: nat, o: Output): Verdict {
    match RejectUncitedClaim(cfg, view, retry, o)
    case Retry(rule) => Retry(rule)
    case Accept(o') => RequireDraftOutput(view.drafts, o')
  }

  // ----- the run

  datatype Fault =
    | RunCancelled
    | UsageLimitExceeded
    | FallbackExhausted
    | UnexpectedModelBehavior
    | ModelHttpError
    | AgentRunError
    | CapabilityError(code: string)
    | OtherError

  datatype Event =
    | ToolRound(calls: seq<ResponsePart>, results: seq<RequestPart>)
    | Attempt(reply: seq<ResponsePart>, output: Output, closing: seq<RequestPart>)
    | Unparsed(reply: seq<ResponsePart>)
    | Stop(fault: Fault)

  /** A turn opens with the planner's prompt, or resumes with the results of approved calls. */
  datatype Opening = Prompt(text: string) | Resumed(results: seq<RequestPart>)

  function OpeningParts(o: Opening): seq<RequestPart> {
    match o
    case Prompt(s) => [UserPrompt(Text(s))]
    case Resumed(results) => results
  }

  const RETRY_PROMPT := HiddenRequest(0)

  datatype Ended = Ended(
    accepted: Option<Output>,
    fault: Fault,
    messages: seq<Message>,
    rule: Option<Rule>,
    used: nat)

  /** The messages one event adds while the run goes on. */
  function Added(ev: Event): seq<Message> {
    match ev
    case ToolRound(calls, results) => [Response(calls), Request(results)]
    case Attempt(reply, _, _) => [Response(reply)]
    case Unparsed(reply) => [Response(reply)]
    case Stop(_) => []
  }

  datatype Ruling = Deliver(output: Output) | Again(rule: Option<Rule>)

  /** Deliver the output or ask again; an unreadable reply names no rule of its own. */
  function Judge(cfg: Config, view: View, retry: nat, rule: Option<Rule>, ev: Event): (r: Ruling)
    ensures r.Deliver? ==> ev.Attempt?
  {
    if !ev.Attempt? then Again(rule)
    else match Validate(cfg, view, retry, ev.output)
         case Accept(o) => Deliver(o)
         case Retry(r) => Again(Some(r))
  }

  /**
   Run the script from the messages so far. A rejected reply is asked for again until the
   output retries are spent. An exhausted script is the deadline expiring.
   */
  function Drive(cfg: Config, ms: seq<Message>, retry: nat, rule: Option<Rule>, script: seq<Event>): (e: Ended)
    ensures e.used <= |script| && (script != [] ==> e.used > 0)
    decreases |script|
  {
    if script == [] then Ended(None, RunCancelled, ms, rule, 0)
    else
      var ev := script[0];
      var seen := ms + Added(ev);
      if ev.Stop? then Ended(None, ev.fault, ms, rule, 1)
      else if ev.ToolRound? then OneMore(Drive(cfg, seen, retry, rule, script[1..]))
      else
        var ruling := Judge(cfg, ViewOf(cfg, seen), retry, rule, ev);
        if ruling.Deliver? then Ended(Some(ruling.output), OtherError, seen + [Request(ev.closing)], rule, 1)
        else if retry >= cfg.maxRetries then Ended(None, UnexpectedModelBehavior, seen, ruling.rule, 1)
        else OneMore(Drive(cfg, seen + [Request([RETRY_PROMPT])], retry + 1, ruling.rule, script[1..]))
  }

  function OneMore(e: Ended): Ended {
    e.(used := e.used + 1)
  }

  datatype RunStatus = Completed | TimedOut | Failed | Suspended

  datatype ToolOutcome = ToolOutcome(callId: string, tool: string, content: string)

  datatype Outcome = Outcome(
    status: RunStatus,
    failureReason: Option<string>,
    failureFromCapability: bool,
    answer: Option<string>,
    clarification: Option<string>,
    refusal: Option<string>,
    draft: Option<string>,
    pending: seq<string>,
    turn: Turn,
    toolResults: seq<ToolOutcome>)

  datatype AgentError = ProviderError | InvalidOutput(rule: Option<Rule>) | RuntimeError | HistoryRejected

  datatype Reply = Returned(outcome: Outcome) | Raised(error: AgentError)

  function NoWork(status: RunStatus): Outcome {
    Outcome(status, None, false, None, None, None, None, [], [], [])
  }

  function ResultsOfParts(parts: seq<OwnedPart>, excluded: set<string>): seq<ToolOutcome> {
    if parts == [] then []
    else
      var p := parts[|parts| - 1];
      ResultsOfParts(parts[..|parts| - 1], excluded) +
      (if p.toolName.Some? && p.toolName.value in excluded then []
       else [ToolOutcome(Or(p.callId, ""), Or(p.toolName, ""), Or(p.text, ""))])
  }

  /** `_tool_results`: every tool result of the transcript whose tool is not an output tool. */
  function ToolResults(turn: Turn, excluded: set<string>): seq<ToolOutcome> {
    if turn == [] then []
    else
      var m := turn[|turn| - 1];
      ToolResults(turn[..|turn| - 1], excluded) +
      (if m.role == ToolResult then ResultsOfParts(m.parts, excluded) else [])
  }

  const OUTPUT_TOOL_NAMES: set<string> := {"final_result", "clarification", "refusal", "draft"}

  /** An accepted output as an outcome carrying the transcript. */
  function Reported(o: Output, turn: Turn): Reply {
    match o
    case Deferred(calls) => Returned(NoWork(Suspended).(turn := turn, pending := calls))
    case Unrecognised => Raised(RuntimeError)
    case Answer(t) => Returned(Finished(turn).(answer := Some(t)))
    case Clarification(q) => Returned(Finished(turn).(clarification := Some(q)))
    case Refusal(d) => Returned(Finished(turn).(refusal := Some(d)))
    case Draft(id) => Returned(Finished(turn).(draft := Some(id)))
  }

  /** Exceptions by type; unusable output falls back to the latest draft the tools returned. */
  function Recovered(cfg: Config, fault: Fault, rule: Option<Rule>, ids: seq<string>): Reply {
    match fault
    case RunCancelled => Returned(NoWork(TimedOut))
    case UsageLimitExceeded => Returned(NoWork(Failed).(failureReason := Some("budget_exhausted")))
    case FallbackExhausted => Raised(ProviderError)
    case UnexpectedModelBehavior =>
      if ids != [] then Returned(NoWork(Completed).(draft := Some(ids[|ids| - 1])))
      else Raised(InvalidOutput(rule))
    case ModelHttpError => Raised(ProviderError)
    case AgentRunError => Raised(RuntimeError)
    case CapabilityError(code) =>
      if code in cfg.declaredCodes
      then Returned(NoWork(Failed).(failureReason := Some(code), failureFromCapability := true))
      else Raised(RuntimeError)
    case OtherError => Raised(RuntimeError)
  }

  /** How the end of a run becomes an owned outcome. */
  function OutcomeOf(cfg: Config, e: Ended): Reply {
    if e.accepted.Some? then Reported(e.accepted.value, Owned(e.messages))
    else Recovered(cfg, e.fault, e.rule, DraftIds(e.messages))
  }

  function Finished(turn: Turn): Outcome {
    NoWork(Completed).(turn := turn, toolResults := ToolResults(turn, OUTPUT_TOOL_NAMES))
  }

  function EndOf(cfg: Config, rebuilt: seq<Message>, opening: Opening, script: seq<Event>): Ended {
    Drive(cfg, rebuilt + [Request(OpeningParts(opening))], 0, None, script)
  }

  /** `run_turn` as a function. */
  function TurnReply(cfg: Config, history: Turn, opening: Opening, script: seq<Event>): Reply {
    match Framework(history)
    case Err(_) => Raised(HistoryRejected)
    case Ok(rebuilt) => OutcomeOf(cfg, EndOf(cfg, rebuilt, opening, script))
  }

  /** The adapter object: it remembers only the last rule that asked for a retry. */
  class Runtime {
    const cfg: Config
    var lastRetryRule: Option<Rule>

    constructor (c: Config)
      ensures cfg == c && lastRetryRule == None
    {
      cfg, lastRetryRule := c, None;
    }

    method CheckClaims(ms: seq<Message>, retry: nat, o: Output) returns (v: Verdict)
      modifies this
      ensures v == RejectUncitedClaim(cfg, ViewOf(cfg, ms), retry, o)
      ensures lastRetryRule == if v.Retry? then Some(v.rule) else old(lastRetryRule)
    {
      if !o.Answer? {
        return Accept(o);
      }
      if cfg.text.blank(o.text) {
        lastRetryRule := Some(EmptyAnswer);
        return Retry(EmptyAnswer);
      }
      var handles := cfg.text.hasHandles(o.text);
      var returned := ResultIdsThisRun(ms, cfg.citable);
      var lastAttempt := retry >= cfg.maxRetries;
      if handles && returned == {} && !lastAttempt {
        lastRetryRule := Some(ClaimWithoutCalculation);
        return Retry(ClaimWithoutCalculation);
      }
      var records := RecordHandlesThisRun(ms);
      if cfg.text.hasFactTags(o.text) && records == {} && !lastAttempt {
        lastRetryRule := Some(FactWithoutInspection);
        return Retry(FactWithoutInspection);
      }
      if cfg.text.hasBrokenTags(o.text) && !lastAttempt {
        lastRetryRule := Some(ClaimTagMalformed);
        return Retry(ClaimTagMalformed);
      }
      if cfg.text.hasMalformedPlaceholders(o.text) && !lastAttempt {
        lastRetryRule := Some(ClaimGap);
        return Retry(ClaimGap);
      }
      if !handles && AsksForAQuantity(cfg, CurrentPrompt(ms)) {
        lastRetryRule := Some(QuantityWithoutClaim);
        return Retry(QuantityWithoutClaim);
      }
      if !handles && cfg.text.leavesGap(o.text) {
        lastRetryRule := Some(ClaimGap);
        return Retry(ClaimGap);
      }
      return Accept(o);
    }

    method CheckDraft(ms: seq<Message>, o: Output) returns (v: Verdict)
      modifies this
      ensures v == RequireDraftOutput(ViewOf(cfg, ms).drafts, o)
      ensures lastRetryRule == if v.Retry? then Some(v.rule) else old(lastRetryRule)
    {
      var ids := DraftIdsThisRun(ms);
      if o.Draft? {
        if ids == [] {
          lastRetryRule := Some(DraftOutputWithoutDraft);
          return Retry(DraftOutputWithoutDraft);
        }
        if o.draftId !in ids {
          return Accept(Draft(ids[|ids| - 1]));
        }
        return Accept(o);
      }
      if o.Deferred? {
        return Accept(o);
      }
      if ids != [] {
        lastRetryRule := Some(DraftOutputMissing);
        return Retry(DraftOutputMissing);
      }
      return Accept(o);
    }

    method RunSync(rebuilt: seq<Message>, opening: Opening, script: seq<Event>) returns (e: Ended)
      requires lastRetryRule == None
      modifies this
      ensures e == EndOf(cfg, rebuilt, opening, script) && lastRetryRule == e.rule
    {
      hide ViewOf, RejectUncitedClaim, RequireDraftOutput;
      var ms := rebuilt + [Request(OpeningParts(opening))];
      var retry := 0;
      var i := 0;
      ghost var goal := EndOf(cfg, rebuilt, opening, script);
      while i < |script|
        invariant i <= |script|
        invariant var rest := Drive(cfg, ms, retry, lastRetryRule, script[i..]);
                  goal == rest.(used := rest.used + i)
      {
        ghost var here := script[i..];
        assert here[1..] == script[i + 1..] && here[0] == script[i];
        var again := false;
        match script[i] {
          case Stop(f) => return Ended(None, f, ms, lastRetryRule, i + 1);
          case ToolRound(calls, results) => ms := ms + [Response(calls), Request(results)];
          case Unparsed(reply) =>
            ms := ms + [Response(reply)];
            again := true;
          case Attempt(reply, output, closing) =>
            ms := ms + [Response(reply)];
            var v := CheckClaims(ms, retry, output);
            if v.Accept? {
              v := CheckDraft(ms, v.output);
            }
            if v.Accept? {
              return Ended(Some(v.output), OtherError, ms + [Request(closing)], lastRetryRule, i + 1);
            }
            again := true;
        }
        if again {
          if retry >= cfg.maxRetries {
            return Ended(None, UnexpectedModelBehavior, ms, lastRetryRule, i + 1);
          }
          ms := ms + [Request([RETRY_PROMPT])];
          retry := retry + 1;
        }
        i := i + 1;
      }
      return Ended(None, RunCancelled, ms, lastRetryRule, i);
    }

    /** The reply never depends on a rule remembered from an earlier turn. */
    method RunTurn(history: Turn, opening: Opening, script: seq<Event>) returns (r: Reply)
      modifies this
      ensures r == TurnReply(cfg, history, opening, script)
      ensures r.Raised? && r.error.InvalidOutput? ==> lastRetryRule == r.error.rule
    {
      hide Drive, DraftIds, Owned, RebuiltAll, ToolResults;
      lastRetryRule := None;
      var rebuilt := ToFrameworkMessages(history);
      if rebuilt.Err? {
        return Raised(HistoryRejected);
      }
      var e := RunSync(rebuilt.value, opening, script);
      r := OutcomeOf(cfg, e);
    }
  }

  // ----- assumptions on the framework's own messages

  predicate NoPrompts(parts: seq<RequestPart>) {
    forall p :: p in parts ==> !p.UserPrompt?
  }

  /**
   Requests made during a run hold tool returns; the closing ones are plain notices, except
   that a reply that asks for approval may have called other tools, whose results close the run.
   */
  predicate WellFormedEvent(ev: Event) {
    match ev
    case ToolRound(_, results) => NoPrompts(results)
    case Attempt(_, output, closing) => NoPrompts(closing) && (output.Deferred? || PlainResults(closing))
    case _ => true
  }

  predicate WellFormed(script: seq<Event>) {
    forall ev :: ev in script ==> WellFormedEvent(ev)
  }

  predicate WellOpened(o: Opening) {
    o.Resumed? ==> NoPrompts(o.results)
  }

  /** Draft ids the scheduling_draft tool returned in these events, in order. */
  function DraftsReturned(events: seq<Event>): seq<string> {
    if events == [] then [] else DraftsOfEvent(events[0]) + DraftsReturned(events[1..])
  }

  /** A tool round returns its results, and so does a reply that asks for approval beside other calls. */
  function DraftsOfEvent(ev: Event): seq<string> {
    match ev
    case ToolRound(_, results) => DraftIdsOf(results)
    case Attempt(_, output, closing) => if output.Deferred? then DraftIdsOf(closing) else []
    case _ => []
  }

  function DraftsOfTurn(o: Opening, events: seq<Event>): seq<string> {
    DraftIdsOf(OpeningParts(o)) + DraftsReturned(events)
  }

  // ----- scans over concatenations

  lemma {:induction false} PartsInConcat(a: seq<Message>, b: seq<Message>)
    ensures PartsIn(a + b) == PartsIn(a) + PartsIn(b)
  {
    if b == [] {
      assert a + b == a;
    } else {
      assert (a + b)[..|a + b| - 1] == a + b[..|b| - 1];
      PartsInConcat(a, b[..|b| - 1]);
    }
  }

  lemma {:induction false} DraftIdsOfConcat(a: seq<RequestPart>, b: seq<RequestPart>)
    ensures DraftIdsOf(a + b) == DraftIdsOf(a) + DraftIdsOf(b)
  {
    if b == [] {
      assert a + b == a;
    } else {
      assert (a + b)[..|a + b| - 1] == a + b[..|b| - 1];
      DraftIdsOfConcat(a, b[..|b| - 1]);
    }
  }

  lemma {:induction false} DraftsReturnedSplit(script: seq<Event>, n: nat)
    requires 0 < n <= |script|
    ensures DraftsReturned(script[..n]) == DraftsOfEvent(script[0]) + DraftsReturned(script[1..][..n - 1])
  {
    assert script[..n][1..] == script[1..][..n - 1];
  }

  /** Tool returns that carry no structured result carry no draft. */
  predicate PlainResults(parts: seq<RequestPart>) {
    forall p :: p in parts && p.ToolReturn? ==> p.result.Text?
  }

  lemma {:induction false} PlainResultsHaveNoDrafts(parts: seq<RequestPart>)
    requires PlainResults(parts)
    ensures DraftIdsOf(parts) == []
  {
    if parts != [] {
      assert parts[|parts| - 1] in parts;
      PlainResultsHaveNoDrafts(parts[..|parts| - 1]);
    }
  }

  lemma PartsInSingle(m: Message)
    ensures PartsIn([m]) == if m.Request? then m.asked else []
  {
    assert [m][..0] == [];
  }

  lemma RebuiltMessageIsPlain(m: OwnedMessage)
    requires Refused(m).None?
    ensures PlainResults(PartsIn(Rebuilt(m)))
  {
    hide PartsIn, Refused;
    if Rebuilt(m) == [] {
      NothingHoldsNoDrafts();
    } else {
      var first := Rebuilt(m)[0];
      assert Rebuilt(m) == [first];
      PartsInSingle(first);
      if first.Request? {
        assert forall i :: 0 <= i < |first.asked| && first.asked[i].ToolReturn? ==> first.asked[i].result.Text?;
      }
    }
  }

  /** A rebuilt history holds plain text only, so it can never supply a draft. */
  lemma {:induction false} RebuiltHistoryIsPlain(t: Turn)
    requires Accepted(t)
    ensures PlainResults(PartsIn(RebuiltAll(t)))
  {
    hide Rebuilt;
    if t != [] {
      RebuiltHistoryIsPlain(t[..|t| - 1]);
      RebuiltMessageIsPlain(t[|t| - 1]);
      PartsInConcat(RebuiltAll(t[..|t| - 1]), Rebuilt(t[|t| - 1]));
    }
  }

  /** Messages a run adds after its opening request: no user prompt among them. */
  predicate NoPromptAfter(ms: seq<Message>) {
    forall m :: m in ms && m.Request? ==> NoPrompts(m.asked)
  }

  lemma {:induction false} RunStartsAtItsPrompt(h: seq<Message>, first: Message, rest: seq<Message>)
    requires HasUserPrompt(first) && NoPromptAfter(rest)
    ensures StartOfRun(h + [first] + rest) == |h|
    ensures ThisRun(h + [first] + rest) == [first] + rest
  {
    var ms := h + [first] + rest;
    if rest == [] {
      assert ms == h + [first];
    } else {
      var front := rest[..|rest| - 1];
      assert ms[..|ms| - 1] == h + [first] + front;
      assert ms[|ms| - 1] == rest[|rest| - 1] && rest[|rest| - 1] in rest;
      RunStartsAtItsPrompt(h, first, front);
    }
  }

  // ----- drafts of a turn

  lemma {:induction false} StartIsBefore(h: seq<Message>, rest: seq<Message>)
    requires NoPromptAfter(rest)
    ensures StartOfRun(h + rest) <= |h|
  {
    if rest != [] {
      assert rest[|rest| - 1] in rest;
      assert (h + rest)[..|h + rest| - 1] == h + rest[..|rest| - 1];
      StartIsBefore(h, rest[..|rest| - 1]);
    } else {
      assert h + rest == h;
    }
  }

  lemma PlainSuffixHasNoDrafts(h: seq<Message>, k: nat)
    requires k <= |h| && PlainResults(PartsIn(h))
    ensures DraftIdsOf(PartsIn(h[k..])) == []
  {
    hide PartsIn, DraftIdsOf;
    PartsInConcat(h[..k], h[k..]);
    assert h[..k] + h[k..] == h;
    PlainResultsHaveNoDrafts(PartsIn(h[k..]));
  }

  lemma DraftsOfPlainPrefix(a: seq<Message>, b: seq<Message>)
    requires DraftIdsOf(PartsIn(a)) == []
    ensures DraftIdsOf(PartsIn(a + b)) == DraftIdsOf(PartsIn(b))
  {
    hide PartsIn, DraftIdsOf;
    PartsInConcat(a, b);
    DraftIdsOfConcat(PartsIn(a), PartsIn(b));
  }

  /** Without a prompt of its own, the run still sees no draft of a plain history. */
  lemma PlainHistoryAddsNoDrafts(h: seq<Message>, rest: seq<Message>)
    requires PlainResults(PartsIn(h)) && NoPromptAfter(rest)
    ensures DraftIds(h + rest) == DraftIdsOf(PartsIn(rest))
  {
    hide PartsIn, DraftIdsOf, StartOfRun;
    var k := StartOfRun(h + rest);
    StartIsBefore(h, rest);
    assert (h + rest)[k..] == h[k..] + rest;
    PlainSuffixHasNoDrafts(h, k);
    DraftsOfPlainPrefix(h[k..], rest);
  }

  /** Drafts visible to the validators are exactly those this turn's tools returned. */
  lemma DraftsAreThisTurns(h: seq<Message>, opening: Opening, rest: seq<Message>)
    requires PlainResults(PartsIn(h)) && WellOpened(opening) && NoPromptAfter(rest)
    ensures DraftIds(h + [Request(OpeningParts(opening))] + rest)
            == DraftIdsOf(OpeningParts(opening)) + DraftIdsOf(PartsIn(rest))
  {
    hide PartsIn, DraftIdsOf, StartOfRun;
    var first := Request(OpeningParts(opening));
    assert h + [first] + rest == h + ([first] + rest);
    PartsInSingle(first);
    PartsInConcat([first], rest);
    DraftIdsOfConcat(first.asked, PartsIn(rest));
    if opening.Prompt? {
      assert UserPrompt(Text(opening.text)) in first.asked;
      RunStartsAtItsPrompt(h, first, rest);
    } else {
      PlainHistoryAddsNoDrafts(h, [first] + rest);
    }
  }

  lemma DraftIdsOfMessages(a: seq<Message>, b: seq<Message>)
    ensures DraftIdsOf(PartsIn(a + b)) == DraftIdsOf(PartsIn(a)) + DraftIdsOf(PartsIn(b))
  {
    hide PartsIn, DraftIdsOf;
    PartsInConcat(a, b);
    DraftIdsOfConcat(PartsIn(a), PartsIn(b));
  }

  lemma AddedCarriesItsDrafts(ev: Event)
    requires WellFormedEvent(ev)
    ensures NoPromptAfter(Added(ev)) && (ev.Stop? ==> Added(ev) == [])
    ensures DraftIdsOf(PartsIn(Added(ev))) == if ev.ToolRound? then DraftsOfEvent(ev) else []
  {
    if ev.ToolRound? {
      assert Added(ev) == [Response(ev.calls)] + [Request(ev.results)];
      PartsInSingle(Response(ev.calls));
      PartsInSingle(Request(ev.results));
      PartsInConcat([Response(ev.calls)], [Request(ev.results)]);
    } else if !ev.Stop? {
      PartsInSingle(Added(ev)[0]);
    }
  }

  lemma RetryPromptIsSilent()
    ensures NoPromptAfter([Request([RETRY_PROMPT])])
    ensures DraftIdsOf(PartsIn([Request([RETRY_PROMPT])])) == []
  {
    PartsInSingle(Request([RETRY_PROMPT]));
    PlainResultsHaveNoDrafts([RETRY_PROMPT]);
  }

  /** A closing request adds its own drafts to the run's, and no prompt; plain notices hold none. */
  lemma ClosingAddsItsDrafts(ms: seq<Message>, closing: seq<RequestPart>)
    requires ms != [] && NoPrompts(closing)
    ensures NoPromptAfter([Request(closing)])
    ensures DraftIdsOf(PartsIn([Request(closing)])) == DraftIdsOf(closing)
    ensures DraftIds(ms + [Request(closing)]) == DraftIds(ms) + DraftIdsOf(closing)
    ensures PlainResults(closing) ==> DraftIdsOf(closing) == [] && DraftIds(ms + [Request(closing)]) == DraftIds(ms)
  {
    hide PartsIn, DraftIdsOf;
    var all := ms + [Request(closing)];
    PartsInSingle(Request(closing));
    if PlainResults(closing) {
      PlainResultsHaveNoDrafts(closing);
    }
    assert all[..|ms|] == ms;
    assert StartOfRun(all) == StartOfRun(ms);
    assert all[StartOfRun(ms)..] == ms[StartOfRun(ms)..] + [Request(closing)];
    DraftIdsOfMessages(ThisRun(ms), [Request(closing)]);
  }

  /** A request for approval is always delivered. */
  lemma ApprovalIsDelivered(cfg: Config, view: View, retry: nat, rule: Option<Rule>, ev: Event)
    requires ev.Attempt? && ev.output.Deferred?
    ensures Judge(cfg, view, retry, rule, ev) == Deliver(ev.output)
  {
  }

  /** A delivered output against what the model offered: a garbled draft id becomes the latest one, nothing else changes. */
  predicate CitesOneOf(o: Output, offered: Output, ids: seq<string>) {
    if !offered.Draft? then o == offered && (o.Deferred? || ids == [])
    else ids != [] && o == Draft(if offered.draftId in ids then offered.draftId else ids[|ids| - 1])
  }

  /** An accepted output cites a draft of the run exactly when the run has one. */
  lemma AcceptedOutputCites(cfg: Config, view: View, retry: nat, o: Output)
    ensures Validate(cfg, view, retry, o).Accept? ==> CitesOneOf(Validate(cfg, view, retry, o).output, o, view.drafts)
  {
  }

  lemma DeliveredOutputCites(cfg: Config, seen: seq<Message>, retry: nat, rule: Option<Rule>, ev: Event)
    ensures var ruling := Judge(cfg, ViewOf(cfg, seen), retry, rule, ev);
            ruling.Deliver? ==> CitesOneOf(ruling.output, ev.output, DraftIds(seen))
  {
    hide DraftIds, ResultIds, RecordHandles, CurrentPrompt;
    if ev.Attempt? {
      AcceptedOutputCites(cfg, ViewOf(cfg, seen), retry, ev.output);
    }
  }

  lemma ApprovalCites(o: Output, a: seq<string>, b: seq<string>)
    requires o.Deferred?
    ensures CitesOneOf(o, o, a) && CitesOneOf(o, o, b)
  {
  }

  lemma NothingHoldsNoDrafts()
    ensures PartsIn([]) == [] && DraftIdsOf(PartsIn([])) == [] && DraftsReturned([]) == [] && NoPromptAfter([])
  {
  }

  lemma NoPromptInEither(a: seq<Message>, b: seq<Message>)
    requires NoPromptAfter(a) && NoPromptAfter(b)
    ensures NoPromptAfter(a + b)
  {
  }

  /** What a run appends holds no prompt, and exactly the drafts its tool rounds returned. */
  lemma {:induction false} DriveAppends(cfg: Config, ms: seq<Message>, retry: nat, rule: Option<Rule>, script: seq<Event>)
    returns (more: seq<Message>)
    requires WellFormed(script) && ms != []
    ensures var e := Drive(cfg, ms, retry, rule, script);
            && e.messages == ms + more
            && NoPromptAfter(more)
            && DraftIdsOf(PartsIn(more)) == DraftsReturned(script[..e.used])
    decreases |script|
  {
    hide Judge, ViewOf, PartsIn, DraftIdsOf, DraftsReturned, DraftIds, Added, NoPromptAfter, PlainResults, NoPrompts;
    NothingHoldsNoDrafts();
    var e := Drive(cfg, ms, retry, rule, script);
    more := [];
    if script != [] {
      var ev := script[0];
      assert ev in script;
      DraftsReturnedSplit(script, e.used);
      AddedCarriesItsDrafts(ev);
      var seen := ms + Added(ev);
      var tail: seq<Message> := [];
      if ev.ToolRound? {
        tail := DriveAppends(cfg, seen, retry, rule, script[1..]);
      } else if !ev.Stop? {
        var ruling := Judge(cfg, ViewOf(cfg, seen), retry, rule, ev);
        if ev.Attempt? && ev.output.Deferred? {
          ApprovalIsDelivered(cfg, ViewOf(cfg, seen), retry, rule, ev);
        }
        if ruling.Deliver? {
          ClosingAddsItsDrafts(seen, ev.closing);
          tail := [Request(ev.closing)];
        } else if retry < cfg.maxRetries {
          RetryPromptIsSilent();
          tail := DriveAppends(cfg, seen + [Request([RETRY_PROMPT])], retry + 1, ruling.rule, script[1..]);
          DraftIdsOfMessages([Request([RETRY_PROMPT])], tail);
          NoPromptInEither([Request([RETRY_PROMPT])], tail);
          Reassociate(seen, [Request([RETRY_PROMPT])], tail);
          tail := [Request([RETRY_PROMPT])] + tail;
        }
      }
      DraftIdsOfMessages(Added(ev), tail);
      NoPromptInEither(Added(ev), tail);
      Reassociate(ms, Added(ev), tail);
      more := Added(ev) + tail;
    }
  }

  /** Whatever a run delivers cites properly against the messages it ends with. */
  lemma {:induction false} DriveCites(cfg: Config, ms: seq<Message>, retry: nat, rule: Option<Rule>, script: seq<Event>)
    requires WellFormed(script) && ms != []
    ensures var e := Drive(cfg, ms, retry, rule, script);
            e.accepted.Some? ==>
              e.used > 0 && script[e.used - 1].Attempt?
              && CitesOneOf(e.accepted.value, script[e.used - 1].output, DraftIds(e.messages))
    decreases |script|
  {
    hide ViewOf, Judge, DraftIds, CitesOneOf;
    if script != [] {
      var ev := script[0];
      assert ev in script;
      var seen := ms + Added(ev);
      if ev.ToolRound? {
        DriveCites(cfg, seen, retry, rule, script[1..]);
      } else if !ev.Stop? {
        var ruling := Judge(cfg, ViewOf(cfg, seen), retry, rule, ev);
        if ruling.Deliver? {
          DeliveredOutputCites(cfg, seen, retry, rule, ev);
          ClosingAddsItsDrafts(seen, ev.closing);
          if ev.output.Deferred? {
            ApprovalIsDelivered(cfg, ViewOf(cfg, seen), retry, rule, ev);
            ApprovalCites(ev.output, DraftIds(seen), DraftIds(seen + [Request(ev.closing)]));
          }
        } else if retry < cfg.maxRetries {
          DriveCites(cfg, seen + [Request([RETRY_PROMPT])], retry + 1, ruling.rule, script[1..]);
        }
      }
    }
  }

  /** The draft a completed turn owes: the one the model cited if it exists, else the latest. */
  function DraftToCarry(ids: seq<string>, delivered: bool, offered: Output): Option<string> {
    if ids == [] then None
    else if delivered && offered.Draft? && offered.draftId in ids then Some(offered.draftId)
    else Some(ids[|ids| - 1])
  }

  /** What the outcome mapping makes of an end whose output cites properly. */
  lemma OutcomeCarriesADraftIff(cfg: Config, e: Ended, offered: Output)
    requires e.accepted.Some? ==> CitesOneOf(e.accepted.value, offered, DraftIds(e.messages))
    requires OutcomeOf(cfg, e).Returned? && OutcomeOf(cfg, e).outcome.status == Completed
    ensures OutcomeOf(cfg, e).outcome.draft == DraftToCarry(DraftIds(e.messages), e.accepted.Some?, offered)
  {
    hide Owned, DraftIds, ToolResults;
  }

  /**
   A completed turn carries a draft if and only if scheduling_draft returned a draft id in
   this turn, and the id it carries is one of those: through retries, through rebinding of a
   garbled id, and through recovery after the retries are exhausted. It is the id the model
   cited in the output it delivered, if that one exists, and otherwise the latest.
   */
  lemma CompletedTurnCarriesADraftIff(cfg: Config, history: Turn, opening: Opening, script: seq<Event>)
    requires WellOpened(opening) && WellFormed(script)
    requires TurnReply(cfg, history, opening, script).Returned?
    requires TurnReply(cfg, history, opening, script).outcome.status == Completed
    ensures Accepted(history)
    ensures var e := EndOf(cfg, RebuiltAll(history), opening, script);
            var ids := DraftsOfTurn(opening, script[..e.used]);
            var draft := TurnReply(cfg, history, opening, script).outcome.draft;
            && (draft.Some? <==> ids != [])
            && (draft.Some? ==> draft.value in ids)
            && (e.accepted.Some? ==> e.used > 0 && script[e.used - 1].Attempt?)
            && draft == DraftToCarry(ids, e.accepted.Some?, if e.accepted.Some? then script[e.used - 1].output else Unrecognised)
  {
    hide Drive, DraftIdsOf, DraftsReturned, PartsIn, RebuiltAll, OutcomeOf, CitesOneOf;
    var h := RebuiltAll(history);
    var start := h + [Request(OpeningParts(opening))];
    var more := DriveAppends(cfg, start, 0, None, script);
    RebuiltHistoryIsPlain(history);
    DraftsAreThisTurns(h, opening, more);
    DriveCites(cfg, start, 0, None, script);
    var e := EndOf(cfg, h, opening, script);
    OutcomeCarriesADraftIff(cfg, e, if e.accepted.Some? then script[e.used - 1].output else Unrecognised);
  }

  // ----- a prompt answered over several runs

  /** One run of a conversation: the prompt's own, or one resumed after a suspension. */
  datatype Leg = Leg(opening: Opening, script: seq<Event>)

  /** The transcript the next run resumes from. */
  function HistoryAfter(cfg: Config, history: Turn, legs: seq<Leg>): Turn
    decreases |legs|, 1
  {
    if legs == [] then history
    else
      match ReplyOfLast(cfg, history, legs)
      case Returned(o) => o.turn
      case Raised(_) => []
  }

  function ReplyOfLast(cfg: Config, history: Turn, legs: seq<Leg>): Reply
    requires legs != []
    decreases |legs|, 0
  {
    var last := legs[|legs| - 1];
    TurnReply(cfg, HistoryAfter(cfg, history, legs[..|legs| - 1]), last.opening, last.script)
  }

  predicate Suspends(r: Reply) {
    r.Returned? && r.outcome.status == Suspended
  }

  predicate Completes(r: Reply) {
    r.Returned? && r.outcome.status == Completed
  }

  /** The prompt's run and every resumed one before the last suspend, and the last one completes. */
  predicate CompletesAfterSuspensions(cfg: Config, history: Turn, legs: seq<Leg>) {
    && legs != []
    && (forall i :: 0 <= i < |legs| ==>
          (legs[i].opening.Prompt? <==> i == 0) && WellOpened(legs[i].opening) && WellFormed(legs[i].script))
    && (forall i :: 1 <= i < |legs| ==> Suspends(ReplyOfLast(cfg, history, legs[..i])))
    && Completes(ReplyOfLast(cfg, history, legs))
  }

  /** Draft ids scheduling_draft returned in one run. */
  function DraftsOfRun(cfg: Config, history: Turn, leg: Leg): seq<string> {
    match Framework(history)
    case Err(_) => []
    case Ok(h) => DraftsOfTurn(leg.opening, leg.script[..EndOf(cfg, h, leg.opening, leg.script).used])
  }

  /** Draft ids scheduling_draft returned since the prompt, over all its runs. */
  function DraftsSincePrompt(cfg: Config, history: Turn, legs: seq<Leg>): seq<string> {
    if legs == [] then []
    else
      var front := legs[..|legs| - 1];
      DraftsSincePrompt(cfg, history, front) + DraftsOfRun(cfg, HistoryAfter(cfg, history, front), legs[|legs| - 1])
  }

  /** A draft does not survive a suspension: a completed turn carries one of its last run's, if that run returned any. */
  lemma LastRunDecides(cfg: Config, history: Turn, legs: seq<Leg>)
    requires CompletesAfterSuspensions(cfg, history, legs)
    ensures var kept := DraftsOfRun(cfg, HistoryAfter(cfg, history, legs[..|legs| - 1]), legs[|legs| - 1]);
            var draft := ReplyOfLast(cfg, history, legs).outcome.draft;
            && (draft.Some? <==> kept != [])
            && (draft.Some? ==> draft.value in DraftsSincePrompt(cfg, history, legs))
  {
    hide TurnReply, HistoryAfter, DraftsOfTurn, EndOf, WellFormed;
    var last := legs[|legs| - 1];
    CompletedTurnCarriesADraftIff(cfg, HistoryAfter(cfg, history, legs[..|legs| - 1]), last.opening, last.script);
  }

  /** The prompt's run and every resumed one so far ended suspended. */
  predicate SuspendedSoFar(cfg: Config, history: Turn, legs: seq<Leg>) {
    && legs != []
    && (forall i :: 0 <= i < |legs| ==>
          (legs[i].opening.Prompt? <==> i == 0) && WellOpened(legs[i].opening) && WellFormed(legs[i].script))
    && (forall i :: 1 <= i < |legs| ==> Suspends(ReplyOfLast(cfg, history, legs[..i])))
    && Suspends(ReplyOfLast(cfg, history, legs))
  }

  /** The completed turn carries a draft exactly when one was returned since the prompt. */
  ghost predicate KeepsItsDrafts(cfg: Config, history: Turn, legs: seq<Leg>)
    requires CompletesAfterSuspensions(cfg, history, legs)
  {
    ReplyOfLast(cfg, history, legs).outcome.draft.Some? <==> DraftsSincePrompt(cfg, history, legs) != []
  }

  /**
   When a suspended prompt may be resumed without losing a draft: however it is resumed and
   completes, the turn carries a draft exactly when one was returned since the prompt, if and
   only if no run so far returned one.
   */
  lemma SuspendedPromptCarriesADraftIff(cfg: Config, history: Turn, before: seq<Leg>)
    requires SuspendedSoFar(cfg, history, before)
    ensures (forall last :: CompletesAfterSuspensions(cfg, history, before + [last]) ==>
               KeepsItsDrafts(cfg, history, before + [last]))
            <==> DraftsSincePrompt(cfg, history, before) == []
  {
    hide TurnReply, HistoryAfter, ReplyOfLast, DraftsOfRun, WellFormed, CompletesAfterSuspensions;
    forall last | CompletesAfterSuspensions(cfg, history, before + [last])
      ensures DraftsSincePrompt(cfg, history, before) == [] ==> KeepsItsDrafts(cfg, history, before + [last])
    {
      LastRunDecides(cfg, history, before + [last]);
      assert (before + [last])[..|before|] == before;
    }
    var last := AskBack(cfg, history, before);
    LastRunDecides(cfg, history, before + [last]);
    assert (before + [last])[..|before|] == before;
  }

  /** A suspended prompt can be resumed with every pending call decided and a question for the planner. */
  lemma AskBack(cfg: Config, history: Turn, before: seq<Leg>) returns (last: Leg)
    requires SuspendedSoFar(cfg, history, before)
    ensures last.opening == Resumed(Decided(ReplyOfLast(cfg, history, before).outcome.pending))
    ensures CompletesAfterSuspensions(cfg, history, before + [last])
    ensures DraftsOfRun(cfg, HistoryAfter(cfg, history, before), last) == []
  {
    hide TurnReply, DraftsOfRun, WellFormed;
    assert before[..|before|] == before;
    var reply, n := ReplyOfLast(cfg, history, before), |before|;
    var h := HistoryAfter(cfg, history, before);
    assert Accepted(h) by {
      var from := HistoryAfter(cfg, history, before[..n - 1]);
      var added := TranscriptExtendsTheHistory(cfg, from, before[n - 1].opening, before[n - 1].script);
    }
    last := Leg(Resumed(Decided(reply.outcome.pending)), [Attempt([], Clarification("?"), [])]);
    ClarificationCompletes(cfg, h, reply.outcome.pending);
    var legs := before + [last];
    assert legs[..n] == before;
    forall i | 1 <= i <= n ensures legs[..i] == before[..i] {
    }
  }

  /** A text result for each pending call. */
  function Decided(calls: seq<string>): seq<RequestPart> {
    seq(|calls|, i requires 0 <= i < |calls| => ToolReturn("", Text("denied by the application"), calls[i]))
  }

  /** Whatever the configuration, a resumed run that drafts nothing and asks back completes. */
  lemma ClarificationCompletes(cfg: Config, history: Turn, calls: seq<string>)
    requires Accepted(history)
    ensures var leg := Leg(Resumed(Decided(calls)), [Attempt([], Clarification("?"), [])]);
            && WellOpened(leg.opening) && WellFormed(leg.script)
            && Completes(TurnReply(cfg, history, leg.opening, leg.script)) && DraftsOfRun(cfg, history, leg) == []
  {
    hide ViewOf, Owned, RebuiltAll, ToolResults, DraftIdsOf, DraftsReturned, DraftIds, PartsIn;
    var script, results := [Attempt([], Clarification("?"), [])], Decided(calls);
    assert forall p :: p in results ==> p.ToolReturn? && p.result.Text?;
    PlainResultsHaveNoDrafts(results);
    NoDraftsInAReply(script);
    assert script[..1] == script;
    var seen := RebuiltAll(history) + [Request(results)] + Added(script[0]);
    RebuiltHistoryIsPlain(history);
    AddedCarriesItsDrafts(script[0]);
    DraftsAreThisTurns(RebuiltAll(history), Resumed(results), Added(script[0]));
    DraftsInView(cfg, seen);
    assert EndOf(cfg, RebuiltAll(history), Resumed(results), script).accepted == Some(Clarification("?"));
  }

  lemma NoDraftsInAReply(script: seq<Event>)
    requires |script| == 1 && script[0].Attempt? && !script[0].output.Deferred?
    ensures DraftsReturned(script) == []
  {
    assert script[1..] == [];
  }

  lemma DraftsInView(cfg: Config, ms: seq<Message>)
    ensures ViewOf(cfg, ms).drafts == DraftIds(ms)
  {
  }

  lemma {:induction false} DraftIdsComeFromATool(parts: seq<RequestPart>) returns (p: RequestPart)
    requires DraftIdsOf(parts) != []
    ensures p in parts && p.ToolReturn? && p.tool == SCHEDULING_DRAFT
  {
    var last := parts[|parts| - 1];
    if DraftIdOf(last) != [] {
      p := last;
    } else {
      p := DraftIdsComeFromATool(parts[..|parts| - 1]);
    }
  }

  /** A transcript that shows a result of this tool. */
  predicate Shows(t: Turn, tool: string) {
    exists m :: m in t && m.role == ToolResult && m.parts != [] && m.parts[0].toolName == Some(tool)
  }

  lemma {:induction false} ToolReturnShowsInRequest(parts: seq<RequestPart>, p: RequestPart)
    requires p in parts && p.ToolReturn?
    ensures Shows(OwnedRequest(parts), p.tool)
  {
    var last := parts[|parts| - 1];
    if p == last {
      var m := OwnedRequestPart(last)[0];
      assert m in OwnedRequest(parts) && m.parts[0].toolName == Some(p.tool);
    } else {
      ToolReturnShowsInRequest(parts[..|parts| - 1], p);
    }
  }

  lemma {:induction false} ToolReturnShows(ms: seq<Message>, p: RequestPart)
    requires p in PartsIn(ms) && p.ToolReturn?
    ensures Shows(Owned(ms), p.tool)
  {
    hide OwnedRequest;
    var last := ms[|ms| - 1];
    if last.Request? && p in last.asked {
      ToolReturnShowsInRequest(last.asked, p);
    } else {
      ToolReturnShows(ms[..|ms| - 1], p);
    }
  }

  /** A suspended run that drafted shows it: its transcript holds a scheduling_draft result. */
  lemma SuspendedDraftShows(cfg: Config, history: Turn, leg: Leg)
    requires WellOpened(leg.opening) && WellFormed(leg.script)
    requires Suspends(TurnReply(cfg, history, leg.opening, leg.script))
    ensures DraftsOfRun(cfg, history, leg) != [] ==>
              Shows(TurnReply(cfg, history, leg.opening, leg.script).outcome.turn, SCHEDULING_DRAFT)
  {
    hide Drive, PartsIn, DraftIdsOf, RebuiltAll, DraftsReturned, Owned, ToolResults;
    var h := RebuiltAll(history);
    var first := [Request(OpeningParts(leg.opening))];
    var e := EndOf(cfg, h, leg.opening, leg.script);
    var more := DriveAppends(cfg, h + first, 0, None, leg.script);
    PartsInSingle(first[0]);
    DraftIdsOfMessages(h, first);
    DraftIdsOfMessages(h + first, more);
    if DraftsOfRun(cfg, history, leg) != [] {
      var p := DraftIdsComeFromATool(PartsIn(e.messages));
      ToolReturnShows(e.messages, p);
    }
  }

  /** What a caller can check before resuming: no transcript handed on shows a scheduling_draft result. */
  lemma {:induction false} NothingShownNothingLost(cfg: Config, history: Turn, legs: seq<Leg>)
    requires forall i :: 0 <= i < |legs| ==> WellOpened(legs[i].opening) && WellFormed(legs[i].script)
    requires forall i :: 1 <= i <= |legs| ==> Suspends(ReplyOfLast(cfg, history, legs[..i]))
    requires forall i :: 1 <= i <= |legs| ==> !Shows(HistoryAfter(cfg, history, legs[..i]), SCHEDULING_DRAFT)
    ensures DraftsSincePrompt(cfg, history, legs) == []
  {
    hide TurnReply, DraftsOfRun, WellFormed, Shows;
    if legs != [] {
      var front, last := legs[..|legs| - 1], legs[|legs| - 1];
      assert legs[..|legs|] == legs;
      forall i | 1 <= i <= |front| ensures front[..i] == legs[..i] {
      }
      NothingShownNothingLost(cfg, history, front);
      SuspendedDraftShows(cfg, HistoryAfter(cfg, history, front), last);
    }
  }

  // ----- a draft that is lost

  const DRAFTED := ToolReturn(SCHEDULING_DRAFT, Data(JObject(map["draft_id" := JString("d")]), ""), "c1")

  /** Draft and then ask for approval, or both in one reply. */
  function DraftAndAsk(together: bool): Leg {
    Leg(Prompt("p"),
        if together then [Attempt([], Deferred(["promote"]), [DRAFTED])]
        else [ToolRound([], [DRAFTED]), Attempt([], Deferred(["promote"]), [])])
  }

  lemma ApprovalEndsTheRun(cfg: Config, ms: seq<Message>, closing: seq<RequestPart>)
    ensures var e := Drive(cfg, ms, 0, None, [Attempt([], Deferred(["promote"]), closing)]);
            e.accepted == Some(Deferred(["promote"])) && e.used == 1
  {
    hide ViewOf;
  }

  lemma DraftAndAskIsSuspended(cfg: Config, together: bool)
    ensures SuspendedSoFar(cfg, [], [DraftAndAsk(together)])
    ensures DraftsSincePrompt(cfg, [], [DraftAndAsk(together)]) == ["d"]
  {
    hide ViewOf, ToolResults, Owned, Judge, RebuiltAll, DraftsReturned, DraftIdsOf;
    var leg := DraftAndAsk(together);
    var script, start := leg.script, [Request([UserPrompt(Text("p"))])];
    NothingToRebuild();
    assert [] + start == start;
    if together {
      ApprovalEndsTheRun(cfg, start, [DRAFTED]);
    } else {
      assert script[1..] == [Attempt([], Deferred(["promote"]), [])];
      ApprovalEndsTheRun(cfg, start + Added(script[0]), []);
      assert EndOf(cfg, [], Prompt("p"), script) == OneMore(Drive(cfg, start + Added(script[0]), 0, None, script[1..]));
    }
    assert [leg][..1] == [leg] && [leg][..0] == [];
    assert EndOf(cfg, [], Prompt("p"), script).used == |script| && script[..|script|] == script;
    DraftsOfDraftAndAsk(together);
    assert Suspends(ReplyOfLast(cfg, [], [leg]));
    assert DraftsSincePrompt(cfg, [], []) == [];
  }

  lemma NothingToRebuild()
    ensures Framework([]) == Ok([])
  {
  }

  lemma DraftsOfDraftAndAsk(together: bool)
    ensures DraftsOfTurn(Prompt("p"), DraftAndAsk(together).script) == ["d"]
  {
    hide DraftIdOf;
    var prompt, script := UserPrompt(Text("p")), DraftAndAsk(together).script;
    DraftIdsOfThese();
    assert [DRAFTED][..0] == [] && [prompt][..0] == [];
    assert DraftIdsOf([DRAFTED]) == ["d"] && DraftIdsOf([prompt]) == [];
    if together {
      assert script[1..] == [];
    } else {
      assert script[1..] == [script[1]] && script[1..][1..] == [];
      assert DraftsReturned(script[1..]) == [];
    }
  }

  lemma DraftIdsOfThese()
    ensures DraftIdOf(DRAFTED) == ["d"] && DraftIdOf(UserPrompt(Text("p"))) == []
  {
  }

  /**
   One draft, one approval, one answer, in whatever configuration: the turn completes without
   the draft, whether it was returned before the request for approval or beside it.
   */
  lemma SuspensionLosesADraft(cfg: Config, together: bool) returns (last: Leg)
    ensures CompletesAfterSuspensions(cfg, [], [DraftAndAsk(together), last])
    ensures DraftsSincePrompt(cfg, [], [DraftAndAsk(together), last]) == ["d"]
    ensures ReplyOfLast(cfg, [], [DraftAndAsk(together), last]).outcome.draft == None
  {
    hide TurnReply, DraftsOfRun, CompletesAfterSuspensions, SuspendedSoFar;
    var first := DraftAndAsk(together);
    DraftAndAskIsSuspended(cfg, together);
    last := AskBack(cfg, [], [first]);
    assert [first] + [last] == [first, last] && [first, last][..1] == [first];
    LastRunDecides(cfg, [], [first, last]);
  }

  // ----- independence from earlier turns

  /** A stretch of messages that holds a text prompt: from its end nothing before it is seen. */
  predicate HoldsPrompt(tail: seq<Message>) {
    CurrentPrompt(tail).Some?
  }

  lemma {:induction false} TextPromptIsAPrompt(parts: seq<RequestPart>)
    ensures FirstTextPrompt(parts).Some? ==> exists p :: p in parts && p.UserPrompt?
  {
    if parts != [] {
      assert parts[0] in parts;
      TextPromptIsAPrompt(parts[1..]);
    }
  }

  lemma {:induction false} RunIsItsTail(h: seq<Message>, tail: seq<Message>)
    requires HoldsPrompt(tail)
    ensures StartOfRun(h + tail) == |h| + StartOfRun(tail)
    ensures ThisRun(h + tail) == ThisRun(tail)
    ensures CurrentPrompt(h + tail) == CurrentPrompt(tail)
  {
    var last := tail[|tail| - 1];
    assert (h + tail)[..|h + tail| - 1] == h + tail[..|tail| - 1];
    if last.Request? {
      TextPromptIsAPrompt(last.asked);
    }
    if !(last.Request? && FirstTextPrompt(last.asked).Some?) {
      RunIsItsTail(h, tail[..|tail| - 1]);
    }
  }

  lemma {:induction false} PromptStays(tail: seq<Message>, more: seq<Message>)
    requires HoldsPrompt(tail)
    ensures HoldsPrompt(tail + more)
  {
    if more == [] {
      assert tail + more == tail;
    } else {
      assert (tail + more)[..|tail + more| - 1] == tail + more[..|more| - 1];
      PromptStays(tail, more[..|more| - 1]);
    }
  }

  lemma ViewIgnoresHistory(cfg: Config, h1: seq<Message>, h2: seq<Message>, tail: seq<Message>)
    requires HoldsPrompt(tail)
    ensures ViewOf(cfg, h1 + tail) == ViewOf(cfg, h2 + tail)
  {
    RunIsItsTail(h1, tail);
    RunIsItsTail(h2, tail);
  }

  predicate SameEnd(e1: Ended, e2: Ended) {
    e1.accepted == e2.accepted && e1.fault == e2.fault && e1.rule == e2.rule && e1.used == e2.used
  }

  lemma Reassociate<T>(a: seq<T>, b: seq<T>, c: seq<T>)
    ensures a + b + c == a + (b + c)
  {
  }

  lemma {:induction false} DriveIgnoresHistory(cfg: Config, h1: seq<Message>, h2: seq<Message>, tail: seq<Message>,
                                               retry: nat, rule: Option<Rule>, script: seq<Event>)
    returns (end: seq<Message>)
    requires HoldsPrompt(tail)
    ensures var e1 := Drive(cfg, h1 + tail, retry, rule, script);
            var e2 := Drive(cfg, h2 + tail, retry, rule, script);
            && SameEnd(e1, e2)
            && HoldsPrompt(end) && e1.messages == h1 + end && e2.messages == h2 + end
    decreases |script|
  {
    hide ViewOf, Judge, HoldsPrompt, Added;
    end := tail;
    if script == [] || script[0].Stop? {
      return;
    }
    var ev := script[0];
    var grown := tail + Added(ev);
    PromptStays(tail, Added(ev));
    Reassociate(h1, tail, Added(ev));
    Reassociate(h2, tail, Added(ev));
    if ev.ToolRound? {
      end := DriveIgnoresHistory(cfg, h1, h2, grown, retry, rule, script[1..]);
    } else {
      var ruling := Judge(cfg, ViewOf(cfg, h1 + grown), retry, rule, ev);
      ViewIgnoresHistory(cfg, h1, h2, grown);
      assert Judge(cfg, ViewOf(cfg, h2 + grown), retry, rule, ev) == ruling;
      var next := [Request(if ruling.Deliver? then ev.closing else [RETRY_PROMPT])];
      PromptStays(grown, next);
      Reassociate(h1, grown, next);
      Reassociate(h2, grown, next);
      if ruling.Deliver? {
        end := grown + next;
      } else if retry >= cfg.maxRetries {
        end := grown;
      } else {
        end := DriveIgnoresHistory(cfg, h1, h2, grown + next, retry + 1, ruling.rule, script[1..]);
      }
    }
  }

  /** Replies that differ at most in the transcript they carry along. */
  predicate SameButTranscript(a: Reply, b: Reply) {
    match (a, b)
    case (Raised(x), Raised(y)) => x == y
    case (Returned(x), Returned(y)) => x.(turn := [], toolResults := []) == y.(turn := [], toolResults := [])
    case _ => false
  }

  lemma SameEndSameOutcome(cfg: Config, e1: Ended, e2: Ended)
    requires SameEnd(e1, e2) && DraftIds(e1.messages) == DraftIds(e2.messages)
    ensures SameButTranscript(OutcomeOf(cfg, e1), OutcomeOf(cfg, e2))
  {
    hide Owned, DraftIds, Reported;
    if e1.accepted.Some? {
      ReportedDiffersInTranscriptOnly(e1.accepted.value, Owned(e1.messages), Owned(e2.messages));
    }
  }

  lemma ReportedDiffersInTranscriptOnly(o: Output, a: Turn, b: Turn)
    ensures SameButTranscript(Reported(o, a), Reported(o, b))
  {
  }

  predicate IsPrompt(m: OwnedMessage) {
    m.role == User && m.parts != []
  }

  /** Index of the last planner prompt of a transcript, or 0. */
  function PromptStart(t: Turn): (i: nat)
    ensures i <= |t|
    ensures t != [] ==> i < |t| && (i == 0 || IsPrompt(t[i]))
    ensures forall j :: i < j < |t| ==> !IsPrompt(t[j])
  {
    if t == [] then 0
    else if IsPrompt(t[|t| - 1]) then |t| - 1
    else PromptStart(t[..|t| - 1])
  }

  function SinceLastPrompt(t: Turn): Turn {
    t[PromptStart(t)..]
  }

  lemma {:induction false} RebuiltConcat(a: Turn, b: Turn)
    requires Accepted(a + b)
    ensures Accepted(a) && Accepted(b) && RebuiltAll(a + b) == RebuiltAll(a) + RebuiltAll(b)
  {
    hide Rebuilt, Refused;
    forall m | m in a || m in b ensures m in a + b {
    }
    if b == [] {
      assert a + b == a;
    } else {
      var front := b[..|b| - 1];
      assert (a + b)[..|a + b| - 1] == a + front;
      RebuiltConcat(a, front);
    }
  }

  lemma {:induction false} RebuiltPromptHoldsPrompt(t: Turn)
    requires Accepted(t) && t != [] && IsPrompt(t[0])
    ensures HoldsPrompt(RebuiltAll(t))
  {
    hide RebuiltAll;
    assert t == [t[0]] + t[1..] && t[0] in t;
    RebuiltConcat([t[0]], t[1..]);
    var first := Rebuilt(t[0]);
    assert RebuiltAll([t[0]]) == first by { RebuiltOne(t[0]); }
    assert first[0].asked[0] == UserPartOf(t[0].parts[0]);
    PromptStays(first, RebuiltAll(t[1..]));
  }

  lemma RebuiltOne(m: OwnedMessage)
    requires Refused(m).None?
    ensures RebuiltAll([m]) == Rebuilt(m)
  {
    assert [m][..0] == [];
  }

  /**
   No message before the planner's last prompt can change how a turn ends, what it cites, or
   which rule failed it: neither in the prompt's own run, whatever came before it, nor in one
   resumed after a suspension, where the transcripts need to agree from that prompt on only.
   */
  lemma EarlierMessagesCannotChangeATurn(cfg: Config, a: Turn, b: Turn, opening: Opening, script: seq<Event>)
    requires Accepted(a) && Accepted(b)
    requires opening.Resumed? ==> SinceLastPrompt(a) == SinceLastPrompt(b)
    ensures SameButTranscript(TurnReply(cfg, a, opening, script), TurnReply(cfg, b, opening, script))
  {
    hide Drive, OutcomeOf, RebuiltAll, HoldsPrompt, TurnReply;
    var first := [Request(OpeningParts(opening))];
    if opening.Prompt? {
      PromptOpens(opening.text);
      SameTailSameReply(cfg, a, b, RebuiltAll(a), RebuiltAll(b), first, opening, script);
    } else {
      var since := SinceLastPrompt(a);
      var i, j := PromptStart(a), PromptStart(b);
      assert a == a[..i] + since && b == b[..j] + since;
      if since != [] && IsPrompt(since[0]) {
        RebuiltConcat(a[..i], since);
        RebuiltConcat(b[..j], since);
        RebuiltPromptHoldsPrompt(since);
        PromptStays(RebuiltAll(since), first);
        Reassociate(RebuiltAll(a[..i]), RebuiltAll(since), first);
        Reassociate(RebuiltAll(b[..j]), RebuiltAll(since), first);
        SameTailSameReply(cfg, a, b, RebuiltAll(a[..i]), RebuiltAll(b[..j]), RebuiltAll(since) + first, opening, script);
      } else {
        assert a == b;
        ReplyIsItself(cfg, a, opening, script);
      }
    }
  }

  lemma PromptOpens(text: string)
    ensures HoldsPrompt([Request([UserPrompt(Text(text))])])
  {
  }

  lemma ReplyIsItself(cfg: Config, a: Turn, opening: Opening, script: seq<Event>)
    ensures SameButTranscript(TurnReply(cfg, a, opening, script), TurnReply(cfg, a, opening, script))
  {
    hide TurnReply;
  }

  lemma SameTailSameReply(cfg: Config, a: Turn, b: Turn, h1: seq<Message>, h2: seq<Message>, tail: seq<Message>,
                          opening: Opening, script: seq<Event>)
    requires Accepted(a) && Accepted(b) && HoldsPrompt(tail)
    requires RebuiltAll(a) + [Request(OpeningParts(opening))] == h1 + tail
    requires RebuiltAll(b) + [Request(OpeningParts(opening))] == h2 + tail
    ensures SameButTranscript(TurnReply(cfg, a, opening, script), TurnReply(cfg, b, opening, script))
  {
    hide Drive, OutcomeOf, RebuiltAll, HoldsPrompt;
    var end := DriveIgnoresHistory(cfg, h1, h2, tail, 0, None, script);
    RunIsItsTail(h1, end);
    RunIsItsTail(h2, end);
    SameEndSameOutcome(cfg, EndOf(cfg, RebuiltAll(a), opening, script), EndOf(cfg, RebuiltAll(b), opening, script));
  }

  // ----- retries

  /**
   The last attempt decides: an answer is delivered if and only if no draft waits to be cited,
   it is not blank, and it names a handle, unless the planner asked for no quantity and the prose
   leaves no gap. The other rules only correct. A refused answer ends the run, and if a draft
   waits the turn still completes, with the latest draft in the answer's place.
   */
  lemma LastAttemptDeliversIff(cfg: Config, ms: seq<Message>, retry: nat, rule: Option<Rule>, script: seq<Event>,
                               text: string)
    requires retry >= cfg.maxRetries && ms != []
    requires script != [] && script[0].Attempt? && script[0].output == Answer(text) && WellFormedEvent(script[0])
    ensures var view := ViewOf(cfg, ms + Added(script[0]));
            var e := Drive(cfg, ms, retry, rule, script);
            && e.used == 1
            && (e.accepted == Some(Answer(text)) <==>
                  && view.drafts == []
                  && !cfg.text.blank(text)
                  && (cfg.text.hasHandles(text) || (!AsksForAQuantity(cfg, view.prompt) && !cfg.text.leavesGap(text))))
            && (e.accepted.Some? ==> e.accepted == Some(Answer(text)))
            && (e.accepted.None? ==> e.fault == UnexpectedModelBehavior)
            && (view.drafts != [] ==>
                  OutcomeOf(cfg, e) == Returned(NoWork(Completed).(draft := Some(view.drafts[|view.drafts| - 1]))))
  {
    hide DraftIds, ResultIds, RecordHandles, CurrentPrompt, Reported;
  }

  /** Events that ask the model for a final reply. */
  function Asks(events: seq<Event>): nat {
    if events == [] then 0 else (if events[0].Attempt? || events[0].Unparsed? then 1 else 0) + Asks(events[1..])
  }

  lemma {:induction false} AsksAtMost(cfg: Config, ms: seq<Message>, retry: nat, rule: Option<Rule>, script: seq<Event>)
    requires retry <= cfg.maxRetries
    ensures Asks(script[..Drive(cfg, ms, retry, rule, script).used]) <= cfg.maxRetries - retry + 1
    decreases |script|
  {
    hide ViewOf, Judge;
    if script != [] {
      var e := Drive(cfg, ms, retry, rule, script);
      var ev := script[0];
      assert script[..e.used][1..] == script[1..][..e.used - 1];
      if ev.ToolRound? {
        AsksAtMost(cfg, ms + Added(ev), retry, rule, script[1..]);
      } else if !ev.Stop? {
        var seen := ms + Added(ev);
        var ruling := Judge(cfg, ViewOf(cfg, seen), retry, rule, ev);
        if ruling.Again? && retry < cfg.maxRetries {
          AsksAtMost(cfg, seen + [Request([RETRY_PROMPT])], retry + 1, ruling.rule, script[1..]);
        }
      }
    }
  }

  // ----- what a turn leaves behind

  lemma {:induction false} DriveOnlyAppends(cfg: Config, ms: seq<Message>, retry: nat, rule: Option<Rule>, script: seq<Event>)
    ensures ms <= Drive(cfg, ms, retry, rule, script).messages
    decreases |script|
  {
    hide ViewOf, Judge;
    if script != [] {
      var ev := script[0];
      if ev.ToolRound? {
        DriveOnlyAppends(cfg, ms + Added(ev), retry, rule, script[1..]);
      } else if !ev.Stop? {
        var seen := ms + Added(ev);
        var ruling := Judge(cfg, ViewOf(cfg, seen), retry, rule, ev);
        if ruling.Again? && retry < cfg.maxRetries {
          DriveOnlyAppends(cfg, seen + [Request([RETRY_PROMPT])], retry + 1, ruling.rule, script[1..]);
        }
      }
    }
  }

  /**
   A returned transcript is either empty or the normalised history followed by what the
   turn added; either way it can be resumed without error and unchanged.
   */
  lemma TranscriptExtendsTheHistory(cfg: Config, history: Turn, opening: Opening, script: seq<Event>)
    returns (added: seq<Message>)
    requires TurnReply(cfg, history, opening, script).Returned?
    ensures Accepted(history)
    ensures var turn := TurnReply(cfg, history, opening, script).outcome.turn;
            && (turn == [] || turn == Normalize(history) + Owned(added))
            && IsNormal(turn)
            && Framework(turn).Ok? && Owned(Framework(turn).value) == turn
  {
    hide Drive, OutcomeOf, Normalize;
    var h := RebuiltAll(history);
    var e := EndOf(cfg, h, opening, script);
    added := AppendedBy(cfg, h, opening, script);
    OwnedConcat(h, added);
    RoundTripIsNormalization(history);
    TranscriptOfOutcome(cfg, e);
    ResumeIsStable(e.messages);
    OwnedIsNormal(e.messages);
  }

  lemma AppendedBy(cfg: Config, h: seq<Message>, opening: Opening, script: seq<Event>) returns (added: seq<Message>)
    ensures EndOf(cfg, h, opening, script).messages == h + added
  {
    hide Drive;
    var start := h + [Request(OpeningParts(opening))];
    var ms := EndOf(cfg, h, opening, script).messages;
    DriveOnlyAppends(cfg, start, 0, None, script);
    added := ms[|h|..];
    assert ms[..|h|] == start[..|h|] == h;
  }

  lemma TranscriptOfOutcome(cfg: Config, e: Ended)
    requires OutcomeOf(cfg, e).Returned?
    ensures OutcomeOf(cfg, e).outcome.turn == [] || OutcomeOf(cfg, e).outcome.turn == Owned(e.messages)
  {
    hide Owned, DraftIds, ToolResults;
  }

  // ----- what the scans find

  /** Message `i` belongs to the current run: no later message carries a user prompt. */
  predicate InThisRun(ms: seq<Message>, i: int) {
    forall j, k :: 0 <= j && i < j < |ms| && ms[j].Request? && 0 <= k < |ms[j].asked| ==> !ms[j].asked[k].UserPrompt?
  }

  /** Part `k` of message `i` is a structured result of a tool, returned in the current run. */
  predicate ReturnsData(ms: seq<Message>, i: int, k: int) {
    && 0 <= i < |ms| && InThisRun(ms, i)
    && ms[i].Request? && 0 <= k < |ms[i].asked|
    && ms[i].asked[k].ToolReturn? && ms[i].asked[k].result.Data? && ms[i].asked[k].result.value.JObject?
  }

  lemma {:induction false} RunStartsAtTheLastPrompt(ms: seq<Message>, i: nat)
    requires i < |ms|
    ensures StartOfRun(ms) <= i <==> InThisRun(ms, i)
  {
    var n := |ms| - 1;
    var front := ms[..n];
    if HasUserPrompt(ms[n]) {
      var p :| p in ms[n].asked && p.UserPrompt?;
      var k :| 0 <= k < |ms[n].asked| && ms[n].asked[k] == p;
    } else {
      assert ms[n].Request? ==> forall k :: 0 <= k < |ms[n].asked| ==> ms[n].asked[k] in ms[n].asked;
      if i < n {
        RunStartsAtTheLastPrompt(front, i);
        assert InThisRun(front, i) <==> InThisRun(ms, i) by {
          if InThisRun(front, i) {
            forall j, k | i < j < |ms| && ms[j].Request? && 0 <= k < |ms[j].asked| ensures !ms[j].asked[k].UserPrompt? {
              assert j < n ==> front[j] == ms[j];
            }
          }
          if InThisRun(ms, i) {
            forall j, k | i < j < |front| && front[j].Request? && 0 <= k < |front[j].asked|
              ensures !front[j].asked[k].UserPrompt?
            {
              assert front[j] == ms[j];
            }
          }
        }
      }
    }
  }

  lemma {:induction false} PartsAreWhereTheyStand(ms: seq<Message>, p: RequestPart)
    ensures p in PartsIn(ms) <==> exists i :: 0 <= i < |ms| && ms[i].Request? && p in ms[i].asked
  {
    if ms != [] {
      var n := |ms| - 1;
      PartsAreWhereTheyStand(ms[..n], p);
      if exists i :: 0 <= i < |ms[..n]| && ms[..n][i].Request? && p in ms[..n][i].asked {
        var i :| 0 <= i < |ms[..n]| && ms[..n][i].Request? && p in ms[..n][i].asked;
        assert ms[i].Request? && p in ms[i].asked;
      }
      if exists i :: 0 <= i < |ms| && ms[i].Request? && p in ms[i].asked {
        var i :| 0 <= i < |ms| && ms[i].Request? && p in ms[i].asked;
        assert i < n ==> ms[..n][i] == ms[i];
      }
    }
  }

  /** Parts of the current run, by where they stand. */
  lemma PartsOfThisRun(ms: seq<Message>, p: RequestPart)
    ensures p in PartsIn(ThisRun(ms)) <==>
              exists i, k :: 0 <= i < |ms| && InThisRun(ms, i) && ms[i].Request? && 0 <= k < |ms[i].asked| && ms[i].asked[k] == p
  {
    hide PartsIn, StartOfRun, InThisRun;
    var run, start := ThisRun(ms), StartOfRun(ms);
    PartsAreWhereTheyStand(run, p);
    if p in PartsIn(run) {
      var i :| 0 <= i < |run| && run[i].Request? && p in run[i].asked;
      RunStartsAtTheLastPrompt(ms, start + i);
      var k :| 0 <= k < |run[i].asked| && run[i].asked[k] == p;
      assert ms[start + i] == run[i];
      assert ms[start + i].asked[k] == p;
    }
    if exists i, k :: 0 <= i < |ms| && InThisRun(ms, i) && ms[i].Request? && 0 <= k < |ms[i].asked| && ms[i].asked[k] == p {
      var i, k :| 0 <= i < |ms| && InThisRun(ms, i) && ms[i].Request? && 0 <= k < |ms[i].asked| && ms[i].asked[k] == p;
      RunStartsAtTheLastPrompt(ms, i);
      assert run[i - start] == ms[i] && p in run[i - start].asked;
    }
  }

  lemma {:induction false} DraftIdsAreReturned(parts: seq<RequestPart>, id: string)
    ensures id in DraftIdsOf(parts) <==> exists p :: p in parts && DraftIdOf(p) == [id]
  {
    hide DraftIdOf;
    if parts != [] {
      var front, last := parts[..|parts| - 1], parts[|parts| - 1];
      DraftIdsAreReturned(front, id);
      DraftIdsOfOne(last);
      assert parts == front + [last];
    }
  }

  lemma DraftIdsOfOne(p: RequestPart)
    ensures |DraftIdOf(p)| <= 1
  {
  }

  /** A draft id of the run is the string under `draft_id` of a structured scheduling_draft result in the run. */
  lemma DraftIdsAreExact(ms: seq<Message>, id: string)
    ensures id in DraftIds(ms) <==>
              exists i, k :: ReturnsData(ms, i, k) && ms[i].asked[k].tool == "scheduling_draft"
                             && "draft_id" in ms[i].asked[k].result.value.members
                             && ms[i].asked[k].result.value.members["draft_id"] == JString(id)
  {
    hide PartsIn, ThisRun, InThisRun, DraftIdsOf;
    DraftIdsAreReturned(PartsIn(ThisRun(ms)), id);
    if id in DraftIds(ms) {
      var p :| p in PartsIn(ThisRun(ms)) && DraftIdOf(p) == [id];
      PartsOfThisRun(ms, p);
      var i, k :| 0 <= i < |ms| && InThisRun(ms, i) && ms[i].Request? && 0 <= k < |ms[i].asked| && ms[i].asked[k] == p;
      assert ReturnsData(ms, i, k);
    }
    if exists i, k :: ReturnsData(ms, i, k) && ms[i].asked[k].tool == "scheduling_draft"
                      && "draft_id" in ms[i].asked[k].result.value.members
                      && ms[i].asked[k].result.value.members["draft_id"] == JString(id) {
      var i, k :| ReturnsData(ms, i, k) && ms[i].asked[k].tool == "scheduling_draft"
                  && "draft_id" in ms[i].asked[k].result.value.members
                  && ms[i].asked[k].result.value.members["draft_id"] == JString(id);
      PartsOfThisRun(ms, ms[i].asked[k]);
      assert DraftIdOf(ms[i].asked[k]) == [id];
    }
  }

  /** A result id of the run is the non-empty string under `result_id` of a structured result of a citable tool. */
  lemma ResultIdsAreExact(cfg: Config, ms: seq<Message>, id: string)
    ensures id in ViewOf(cfg, ms).results <==>
              id != "" && exists i, k :: ReturnsData(ms, i, k) && ms[i].asked[k].tool in cfg.citable
                                         && "result_id" in ms[i].asked[k].result.value.members
                                         && ms[i].asked[k].result.value.members["result_id"] == JString(id)
  {
    hide PartsIn, ThisRun, InThisRun;
    var citable := cfg.citable;
    if id in ResultIds(ms, citable) {
      var p :| p in PartsIn(ThisRun(ms)) && IsCitableResult(p, citable) && StringField(p.result, "result_id").value == id;
      PartsOfThisRun(ms, p);
      var i, k :| 0 <= i < |ms| && InThisRun(ms, i) && ms[i].Request? && 0 <= k < |ms[i].asked| && ms[i].asked[k] == p;
      assert ReturnsData(ms, i, k);
    }
    if id != "" && exists i, k :: ReturnsData(ms, i, k) && ms[i].asked[k].tool in citable
                                  && "result_id" in ms[i].asked[k].result.value.members
                                  && ms[i].asked[k].result.value.members["result_id"] == JString(id) {
      var i, k :| ReturnsData(ms, i, k) && ms[i].asked[k].tool in citable
                  && "result_id" in ms[i].asked[k].result.value.members
                  && ms[i].asked[k].result.value.members["result_id"] == JString(id);
      var p := ms[i].asked[k];
      PartsOfThisRun(ms, p);
      assert p in PartsIn(ThisRun(ms)) && IsCitableResult(p, citable) && StringField(p.result, "result_id").value == id;
    }
  }

  /** Row `r` of a structured result carries the string `id` under `ev`. */
  predicate RowCarries(value: Json, r: int, id: string)
    requires value.JObject?
  {
    && "items" in value.members && value.members["items"].JArray? && 0 <= r < |value.members["items"].items|
    && value.members["items"].items[r].JObject? && "ev" in value.members["items"].items[r].members
    && value.members["items"].items[r].members["ev"] == JString(id)
  }

  /** A record handle of the run is the string under `ev` of a row of a structured result in the run. */
  lemma RecordHandlesAreExact(cfg: Config, ms: seq<Message>, id: string)
    ensures id in ViewOf(cfg, ms).records <==>
              exists i, k, r :: ReturnsData(ms, i, k) && RowCarries(ms[i].asked[k].result.value, r, id)
  {
    hide PartsIn, ThisRun, InThisRun;
    if id in RecordHandles(ms) {
      var p, row :| p in PartsIn(ThisRun(ms)) && row in RowsOf(p) && HasHandle(row) && row.members["ev"].s == id;
      PartsOfThisRun(ms, p);
      var i, k :| 0 <= i < |ms| && InThisRun(ms, i) && ms[i].Request? && 0 <= k < |ms[i].asked| && ms[i].asked[k] == p;
      var r :| 0 <= r < |RowsOf(p)| && RowsOf(p)[r] == row;
      assert ReturnsData(ms, i, k) && RowCarries(ms[i].asked[k].result.value, r, id);
    }
    if exists i, k, r :: ReturnsData(ms, i, k) && RowCarries(ms[i].asked[k].result.value, r, id) {
      var i, k, r :| ReturnsData(ms, i, k) && RowCarries(ms[i].asked[k].result.value, r, id);
      var p := ms[i].asked[k];
      PartsOfThisRun(ms, p);
      var row := RowsOf(p)[r];
      assert row in RowsOf(p) && HasHandle(row) && row.members["ev"].s == id;
    }
  }

  /** Part `k` of message `i` is a text prompt. */
  predicate IsTextPrompt(ms: seq<Message>, i: int, k: int) {
    0 <= i < |ms| && ms[i].Request? && 0 <= k < |ms[i].asked| && ms[i].asked[k].UserPrompt? && ms[i].asked[k].content.Text?
  }

  lemma {:induction false} FirstTextPromptIs(parts: seq<RequestPart>) returns (k: nat)
    ensures FirstTextPrompt(parts).None? ==>
              forall i :: 0 <= i < |parts| ==> !(parts[i].UserPrompt? && parts[i].content.Text?)
    ensures FirstTextPrompt(parts).Some? ==>
              && k < |parts| && parts[k] == UserPrompt(Text(FirstTextPrompt(parts).value))
              && forall i :: 0 <= i < k ==> !(parts[i].UserPrompt? && parts[i].content.Text?)
  {
    k := 0;
    if parts != [] && !(parts[0].UserPrompt? && parts[0].content.Text?) {
      var rest := FirstTextPromptIs(parts[1..]);
      k := rest + 1;
      forall i | 0 < i < |parts| ensures parts[i] == parts[1..][i - 1] {
      }
    }
  }

  /** The current prompt is the first text prompt of the last message that has one. */
  lemma {:induction false} CurrentPromptIsTheLast(ms: seq<Message>) returns (i: nat, k: nat)
    ensures CurrentPrompt(ms).None? ==> forall j, l :: !IsTextPrompt(ms, j, l)
    ensures CurrentPrompt(ms).Some? ==>
              && IsTextPrompt(ms, i, k) && ms[i].asked[k].content.s == CurrentPrompt(ms).value
              && (forall l :: 0 <= l < k ==> !IsTextPrompt(ms, i, l))
              && (forall j, l :: j > i ==> !IsTextPrompt(ms, j, l))
  {
    i, k := 0, 0;
    if ms != [] {
      var n := |ms| - 1;
      var last := ms[n];
      if last.Request? {
        k := FirstTextPromptIs(last.asked);
      }
      if last.Request? && FirstTextPrompt(last.asked).Some? {
        i := n;
      } else {
        i, k := CurrentPromptIsTheLast(ms[..n]);
        forall j, l ensures IsTextPrompt(ms, j, l) <==> IsTextPrompt(ms[..n], j, l) {
        }
      }
    }
  }

  // ----- what the validators ask

  /** The claim rules in the order they are tried, each with when it fires. */
  function ClaimRules(cfg: Config, view: View, lastAttempt: bool, text: string): seq<(bool, Rule)> {
    var t := cfg.text;
    [(t.blank(text), EmptyAnswer),
     (t.hasHandles(text) && view.results == {} && !lastAttempt, ClaimWithoutCalculation),
     (t.hasFactTags(text) && view.records == {} && !lastAttempt, FactWithoutInspection),
     (t.hasBrokenTags(text) && !lastAttempt, ClaimTagMalformed),
     (t.hasMalformedPlaceholders(text) && !lastAttempt, ClaimGap),
     (!t.hasHandles(text) && view.prompt.Some? && t.asksQuantity(view.prompt.value), QuantityWithoutClaim),
     (!t.hasHandles(text) && t.leavesGap(text), ClaimGap)]
  }

  /** An answer is asked for again by the first claim rule that fires, and by none of them otherwise. */
  lemma FirstClaimRuleAsksAgain(cfg: Config, view: View, retry: nat, text: string)
    ensures var rules := ClaimRules(cfg, view, retry >= cfg.maxRetries, text);
            var v := RejectUncitedClaim(cfg, view, retry, Answer(text));
            && (v.Accept? <==> forall k :: 0 <= k < |rules| ==> !rules[k].0)
            && (v.Accept? ==> v.output == Answer(text))
            && (v.Retry? ==> exists k :: 0 <= k < |rules| && rules[k] == (true, v.rule)
                                         && forall j :: 0 <= j < k ==> !rules[j].0)
  {
    var rules := ClaimRules(cfg, view, retry >= cfg.maxRetries, text);
    var v := RejectUncitedClaim(cfg, view, retry, Answer(text));
    assert |rules| == 7;
    if !rules[0].0 && !rules[1].0 && !rules[2].0 && !rules[3].0 && !rules[4].0 && !rules[5].0 && !rules[6].0 {
      assert v.Accept?;
    } else {
      var k := if rules[0].0 then 0 else if rules[1].0 then 1 else if rules[2].0 then 2 else if rules[3].0 then 3
               else if rules[4].0 then 4 else if rules[5].0 then 5 else 6;
      assert rules[k] == (true, v.rule);
    }
  }

  /** Only answers are held to the claim rules, and only drafts to the draft rules, each with its own reason. */
  lemma OtherOutputsAreAskedAgainIff(cfg: Config, view: View, retry: nat, o: Output)
    ensures !o.Answer? ==> RejectUncitedClaim(cfg, view, retry, o) == Accept(o)
    ensures RequireDraftOutput(view.drafts, o) == Retry(DraftOutputWithoutDraft) <==> o.Draft? && view.drafts == []
    ensures RequireDraftOutput(view.drafts, o) == Retry(DraftOutputMissing) <==>
              !o.Draft? && !o.Deferred? && view.drafts != []
    ensures RequireDraftOutput(view.drafts, o).Retry? ==>
              RequireDraftOutput(view.drafts, o).rule == DraftOutputWithoutDraft
              || RequireDraftOutput(view.drafts, o).rule == DraftOutputMissing
  {
  }

  // ----- how a run ends

  /**
   A run that delivers nothing ended at the deadline with its script used up, at a fault of the
   script, or with its last retry spent; then it was asked exactly once more than there are
   retries, and names the rule its last readable output broke.
   */
  lemma {:induction false} RunEndsBecause(cfg: Config, ms: seq<Message>, retry: nat, rule: Option<Rule>, script: seq<Event>)
    requires retry <= cfg.maxRetries
    ensures var e := Drive(cfg, ms, retry, rule, script);
            e.accepted.None? ==>
              || (e.fault == RunCancelled && e.used == |script|)
              || (e.used > 0 && script[e.used - 1] == Stop(e.fault))
              || (&& e.fault == UnexpectedModelBehavior && e.used > 0
                  && (script[e.used - 1].Attempt? || script[e.used - 1].Unparsed?)
                  && Asks(script[..e.used]) == cfg.maxRetries - retry + 1
                  && (script[e.used - 1].Attempt? ==>
                        e.rule.Some?
                        && Validate(cfg, ViewOf(cfg, e.messages), cfg.maxRetries, script[e.used - 1].output) == Retry(e.rule.value)))
    decreases |script|
  {
    hide ViewOf, Validate, Added, Asks;
    if script != [] && !script[0].Stop? {
      var e := Drive(cfg, ms, retry, rule, script);
      var ev := script[0];
      var seen := ms + Added(ev);
      FirstAsk(script, e.used);
      if ev.ToolRound? {
        RunEndsBecause(cfg, seen, retry, rule, script[1..]);
      } else {
        var ruling := Judge(cfg, ViewOf(cfg, seen), retry, rule, ev);
        if ruling.Again? && retry < cfg.maxRetries {
          RunEndsBecause(cfg, seen + [Request([RETRY_PROMPT])], retry + 1, ruling.rule, script[1..]);
        }
      }
    }
  }

  lemma FirstAsk(script: seq<Event>, n: nat)
    requires 0 < n <= |script|
    ensures Asks(script[..n]) ==
            (if script[0].Attempt? || script[0].Unparsed? then 1 else 0) + Asks(script[1..][..n - 1])
    ensures Asks(script[1..][..0]) == 0
  {
    assert script[..n][1..] == script[1..][..n - 1];
  }

  /**
   What a delivered output becomes: exactly the field of its kind is set and holds it, nothing
   else is, and only a request for approval suspends the turn, with the calls it waits for.
   */
  lemma DeliveredOutputFillsItsField(cfg: Config, history: Turn, opening: Opening, script: seq<Event>)
    requires WellOpened(opening) && WellFormed(script)
    requires Accepted(history) && EndOf(cfg, RebuiltAll(history), opening, script).accepted.Some?
    ensures var e := EndOf(cfg, RebuiltAll(history), opening, script);
            var r := TurnReply(cfg, history, opening, script);
            && e.used > 0 && script[e.used - 1].Attempt?
            && var offered := script[e.used - 1].output;
            && (r.Raised? <==> offered == Unrecognised)
            && (r.Raised? ==> r.error == RuntimeError)
            && (r.Returned? ==>
                  && r.outcome.status == (if offered.Deferred? then Suspended else Completed)
                  && r.outcome.answer == (if offered.Answer? then Some(offered.text) else None)
                  && r.outcome.clarification == (if offered.Clarification? then Some(offered.question) else None)
                  && r.outcome.refusal == (if offered.Refusal? then Some(offered.detail) else None)
                  && (r.outcome.draft.Some? <==> offered.Draft?)
                  && r.outcome.pending == (if offered.Deferred? then offered.calls else [])
                  && r.outcome.failureReason == None && !r.outcome.failureFromCapability
                  && TurnReads(r.outcome.turn) == Reads(e.messages)
                  && r.outcome.toolResults ==
                       (if offered.Deferred? then [] else ResultsShown(Flat(Reads(e.messages)), OUTPUT_TOOL_NAMES)))
  {
    hide Drive, RebuiltAll, Owned, Reads, ToolResults, DraftIds, TurnReads, ResultsShown, Flat;
    var h := RebuiltAll(history);
    var seen := EndOf(cfg, h, opening, script).messages;
    OwnedIsNormal(seen);
    ToolResultsAreShown(Owned(seen), OUTPUT_TOOL_NAMES);
    var start := h + [Request(OpeningParts(opening))];
    DriveCites(cfg, start, 0, None, script);
    TranscriptReadsAsItsHistory(EndOf(cfg, h, opening, script).messages);
  }

  /** What a run that delivers nothing becomes, fault by fault. */
  lemma FaultsAreMappedByKind(cfg: Config, history: Turn, opening: Opening, script: seq<Event>)
    requires Accepted(history) && EndOf(cfg, RebuiltAll(history), opening, script).accepted.None?
    ensures var e := EndOf(cfg, RebuiltAll(history), opening, script);
            var r := TurnReply(cfg, history, opening, script);
            var ids := DraftIds(e.messages);
            && (r == Raised(ProviderError) <==> e.fault == FallbackExhausted || e.fault == ModelHttpError)
            && (r == Raised(RuntimeError) <==>
                  e.fault == AgentRunError || e.fault == OtherError
                  || (e.fault.CapabilityError? && e.fault.code !in cfg.declaredCodes))
            && (r == Raised(InvalidOutput(e.rule)) <==> e.fault == UnexpectedModelBehavior && ids == [])
            && r != Raised(HistoryRejected)
            && (r.Returned? ==>
                  && r.outcome.turn == [] && r.outcome.toolResults == [] && r.outcome.pending == []
                  && r.outcome.answer == r.outcome.clarification == r.outcome.refusal == None
                  && (r.outcome.status == TimedOut <==> e.fault == RunCancelled)
                  && (r.outcome.status == Completed <==> e.fault == UnexpectedModelBehavior)
                  && r.outcome.draft == (if r.outcome.status == Completed then Some(ids[|ids| - 1]) else None)
                  && r.outcome.failureReason == (if e.fault == UsageLimitExceeded then Some("budget_exhausted")
                                                 else if e.fault.CapabilityError? then Some(e.fault.code) else None)
                  && (r.outcome.failureFromCapability <==> e.fault.CapabilityError?)
                  && (r.outcome.status == Failed <==> r.outcome.failureReason.Some?))
  {
    hide Drive, RebuiltAll, DraftIds;
  }

  /** A history that cannot be rebuilt is refused before anything runs. */
  lemma RejectedHistoryRunsNothing(cfg: Config, history: Turn, opening: Opening, script: seq<Event>)
    ensures TurnReply(cfg, history, opening, script) == Raised(HistoryRejected) <==> !Accepted(history)
  {
    hide Drive, RebuiltAll, DraftIds, Owned;
    if Accepted(history) {
      var e := EndOf(cfg, RebuiltAll(history), opening, script);
      assert OutcomeOf(cfg, e) != Raised(HistoryRejected);
    }
  }

  // ----- what a run says

  /** What an event adds to the conversation in the planner's sight. */
  function EventReads(ev: Event): seq<seq<Shown>> {
    match ev
    case ToolRound(calls, results) => ReplyReads(calls) + RequestReads(results)
    case Attempt(reply, _, _) => ReplyReads(reply)
    case Unparsed(reply) => ReplyReads(reply)
    case Stop(_) => []
  }

  function ReplyReads(reply: seq<ResponsePart>): seq<seq<Shown>> {
    if ResponseReads(reply) == [] then [] else [ResponseReads(reply)]
  }

  function EventsRead(events: seq<Event>): seq<seq<Shown>> {
    if events == [] then [] else EventReads(events[0]) + EventsRead(events[1..])
  }

  lemma {:induction false} ReadsConcat(a: seq<Message>, b: seq<Message>)
    ensures Reads(a + b) == Reads(a) + Reads(b)
  {
    hide RequestReads, ResponseReads;
    if b == [] {
      assert a + b == a;
    } else {
      assert (a + b)[..|a + b| - 1] == a + b[..|b| - 1];
      ReadsConcat(a, b[..|b| - 1]);
    }
  }

  lemma ReadsOfOne(m: Message)
    ensures Reads([m]) == if m.Request? then RequestReads(m.asked) else if m.Response? then ReplyReads(m.said) else []
  {
    hide RequestReads, ResponseReads;
    assert [m][..0] == [];
  }

  lemma AddedReads(ev: Event)
    ensures Reads(Added(ev)) == EventReads(ev)
  {
    hide RequestReads, Reads, ReplyReads;
    if ev.ToolRound? {
      assert Added(ev) == [Response(ev.calls)] + [Request(ev.results)];
      ReadsConcat([Response(ev.calls)], [Request(ev.results)]);
      ReadsOfOne(Response(ev.calls));
      ReadsOfOne(Request(ev.results));
    } else if !ev.Stop? {
      assert Added(ev) == [Response(ev.reply)];
      ReadsOfOne(Response(ev.reply));
    } else {
      NothingReads();
    }
  }

  lemma NothingReads()
    ensures Reads([]) == [] && Reads([Request([RETRY_PROMPT])]) == []
  {
    assert [Request([RETRY_PROMPT])][..0] == [];
    assert [RETRY_PROMPT][..0] == [];
    assert RequestReads([RETRY_PROMPT]) == [];
  }

  /** What stands in the conversation when a run ends is what its events said, in order, and the closing notices. */
  lemma {:induction false} RunSaysWhatItsEventsSay(cfg: Config, ms: seq<Message>, retry: nat, rule: Option<Rule>, script: seq<Event>)
    ensures var e := Drive(cfg, ms, retry, rule, script);
            && (e.accepted.Some? ==> e.used > 0 && script[e.used - 1].Attempt?)
            && Reads(e.messages) ==
                 Reads(ms) + EventsRead(script[..e.used])
                 + if e.accepted.Some? then RequestReads(script[e.used - 1].closing) else []
    decreases |script|
  {
    hide ViewOf, Judge, Added, Reads, RequestReads, EventReads, EventsRead;
    var e := Drive(cfg, ms, retry, rule, script);
    NothingReads();
    NoEventsRead();
    if script != [] {
      var ev := script[0];
      var seen := ms + Added(ev);
      AddedReads(ev);
      ReadsConcat(ms, Added(ev));
      FirstEventRead(script, e.used);
      if ev.ToolRound? {
        RunSaysWhatItsEventsSay(cfg, seen, retry, rule, script[1..]);
      } else if ev.Stop? {
        StopSaysNothing(ev);
      } else {
        var ruling := Judge(cfg, ViewOf(cfg, seen), retry, rule, ev);
        if ruling.Deliver? {
          ReadsConcat(seen, [Request(ev.closing)]);
          ReadsOfOne(Request(ev.closing));
        } else if retry < cfg.maxRetries {
          ReadsConcat(seen, [Request([RETRY_PROMPT])]);
          RunSaysWhatItsEventsSay(cfg, seen + [Request([RETRY_PROMPT])], retry + 1, ruling.rule, script[1..]);
        }
      }
    }
  }

  lemma NoEventsRead()
    ensures EventsRead([]) == []
  {
  }

  lemma FirstEventRead(script: seq<Event>, n: nat)
    requires 0 < n <= |script|
    ensures EventsRead(script[..n]) == EventReads(script[0]) + EventsRead(script[1..][..n - 1])
  {
    assert script[..n][1..] == script[1..][..n - 1];
  }

  lemma StopSaysNothing(ev: Event)
    requires ev.Stop?
    ensures EventReads(ev) == []
  {
  }

  /**
   The transcript of a turn that delivered an output reads as its history, then the opening, then
   what every event said in order, then the closing notices.
   */
  lemma TranscriptTellsTheTurn(cfg: Config, history: Turn, opening: Opening, script: seq<Event>)
    requires Accepted(history) && EndOf(cfg, RebuiltAll(history), opening, script).accepted.Some?
    requires TurnReply(cfg, history, opening, script).Returned?
    ensures var e := EndOf(cfg, RebuiltAll(history), opening, script);
            && e.used > 0 && script[e.used - 1].Attempt?
            && TurnReads(TurnReply(cfg, history, opening, script).outcome.turn) ==
                 Reads(RebuiltAll(history)) + RequestReads(OpeningParts(opening)) + EventsRead(script[..e.used])
                 + RequestReads(script[e.used - 1].closing)
  {
    hide Drive, RebuiltAll, Owned, Reads, ToolResults, DraftIds, RequestReads, EventsRead, TurnReads;
    var h, first := RebuiltAll(history), [Request(OpeningParts(opening))];
    var e := EndOf(cfg, h, opening, script);
    RunSaysWhatItsEventsSay(cfg, h + first, 0, None, script);
    ReadsConcat(h, first);
    ReadsOfOne(first[0]);
    TranscriptReadsAsItsHistory(e.messages);
  }

  // ----- tool results of a transcript

  /** The tool results among readable parts whose tool is not excluded. */
  function ResultsShown(parts: seq<Shown>, excluded: set<string>): seq<ToolOutcome> {
    if parts == [] then []
    else
      var p := parts[|parts| - 1];
      ResultsShown(parts[..|parts| - 1], excluded) +
      (if p.kind == KToolResult && p.tool !in excluded then [ToolOutcome(p.callId, p.tool, p.text)] else [])
  }

  lemma {:induction false} ResultsShownConcat(a: seq<Shown>, b: seq<Shown>, excluded: set<string>)
    ensures ResultsShown(a + b, excluded) == ResultsShown(a, excluded) + ResultsShown(b, excluded)
  {
    if b == [] {
      assert a + b == a;
    } else {
      assert (a + b)[..|a + b| - 1] == a + b[..|b| - 1];
      ResultsShownConcat(a, b[..|b| - 1], excluded);
    }
  }

  lemma {:induction false} NoResultsShown(parts: seq<Shown>, excluded: set<string>)
    requires forall p :: p in parts ==> p.kind != KToolResult
    ensures ResultsShown(parts, excluded) == []
  {
    if parts != [] {
      NoResultsShown(parts[..|parts| - 1], excluded);
    }
  }

  /** The tool results of a normal transcript are its readable tool results, in order. */
  lemma {:induction false} ToolResultsAreShown(turn: Turn, excluded: set<string>)
    requires IsNormal(turn)
    ensures ToolResults(turn, excluded) == ResultsShown(Flat(TurnReads(turn)), excluded)
  {
    hide MessageShows, NormalMessage;
    if turn != [] {
      var front, m := turn[..|turn| - 1], turn[|turn| - 1];
      assert turn == front + [m] && m in turn;
      ToolResultsAreShown(front, excluded);
      TurnReadsConcat(front, [m]);
      assert TurnReads([m]) == [MessageShows(m)] && [MessageShows(m)][..0] == [];
      FlatConcat(TurnReads(front), [MessageShows(m)]);
      assert Flat([MessageShows(m)]) == MessageShows(m);
      ResultsShownConcat(Flat(TurnReads(front)), MessageShows(m), excluded);
      MessageResultsAreShown(m, excluded);
    }
  }

  lemma MessageResultsAreShown(m: OwnedMessage, excluded: set<string>)
    requires NormalMessage(m)
    ensures ResultsShown(MessageShows(m), excluded) == if m.role == ToolResult then ResultsOfParts(m.parts, excluded) else []
  {
    if m.role == ToolResult {
      assert m.parts == [m.parts[0]] && m.parts[..0] == [];
      assert MessageShows(m) == [PartShows(m.role, m.parts[0])];
      assert MessageShows(m)[..0] == [];
    } else {
      forall p | p in MessageShows(m) ensures p.kind != KToolResult {
        var i :| 0 <= i < |m.parts| && MessageShows(m)[i] == p;
        assert m.parts[i] in m.parts;
      }
      NoResultsShown(MessageShows(m), excluded);
    }
  }
}
