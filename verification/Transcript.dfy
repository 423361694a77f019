/**
 Framework messages, owned messages, and the translation between them.

 The framework side keeps the part kinds the translator names and one constructor for
 everything else, so "hidden" stands for every kind the whitelist does not name.
 */
module Transcript {
  import opened Basics

  datatype Json = JString(s: string) | JArray(items: seq<Json>) | JObject(members: map<string, Json>) | JOther

  /** A payload is a string or a structured value; `shown` is what Python's `str` prints for it. */
  datatype Content = Text(s: string) | Data(value: Json, shown: string)

  /** Tool arguments as the framework holds them; `json` is their JSON rendering. */
  datatype Args = NoArgs | ArgsText(s: string) | ArgsObject(json: string)

  datatype RequestPart =
    | UserPrompt(content: Content)
    | SystemPrompt(prompt: string)
    | ToolReturn(tool: string, result: Content, callId: string)
    | HiddenRequest(tag: int)

  datatype ResponsePart =
    | TextReply(text: string)
    | ToolCall(tool: string, args: Args, callId: string)
    | HiddenResponse(tag: int)

  datatype Message = Request(asked: seq<RequestPart>) | Response(said: seq<ResponsePart>) | OtherMessage(tag: int)

  datatype Role = User | System | Assistant | ToolResult | OtherRole

  datatype Kind = KText | KToolCall | KToolResult | OtherKind

  datatype OwnedPart = OwnedPart(
    kind: Kind,
    text: Option<string>,
    toolName: Option<string>,
    callId: Option<string>,
    argsJson: Option<string>)

  datatype OwnedMessage = OwnedMessage(role: Role, parts: seq<OwnedPart>)

  /** The durable transcript. */
  type Turn = seq<OwnedMessage>

  datatype TranslationError = UserNotText | SystemNotText | ToolResultNotResult | BadAssistantPart | BadRole

  // ----- framework to owned

  function Str(c: Content): string {
    match c
    case Text(s) => s
    case Data(_, shown) => shown
  }

  /** `args_as_json_str`: an absent or empty payload reads as the empty object. */
  function ArgsJson(a: Args): string {
    match a
    case NoArgs => "{}"
    case ArgsText(s) => if s == "" then "{}" else s
    case ArgsObject(json) => if json == "" then "{}" else json
  }

  function TextPart(s: string): OwnedPart {
    OwnedPart(KText, Some(s), None, None, None)
  }

  function OwnedRequestPart(p: RequestPart): Turn {
    match p
    case UserPrompt(c) => [OwnedMessage(User, [TextPart(Str(c))])]
    case SystemPrompt(s) => [OwnedMessage(System, [TextPart(s)])]
    case ToolReturn(tool, c, id) =>
      [OwnedMessage(ToolResult, [OwnedPart(KToolResult, Some(Str(c)), Some(tool), Some(id), None)])]
    case HiddenRequest(_) => []
  }

  function OwnedRequest(parts: seq<RequestPart>): Turn {
    if parts == [] then [] else OwnedRequest(parts[..|parts| - 1]) + OwnedRequestPart(parts[|parts| - 1])
  }

  function OwnedResponsePart(p: ResponsePart): seq<OwnedPart> {
    match p
    case TextReply(s) => [TextPart(s)]
    case ToolCall(tool, args, id) => [OwnedPart(KToolCall, None, Some(tool), Some(id), Some(ArgsJson(args)))]
    case HiddenResponse(_) => []
  }

  function OwnedResponse(parts: seq<ResponsePart>): seq<OwnedPart> {
    if parts == [] then [] else OwnedResponse(parts[..|parts| - 1]) + OwnedResponsePart(parts[|parts| - 1])
  }

  function OwnedOf(m: Message): Turn {
    match m
    case Request(parts) => OwnedRequest(parts)
    case Response(parts) =>
      var translated := OwnedResponse(parts);
      if translated == [] then [] else [OwnedMessage(Assistant, translated)]
    case OtherMessage(_) => []
  }

  /** `to_owned_turn` as a function. */
  function Owned(ms: seq<Message>): Turn {
    if ms == [] then [] else Owned(ms[..|ms| - 1]) + OwnedOf(ms[|ms| - 1])
  }

  method FromRequest(parts: seq<RequestPart>) returns (out: Turn)
    ensures out == OwnedRequest(parts)
  {
    out := [];
    for i := 0 to |parts|
      invariant out == OwnedRequest(parts[..i])
    {
      assert parts[..i + 1][..i] == parts[..i];
      match parts[i] {
        case UserPrompt(c) => out := out + [OwnedMessage(User, [TextPart(Str(c))])];
        case SystemPrompt(s) => out := out + [OwnedMessage(System, [TextPart(s)])];
        case ToolReturn(tool, c, id) =>
          out := out + [OwnedMessage(ToolResult, [OwnedPart(KToolResult, Some(Str(c)), Some(tool), Some(id), None)])];
        case HiddenRequest(_) =>
      }
    }
    assert parts[..|parts|] == parts;
  }

  method FromResponse(parts: seq<ResponsePart>) returns (out: seq<OwnedPart>)
    ensures out == OwnedResponse(parts)
  {
    out := [];
    for i := 0 to |parts|
      invariant out == OwnedResponse(parts[..i])
    {
      assert parts[..i + 1][..i] == parts[..i];
      match parts[i] {
        case TextReply(s) => out := out + [TextPart(s)];
        case ToolCall(tool, args, id) =>
          out := out + [OwnedPart(KToolCall, None, Some(tool), Some(id), Some(ArgsJson(args)))];
        case HiddenResponse(_) =>
      }
    }
    assert parts[..|parts|] == parts;
  }

  method ToOwnedTurn(ms: seq<Message>) returns (turn: Turn)
    ensures turn == Owned(ms)
    ensures IsNormal(turn)
  {
    turn := [];
    for i := 0 to |ms|
      invariant turn == Owned(ms[..i])
    {
      assert ms[..i + 1][..i] == ms[..i];
      match ms[i] {
        case Request(parts) =>
          var more := FromRequest(parts);
          turn := turn + more;
        case Response(parts) =>
          var translated := FromResponse(parts);
          if translated != [] {
            turn := turn + [OwnedMessage(Assistant, translated)];
          }
        case OtherMessage(_) =>
      }
    }
    assert ms[..|ms|] == ms;
    OwnedIsNormal(ms);
  }

  // ----- owned to framework

  function Or(o: Option<string>, default: string): string {
    if o == None || o == Some("") then default else o.value
  }

  function UserPartOf(p: OwnedPart): RequestPart { UserPrompt(Text(Or(p.text, ""))) }

  function SystemPartOf(p: OwnedPart): RequestPart { SystemPrompt(Or(p.text, "")) }

  function ToolReturnOf(p: OwnedPart): RequestPart {
    ToolReturn(Or(p.toolName, ""), Text(Or(p.text, "")), Or(p.callId, ""))
  }

  function AssistantPartOf(p: OwnedPart): ResponsePart {
    if p.kind == KText then TextReply(Or(p.text, ""))
    else ToolCall(Or(p.toolName, ""), ArgsText(Or(p.argsJson, "{}")), Or(p.callId, ""))
  }

  predicate AllOfKind(parts: seq<OwnedPart>, k: Kind) {
    forall p :: p in parts ==> p.kind == k
  }

  predicate AssistantParts(parts: seq<OwnedPart>) {
    forall p :: p in parts ==> p.kind == KText || p.kind == KToolCall
  }

  /** The error one message raises, if any. */
  function Refused(m: OwnedMessage): Option<TranslationError> {
    match m.role
    case User => if AllOfKind(m.parts, KText) then None else Some(UserNotText)
    case System => if AllOfKind(m.parts, KText) then None else Some(SystemNotText)
    case ToolResult => if AllOfKind(m.parts, KToolResult) then None else Some(ToolResultNotResult)
    case Assistant => if AssistantParts(m.parts) then None else Some(BadAssistantPart)
    case OtherRole => Some(BadRole)
  }

  function Mapped<A, B>(f: A -> B, s: seq<A>): (r: seq<B>)
    ensures |r| == |s|
    ensures forall i :: 0 <= i < |s| ==> r[i] == f(s[i])
  {
    seq(|s|, i requires 0 <= i < |s| => f(s[i]))
  }

  function Rebuilt(m: OwnedMessage): seq<Message>
    requires Refused(m).None?
  {
    match m.role
    case User => [Request(Mapped(UserPartOf, m.parts))]
    case System => [Request(Mapped(SystemPartOf, m.parts))]
    case ToolResult => [Request(Mapped(ToolReturnOf, m.parts))]
    case Assistant => if m.parts == [] then [] else [Response(Mapped(AssistantPartOf, m.parts))]
  }

  predicate Accepted(t: Turn) {
    forall m :: m in t ==> Refused(m).None?
  }

  function RebuiltAll(t: Turn): seq<Message>
    requires Accepted(t)
  {
    if t == [] then [] else RebuiltAll(t[..|t| - 1]) + Rebuilt(t[|t| - 1])
  }

  /** The first refused message decides the error. */
  function FirstRefusal(t: Turn): Option<TranslationError> {
    if t == [] then None
    else if Refused(t[0]).Some? then Refused(t[0])
    else FirstRefusal(t[1..])
  }

  /** `to_framework_messages` as a function. */
  function Framework(t: Turn): Result<seq<Message>, TranslationError> {
    if Accepted(t) then Ok(RebuiltAll(t))
    else
      FirstRefusalExists(t);
      Err(FirstRefusal(t).value)
  }

  lemma {:induction false} FirstRefusalExists(t: Turn)
    ensures FirstRefusal(t).None? <==> Accepted(t)
  {
    if t != [] {
      FirstRefusalExists(t[1..]);
      assert t == [t[0]] + t[1..];
    }
  }

  lemma {:induction false} FirstRefusalAt(t: Turn, i: nat)
    requires i < |t| && Accepted(t[..i]) && Refused(t[i]).Some?
    ensures FirstRefusal(t) == Refused(t[i])
  {
    if i > 0 {
      assert t[0] == t[..i][0];
      assert t[1..][..i - 1] == t[..i][1..];
      FirstRefusalAt(t[1..], i - 1);
    }
  }

  method ToAssistantParts(owned: seq<OwnedPart>) returns (r: Option<seq<ResponsePart>>)
    ensures r == if AssistantParts(owned) then Some(Mapped(AssistantPartOf, owned)) else None
  {
    var parts: seq<ResponsePart> := [];
    for j := 0 to |owned|
      invariant AssistantParts(owned[..j])
      invariant parts == Mapped(AssistantPartOf, owned[..j])
    {
      assert owned[..j + 1] == owned[..j] + [owned[j]];
      if owned[j].kind == KText {
        parts := parts + [TextReply(Or(owned[j].text, ""))];
      } else if owned[j].kind == KToolCall {
        parts := parts + [ToolCall(Or(owned[j].toolName, ""),
                                   ArgsText(Or(owned[j].argsJson, "{}")),
                                   Or(owned[j].callId, ""))];
      } else {
        assert owned[j] in owned;
        return None;
      }
    }
    assert owned[..|owned|] == owned;
    r := Some(parts);
  }

  method ToFrameworkMessages(turn: Turn) returns (r: Result<seq<Message>, TranslationError>)
    ensures r == Framework(turn)
  {
    var rebuilt: seq<Message> := [];
    for i := 0 to |turn|
      invariant Accepted(turn[..i])
      invariant rebuilt == RebuiltAll(turn[..i])
    {
      var m := turn[i];
      assert turn[..i + 1] == turn[..i] + [m];
      if Refused(m).Some? {
        FirstRefusalAt(turn, i);
        FirstRefusalExists(turn);
      }
      match m.role {
        case User =>
          if !(forall p :: p in m.parts ==> p.kind == KText) { return Err(UserNotText); }
          rebuilt := rebuilt + [Request(Mapped(UserPartOf, m.parts))];
        case System =>
          if !(forall p :: p in m.parts ==> p.kind == KText) { return Err(SystemNotText); }
          rebuilt := rebuilt + [Request(Mapped(SystemPartOf, m.parts))];
        case ToolResult =>
          if !(forall p :: p in m.parts ==> p.kind == KToolResult) { return Err(ToolResultNotResult); }
          rebuilt := rebuilt + [Request(Mapped(ToolReturnOf, m.parts))];
        case Assistant =>
          var parts := ToAssistantParts(m.parts);
          if parts.None? { return Err(BadAssistantPart); }
          if parts.value != [] {
            rebuilt := rebuilt + [Response(parts.value)];
          }
        case OtherRole =>
          return Err(BadRole);
      }
    }
    assert turn[..|turn|] == turn;
    r := Ok(rebuilt);
  }

  // ----- the normal form

  predicate NormalTextPart(p: OwnedPart) {
    p.kind == KText && p.text.Some? && p.toolName == None && p.callId == None && p.argsJson == None
  }

  predicate NormalResultPart(p: OwnedPart) {
    p.kind == KToolResult && p.text.Some? && p.toolName.Some? && p.callId.Some? && p.argsJson == None
  }

  predicate NormalCallPart(p: OwnedPart) {
    && p.kind == KToolCall && p.text == None && p.toolName.Some? && p.callId.Some?
    && p.argsJson.Some? && p.argsJson.value != ""
  }

  predicate NormalMessage(m: OwnedMessage) {
    match m.role
    case User => |m.parts| == 1 && NormalTextPart(m.parts[0])
    case System => |m.parts| == 1 && NormalTextPart(m.parts[0])
    case ToolResult => |m.parts| == 1 && NormalResultPart(m.parts[0])
    case Assistant => m.parts != [] && forall p :: p in m.parts ==> NormalTextPart(p) || NormalCallPart(p)
    case OtherRole => false
  }

  predicate IsNormal(t: Turn) {
    forall m :: m in t ==> NormalMessage(m)
  }

  /** Fill in what a part of each kind must carry and drop what it must not. */
  function NormalPart(p: OwnedPart): OwnedPart {
    match p.kind
    case KText => TextPart(Or(p.text, ""))
    case KToolResult =>
      OwnedPart(KToolResult, Some(Or(p.text, "")), Some(Or(p.toolName, "")), Some(Or(p.callId, "")), None)
    case KToolCall =>
      OwnedPart(KToolCall, None, Some(Or(p.toolName, "")), Some(Or(p.callId, "")), Some(Or(p.argsJson, "{}")))
    case OtherKind => p
  }

  function Split(role: Role, parts: seq<OwnedPart>): (t: Turn)
    ensures |t| == |parts|
  {
    seq(|parts|, i requires 0 <= i < |parts| => OwnedMessage(role, [NormalPart(parts[i])]))
  }

  /** Assistant messages keep their parts together; every other message gives one message per part. */
  function NormalizeMessage(m: OwnedMessage): Turn {
    if m.role != Assistant then Split(m.role, m.parts)
    else if m.parts == [] then []
    else [OwnedMessage(Assistant, Mapped(NormalPart, m.parts))]
  }

  function Normalize(t: Turn): Turn {
    if t == [] then [] else Normalize(t[..|t| - 1]) + NormalizeMessage(t[|t| - 1])
  }

  // ----- concatenation

  lemma {:induction false} OwnedConcat(a: seq<Message>, b: seq<Message>)
    ensures Owned(a + b) == Owned(a) + Owned(b)
  {
    hide OwnedOf;
    if b == [] {
      assert a + b == a;
    } else {
      var front := b[..|b| - 1];
      assert (a + b)[..|a + b| - 1] == a + front;
      OwnedConcat(a, front);
    }
  }

  lemma OwnedSingle(m: Message)
    ensures Owned([m]) == OwnedOf(m)
  {
    assert [m][..0] == [];
  }

  // ----- main results

  lemma {:induction false} OwnedRequestIsNormal(parts: seq<RequestPart>)
    ensures IsNormal(OwnedRequest(parts))
  {
    if parts != [] {
      OwnedRequestIsNormal(parts[..|parts| - 1]);
    }
  }

  lemma {:induction false} OwnedResponseIsNormal(parts: seq<ResponsePart>)
    ensures forall p :: p in OwnedResponse(parts) ==> NormalTextPart(p) || NormalCallPart(p)
  {
    if parts != [] {
      OwnedResponseIsNormal(parts[..|parts| - 1]);
    }
  }

  /** Whatever the framework produced, the owned transcript is in normal form. */
  lemma {:induction false} OwnedIsNormal(ms: seq<Message>)
    ensures IsNormal(Owned(ms))
  {
    if ms != [] {
      OwnedIsNormal(ms[..|ms| - 1]);
      match ms[|ms| - 1] {
        case Request(parts) => OwnedRequestIsNormal(parts);
        case Response(parts) => OwnedResponseIsNormal(parts);
        case OtherMessage(_) =>
      }
    }
  }

  lemma {:induction false} RequestRoundTrip(role: Role, parts: seq<OwnedPart>, built: seq<RequestPart>)
    requires |built| == |parts|
    requires match role
             case User => AllOfKind(parts, KText) && forall i :: 0 <= i < |parts| ==> built[i] == UserPartOf(parts[i])
             case System => AllOfKind(parts, KText) && forall i :: 0 <= i < |parts| ==> built[i] == SystemPartOf(parts[i])
             case ToolResult =>
               AllOfKind(parts, KToolResult) && forall i :: 0 <= i < |parts| ==> built[i] == ToolReturnOf(parts[i])
             case _ => false
    ensures OwnedRequest(built) == Split(role, parts)
  {
    if parts != [] {
      var n := |parts| - 1;
      assert AllOfKind(parts[..n], if role == ToolResult then KToolResult else KText);
      RequestRoundTrip(role, parts[..n], built[..n]);
      assert parts[n] in parts;
      assert Split(role, parts) == Split(role, parts[..n]) + [OwnedMessage(role, [NormalPart(parts[n])])];
    }
  }

  lemma {:induction false} ResponseRoundTrip(parts: seq<OwnedPart>)
    requires AssistantParts(parts)
    ensures OwnedResponse(Mapped(AssistantPartOf, parts)) == Mapped(NormalPart, parts)
  {
    if parts != [] {
      var n := |parts| - 1;
      assert AssistantParts(parts[..n]);
      ResponseRoundTrip(parts[..n]);
      var built := Mapped(AssistantPartOf, parts);
      assert built[..n] == Mapped(AssistantPartOf, parts[..n]);
      assert parts[n] in parts;
      assert Mapped(NormalPart, parts) == Mapped(NormalPart, parts[..n]) + [NormalPart(parts[n])];
    }
  }

  lemma MessageRoundTrip(m: OwnedMessage)
    requires Refused(m).None?
    ensures Owned(Rebuilt(m)) == NormalizeMessage(m)
  {
    if m.role == Assistant {
      if m.parts != [] {
        ResponseRoundTrip(m.parts);
        OwnedSingle(Response(Mapped(AssistantPartOf, m.parts)));
      }
    } else {
      var built := Rebuilt(m)[0];
      RequestRoundTrip(m.role, m.parts, built.asked);
      OwnedSingle(built);
    }
  }

  /** Owned to framework and back is normalisation, for every accepted transcript. */
  lemma {:induction false} RoundTripIsNormalization(t: Turn)
    requires Accepted(t)
    ensures Owned(RebuiltAll(t)) == Normalize(t)
  {
    hide OwnedOf, Rebuilt, NormalizeMessage;
    if t != [] {
      var front := t[..|t| - 1];
      RoundTripIsNormalization(front);
      MessageRoundTrip(t[|t| - 1]);
      OwnedConcat(RebuiltAll(front), Rebuilt(t[|t| - 1]));
    }
  }

  lemma NormalPartIsFixed(p: OwnedPart)
    ensures NormalTextPart(p) || NormalResultPart(p) || NormalCallPart(p) ==> NormalPart(p) == p
  {
  }

  lemma NormalMessageIsFixed(m: OwnedMessage)
    requires NormalMessage(m)
    ensures Refused(m).None? && NormalizeMessage(m) == [m]
  {
    hide NormalPart;
    forall p | p in m.parts ensures NormalPart(p) == p { NormalPartIsFixed(p); }
    if m.role == Assistant {
      assert Mapped(NormalPart, m.parts) == m.parts;
    } else {
      assert Split(m.role, m.parts)[0] == OwnedMessage(m.role, [NormalPart(m.parts[0])]);
      assert m.parts == [m.parts[0]];
    }
  }

  lemma {:induction false} NormalFormIsFixed(t: Turn)
    ensures IsNormal(t) ==> Accepted(t) && Normalize(t) == t
  {
    hide NormalMessage, NormalizeMessage, Refused;
    if t != [] && IsNormal(t) {
      NormalFormIsFixed(t[..|t| - 1]);
      forall m | m in t ensures Refused(m).None? { NormalMessageIsFixed(m); }
      NormalMessageIsFixed(t[|t| - 1]);
      assert t == t[..|t| - 1] + [t[|t| - 1]];
    }
  }

  /** A transcript the translator produced is accepted again and comes back unchanged. */
  lemma ResumeIsStable(ms: seq<Message>)
    ensures Framework(Owned(ms)).Ok?
    ensures Owned(Framework(Owned(ms)).value) == Owned(ms)
  {
    OwnedIsNormal(ms);
    NormalFormIsFixed(Owned(ms));
    RoundTripIsNormalization(Owned(ms));
  }

  /** Normal form is exactly what survives the trip unchanged. */
  lemma NormalFormIsTheFixedPoints(t: Turn)
    ensures IsNormal(t) <==> Accepted(t) && Owned(RebuiltAll(t)) == t
  {
    NormalFormIsFixed(t);
    if Accepted(t) {
      RoundTripIsNormalization(t);
      OwnedIsNormal(RebuiltAll(t));
    }
  }

  /** One trip reaches the normal form; more trips change nothing. */
  lemma NormalizeReachesNormalForm(t: Turn)
    requires Accepted(t)
    ensures IsNormal(Normalize(t)) && Normalize(Normalize(t)) == Normalize(t)
  {
    RoundTripIsNormalization(t);
    OwnedIsNormal(RebuiltAll(t));
    NormalFormIsFixed(Normalize(t));
  }

  // ----- hidden content

  function VisibleRequest(parts: seq<RequestPart>): seq<RequestPart> {
    if parts == [] then []
    else VisibleRequest(parts[..|parts| - 1]) +
         (if parts[|parts| - 1].HiddenRequest? then [] else [parts[|parts| - 1]])
  }

  function VisibleResponse(parts: seq<ResponsePart>): seq<ResponsePart> {
    if parts == [] then []
    else VisibleResponse(parts[..|parts| - 1]) +
         (if parts[|parts| - 1].HiddenResponse? then [] else [parts[|parts| - 1]])
  }

  /** Erase every part the whitelist does not name, and the message itself if nothing is left of it. */
  function VisibleOf(m: Message): seq<Message> {
    match m
    case Request(parts) => if VisibleRequest(parts) == [] then [] else [Request(VisibleRequest(parts))]
    case Response(parts) => if VisibleResponse(parts) == [] then [] else [Response(VisibleResponse(parts))]
    case OtherMessage(_) => []
  }

  function Visible(ms: seq<Message>): seq<Message> {
    if ms == [] then [] else Visible(ms[..|ms| - 1]) + VisibleOf(ms[|ms| - 1])
  }

  lemma {:induction false} HiddenRequestPartsDoNotShow(parts: seq<RequestPart>)
    ensures OwnedRequest(VisibleRequest(parts)) == OwnedRequest(parts)
  {
    if parts != [] {
      var front := parts[..|parts| - 1];
      var last := parts[|parts| - 1];
      HiddenRequestPartsDoNotShow(front);
      if !last.HiddenRequest? {
        assert (VisibleRequest(front) + [last])[..|VisibleRequest(front)|] == VisibleRequest(front);
      } else {
        assert VisibleRequest(parts) == VisibleRequest(front);
      }
    }
  }

  lemma {:induction false} HiddenResponsePartsDoNotShow(parts: seq<ResponsePart>)
    ensures OwnedResponse(VisibleResponse(parts)) == OwnedResponse(parts)
  {
    if parts != [] {
      var front := parts[..|parts| - 1];
      var last := parts[|parts| - 1];
      HiddenResponsePartsDoNotShow(front);
      if !last.HiddenResponse? {
        assert (VisibleResponse(front) + [last])[..|VisibleResponse(front)|] == VisibleResponse(front);
      } else {
        assert VisibleResponse(parts) == VisibleResponse(front);
      }
    }
  }

  lemma OwnedOfSeesOnlyTheVisible(m: Message)
    ensures Owned(VisibleOf(m)) == OwnedOf(m)
  {
    match m {
      case Request(parts) =>
        HiddenRequestPartsDoNotShow(parts);
        OwnedSingle(Request(VisibleRequest(parts)));
      case Response(parts) =>
        HiddenResponsePartsDoNotShow(parts);
        OwnedSingle(Response(VisibleResponse(parts)));
      case OtherMessage(_) =>
    }
  }

  lemma {:induction false} OwnedSeesOnlyTheVisible(ms: seq<Message>)
    ensures Owned(Visible(ms)) == Owned(ms)
  {
    hide OwnedOf, VisibleOf;
    if ms != [] {
      var front := ms[..|ms| - 1];
      OwnedSeesOnlyTheVisible(front);
      OwnedOfSeesOnlyTheVisible(ms[|ms| - 1]);
      OwnedConcat(Visible(front), VisibleOf(ms[|ms| - 1]));
    }
  }

  /** Histories that differ only in hidden content translate to the same transcript. */
  lemma HiddenContentDoesNotInterfere(a: seq<Message>, b: seq<Message>)
    requires Visible(a) == Visible(b)
    ensures Owned(a) == Owned(b)
  {
    OwnedSeesOnlyTheVisible(a);
    OwnedSeesOnlyTheVisible(b);
  }

  // ----- what a history reads as

  /** One readable part: who says it, and every string it carries. */
  datatype Shown = Shown(role: Role, kind: Kind, text: string, tool: string, callId: string, args: string)

  function Printed(c: Content): string {
    if c.Text? then c.s else c.shown
  }

  function RequestShows(p: RequestPart): seq<Shown> {
    if p.UserPrompt? then [Shown(User, KText, Printed(p.content), "", "", "")]
    else if p.SystemPrompt? then [Shown(System, KText, p.prompt, "", "", "")]
    else if p.ToolReturn? then [Shown(ToolResult, KToolResult, Printed(p.result), p.tool, p.callId, "")]
    else []
  }

  /** Arguments as JSON text, with an absent or empty payload standing for the empty object. */
  function ArgsShown(a: Args): string {
    var json := if a.NoArgs? then "" else if a.ArgsText? then a.s else a.json;
    if json == "" then "{}" else json
  }

  function ResponseShows(p: ResponsePart): seq<Shown> {
    if p.TextReply? then [Shown(Assistant, KText, p.text, "", "", "")]
    else if p.ToolCall? then [Shown(Assistant, KToolCall, "", p.tool, p.callId, ArgsShown(p.args))]
    else []
  }

  function RequestReads(parts: seq<RequestPart>): seq<seq<Shown>> {
    if parts == [] then []
    else
      var last := RequestShows(parts[|parts| - 1]);
      RequestReads(parts[..|parts| - 1]) + (if last == [] then [] else [last])
  }

  function ResponseReads(parts: seq<ResponsePart>): seq<Shown> {
    if parts == [] then [] else ResponseReads(parts[..|parts| - 1]) + ResponseShows(parts[|parts| - 1])
  }

  /** What can be read of framework messages: request parts one by one, the parts of a response together. */
  function Reads(ms: seq<Message>): seq<seq<Shown>> {
    if ms == [] then []
    else
      var last := ms[|ms| - 1];
      Reads(ms[..|ms| - 1]) +
      (if last.Request? then RequestReads(last.asked)
       else if last.Response? && ResponseReads(last.said) != [] then [ResponseReads(last.said)]
       else [])
  }

  function Field(o: Option<string>): string {
    if o.Some? then o.value else ""
  }

  function PartShows(role: Role, p: OwnedPart): Shown {
    match p.kind
    case KText => Shown(role, KText, Field(p.text), "", "", "")
    case KToolResult => Shown(role, KToolResult, Field(p.text), Field(p.toolName), Field(p.callId), "")
    case KToolCall =>
      Shown(role, KToolCall, "", Field(p.toolName), Field(p.callId), if Field(p.argsJson) == "" then "{}" else Field(p.argsJson))
    case OtherKind => Shown(role, OtherKind, "", "", "", "")
  }

  function MessageShows(m: OwnedMessage): seq<Shown> {
    seq(|m.parts|, i requires 0 <= i < |m.parts| => PartShows(m.role, m.parts[i]))
  }

  /** What can be read of a transcript, message by message. */
  function TurnReads(t: Turn): seq<seq<Shown>> {
    seq(|t|, i requires 0 <= i < |t| => MessageShows(t[i]))
  }

  lemma TurnReadsConcat(a: Turn, b: Turn)
    ensures TurnReads(a + b) == TurnReads(a) + TurnReads(b)
  {
    hide MessageShows;
  }

  lemma {:induction false} RequestPrints(parts: seq<RequestPart>)
    ensures TurnReads(OwnedRequest(parts)) == RequestReads(parts)
  {
    if parts != [] {
      var front, last := parts[..|parts| - 1], parts[|parts| - 1];
      RequestPrints(front);
      TurnReadsConcat(OwnedRequest(front), OwnedRequestPart(last));
      RequestPartPrints(last);
    }
  }

  lemma RequestPartPrints(p: RequestPart)
    ensures TurnReads(OwnedRequestPart(p)) == if RequestShows(p) == [] then [] else [RequestShows(p)]
  {
    if !p.HiddenRequest? {
      var m := OwnedRequestPart(p)[0];
      assert MessageShows(m) == [PartShows(m.role, m.parts[0])];
      assert RequestShows(p) == MessageShows(m);
    }
  }

  lemma {:induction false} ResponsePrints(parts: seq<ResponsePart>)
    ensures MessageShows(OwnedMessage(Assistant, OwnedResponse(parts))) == ResponseReads(parts)
  {
    if parts != [] {
      var front, last := parts[..|parts| - 1], parts[|parts| - 1];
      ResponsePrints(front);
      var a, b := OwnedResponse(front), OwnedResponsePart(last);
      assert MessageShows(OwnedMessage(Assistant, a + b))
          == MessageShows(OwnedMessage(Assistant, a)) + MessageShows(OwnedMessage(Assistant, b));
      assert MessageShows(OwnedMessage(Assistant, b)) == ResponseShows(last) by { ResponsePartPrints(last); }
    }
  }

  lemma ResponsePartPrints(p: ResponsePart)
    ensures MessageShows(OwnedMessage(Assistant, OwnedResponsePart(p))) == ResponseShows(p)
  {
    if !p.HiddenResponse? {
      var m := OwnedMessage(Assistant, OwnedResponsePart(p));
      assert MessageShows(m) == [PartShows(Assistant, m.parts[0])];
    }
  }

  /**
   The transcript lists every visible part of a history in order, each with its role, its printed
   content, its tool, its call and its JSON arguments, the parts of one reply together.
   */
  lemma {:induction false} TranscriptReadsAsItsHistory(ms: seq<Message>)
    ensures TurnReads(Owned(ms)) == Reads(ms)
  {
    hide MessageShows;
    if ms != [] {
      var front, last := ms[..|ms| - 1], ms[|ms| - 1];
      TranscriptReadsAsItsHistory(front);
      TurnReadsConcat(Owned(front), OwnedOf(last));
      match last {
        case Request(parts) => RequestPrints(parts);
        case Response(parts) =>
          ResponsePrints(parts);
          assert OwnedResponse(parts) == [] <==> ResponseReads(parts) == [] by { SameLength(OwnedMessage(Assistant, OwnedResponse(parts))); }
          if OwnedResponse(parts) != [] {
            assert TurnReads([OwnedMessage(Assistant, OwnedResponse(parts))]) == [ResponseReads(parts)];
          }
        case OtherMessage(_) =>
      }
    }
  }

  lemma SameLength(m: OwnedMessage)
    ensures |MessageShows(m)| == |m.parts|
  {
  }

  /** A normal transcript is known by what it reads as. */
  lemma NormalIsKnownByItsReading(t: Turn, u: Turn)
    requires IsNormal(t) && IsNormal(u) && TurnReads(t) == TurnReads(u)
    ensures t == u
  {
    hide IsNormal, MessageShows;
    assert |t| == |TurnReads(t)| == |u|;
    forall i | 0 <= i < |t| ensures t[i] == u[i] {
      assert MessageShows(t[i]) == TurnReads(t)[i] == TurnReads(u)[i] == MessageShows(u[i]);
      NormalAt(t, i);
      NormalAt(u, i);
      NormalMessageIsKnown(t[i], u[i]);
    }
  }

  lemma NormalAt(t: Turn, i: nat)
    requires IsNormal(t) && i < |t|
    ensures NormalMessage(t[i])
  {
    assert t[i] in t;
  }

  lemma NormalMessageIsKnown(m: OwnedMessage, n: OwnedMessage)
    requires NormalMessage(m) && NormalMessage(n) && MessageShows(m) == MessageShows(n)
    ensures m == n
  {
    SameLength(m);
    SameLength(n);
    assert MessageShows(m)[0].role == m.role && MessageShows(n)[0].role == n.role;
    forall i | 0 <= i < |m.parts| ensures m.parts[i] == n.parts[i] {
      assert m.parts[i] in m.parts && n.parts[i] in n.parts;
      assert PartShows(m.role, m.parts[i]) == MessageShows(m)[i] == MessageShows(n)[i] == PartShows(n.role, n.parts[i]);
    }
  }

  /** Two histories translate alike if and only if they read alike. */
  lemma TranslateAlikeIff(a: seq<Message>, b: seq<Message>)
    ensures Owned(a) == Owned(b) <==> Reads(a) == Reads(b)
  {
    hide Owned, Reads, IsNormal;
    TranscriptReadsAsItsHistory(a);
    TranscriptReadsAsItsHistory(b);
    OwnedIsNormal(a);
    OwnedIsNormal(b);
    if Reads(a) == Reads(b) {
      NormalIsKnownByItsReading(Owned(a), Owned(b));
    }
  }

  function Flat<T>(s: seq<seq<T>>): seq<T> {
    if s == [] then [] else Flat(s[..|s| - 1]) + s[|s| - 1]
  }

  lemma {:induction false} FlatConcat<T>(a: seq<seq<T>>, b: seq<seq<T>>)
    ensures Flat(a + b) == Flat(a) + Flat(b)
  {
    if b == [] {
      assert a + b == a;
    } else {
      assert (a + b)[..|a + b| - 1] == a + b[..|b| - 1];
      FlatConcat(a, b[..|b| - 1]);
    }
  }

  /** Rebuilding an accepted transcript keeps every part readable as it was, absent strings reading as empty. */
  lemma {:induction false} RebuildingKeepsTheReading(t: Turn)
    requires Accepted(t)
    ensures Flat(Reads(RebuiltAll(t))) == Flat(TurnReads(t))
  {
    hide Reads, Owned, MessageShows, RebuiltAll;
    RoundTripIsNormalization(t);
    TranscriptReadsAsItsHistory(RebuiltAll(t));
    NormalizingKeepsTheReading(t);
  }

  lemma {:induction false} NormalizingKeepsTheReading(t: Turn)
    requires Accepted(t)
    ensures Flat(TurnReads(Normalize(t))) == Flat(TurnReads(t))
  {
    hide MessageShows, NormalizeMessage, Refused;
    if t != [] {
      var front, m := t[..|t| - 1], t[|t| - 1];
      NormalizingKeepsTheReading(front);
      assert t == front + [m] && m in t;
      TurnReadsConcat(front, [m]);
      TurnReadsConcat(Normalize(front), NormalizeMessage(m));
      FlatConcat(TurnReads(front), TurnReads([m]));
      FlatConcat(TurnReads(Normalize(front)), TurnReads(NormalizeMessage(m)));
      MessageKeepsItsReading(m);
    }
  }

  lemma MessageKeepsItsReading(m: OwnedMessage)
    requires Refused(m).None?
    ensures Flat(TurnReads(NormalizeMessage(m))) == Flat(TurnReads([m]))
  {
    hide MessageShows;
    assert TurnReads([m]) == [MessageShows(m)] && [MessageShows(m)][..0] == [];
    assert Flat(TurnReads([m])) == MessageShows(m);
    if m.role != Assistant {
      SplitKeepsItsReading(m, |m.parts|);
      assert m.parts[..|m.parts|] == m.parts && m == OwnedMessage(m.role, m.parts);
    } else if m.parts == [] {
      SameLength(m);
    } else {
      var n := NormalizeMessage(m)[0];
      assert TurnReads([n]) == [MessageShows(n)] && [MessageShows(n)][..0] == [];
      AssistantKeepsItsReading(m);
    }
  }

  lemma AssistantKeepsItsReading(m: OwnedMessage)
    ensures MessageShows(OwnedMessage(m.role, Mapped(NormalPart, m.parts))) == MessageShows(m)
  {
    forall i | 0 <= i < |m.parts| ensures PartShows(m.role, NormalPart(m.parts[i])) == PartShows(m.role, m.parts[i]) {
      PartKeepsItsReading(m.role, m.parts[i]);
    }
  }

  lemma PartKeepsItsReading(role: Role, p: OwnedPart)
    ensures PartShows(role, NormalPart(p)) == PartShows(role, p)
  {
  }

  lemma {:induction false} SplitKeepsItsReading(m: OwnedMessage, k: nat)
    requires k <= |m.parts|
    ensures Flat(TurnReads(Split(m.role, m.parts[..k]))) == MessageShows(OwnedMessage(m.role, m.parts[..k]))
  {
    hide PartShows, NormalPart;
    if k > 0 {
      SplitKeepsItsReading(m, k - 1);
      var p, front := m.parts[k - 1], m.parts[..k - 1];
      var one := OwnedMessage(m.role, [NormalPart(p)]);
      assert m.parts[..k] == front + [p];
      assert Split(m.role, m.parts[..k]) == Split(m.role, front) + [one];
      TurnReadsConcat(Split(m.role, front), [one]);
      assert MessageShows(one) == [PartShows(m.role, NormalPart(p))];
      PartKeepsItsReading(m.role, p);
      assert TurnReads([one]) == [MessageShows(one)];
      FlatConcat(TurnReads(Split(m.role, front)), [MessageShows(one)]);
      assert [MessageShows(one)][..0] == [];
      assert Flat([MessageShows(one)]) == MessageShows(one);
      assert MessageShows(OwnedMessage(m.role, front + [p])) == MessageShows(OwnedMessage(m.role, front)) + [PartShows(m.role, p)];
    }
  }

  // ----- refusals

  /** The part kinds a message of each role may hold. */
  function KindsOf(role: Role): set<Kind> {
    if role == User || role == System then {KText}
    else if role == ToolResult then {KToolResult}
    else if role == Assistant then {KText, KToolCall}
    else {}
  }

  predicate FitsItsRole(m: OwnedMessage) {
    m.role != OtherRole && forall i :: 0 <= i < |m.parts| ==> m.parts[i].kind in KindsOf(m.role)
  }

  /** A transcript is refused exactly when a message does not fit its role; the first such message names the error. */
  lemma RefusalNamesTheFirstMisfit(t: Turn)
    ensures Framework(t).Ok? <==> forall i :: 0 <= i < |t| ==> FitsItsRole(t[i])
    ensures Framework(t).Err? ==>
              exists i :: 0 <= i < |t| && !FitsItsRole(t[i]) && (forall j :: 0 <= j < i ==> FitsItsRole(t[j]))
                          && (Framework(t).error == UserNotText <==> t[i].role == User)
                          && (Framework(t).error == SystemNotText <==> t[i].role == System)
                          && (Framework(t).error == ToolResultNotResult <==> t[i].role == ToolResult)
                          && (Framework(t).error == BadAssistantPart <==> t[i].role == Assistant)
                          && (Framework(t).error == BadRole <==> t[i].role == OtherRole)
  {
    hide RebuiltAll, FitsItsRole, Refused;
    forall i | 0 <= i < |t| ensures Refused(t[i]).None? <==> FitsItsRole(t[i]) {
      RefusedIff(t[i]);
    }
    if Framework(t).Err? {
      var i := FirstMisfit(t);
      RefusedIff(t[i]);
      FirstRefusalAt(t, i);
      FirstRefusalExists(t);
      forall j | 0 <= j < i ensures FitsItsRole(t[j]) {
        assert t[j] in t[..i];
      }
    } else {
      forall i | 0 <= i < |t| ensures FitsItsRole(t[i]) {
        assert t[i] in t;
      }
    }
  }

  lemma {:induction false} FirstMisfit(t: Turn) returns (i: nat)
    requires !Accepted(t)
    ensures i < |t| && Accepted(t[..i]) && Refused(t[i]).Some?
  {
    hide Refused;
    var front := t[..|t| - 1];
    if Accepted(front) {
      i := |t| - 1;
    } else {
      i := FirstMisfit(front);
      assert front[..i] == t[..i];
    }
  }

  lemma RefusedIff(m: OwnedMessage)
    ensures Refused(m).None? <==> FitsItsRole(m)
    ensures Refused(m).Some? ==>
              && (Refused(m).value == UserNotText <==> m.role == User)
              && (Refused(m).value == SystemNotText <==> m.role == System)
              && (Refused(m).value == ToolResultNotResult <==> m.role == ToolResult)
              && (Refused(m).value == BadAssistantPart <==> m.role == Assistant)
              && (Refused(m).value == BadRole <==> m.role == OtherRole)
  {
    assert forall p :: p in m.parts <==> exists i :: 0 <= i < |m.parts| && m.parts[i] == p;
  }
}
