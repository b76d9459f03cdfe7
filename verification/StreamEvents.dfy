/**
 The events of one agent turn as both sides know them: their fields and limits, the JSON
 object each is printed as, and the size of its frame.
 */
module StreamEvents {
  import opened Wrappers
  import EF = EventFrames
  import AP = Approvals
  import opened CompactJson
  import opened TurnEvents

  datatype Body =
    | TurnStarted
    | ToolStart(callId: string, command: string)
    | Request(approval: nat, session: nat, callId: string, command: string, target: AP.Target)
    | Resolution(approval: nat, callId: string, approved: bool)
    | Delta(delta: string)
    | Replace(text: string)
    | Done(iteration: nat)
    | Failure(kind: string, iteration: nat, code: string, message: string)

  datatype Event = Event(request: nat, sequence: nat, conversation: nat, run: nat, body: Body)

  // ---------------------------------------------------------------- limits

  predicate Between(text: string, least: nat, most: nat) {
    least <= |text| <= most
  }

  predicate ValidCommand(command: string) {
    Between(command, 1, 4096) && '\0' !in command
  }

  predicate ValidTarget(target: AP.Target) {
    && Between(target.name, 1, 80) && Between(target.host, 1, 255) && Between(target.user, 1, 128)
    && 1 <= target.port <= 65535
  }

  predicate ValidCode(code: string) {
    && Between(code, 1, 128) && 'A' <= code[0] <= 'Z'
    && forall i :: 0 <= i < |code| ==> 'A' <= code[i] <= 'Z' || '0' <= code[i] <= '9' || code[i] == '_'
  }

  predicate FailureKind(kind: string) {
    kind == "FAILED" || kind == "LIMIT_REACHED" || kind == "CANCELLED"
  }

  // What the backend's event classes accept.
  predicate ValidBody(body: Body) {
    match body
    case TurnStarted => true
    case ToolStart(callId, command) => Between(callId, 1, 1024) && ValidCommand(command)
    case Request(_, _, callId, command, target) =>
      Between(callId, 1, 1024) && ValidCommand(command) && ValidTarget(target)
    case Resolution(_, callId, _) => Between(callId, 1, 1024)
    case Delta(delta) => Between(delta, 1, 65536)
    case Replace(text) => Between(text, 0, 65536)
    case Done(iteration) => iteration <= 128
    case Failure(kind, iteration, code, message) =>
      FailureKind(kind) && iteration <= 128 && ValidCode(code) && Between(message, 1, 256)
  }

  predicate IsTerminal(body: Body) {
    body.Done? || body.Failure?
  }

  // ---------------------------------------------------------------- the printed object

  // Identifiers are shown as lower-case UUIDs.
  predicate IsUuid(text: string) {
    && |text| == 36
    && forall i :: 0 <= i < |text| ==>
         if i == 8 || i == 13 || i == 18 || i == 23 then text[i] == '-'
         else '0' <= text[i] <= '9' || 'a' <= text[i] <= 'f'
  }

  ghost predicate ShowsUuids(show: nat -> string) {
    && (forall id :: IsUuid(show(id)))
    && (forall id, other :: show(id) == show(other) ==> id == other)
  }

  function TypeOf(body: Body): string {
    match body
    case TurnStarted => "agent.turn.started"
    case ToolStart(_, _) => "agent.turn.tool_started"
    case Request(_, _, _, _, _) => "agent.turn.approval_requested"
    case Resolution(_, _, _) => "agent.turn.approval_resolved"
    case Delta(_) => "agent.turn.text_delta"
    case Replace(_) => "agent.turn.text_replace"
    case Done(_) => "agent.turn.completed"
    case Failure(_, _, _, _) => "agent.turn.failed"
  }

  function StatusText(approved: bool): string {
    if approved then "APPROVED" else "REJECTED"
  }

  function ReasonText(approved: bool): string {
    if approved then "user_approved" else "user_rejected"
  }

  function Arguments(command: string): Json {
    Object(More("command", Text(command), End))
  }

  function TargetJson(target: AP.Target): Json {
    Object(More("display_name", Text(target.name), More("host", Text(target.host),
           More("port", Number(target.port), More("username", Text(target.user), End)))))
  }

  function BodyMembers(body: Body, show: nat -> string): Members {
    match body
    case TurnStarted => More("status", Text("RUNNING"), More("react_iteration", Number(0), End))
    case ToolStart(callId, command) =>
      More("tool_call_id", Text(callId), More("tool_name", Text("execute_command"),
      More("arguments", Arguments(command), End)))
    case Request(approval, session, callId, command, target) =>
      More("approval_id", Text(show(approval)), More("ssh_session_id", Text(show(session)),
      More("tool_call_id", Text(callId), More("tool_name", Text("execute_command"),
      More("arguments", Arguments(command), More("target", TargetJson(target),
      More("reason", Text("POSSIBLE_MUTATION_OR_UNKNOWN"), End)))))))
    case Resolution(approval, callId, approved) =>
      More("approval_id", Text(show(approval)), More("tool_call_id", Text(callId),
      More("status", Text(StatusText(approved)), More("reason", Text(ReasonText(approved)), End))))
    case Delta(delta) => More("delta", Text(delta), End)
    case Replace(text) => More("text", Text(text), End)
    case Done(iteration) =>
      More("status", Text("COMPLETED"), More("react_iteration", Number(iteration), More("error_code", Null, End)))
    case Failure(kind, iteration, code, message) =>
      More("status", Text(kind), More("react_iteration", Number(iteration), More("error_code", Text(code),
      More("message", Text(message), End))))
  }

  // The order of the members carries no meaning.
  function ToJson(event: Event, show: nat -> string): Json {
    Object(
      More("schema_version", Number(1), More("request_id", Text(show(event.request)),
      More("sequence", Number(event.sequence), More("conversation_id", Text(show(event.conversation)),
      More("agent_run_id", Text(show(event.run)), More("type", Text(TypeOf(event.body)),
      BodyMembers(event.body, show))))))))
  }

  function FrameOf(event: Event, show: nat -> string): EF.Frame {
    EF.Frame(TypeOf(event.body), event.sequence, Print(ToJson(event, show)))
  }

  function EventSize(event: Event, show: nat -> string): nat {
    EF.Size(EF.Encode(FrameOf(event, show)))
  }

  // ---------------------------------------------------------------- frames identify events

  lemma TypeDeterminesKind(a: Body, b: Body)
    requires TypeOf(a) == TypeOf(b)
    ensures a.TurnStarted? == b.TurnStarted? && a.ToolStart? == b.ToolStart? && a.Request? == b.Request?
    ensures a.Resolution? == b.Resolution? && a.Delta? == b.Delta? && a.Replace? == b.Replace?
    ensures a.Done? == b.Done? && a.Failure? == b.Failure?
  {
    var s, t := TypeOf(a), TypeOf(b);
    assert |s| == |t| && s[11] == t[11] && s[|s| - 1] == t[|t| - 1] && s[|s| - 3] == t[|t| - 3];
  }

  lemma MembersDetermineBody(a: Body, b: Body, show: nat -> string)
    requires ShowsUuids(show) && TypeOf(a) == TypeOf(b) && BodyMembers(a, show) == BodyMembers(b, show)
    ensures a == b
  {
    TypeDeterminesKind(a, b);
    hide TypeOf;
    if a.Resolution? {
      assert StatusText(a.approved)[0] == StatusText(b.approved)[0];
    }
  }

  // No two events print alike: the client recovers exactly the event that was sent.
  lemma FrameDeterminesEvent(a: Event, b: Event, show: nat -> string)
    requires ShowsUuids(show) && FrameOf(a, show) == FrameOf(b, show)
    ensures a == b
  {
    PrintRoundTrip(ToJson(a, show));
    PrintRoundTrip(ToJson(b, show));
    hide Print, Read, BodyMembers, TypeOf;
    MembersDetermineBody(a.body, b.body, show);
  }

  // The texts a user or a model chose.
  function Texts(body: Body): seq<string> {
    match body
    case TurnStarted => []
    case ToolStart(callId, command) => [callId, command]
    case Request(_, _, callId, command, target) => [callId, command, target.name, target.host, target.user]
    case Resolution(_, callId, _) => [callId]
    case Delta(delta) => [delta]
    case Replace(text) => [text]
    case Done(_) => []
    case Failure(_, _, _, message) => [message]
  }

  predicate CleanTexts(body: Body) {
    forall i :: 0 <= i < |Texts(body)| ==> !Separated(Texts(body)[i])
  }

  // ---------------------------------------------------------------- what the frames look like

  predicate Bounded(members: Members, separated: bool, weight: nat) {
    (AnySeparator(members) <==> separated) && WeightOf(members) <= weight
  }

  lemma EndBounded()
    ensures Bounded(End, false, 0)
  {
  }

  lemma TextMember(key: string, text: string, most: nat, rest: Members, inRest: bool, weight: nat)
    requires !Separated(key) && |text| <= most && Bounded(rest, inRest, weight)
    ensures Bounded(More(key, Text(text), rest), Separated(text) || inRest, 6 * |key| + 6 * most + 6 + weight)
  {
  }

  lemma NumberMember(key: string, n: nat, digits: nat, rest: Members, inRest: bool, weight: nat)
    requires !Separated(key) && |EF.Decimal(n)| <= digits && Bounded(rest, inRest, weight)
    ensures Bounded(More(key, Number(n), rest), inRest, 6 * |key| + digits + 4 + weight)
  {
  }

  lemma ObjectMember(key: string, inner: Members, inInner: bool, most: nat, rest: Members, inRest: bool, weight: nat)
    requires !Separated(key) && Bounded(inner, inInner, most) && Bounded(rest, inRest, weight)
    ensures Bounded(More(key, Object(inner), rest), inInner || inRest, 6 * |key| + most + 6 + weight)
  {
  }

  function Pow10(k: nat): nat {
    if k == 0 then 1 else 10 * Pow10(k - 1)
  }

  lemma {:induction false} DecimalLength(n: nat, k: nat)
    requires k > 0 && n < Pow10(k)
    ensures |EF.Decimal(n)| <= k
  {
    if n >= 10 {
      assert k > 1;
      DecimalLength(n / 10, k - 1);
    }
  }

  lemma UuidPlain(show: nat -> string, id: nat)
    requires ShowsUuids(show)
    ensures !Separated(show(id)) && |show(id)| == 36
  {
    assert IsUuid(show(id));
  }

  lemma BaseNames()
    ensures !Separated("schema_version") && !Separated("request_id") && !Separated("sequence")
    ensures !Separated("conversation_id") && !Separated("agent_run_id") && !Separated("type")
  {
  }

  lemma ToolNames()
    ensures !Separated("tool_call_id") && !Separated("tool_name") && !Separated("execute_command")
    ensures !Separated("arguments") && !Separated("command") && !Separated("approval_id")
  {
  }

  lemma RequestNames()
    ensures !Separated("ssh_session_id") && !Separated("target") && !Separated("reason")
    ensures !Separated("POSSIBLE_MUTATION_OR_UNKNOWN") && !Separated("display_name") && !Separated("host")
  {
  }

  lemma StatusNames()
    ensures !Separated("port") && !Separated("username") && !Separated("status") && !Separated("react_iteration")
    ensures !Separated("RUNNING") && !Separated("COMPLETED") && !Separated("FAILED") && !Separated("LIMIT_REACHED")
  {
  }

  lemma OutcomeNames()
    ensures !Separated("CANCELLED") && !Separated("APPROVED") && !Separated("REJECTED") && !Separated("user_approved")
    ensures !Separated("user_rejected") && !Separated("error_code") && !Separated("message")
    ensures !Separated("delta") && !Separated("text")
  {
  }

  lemma ArgumentsBounded(command: string)
    requires |command| <= 4096
    ensures Bounded(More("command", Text(command), End), Separated(command), 24624)
  {
    ToolNames();
    EndBounded();
    TextMember("command", command, 4096, End, false, 0);
  }

  lemma TargetBounded(target: AP.Target)
    requires ValidTarget(target)
    ensures Bounded(TargetJson(target).members,
                    Separated(target.name) || Separated(target.host) || Separated(target.user), 3000)
  {
    RequestNames();
    StatusNames();
    EndBounded();
    DecimalLength(target.port, 5);
    var user := More("username", Text(target.user), End);
    TextMember("username", target.user, 128, End, false, 0);
    var port := More("port", Number(target.port), user);
    NumberMember("port", target.port, 5, user, Separated(target.user), 822);
    var host := More("host", Text(target.host), port);
    TextMember("host", target.host, 255, port, Separated(target.user), 855);
    TextMember("display_name", target.name, 80, host, Separated(target.host) || Separated(target.user), 2415);
  }

  // Room for the fields of one event, printed.
  function BodyWeight(body: Body): nat {
    match body
    case Delta(delta) => 100 + 6 * |delta|
    case Replace(text) => 100 + 6 * |text|
    case _ => 40000
  }

  lemma ToolStartBounded(body: Body, show: nat -> string)
    requires body.ToolStart? && ValidBody(body)
    ensures Bounded(BodyMembers(body, show), Separated(body.callId) || Separated(body.command), 40000)
  {
    ToolNames();
    EndBounded();
    ArgumentsBounded(body.command);
    var last := More("arguments", Arguments(body.command), End);
    ObjectMember("arguments", More("command", Text(body.command), End), Separated(body.command), 24624, End, false, 0);
    var name := More("tool_name", Text("execute_command"), last);
    TextMember("tool_name", "execute_command", 15, last, Separated(body.command), 24684);
    TextMember("tool_call_id", body.callId, 1024, name, Separated(body.command), 24834);
  }

  lemma RequestBounded(body: Body, show: nat -> string)
    requires ShowsUuids(show) && body.Request? && ValidBody(body)
    ensures Bounded(BodyMembers(body, show),
                    Separated(body.callId) || Separated(body.command) || Separated(body.target.name)
                    || Separated(body.target.host) || Separated(body.target.user), 40000)
  {
    ToolNames();
    RequestNames();
    EndBounded();
    UuidPlain(show, body.approval);
    UuidPlain(show, body.session);
    TargetBounded(body.target);
    ArgumentsBounded(body.command);
    var t := Separated(body.target.name) || Separated(body.target.host) || Separated(body.target.user);
    var reason := More("reason", Text("POSSIBLE_MUTATION_OR_UNKNOWN"), End);
    TextMember("reason", "POSSIBLE_MUTATION_OR_UNKNOWN", 28, End, false, 0);
    var target := More("target", TargetJson(body.target), reason);
    ObjectMember("target", TargetJson(body.target).members, t, 3000, reason, false, 210);
    var args := More("arguments", Arguments(body.command), target);
    ObjectMember("arguments", More("command", Text(body.command), End), Separated(body.command), 24624, target, t, 3252);
    var name := More("tool_name", Text("execute_command"), args);
    TextMember("tool_name", "execute_command", 15, args, Separated(body.command) || t, 27936);
    var call := More("tool_call_id", Text(body.callId), name);
    TextMember("tool_call_id", body.callId, 1024, name, Separated(body.command) || t, 28086);
    var rest := Separated(body.callId) || Separated(body.command) || t;
    var session := More("ssh_session_id", Text(show(body.session)), call);
    TextMember("ssh_session_id", show(body.session), 36, call, rest, 34308);
    TextMember("approval_id", show(body.approval), 36, session, rest, 34614);
  }

  lemma ResolutionBounded(body: Body, show: nat -> string)
    requires ShowsUuids(show) && body.Resolution? && ValidBody(body)
    ensures Bounded(BodyMembers(body, show), Separated(body.callId), 40000)
  {
    ToolNames();
    RequestNames();
    StatusNames();
    OutcomeNames();
    EndBounded();
    UuidPlain(show, body.approval);
    var reason := More("reason", Text(ReasonText(body.approved)), End);
    TextMember("reason", ReasonText(body.approved), 13, End, false, 0);
    var status := More("status", Text(StatusText(body.approved)), reason);
    TextMember("status", StatusText(body.approved), 8, reason, false, 120);
    var call := More("tool_call_id", Text(body.callId), status);
    TextMember("tool_call_id", body.callId, 1024, status, false, 210);
    TextMember("approval_id", show(body.approval), 36, call, Separated(body.callId), 6432);
  }

  lemma TextBounded(body: Body, show: nat -> string)
    requires body.Delta? || body.Replace?
    ensures Bounded(BodyMembers(body, show), Separated(if body.Delta? then body.delta else body.text), BodyWeight(body))
  {
    OutcomeNames();
    EndBounded();
    if body.Delta? {
      TextMember("delta", body.delta, |body.delta|, End, false, 0);
    } else {
      TextMember("text", body.text, |body.text|, End, false, 0);
    }
  }

  lemma StartBounded(body: Body, show: nat -> string)
    requires (body.TurnStarted? || body.Done?) && ValidBody(body)
    ensures Bounded(BodyMembers(body, show), false, 40000)
  {
    StatusNames();
    OutcomeNames();
    EndBounded();
    DecimalLength(0, 3);
    if body.TurnStarted? {
      NumberMember("react_iteration", 0, 3, End, false, 0);
      TextMember("status", "RUNNING", 7, More("react_iteration", Number(0), End), false, 97);
    } else {
      DecimalLength(body.iteration, 3);
      var code := More("error_code", Null, End);
      assert Bounded(code, false, 68);
      var iteration := More("react_iteration", Number(body.iteration), code);
      NumberMember("react_iteration", body.iteration, 3, code, false, 68);
      TextMember("status", "COMPLETED", 9, iteration, false, 165);
    }
  }

  lemma CodePlain(code: string)
    requires ValidCode(code)
    ensures !Separated(code)
  {
  }

  lemma FailureBounded(body: Body, show: nat -> string)
    requires body.Failure? && ValidBody(body)
    ensures Bounded(BodyMembers(body, show), Separated(body.message), 40000)
  {
    StatusNames();
    OutcomeNames();
    EndBounded();
    CodePlain(body.code);
    DecimalLength(body.iteration, 3);
    var message := More("message", Text(body.message), End);
    TextMember("message", body.message, 256, End, false, 0);
    var code := More("error_code", Text(body.code), message);
    TextMember("error_code", body.code, 128, message, Separated(body.message), 1584);
    var iteration := More("react_iteration", Number(body.iteration), code);
    NumberMember("react_iteration", body.iteration, 3, code, Separated(body.message), 2418);
    TextMember("status", body.kind, 13, iteration, Separated(body.message), 2515);
  }

  lemma BodyBounded(body: Body, show: nat -> string)
    requires ShowsUuids(show) && ValidBody(body)
    ensures Bounded(BodyMembers(body, show), !CleanTexts(body), BodyWeight(body))
  {
    hide Bounded, BodyMembers, ShowsUuids;
    match body
    case TurnStarted => StartBounded(body, show);
    case ToolStart(callId, command) =>
      ToolStartBounded(body, show);
      assert Texts(body)[0] == callId && Texts(body)[1] == command;
    case Request(_, _, callId, command, target) =>
      RequestBounded(body, show);
      assert Texts(body)[0] == callId && Texts(body)[1] == command && Texts(body)[2] == target.name;
      assert Texts(body)[3] == target.host && Texts(body)[4] == target.user;
    case Resolution(_, callId, _) =>
      ResolutionBounded(body, show);
      assert Texts(body)[0] == callId;
    case Delta(delta) =>
      TextBounded(body, show);
      assert Texts(body)[0] == delta;
    case Replace(text) =>
      TextBounded(body, show);
      assert Texts(body)[0] == text;
    case Done(_) => StartBounded(body, show);
    case Failure(_, _, _, message) =>
      FailureBounded(body, show);
      assert Texts(body)[0] == message;
  }

  predicate PlainName(text: string) {
    text != "" && |text| <= 29 && forall i :: 0 <= i < |text| ==> ' ' < text[i] < '\U{7F}'
  }

  lemma ToolTypes()
    ensures PlainName("agent.turn.started") && PlainName("agent.turn.tool_started")
  {
  }

  lemma ApprovalTypes()
    ensures PlainName("agent.turn.approval_requested") && PlainName("agent.turn.approval_resolved")
  {
  }

  lemma LateTypes()
    ensures PlainName("agent.turn.text_delta") && PlainName("agent.turn.text_replace")
    ensures PlainName("agent.turn.completed") && PlainName("agent.turn.failed")
  {
  }

  lemma TypeIsPlain(body: Body)
    ensures PlainName(TypeOf(body))
  {
    ToolTypes();
    ApprovalTypes();
    LateTypes();
    hide PlainName;
  }

  lemma TypePlain(body: Body)
    ensures EF.Token(TypeOf(body)) && |TypeOf(body)| <= 29 && !Separated(TypeOf(body)) && EF.Size(TypeOf(body)) <= 29
  {
    TypeIsPlain(body);
    hide TypeOf;
    AsciiFits(TypeOf(body));
  }

  lemma ObjectBounded(event: Event, show: nat -> string)
    requires ShowsUuids(show) && ValidBody(event.body) && event.sequence < Pow10(16)
    ensures HasSeparator(ToJson(event, show)) <==> !CleanTexts(event.body)
    ensures Weight(ToJson(event, show)) <= BodyWeight(event.body) + 1251
  {
    BodyBounded(event.body, show);
    var s, w := !CleanTexts(event.body), BodyWeight(event.body);
    hide CleanTexts, BodyMembers, ShowsUuids, Bounded;
    BaseNames();
    UuidPlain(show, event.request);
    UuidPlain(show, event.conversation);
    UuidPlain(show, event.run);
    TypePlain(event.body);
    DecimalLength(event.sequence, 16);
    DecimalLength(1, 1);
    var body := BodyMembers(event.body, show);
    var kind := More("type", Text(TypeOf(event.body)), body);
    TextMember("type", TypeOf(event.body), 29, body, s, w);
    var run := More("agent_run_id", Text(show(event.run)), kind);
    TextMember("agent_run_id", show(event.run), 36, kind, s, w + 204);
    var conversation := More("conversation_id", Text(show(event.conversation)), run);
    TextMember("conversation_id", show(event.conversation), 36, run, s, w + 498);
    var sequence := More("sequence", Number(event.sequence), conversation);
    NumberMember("sequence", event.sequence, 16, conversation, s, w + 810);
    var request := More("request_id", Text(show(event.request)), sequence);
    TextMember("request_id", show(event.request), 36, sequence, s, w + 878);
    var all := More("schema_version", Number(1), request);
    NumberMember("schema_version", 1, 1, request, s, w + 1160);
    assert ToJson(event, show) == Object(all);
    BoundedObject(all, s, w + 1249);
  }

  lemma BoundedObject(members: Members, separated: bool, weight: nat)
    requires Bounded(members, separated, weight)
    ensures (HasSeparator(Object(members)) <==> separated) && Weight(Object(members)) <= weight + 2
  {
  }

  lemma FrameSize(frame: EF.Frame)
    ensures EF.Size(EF.Encode(frame)) <= 21 + EF.Size(frame.event) + |EF.Decimal(frame.id)| + EF.Size(frame.data)
  {
    var name, id, data := frame.event, EF.Decimal(frame.id), frame.data;
    DecimalFits(frame.id);
    AsciiFits("event: ");
    AsciiFits("id: ");
    AsciiFits("data: ");
    EF.SizeAppend("event: ", name);
    EF.SizeAppend("id: ", id);
    EF.SizeAppend("data: ", data);
    hide EF.Decimal;
    LineFeeds();
    var a, b, c := "event: " + name, "id: " + id, "data: " + data;
    EF.SizeAppend(a, "\n");
    EF.SizeAppend(a + "\n", b);
    EF.SizeAppend(a + "\n" + b, "\n");
    EF.SizeAppend(a + "\n" + b + "\n", c);
    EF.SizeAppend(EF.Raw(frame), "\n\n");
  }

  lemma LineFeeds()
    ensures EF.Size("\n") == 1 && EF.Size("\n\n") == 2
  {
    assert "\n"[1..] == "" && "\n\n"[1..] == "\n";
  }

  // Every event the backend can build prints as one frame whose size is bounded by its
  // fields; it survives the client's line pattern exactly when none of its texts holds
  // U+2028 or U+2029.
  lemma EventFrame(event: Event, show: nat -> string)
    requires ShowsUuids(show) && ValidBody(event.body) && event.sequence < Pow10(16)
    ensures EF.WellFormed(FrameOf(event, show))
    ensures EF.Passes(FrameOf(event, show)) <==> CleanTexts(event.body)
    ensures EventSize(event, show) <= BodyWeight(event.body) + 2000
  {
    ObjectBounded(event, show);
    PrintFits(ToJson(event, show));
    TypePlain(event.body);
    DecimalLength(event.sequence, 16);
    FrameSize(FrameOf(event, show));
    PrintsObject(ToJson(event, show));
    hide ToJson, Print, CleanTexts, TypeOf, EF.Size, EF.Decimal, ShowsUuids, BodyWeight;
  }

  // The pieces of at most 4096 characters that the gateway publishes always fit a frame,
  // and so does every event that carries no model text.
  lemma FrameFits(event: Event, show: nat -> string)
    requires ShowsUuids(show) && ValidBody(event.body) && event.sequence < Pow10(16)
    requires (event.body.Delta? ==> |event.body.delta| <= 4096) && (event.body.Replace? ==> |event.body.text| <= 4096)
    ensures EventSize(event, show) <= EF.FRAME_LIMIT
  {
    EventFrame(event, show);
    hide EventSize, ShowsUuids, ValidBody;
  }

  lemma PrintsObject(j: Json)
    requires j.Object?
    ensures Print(j) != ""
  {
  }
}
