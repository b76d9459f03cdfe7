/**
 The client's validator of one frame: it parses the data, demands exactly the members its
 event type has, and checks every type and fixed text. Written from the client's side, so
 that reading back what the backend prints relates the two.
 */
module StreamReader {
  import opened Wrappers
  import EF = EventFrames
  import AP = Approvals
  import opened CompactJson
  import opened StreamEvents

  const SAFE_INTEGER := 9007199254740991

  type Object = map<string, Json>

  // Of two members with one name the later counts.
  function ToMap(members: Members): Object {
    match members
    case End => map[]
    case More(key, value, rest) => map[key := value] + ToMap(rest)
  }

  const BASE_KEYS := {"agent_run_id", "conversation_id", "request_id", "schema_version", "sequence", "type"}

  predicate TextAt(o: Object, key: string) {
    key in o && o[key].Text?
  }

  predicate UuidAt(o: Object, key: string) {
    TextAt(o, key) && IsUuid(o[key].s)
  }

  predicate CountAt(o: Object, key: string) {
    key in o && o[key].Number? && o[key].n <= SAFE_INTEGER
  }

  predicate Says(o: Object, key: string, text: string) {
    key in o && o[key] == Text(text)
  }

  // What every event has; `header` is the request identifier of the response.
  predicate BaseValid(frame: EF.Parsed, o: Object, header: string) {
    && "schema_version" in o && o["schema_version"] == Number(1)
    && UuidAt(o, "request_id") && o["request_id"].s == header
    && CountAt(o, "sequence") && frame.id == EF.Decimal(o["sequence"].n)
    && UuidAt(o, "conversation_id") && UuidAt(o, "agent_run_id")
    && Says(o, "type", frame.event)
  }

  function ReadCommand(o: Object): Option<string> {
    if "arguments" in o && o["arguments"].Object? then
      var arguments := ToMap(o["arguments"].members);
      if arguments.Keys == {"command"} && TextAt(arguments, "command") then Some(arguments["command"].s) else None
    else None
  }

  function ReadTarget(o: Object): Option<AP.Target> {
    if "target" in o && o["target"].Object? then
      var target := ToMap(o["target"].members);
      if target.Keys == {"display_name", "host", "port", "username"} && TextAt(target, "display_name")
         && TextAt(target, "host") && CountAt(target, "port") && TextAt(target, "username")
      then Some(AP.Target(target["display_name"].s, target["host"].s, target["port"].n, target["username"].s))
      else None
    else None
  }

  function ReadStarted(o: Object): Option<Body> {
    if o.Keys == BASE_KEYS + {"status", "react_iteration"} && Says(o, "status", "RUNNING")
       && o["react_iteration"] == Number(0)
    then Some(TurnStarted) else None
  }

  function ReadToolStart(o: Object): Option<Body> {
    if o.Keys == BASE_KEYS + {"tool_call_id", "tool_name", "arguments"} && TextAt(o, "tool_call_id")
       && Says(o, "tool_name", "execute_command") && ReadCommand(o).Some?
    then Some(ToolStart(o["tool_call_id"].s, ReadCommand(o).value)) else None
  }

  // `ids` numbers the identifiers the client meets.
  function ReadRequest(o: Object, ids: string -> nat): Option<Body> {
    if o.Keys == BASE_KEYS + {"approval_id", "ssh_session_id", "tool_call_id", "tool_name", "arguments", "target", "reason"}
       && UuidAt(o, "approval_id") && UuidAt(o, "ssh_session_id") && Says(o, "reason", "POSSIBLE_MUTATION_OR_UNKNOWN")
       && ReadTarget(o).Some? && TextAt(o, "tool_call_id") && Says(o, "tool_name", "execute_command")
       && ReadCommand(o).Some?
    then
      Some(Request(ids(o["approval_id"].s), ids(o["ssh_session_id"].s), o["tool_call_id"].s, ReadCommand(o).value,
                   ReadTarget(o).value))
    else None
  }

  predicate Outcome(o: Object) {
    || (Says(o, "status", "APPROVED") && Says(o, "reason", "user_approved"))
    || (Says(o, "status", "REJECTED") && Says(o, "reason", "user_rejected"))
    || (Says(o, "status", "INVALIDATED")
        && (Says(o, "reason", "session_unavailable") || Says(o, "reason", "run_cancelled")))
  }

  function ReadResolution(o: Object, ids: string -> nat): Option<Body> {
    if o.Keys == BASE_KEYS + {"approval_id", "tool_call_id", "status", "reason"} && UuidAt(o, "approval_id")
       && TextAt(o, "tool_call_id") && Outcome(o)
    then Some(Resolution(ids(o["approval_id"].s), o["tool_call_id"].s, Says(o, "status", "APPROVED"))) else None
  }

  function ReadDelta(o: Object): Option<Body> {
    if o.Keys == BASE_KEYS + {"delta"} && TextAt(o, "delta") then Some(Delta(o["delta"].s)) else None
  }

  function ReadReplace(o: Object): Option<Body> {
    if o.Keys == BASE_KEYS + {"text"} && TextAt(o, "text") then Some(Replace(o["text"].s)) else None
  }

  function ReadDone(o: Object): Option<Body> {
    if o.Keys == BASE_KEYS + {"status", "react_iteration", "error_code"} && Says(o, "status", "COMPLETED")
       && CountAt(o, "react_iteration") && o["error_code"] == Null
    then Some(Done(o["react_iteration"].n)) else None
  }

  function ReadFailure(o: Object): Option<Body> {
    if o.Keys == BASE_KEYS + {"status", "react_iteration", "error_code", "message"}
       && (Says(o, "status", "FAILED") || Says(o, "status", "LIMIT_REACHED") || Says(o, "status", "CANCELLED"))
       && CountAt(o, "react_iteration") && TextAt(o, "error_code") && TextAt(o, "message")
    then Some(Failure(o["status"].s, o["react_iteration"].n, o["error_code"].s, o["message"].s)) else None
  }

  function ReadBody(name: string, o: Object, ids: string -> nat): Option<Body> {
    if name == "agent.turn.started" then ReadStarted(o)
    else if name == "agent.turn.tool_started" then ReadToolStart(o)
    else if name == "agent.turn.approval_requested" then ReadRequest(o, ids)
    else if name == "agent.turn.approval_resolved" then ReadResolution(o, ids)
    else if name == "agent.turn.text_delta" then ReadDelta(o)
    else if name == "agent.turn.text_replace" then ReadReplace(o)
    else if name == "agent.turn.completed" then ReadDone(o)
    else if name == "agent.turn.failed" then ReadFailure(o)
    else None
  }

  // One frame; the limits on lengths and numbers are checked when the event is received.
  function ReadEvent(frame: EF.Parsed, header: string, ids: string -> nat): Option<Event> {
    match Read(frame.data)
    case Some((Object(members), "")) => (
      var o := ToMap(members);
      if !BaseValid(frame, o, header) then None
      else
        match ReadBody(frame.event, o, ids)
        case None => None
        case Some(body) =>
          Some(Event(ids(o["request_id"].s), o["sequence"].n, ids(o["conversation_id"].s), ids(o["agent_run_id"].s), body)))
    case _ => None
  }

  // ---------------------------------------------------------------- names are told apart

  // Enough of a member's name to tell it from all others.
  function KeyCode(s: string): int {
    if |s| < 2 then 0 else 65536 * |s| + 256 * (s[0] as int) + s[1] as int
  }

  function NameCode(s: string): int {
    if |s| < 13 then 0 else 256 * |s| + s[12] as int
  }

  predicate BaseCodes() {
    && KeyCode("schema_version") == 65536 * 14 + 256 * 115 + 99 && KeyCode("request_id") == 65536 * 10 + 256 * 114 + 101
    && KeyCode("sequence") == 65536 * 8 + 256 * 115 + 101 && KeyCode("conversation_id") == 65536 * 15 + 256 * 99 + 111
    && KeyCode("agent_run_id") == 65536 * 12 + 256 * 97 + 103 && KeyCode("type") == 65536 * 4 + 256 * 116 + 121
  }

  predicate BodyCodes() {
    && KeyCode("status") == 65536 * 6 + 256 * 115 + 116 && KeyCode("react_iteration") == 65536 * 15 + 256 * 114 + 101
    && KeyCode("error_code") == 65536 * 10 + 256 * 101 + 114 && KeyCode("message") == 65536 * 7 + 256 * 109 + 101
    && KeyCode("tool_call_id") == 65536 * 12 + 256 * 116 + 111 && KeyCode("tool_name") == 65536 * 9 + 256 * 116 + 111
    && KeyCode("arguments") == 65536 * 9 + 256 * 97 + 114 && KeyCode("approval_id") == 65536 * 11 + 256 * 97 + 112
    && KeyCode("ssh_session_id") == 65536 * 14 + 256 * 115 + 115 && KeyCode("target") == 65536 * 6 + 256 * 116 + 97
    && KeyCode("reason") == 65536 * 6 + 256 * 114 + 101 && KeyCode("delta") == 65536 * 5 + 256 * 100 + 101
    && KeyCode("text") == 65536 * 4 + 256 * 116 + 101
  }

  predicate TargetCodes() {
    && KeyCode("display_name") == 65536 * 12 + 256 * 100 + 105 && KeyCode("host") == 65536 * 4 + 256 * 104 + 111
    && KeyCode("port") == 65536 * 4 + 256 * 112 + 111 && KeyCode("username") == 65536 * 8 + 256 * 117 + 115
  }

  lemma BaseKeyCodes()
    ensures BaseCodes()
  {
  }

  lemma BodyKeyCodes()
    ensures BodyCodes()
  {
  }

  lemma TargetKeyCodes()
    ensures TargetCodes()
  {
  }

  predicate NameCodes() {
    && NameCode("agent.turn.started") == 256 * 18 + 116 && NameCode("agent.turn.tool_started") == 256 * 23 + 111
    && NameCode("agent.turn.approval_requested") == 256 * 29 + 112 && NameCode("agent.turn.approval_resolved") == 256 * 28 + 112
    && NameCode("agent.turn.text_delta") == 256 * 21 + 101 && NameCode("agent.turn.text_replace") == 256 * 23 + 101
    && NameCode("agent.turn.completed") == 256 * 20 + 111 && NameCode("agent.turn.failed") == 256 * 17 + 97
  }

  lemma EventNameCodes()
    ensures NameCodes()
  {
  }

  // ---------------------------------------------------------------- reading back what was printed

  lemma AddMember(key: string, value: Json, rest: Members)
    ensures var o, before := ToMap(More(key, value, rest)), ToMap(rest);
            && o.Keys == {key} + before.Keys
            && (key !in before ==> o[key] == value)
            && forall k :: k in before ==> o[k] == before[k]
  {
  }

  // Three members in front of others.
  lemma AddThree(a: string, x: Json, b: string, y: Json, d: string, z: Json, rest: Members)
    requires a != b && a != d && b != d
    requires a !in ToMap(rest) && b !in ToMap(rest) && d !in ToMap(rest)
    ensures var o, before := ToMap(More(a, x, More(b, y, More(d, z, rest)))), ToMap(rest);
            && o.Keys == {a, b, d} + before.Keys
            && o[a] == x && o[b] == y && o[d] == z
            && forall k :: k in before ==> o[k] == before[k]
  {
    AddMember(d, z, rest);
    AddMember(b, y, More(d, z, rest));
    AddMember(a, x, More(b, y, More(d, z, rest)));
  }

  // The members every event has, in front of those of its body.
  lemma BaseRead(event: Event, show: nat -> string, rest: Members)
    requires ToMap(rest).Keys !! BASE_KEYS
    ensures var o := ToMap(Object(
              More("schema_version", Number(1), More("request_id", Text(show(event.request)),
              More("sequence", Number(event.sequence), More("conversation_id", Text(show(event.conversation)),
              More("agent_run_id", Text(show(event.run)), More("type", Text(TypeOf(event.body)), rest))))))).members);
            && o.Keys == BASE_KEYS + ToMap(rest).Keys
            && o["schema_version"] == Number(1) && o["request_id"] == Text(show(event.request))
            && o["sequence"] == Number(event.sequence) && o["conversation_id"] == Text(show(event.conversation))
            && o["agent_run_id"] == Text(show(event.run)) && o["type"] == Text(TypeOf(event.body))
            && forall k :: k in ToMap(rest) ==> o[k] == ToMap(rest)[k]
  {
    BaseKeyCodes();
    hide KeyCode, TypeOf, ToMap;
    var second := More("conversation_id", Text(show(event.conversation)),
                  More("agent_run_id", Text(show(event.run)), More("type", Text(TypeOf(event.body)), rest)));
    AddThree("conversation_id", Text(show(event.conversation)), "agent_run_id", Text(show(event.run)),
             "type", Text(TypeOf(event.body)), rest);
    AddThree("schema_version", Number(1), "request_id", Text(show(event.request)), "sequence", Number(event.sequence), second);
  }

  // An object whose members are those every event has and those of a body.
  predicate Over(o: Object, body: Object) {
    o.Keys == BASE_KEYS + body.Keys && forall k :: k in body ==> o[k] == body[k]
  }

  function BodyMap(body: Body, show: nat -> string): Object {
    ToMap(BodyMembers(body, show))
  }

  lemma StartedBack(o: Object, body: Body, show: nat -> string)
    requires body.TurnStarted?
    ensures BodyMap(body, show).Keys !! BASE_KEYS
    ensures Over(o, BodyMap(body, show)) ==> ReadStarted(o) == Some(body)
  {
    BaseKeyCodes();
    BodyKeyCodes();
    hide KeyCode;
    AddMember("react_iteration", Number(0), End);
    AddMember("status", Text("RUNNING"), More("react_iteration", Number(0), End));
  }

  lemma CommandBack(o: Object, command: string)
    requires "arguments" in o && o["arguments"] == Arguments(command)
    ensures ReadCommand(o) == Some(command)
  {
    AddMember("command", Text(command), End);
  }

  lemma TargetBack(o: Object, target: AP.Target)
    requires "target" in o && o["target"] == TargetJson(target) && target.port <= 65535
    ensures ReadTarget(o) == Some(target)
  {
    TargetKeyCodes();
    hide KeyCode;
    AddMember("username", Text(target.user), End);
    AddThree("display_name", Text(target.name), "host", Text(target.host), "port", Number(target.port),
             More("username", Text(target.user), End));
  }

  lemma ToolStartBack(o: Object, body: Body, show: nat -> string)
    requires body.ToolStart?
    ensures BodyMap(body, show).Keys !! BASE_KEYS
    ensures Over(o, BodyMap(body, show)) ==> ReadToolStart(o) == Some(body)
  {
    BaseKeyCodes();
    BodyKeyCodes();
    hide KeyCode, ReadCommand;
    AddThree("tool_call_id", Text(body.callId), "tool_name", Text("execute_command"), "arguments", Arguments(body.command), End);
    if Over(o, BodyMap(body, show)) {
      CommandBack(o, body.command);
    }
  }

  // What the numbering of identifiers must do: undo their printing.
  ghost predicate Undoes(ids: string -> nat, show: nat -> string) {
    forall id :: ids(show(id)) == id
  }

  lemma RequestMembers(body: Body, show: nat -> string)
    requires body.Request?
    ensures var m := BodyMap(body, show);
            && m.Keys == {"approval_id", "ssh_session_id", "tool_call_id", "tool_name", "arguments", "target", "reason"}
            && m["approval_id"] == Text(show(body.approval)) && m["ssh_session_id"] == Text(show(body.session))
            && m["tool_call_id"] == Text(body.callId) && m["tool_name"] == Text("execute_command")
            && m["arguments"] == Arguments(body.command) && m["target"] == TargetJson(body.target)
            && m["reason"] == Text("POSSIBLE_MUTATION_OR_UNKNOWN")
            && m.Keys !! BASE_KEYS
  {
    BaseKeyCodes();
    BodyKeyCodes();
    hide KeyCode, ToMap, Arguments, TargetJson;
    var reason := More("reason", Text("POSSIBLE_MUTATION_OR_UNKNOWN"), End);
    var tool := More("tool_name", Text("execute_command"),
                More("arguments", Arguments(body.command), More("target", TargetJson(body.target), reason)));
    NoMembers();
    AddMember("reason", Text("POSSIBLE_MUTATION_OR_UNKNOWN"), End);
    AddThree("tool_name", Text("execute_command"), "arguments", Arguments(body.command), "target", TargetJson(body.target), reason);
    AddThree("approval_id", Text(show(body.approval)), "ssh_session_id", Text(show(body.session)),
             "tool_call_id", Text(body.callId), tool);
  }

  lemma NoMembers()
    ensures ToMap(End) == map[]
  {
  }

  lemma RequestBack(o: Object, body: Body, show: nat -> string, ids: string -> nat)
    requires body.Request? && ShowsUuids(show) && Undoes(ids, show) && body.target.port <= 65535
    ensures BodyMap(body, show).Keys !! BASE_KEYS
    ensures Over(o, BodyMap(body, show)) ==> ReadRequest(o, ids) == Some(body)
  {
    RequestMembers(body, show);
    assert IsUuid(show(body.approval)) && IsUuid(show(body.session));
    assert ids(show(body.approval)) == body.approval && ids(show(body.session)) == body.session;
    hide ReadCommand, ReadTarget, BodyMap, IsUuid, ShowsUuids, Undoes;
    if Over(o, BodyMap(body, show)) {
      CommandBack(o, body.command);
      TargetBack(o, body.target);
    }
  }

  lemma ResolutionBack(o: Object, body: Body, show: nat -> string, ids: string -> nat)
    requires body.Resolution? && ShowsUuids(show) && Undoes(ids, show)
    ensures BodyMap(body, show).Keys !! BASE_KEYS
    ensures Over(o, BodyMap(body, show)) ==> ReadResolution(o, ids) == Some(body)
  {
    BaseKeyCodes();
    BodyKeyCodes();
    hide KeyCode;
    var last := More("reason", Text(ReasonText(body.approved)), End);
    AddMember("reason", Text(ReasonText(body.approved)), End);
    AddThree("approval_id", Text(show(body.approval)), "tool_call_id", Text(body.callId),
             "status", Text(StatusText(body.approved)), last);
    assert IsUuid(show(body.approval)) && ids(show(body.approval)) == body.approval;
    assert "APPROVED"[0] != "REJECTED"[0];
    hide IsUuid, ShowsUuids, Undoes, ToMap;
  }

  lemma DeltaBack(o: Object, body: Body, show: nat -> string)
    requires body.Delta? || body.Replace?
    ensures BodyMap(body, show).Keys !! BASE_KEYS
    ensures Over(o, BodyMap(body, show)) ==> (if body.Delta? then ReadDelta(o) else ReadReplace(o)) == Some(body)
  {
    BaseKeyCodes();
    BodyKeyCodes();
    hide KeyCode;
    if body.Delta? {
      AddMember("delta", Text(body.delta), End);
    } else {
      AddMember("text", Text(body.text), End);
    }
  }

  lemma DoneBack(o: Object, body: Body, show: nat -> string)
    requires body.Done? && body.iteration <= 128
    ensures BodyMap(body, show).Keys !! BASE_KEYS
    ensures Over(o, BodyMap(body, show)) ==> ReadDone(o) == Some(body)
  {
    BaseKeyCodes();
    BodyKeyCodes();
    hide KeyCode;
    AddThree("status", Text("COMPLETED"), "react_iteration", Number(body.iteration), "error_code", Null, End);
  }

  lemma FailureBack(o: Object, body: Body, show: nat -> string)
    requires body.Failure? && FailureKind(body.kind) && body.iteration <= 128
    ensures BodyMap(body, show).Keys !! BASE_KEYS
    ensures Over(o, BodyMap(body, show)) ==> ReadFailure(o) == Some(body)
  {
    BaseKeyCodes();
    BodyKeyCodes();
    hide KeyCode;
    var last := More("message", Text(body.message), End);
    AddMember("message", Text(body.message), End);
    AddThree("status", Text(body.kind), "react_iteration", Number(body.iteration), "error_code", Text(body.code), last);
  }

  lemma BodyBack(o: Object, body: Body, show: nat -> string, ids: string -> nat)
    requires ValidBody(body) && ShowsUuids(show) && Undoes(ids, show)
    ensures BodyMap(body, show).Keys !! BASE_KEYS
    ensures Over(o, BodyMap(body, show)) ==> ReadBody(TypeOf(body), o, ids) == Some(body)
  {
    EventNameCodes();
    hide NameCode, BodyMap, Over, ShowsUuids, Undoes, ValidCommand, ValidCode, FailureKind,
         ReadStarted, ReadToolStart, ReadRequest, ReadResolution, ReadDelta, ReadReplace, ReadDone, ReadFailure;
    match body
    case TurnStarted => StartedBack(o, body, show);
    case ToolStart(_, _) => ToolStartBack(o, body, show);
    case Request(_, _, _, _, _) => RequestBack(o, body, show, ids);
    case Resolution(_, _, _) => ResolutionBack(o, body, show, ids);
    case Delta(_) => DeltaBack(o, body, show);
    case Replace(_) => DeltaBack(o, body, show);
    case Done(_) => DoneBack(o, body, show);
    case Failure(_, _, _, _) => FailureBack(o, body, show);
  }

  // The members every event has, as read from its object.
  predicate Based(o: Object, event: Event, show: nat -> string) {
    && BASE_KEYS <= o.Keys
    && o["schema_version"] == Number(1) && o["request_id"] == Text(show(event.request))
    && o["sequence"] == Number(event.sequence) && o["conversation_id"] == Text(show(event.conversation))
    && o["agent_run_id"] == Text(show(event.run)) && o["type"] == Text(TypeOf(event.body))
  }

  function MembersOf(event: Event, show: nat -> string): Object {
    ToMap(ToJson(event, show).members)
  }

  lemma EventBased(event: Event, show: nat -> string)
    requires BodyMap(event.body, show).Keys !! BASE_KEYS
    ensures Based(MembersOf(event, show), event, show) && Over(MembersOf(event, show), BodyMap(event.body, show))
  {
    BaseRead(event, show, BodyMembers(event.body, show));
    hide TypeOf, BodyMembers, ToMap;
  }

  lemma BaseBack(frame: EF.Parsed, o: Object, event: Event, show: nat -> string)
    requires Based(o, event, show) && event.sequence <= SAFE_INTEGER && ShowsUuids(show)
    requires frame.event == TypeOf(event.body) && frame.id == EF.Decimal(event.sequence)
    ensures BaseValid(frame, o, show(event.request))
  {
    assert IsUuid(show(event.request)) && IsUuid(show(event.conversation)) && IsUuid(show(event.run));
    hide IsUuid, ShowsUuids, TypeOf, EF.Decimal;
  }

  // The client reads every event the backend prints as exactly that event.
  lemma ReadsBack(event: Event, show: nat -> string, header: string, ids: string -> nat)
    requires ValidBody(event.body) && event.sequence <= SAFE_INTEGER
    requires ShowsUuids(show) && Undoes(ids, show) && header == show(event.request)
    ensures ReadEvent(EF.Result(FrameOf(event, show)), header, ids) == Some(event)
  {
    hide ValidBody, ShowsUuids, Print, Read, ReadBody, ToMap, TypeOf, BodyMembers, EF.Decimal, Over, BodyMap, BaseValid;
    PrintRoundTrip(ToJson(event, show));
    var o := MembersOf(event, show);
    BodyBack(o, event.body, show, ids);
    EventBased(event, show);
    BaseBack(EF.Result(FrameOf(event, show)), o, event, show);
    assert ids(show(event.request)) == event.request && ids(show(event.conversation)) == event.conversation
           && ids(show(event.run)) == event.run;
    hide Undoes;
  }
}
