/** The agent loop: what each model turn asks for, and the message lists the requests carry. */
module AgentConversation {
  import opened Common
  import Fence = AgentFence

  type Space = Fence.Space

  datatype Role = System | User | Assistant | Tool

  datatype Argument = Text(text: string) | Other

  datatype Arguments = Object(fields: map<string, Argument>) | NotObject

  datatype ToolCall = ToolCall(id: string, name: string, arguments: Arguments)

  datatype Message = Message(role: Role, content: string, calls: seq<ToolCall>, answers: Option<string>)

  datatype Turn = Turn(text: string, calls: seq<ToolCall>, finish: Option<string>)

  datatype ExecuteCall = ExecuteCall(id: string, code: string)

  datatype Action = Final | Execute(calls: seq<ExecuteCall>)

  datatype Fault = Protocol(message: string) | Interrupted | Sandbox | TurnBudget

  function UserMessage(content: string): Message {
    Message(User, content, [], None)
  }

  function ToolResult(id: string, content: string): Message {
    Message(Tool, content, [], Some(id))
  }

  function ToMessage(turn: Turn): Message {
    Message(Assistant, turn.text, turn.calls, None)
  }

  const MAX_CALLS := 16

  // ---- What a turn asks for ----------------------------------------------------------------------------

  predicate Complete(turn: Turn) {
    && turn.finish != Some("length")
    && turn.finish != Some("content_filter")
    && !(turn.text == [] && turn.calls == [] && turn.finish == None)
  }

  predicate Blank(space: Space, s: string) {
    Fence.Trim(space, s) == []
  }

  /** A call of the one tool, with an id and nothing but non-blank code. */
  predicate GoodCall(space: Space, c: ToolCall) {
    && !Fence.AllSpace(space, c.id)
    && c.name == "execute"
    && c.arguments.Object?
    && c.arguments.fields.Keys == {"code"}
    && c.arguments.fields["code"].Text?
    && !Fence.AllSpace(space, c.arguments.fields["code"].text)
  }

  predicate DistinctIds(calls: seq<ToolCall>) {
    forall i, j :: 0 <= i < j < |calls| ==> calls[i].id != calls[j].id
  }

  predicate GoodCalls(space: Space, calls: seq<ToolCall>) {
    DistinctIds(calls) && forall i :: 0 <= i < |calls| ==> GoodCall(space, calls[i])
  }

  function CodeOf(c: ToolCall): string {
    if c.arguments.Object? && "code" in c.arguments.fields && c.arguments.fields["code"].Text?
    then c.arguments.fields["code"].text else ""
  }

  function ExecuteCalls(calls: seq<ToolCall>): seq<ExecuteCall> {
    seq(|calls|, i requires 0 <= i < |calls| => ExecuteCall(calls[i].id, CodeOf(calls[i])))
  }

  /** The action of a native-tool turn; `None` is a protocol error. */
  function NativeAction(space: Space, turn: Turn): Option<Action> {
    if !Complete(turn) || |turn.calls| > MAX_CALLS then None
    else if turn.calls == [] then if turn.finish == Some("tool_calls") then None else Some(Final)
    else if GoodCalls(space, turn.calls) then Some(Execute(ExecuteCalls(turn.calls)))
    else None
  }

  /** The model was cut off. */
  predicate CutOff(finish: Option<string>) {
    finish == Some("length") || finish == Some("content_filter")
  }

  predicate Executes(call: ExecuteCall, c: ToolCall) {
    && call.id == c.id && c.arguments.Object? && "code" in c.arguments.fields
    && c.arguments.fields["code"] == Text(call.code)
  }

  /** When a turn is final, and when and what it executes. */
  lemma {:induction false} NativeActionIff(space: Space, turn: Turn)
    ensures NativeAction(space, turn) == Some(Final) <==>
            && turn.calls == [] && !CutOff(turn.finish) && turn.finish != Some("tool_calls")
            && (turn.text != [] || turn.finish.Some?)
    ensures NativeAction(space, turn).Some? && NativeAction(space, turn).value.Execute? <==>
            && 0 < |turn.calls| <= 16 && !CutOff(turn.finish) && GoodCalls(space, turn.calls)
    ensures NativeAction(space, turn).Some? && NativeAction(space, turn).value.Execute? ==>
              var calls := NativeAction(space, turn).value.calls;
              && |calls| == |turn.calls|
              && forall i :: 0 <= i < |calls| ==> Executes(calls[i], turn.calls[i])
  {
  }

  method ValidateCall(space: Space, c: ToolCall) returns (r: Option<string>)
    requires !Fence.AllSpace(space, c.id)
    ensures r.Some? <==> GoodCall(space, c)
    ensures r.Some? ==> r.value == CodeOf(c)
  {
    if c.name != "execute" || !c.arguments.Object? {
      return None;
    }
    var fields := c.arguments.fields;
    if |fields| != 1 || "code" !in fields {
      assert |fields| != 1 ==> fields.Keys != {"code"} by {
        assert |fields| == |fields.Keys|;
      }
      return None;
    }
    assert fields.Keys == {"code"} by {
      assert |fields.Keys - {"code"}| == 0;
    }
    if !fields["code"].Text? {
      return None;
    }
    Fence.BlankIff(space, fields["code"].text);
    if Blank(space, fields["code"].text) {
      return None;
    }
    r := Some(fields["code"].text);
  }

  method ValidateNativeTurn(space: Space, turn: Turn) returns (r: Result<Action, Fault>)
    ensures match NativeAction(space, turn)
      case Some(action) => r == Ok(action)
      case None => r.Err? && r.error.Protocol?
  {
    if !Complete(turn) {
      return Err(Protocol("incomplete completion"));
    }
    if |turn.calls| > MAX_CALLS {
      return Err(Protocol("too many execute tool calls"));
    }
    if turn.calls == [] {
      return if turn.finish == Some("tool_calls") then Err(Protocol("no complete tool call")) else Ok(Final);
    }
    var ids: set<string> := {};
    var calls: seq<ExecuteCall> := [];
    for k := 0 to |turn.calls|
      invariant GoodCalls(space, turn.calls[..k])
      invariant ids == set i | 0 <= i < k :: turn.calls[i].id
      invariant calls == ExecuteCalls(turn.calls[..k])
    {
      var c := turn.calls[k];
      Fence.BlankIff(space, c.id);
      if Blank(space, c.id) {
        return Err(Protocol("missing call id"));
      }
      if c.id in ids {
        return Err(Protocol("duplicate tool call id"));
      }
      ids := ids + {c.id};
      var code := ValidateCall(space, c);
      if code == None {
        return Err(Protocol("invalid execute call"));
      }
      calls := calls + [ExecuteCall(c.id, code.value)];
      assert turn.calls[..k + 1] == turn.calls[..k] + [c];
    }
    assert turn.calls[..|turn.calls|] == turn.calls;
    r := Ok(Execute(calls));
  }

  // ---- The loop ----------------------------------------------------------------------------------------

  datatype Mode = NativeTool | FencedBlock

  datatype Config = Config(
    system: string, maxTurns: nat, mode: Mode, space: Space, shape: string -> string)

  /**
   * What the surroundings do in one turn: the drained inbox, the model's reply, the session's outputs
   * and whether the results get delivered. `None` and `false` are failures and cancellations.
   */
  datatype Script = Script(
    inbox: Option<seq<string>>, reply: Option<Turn>, outputs: Option<seq<string>>, delivered: bool)

  function FencedAction(space: Space, turn: Turn): Option<Action> {
    if !Complete(turn) || turn.calls != [] then None
    else match Fence.AnswerOf(space, Fence.Lines(turn.text))
      case Code(code) => Some(Execute([ExecuteCall("", code)]))
      case Nothing => Some(Final)
      case Refused => None
  }

  function ActionOf(cfg: Config, turn: Turn): Option<Action> {
    if cfg.mode.NativeTool? then NativeAction(cfg.space, turn) else FencedAction(cfg.space, turn)
  }

  method Validate(cfg: Config, turn: Turn) returns (r: Result<Action, Fault>)
    ensures match ActionOf(cfg, turn)
      case Some(action) => r == Ok(action)
      case None => r.Err? && r.error.Protocol?
  {
    if cfg.mode.NativeTool? {
      r := ValidateNativeTurn(cfg.space, turn);
      return;
    }
    if !Complete(turn) {
      return Err(Protocol("incomplete completion"));
    }
    if turn.calls != [] {
      return Err(Protocol("native tool calls on a fenced-block endpoint"));
    }
    var parsed := Fence.ParseFenced(cfg.space, turn.text);
    if parsed.Err? {
      return Err(Protocol("malformed fenced block"));
    }
    r := Ok(if parsed.value.Some? then Execute([ExecuteCall("", parsed.value.value)]) else Final);
  }

  function InboxMessages(inbox: seq<string>): seq<Message> {
    seq(|inbox|, i requires 0 <= i < |inbox| => UserMessage("[actor inbox]\n" + inbox[i]))
  }

  function ResultMessage(cfg: Config, call: ExecuteCall, output: string): Message {
    if cfg.mode.NativeTool? then ToolResult(call.id, cfg.shape(output))
    else UserMessage("[execution result]\n" + cfg.shape(output))
  }

  function Results(cfg: Config, calls: seq<ExecuteCall>, outputs: seq<string>): seq<Message>
    requires |calls| == |outputs|
  {
    seq(|calls|, i requires 0 <= i < |calls| => ResultMessage(cfg, calls[i], outputs[i]))
  }

  /** The messages a turn leaves for the next one, when there is a next one. */
  function After(cfg: Config, messages: seq<Message>, s: Script): Option<seq<Message>> {
    if s.inbox == None || s.reply == None then None
    else
      match ActionOf(cfg, s.reply.value)
      case Some(Execute(calls)) =>
        if s.outputs == None || |s.outputs.value| != |calls| || !s.delivered then None
        else Some(messages + InboxMessages(s.inbox.value) + [ToMessage(s.reply.value)]
                  + Results(cfg, calls, s.outputs.value))
      case _ => None
  }

  function Opening(cfg: Config, prior: seq<Message>, user: string): seq<Message> {
    [Message(System, cfg.system, [], None)] + prior + [UserMessage(user)]
  }

  /** The messages at the start of turn `k`, when the run gets there. */
  function AtTurn(cfg: Config, prior: seq<Message>, user: string, script: seq<Script>, k: nat): Option<seq<Message>>
    requires k <= |script|
  {
    if k == 0 then Some(Opening(cfg, prior, user))
    else
      match AtTurn(cfg, prior, user, script, k - 1)
      case None => None
      case Some(messages) => After(cfg, messages, script[k - 1])
  }

  /** The text of a turn whose reply is the final answer. */
  function FinalText(cfg: Config, s: Script): Option<string> {
    if s.inbox.Some? && s.reply.Some? && ActionOf(cfg, s.reply.value) == Some(Final) then Some(s.reply.value.text)
    else None
  }

  /** How a turn that is the last one ends the run. */
  predicate TurnEnds(cfg: Config, s: Script, r: Result<string, Fault>) {
    if s.inbox == None || s.reply == None then r == Err(Interrupted)
    else
      match ActionOf(cfg, s.reply.value)
      case None => r.Err? && r.error.Protocol?
      case Some(Final) => r == Ok(s.reply.value.text)
      case Some(Execute(calls)) =>
        r == Err(if s.outputs.Some? && |s.outputs.value| != |calls| then Sandbox else Interrupted)
  }

  /** One turn: the request made, if one is made, and either the messages to go on with or the outcome. */
  method TakeTurn(cfg: Config, messages: seq<Message>, s: Script)
    returns (request: Option<seq<Message>>, next: Option<seq<Message>>, outcome: Result<string, Fault>)
    ensures next == After(cfg, messages, s)
    ensures request == if s.inbox.Some? then Some(messages + InboxMessages(s.inbox.value)) else None
    ensures match FinalText(cfg, s)
      case Some(text) => outcome == Ok(text)
      case None => outcome.Err?
    ensures next.None? ==> TurnEnds(cfg, s, outcome)
  {
    request, next := None, None;
    if s.inbox == None {
      return None, None, Err(Interrupted);
    }
    var sent := messages + InboxMessages(s.inbox.value);
    request := Some(sent);
    if s.reply == None {
      return request, None, Err(Interrupted);
    }
    var turn := s.reply.value;
    var action := Validate(cfg, turn);
    if action.Err? {
      return request, None, Err(action.error);
    }
    if action.value.Final? {
      return request, None, Ok(turn.text);
    }
    outcome := Err(TurnBudget);
    var calls := action.value.calls;
    if s.outputs == None {
      return request, None, Err(Interrupted);
    }
    if |s.outputs.value| != |calls| {
      return request, None, Err(Sandbox);
    }
    if !s.delivered {
      return request, None, Err(Interrupted);
    }
    var grown := sent + [ToMessage(turn)];
    ghost var base := grown;
    for i := 0 to |calls|
      invariant grown == base + Results(cfg, calls, s.outputs.value)[..i]
    {
      grown := grown + [ResultMessage(cfg, calls[i], s.outputs.value[i])];
    }
    assert Results(cfg, calls, s.outputs.value)[..|calls|] == Results(cfg, calls, s.outputs.value);
    next := Some(grown);
  }

  /** Request `k` carries the messages of its turn and the inbox drained in it. */
  ghost predicate Carries(
    cfg: Config, prior: seq<Message>, user: string, script: seq<Script>, k: nat, request: seq<Message>)
    requires k < |script|
  {
    var messages := AtTurn(cfg, prior, user, script, k);
    && messages.Some? && script[k].inbox.Some?
    && request == messages.value + InboxMessages(script[k].inbox.value)
  }

  // ---- Every request is well formed -------------------------------------------------------------------------

  predicate AnswersInOrder(results: seq<Message>, calls: seq<ToolCall>) {
    |results| == |calls| &&
    forall i :: 0 <= i < |calls| ==> results[i].role.Tool? && results[i].answers == Some(calls[i].id)
  }

  /**
   * User messages and assistant turns, where the calls of a turn are few, have distinct ids, and are
   * answered once each, in order and by id, directly after it.
   */
  predicate Answered(ms: seq<Message>)
    decreases |ms|
  {
    ms == [] ||
    (ms[0].role.User? && Answered(ms[1..])) ||
    (ms[0].role.Assistant? &&
     var n := |ms[0].calls|;
     n <= MAX_CALLS && n < |ms| && DistinctIds(ms[0].calls) && AnswersInOrder(ms[1..n + 1], ms[0].calls) &&
     Answered(ms[n + 1..]))
  }

  lemma {:induction false} AllUsers(users: seq<Message>)
    requires forall i :: 0 <= i < |users| ==> users[i].role.User?
    ensures Answered(users)
  {
    if users != [] {
      AllUsers(users[1..]);
    }
  }

  lemma {:induction false} TurnThen(a: seq<Message>, b: seq<Message>, n: nat)
    requires a != [] && a[0].role.Assistant? && n == |a[0].calls| <= MAX_CALLS && n < |a|
    requires DistinctIds(a[0].calls) && AnswersInOrder(a[1..n + 1], a[0].calls) && Answered(a[n + 1..] + b)
    ensures Answered(a + b)
  {
    assert (a + b)[1..n + 1] == a[1..n + 1];
    assert (a + b)[n + 1..] == a[n + 1..] + b;
  }

  lemma {:induction false} AnsweredConcat(a: seq<Message>, b: seq<Message>)
    requires Answered(a) && Answered(b)
    ensures Answered(a + b)
    decreases |a|
  {
    if a == [] {
      assert a + b == b;
    } else if a[0].role.User? {
      AnsweredConcat(a[1..], b);
      assert (a + b)[1..] == a[1..] + b;
    } else {
      var n := |a[0].calls|;
      AnsweredConcat(a[n + 1..], b);
      TurnThen(a, b, n);
    }
  }

  lemma {:induction false} Appended(
    messages: seq<Message>, inbox: seq<Message>, reply: Message, results: seq<Message>)
    requires forall i :: 0 <= i < |inbox| ==> inbox[i].role.User?
    requires Answered([reply] + results)
    ensures var grown := messages + inbox + [reply] + results;
      messages <= grown && Answered(grown[|messages|..])
  {
    AllUsers(inbox);
    AnsweredConcat(inbox, [reply] + results);
    assert (messages + inbox + [reply] + results)[|messages|..] == inbox + ([reply] + results);
  }

  lemma {:induction false} ReplyAnswered(cfg: Config, turn: Turn, calls: seq<ExecuteCall>, outputs: seq<string>)
    requires ActionOf(cfg, turn) == Some(Execute(calls)) && |outputs| == |calls|
    ensures Answered([ToMessage(turn)] + Results(cfg, calls, outputs))
  {
    var results := Results(cfg, calls, outputs);
    var ms := [ToMessage(turn)] + results;
    if cfg.mode.NativeTool? {
      assert ms[1..|turn.calls| + 1] == results;
      assert ms[|turn.calls| + 1..] == [];
      assert AnswersInOrder(results, turn.calls);
    } else {
      assert ms[1..] == results;
      assert ms[1..1] == [];
      AllUsers(results);
    }
  }

  /** What a turn that goes on appends: its inbox, its reply and the results, all answered. */
  lemma {:induction false} TurnAnswered(cfg: Config, messages: seq<Message>, s: Script, grown: seq<Message>)
    requires After(cfg, messages, s) == Some(grown)
    ensures messages <= grown && Answered(grown[|messages|..])
  {
    var turn := s.reply.value;
    var calls := ActionOf(cfg, turn).value.calls;
    var inbox, results := InboxMessages(s.inbox.value), Results(cfg, calls, s.outputs.value);
    ReplyAnswered(cfg, turn, calls, s.outputs.value);
    Appended(messages, inbox, ToMessage(turn), results);
  }

  lemma {:induction false} AnsweredGrows(
    opening: seq<Message>, start: nat, earlier: seq<Message>, messages: seq<Message>)
    requires opening <= earlier <= messages && start <= |earlier|
    requires Answered(earlier[start..]) && Answered(messages[|earlier|..])
    ensures opening <= messages && Answered(messages[start..])
  {
    AnsweredConcat(earlier[start..], messages[|earlier|..]);
    assert messages[start..] == earlier[start..] + messages[|earlier|..];
  }

  /** The last messages a turn leaves are its outputs, shaped, each for its call. */
  lemma {:induction false} OutputsDelivered(cfg: Config, messages: seq<Message>, s: Script, grown: seq<Message>, i: nat)
    requires After(cfg, messages, s) == Some(grown) && i < |s.outputs.value|
    ensures |grown| >= |s.outputs.value|
    ensures var m, shaped := grown[|grown| - |s.outputs.value| + i], cfg.shape(s.outputs.value[i]);
      if cfg.mode.NativeTool?
      then
        && m.role.Tool? && m.content == shaped
        && i < |s.reply.value.calls| && m.answers == Some(s.reply.value.calls[i].id)
      else m.role.User? && m.content == "[execution result]\n" + shaped && m.answers == None
  {
    var calls := ActionOf(cfg, s.reply.value).value.calls;
    var results := Results(cfg, calls, s.outputs.value);
    assert grown[|grown| - |results|..] == results;
  }

  /** The run's own messages: everything after the system message and the prior ones. */
  lemma {:induction false} TurnsAnswered(
    cfg: Config, prior: seq<Message>, user: string, script: seq<Script>, k: nat, messages: seq<Message>)
    requires k <= |script| && AtTurn(cfg, prior, user, script, k) == Some(messages)
    ensures Opening(cfg, prior, user) <= messages && Answered(messages[1 + |prior|..])
    decreases k
  {
    var start := 1 + |prior|;
    if k == 0 {
      assert messages[start..] == [UserMessage(user)];
      AllUsers(messages[start..]);
    } else {
      var earlier := AtTurn(cfg, prior, user, script, k - 1).value;
      TurnsAnswered(cfg, prior, user, script, k - 1, earlier);
      TurnAnswered(cfg, earlier, script[k - 1], messages);
      AnsweredGrows(Opening(cfg, prior, user), start, earlier, messages);
    }
  }

  predicate SaysAs(m: Message, role: Role, content: string) {
    m.role == role && m.content == content
  }

  /** Every request begins with the system text, the prior messages and the user's, and ends with the inbox. */
  lemma {:induction false} RequestFrames(
    cfg: Config, prior: seq<Message>, user: string, script: seq<Script>, k: nat, request: seq<Message>)
    requires k < |script| && Carries(cfg, prior, user, script, k, request)
    ensures |request| >= |prior| + 2 + |script[k].inbox.value|
    ensures SaysAs(request[0], System, cfg.system) && request[1..1 + |prior|] == prior
    ensures SaysAs(request[1 + |prior|], User, user)
    ensures var inbox, n := script[k].inbox.value, |request| - |script[k].inbox.value|;
      forall i :: 0 <= i < |inbox| ==> SaysAs(request[n + i], User, "[actor inbox]\n" + inbox[i])
  {
    var messages := AtTurn(cfg, prior, user, script, k).value;
    TurnsAnswered(cfg, prior, user, script, k, messages);
    var opening := Opening(cfg, prior, user);
    assert opening[1..1 + |prior|] == prior;
    assert messages[..|opening|] == opening && request[..|messages|] == messages;
    assert forall i :: 0 <= i < |opening| ==> request[i] == opening[i];
  }

  /** After a turn that goes on, its reply stands after the messages and the inbox it was sent, as it was given. */
  lemma {:induction false} ReplyRecorded(cfg: Config, messages: seq<Message>, s: Script, grown: seq<Message>)
    requires After(cfg, messages, s) == Some(grown)
    ensures var n, turn := |messages| + |s.inbox.value|, s.reply.value;
      n < |grown| && SaysAs(grown[n], Assistant, turn.text) && grown[n].calls == turn.calls
  {
  }

  /** In every request of every run, each tool call of the run is answered once, in order and by id. */
  lemma {:induction false} RequestsAnswered(
    cfg: Config, prior: seq<Message>, user: string, script: seq<Script>, k: nat, request: seq<Message>)
    requires k < |script| && Carries(cfg, prior, user, script, k, request)
    ensures Opening(cfg, prior, user) <= request && Answered(request[1 + |prior|..])
  {
    var messages := AtTurn(cfg, prior, user, script, k).value;
    var inbox := InboxMessages(script[k].inbox.value);
    TurnsAnswered(cfg, prior, user, script, k, messages);
    AllUsers(inbox);
    assert request[|messages|..] == inbox;
    AnsweredGrows(Opening(cfg, prior, user), 1 + |prior|, messages, request);
  }

  // ---- The run ---------------------------------------------------------------------------------------------

  /** The run gets to turn `k` and no further: every turn before it goes on, and it does not, or there is none. */
  ghost predicate StopsAt(cfg: Config, prior: seq<Message>, user: string, script: seq<Script>, k: nat)
    requires k <= |script|
  {
    && AtTurn(cfg, prior, user, script, k).Some?
    && (k < |script| ==> AtTurn(cfg, prior, user, script, k + 1).None?)
  }

  lemma {:induction false} StopsHere(
    cfg: Config, prior: seq<Message>, user: string, script: seq<Script>, k: nat, messages: seq<Message>)
    requires k < |script| && AtTurn(cfg, prior, user, script, k) == Some(messages)
    ensures StopsAt(cfg, prior, user, script, k) <==> After(cfg, messages, script[k]) == None
  {
  }

  lemma {:induction false} GotBefore(cfg: Config, prior: seq<Message>, user: string, script: seq<Script>, k: nat)
    requires 0 < k <= |script| && AtTurn(cfg, prior, user, script, k).Some?
    ensures AtTurn(cfg, prior, user, script, k - 1).Some?
  {
  }

  lemma {:induction false} NoFurther(reached: seq<bool>, j: nat, k: nat)
    requires forall i :: 0 < i < |reached| && reached[i] ==> reached[i - 1]
    requires k < |reached| && reached[k] && (j + 1 < |reached| ==> !reached[j + 1]) && j < |reached|
    ensures k <= j
  {
    if k > 0 {
      NoFurther(reached, j, k - 1);
    }
  }

  lemma {:induction false} StopsOnce(
    cfg: Config, prior: seq<Message>, user: string, script: seq<Script>, j: nat, k: nat)
    requires j <= |script| && k <= |script|
    requires StopsAt(cfg, prior, user, script, j) && StopsAt(cfg, prior, user, script, k)
    ensures j == k
  {
    var reached := seq(|script| + 1, i requires 0 <= i <= |script| => AtTurn(cfg, prior, user, script, i).Some?);
    forall i | 0 < i < |reached| && reached[i]
      ensures reached[i - 1]
    {
      GotBefore(cfg, prior, user, script, i);
    }
    NoFurther(reached, j, k);
    NoFurther(reached, k, j);
  }

  /** Request `k` carries what it should, and after the opening every tool call in it is answered. */
  ghost predicate WellSent(
    cfg: Config, prior: seq<Message>, user: string, script: seq<Script>, k: nat, request: seq<Message>)
    requires k < |script|
  {
    && Carries(cfg, prior, user, script, k, request)
    && Opening(cfg, prior, user) <= request && Answered(request[1 + |prior|..])
  }

  /** What the run comes to if it stops at turn `k`: the budget is the error exactly when no turn stopped it. */
  predicate RunEnds(cfg: Config, script: seq<Script>, k: nat, r: Result<string, Fault>, requests: nat)
    requires k <= |script|
  {
    if k == |script| then r == Err(TurnBudget) && requests == k
    else TurnEnds(cfg, script[k], r) && requests == if script[k].inbox.Some? then k + 1 else k
  }

  lemma {:induction false} SendsWell(
    cfg: Config, prior: seq<Message>, user: string, script: seq<Script>, k: nat, messages: seq<Message>)
    requires k < |script| && AtTurn(cfg, prior, user, script, k) == Some(messages) && script[k].inbox.Some?
    ensures WellSent(cfg, prior, user, script, k, messages + InboxMessages(script[k].inbox.value))
  {
    RequestsAnswered(cfg, prior, user, script, k, messages + InboxMessages(script[k].inbox.value));
  }

  lemma {:induction false} FinalIsLast(
    cfg: Config, script: seq<Script>, k: nat, r: Result<string, Fault>, requests: nat)
    requires k <= |script| && RunEnds(cfg, script, k, r, requests)
    ensures r.Ok? ==> 0 < requests <= |script| && FinalText(cfg, script[requests - 1]) == Some(r.value)
  {
  }

  ghost predicate EndsRight(
    cfg: Config, prior: seq<Message>, user: string, script: seq<Script>, r: Result<string, Fault>, requests: nat)
  {
    exists k :: 0 <= k <= |script| && StopsAt(cfg, prior, user, script, k) && RunEnds(cfg, script, k, r, requests)
  }

  lemma {:induction false} EndsAt(
    cfg: Config, prior: seq<Message>, user: string, script: seq<Script>, k: nat, r: Result<string, Fault>,
    requests: nat)
    requires k <= |script| && StopsAt(cfg, prior, user, script, k) && RunEnds(cfg, script, k, r, requests)
    ensures EndsRight(cfg, prior, user, script, r, requests)
    ensures r.Ok? ==> 0 < requests <= |script| && FinalText(cfg, script[requests - 1]) == Some(r.value)
  {
    FinalIsLast(cfg, script, k, r, requests);
  }

  /**
   * The run. It makes a request in each turn it gets to, unless draining the inbox fails, each carrying what
   * the turns before it left, with every tool call answered; and it ends as the turn it stops at says.
   */
  method Run(cfg: Config, prior: seq<Message>, user: string, script: seq<Script>)
    returns (r: Result<string, Fault>, requests: seq<seq<Message>>)
    requires |script| == cfg.maxTurns
    ensures |requests| <= cfg.maxTurns
    ensures forall k :: 0 <= k < |requests| ==> WellSent(cfg, prior, user, script, k, requests[k])
    ensures EndsRight(cfg, prior, user, script, r, |requests|)
    ensures r.Ok? ==> requests != [] && FinalText(cfg, script[|requests| - 1]) == Some(r.value)
  {
    requests := [];
    var messages := Opening(cfg, prior, user);
    for k := 0 to cfg.maxTurns
      invariant |requests| == k
      invariant AtTurn(cfg, prior, user, script, k) == Some(messages)
      invariant forall j :: 0 <= j < k ==> WellSent(cfg, prior, user, script, j, requests[j])
    {
      var request, next, outcome := TakeTurn(cfg, messages, script[k]);
      if request.Some? {
        SendsWell(cfg, prior, user, script, k, messages);
        requests := requests + [request.value];
      }
      if next == None {
        StopsHere(cfg, prior, user, script, k, messages);
        EndsAt(cfg, prior, user, script, k, outcome, |requests|);
        return outcome, requests;
      }
      messages := next.value;
    }
    r := Err(TurnBudget);
    EndsAt(cfg, prior, user, script, |script|, r, |requests|);
  }
}
