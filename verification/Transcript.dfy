/**
 Messages of the agent loop and the prompt they freeze into
 (packages/workspace/src/agent/message.ts).
 */
module Transcript {
  import opened ToolGate

  datatype Part =
    | Text(text: string)
    | CallPart(call: ToolCall)
    | ResultPart(id: CallId, tool: string, content: string, isError: bool)

  datatype Role = User | Assistant

  datatype Message = Message(role: Role, parts: seq<Part>)

  predicate WorthKeeping(part: Part) {
    match part
    case Text(text) => text != ""
    case CallPart(_) => true
    case ResultPart(_, _, _, _) => true
  }

  predicate Persistable(message: Message) {
    exists i :: 0 <= i < |message.parts| && WorthKeeping(message.parts[i])
  }

  function KeepPersistable(messages: seq<Message>): seq<Message> {
    if messages == [] then []
    else (if Persistable(messages[0]) then [messages[0]] else []) + KeepPersistable(messages[1..])
  }

  /** `appendText`: a delta extends the trailing text part, or opens one; an empty delta does nothing. */
  function AppendText(parts: seq<Part>, delta: string): seq<Part> {
    if delta == "" then parts
    else if parts != [] && parts[|parts| - 1].Text? then
      parts[..|parts| - 1] + [Text(parts[|parts| - 1].text + delta)]
    else parts + [Text(delta)]
  }

  function ProseOf(parts: seq<Part>): string {
    if parts == [] then "" else (if parts[0].Text? then parts[0].text else "") + ProseOf(parts[1..])
  }

  function CallsOf(parts: seq<Part>): seq<ToolCall> {
    if parts == [] then [] else (if parts[0].CallPart? then [parts[0].call] else []) + CallsOf(parts[1..])
  }

  function ResultsOf(parts: seq<Part>): seq<Part> {
    if parts == [] then [] else (if parts[0].ResultPart? then [parts[0]] else []) + ResultsOf(parts[1..])
  }

  // ---------------------------------------------------------------- the provider prompt

  datatype ModelMessage =
    | UserTurn(content: string)
    | AssistantTurn(content: string, calls: seq<ToolCall>)
    | ToolTurn(id: CallId, tool: string, content: string)

  function ToolTurns(results: seq<Part>): (turns: seq<ModelMessage>)
    requires forall i :: 0 <= i < |results| ==> results[i].ResultPart?
    ensures |turns| == |results|
    ensures forall i :: 0 <= i < |results| ==>
              turns[i] == ToolTurn(results[i].id, results[i].tool, results[i].content)
  {
    if results == [] then []
    else [ToolTurn(results[0].id, results[0].tool, results[0].content)] + ToolTurns(results[1..])
  }

  lemma {:induction false} ResultsAreResults(parts: seq<Part>)
    ensures forall i :: 0 <= i < |ResultsOf(parts)| ==> ResultsOf(parts)[i].ResultPart?
  {
    if parts != [] {
      ResultsAreResults(parts[1..]);
    }
  }

  function FreezeOne(message: Message): seq<ModelMessage> {
    if message.role == User then
      (if ProseOf(message.parts) == "" then [] else [UserTurn(ProseOf(message.parts))])
    else
      ResultsAreResults(message.parts);
      [AssistantTurn(ProseOf(message.parts), CallsOf(message.parts))] + ToolTurns(ResultsOf(message.parts))
  }

  /** `toModelMessages`: freeze a transcript into the provider prompt. */
  function Freeze(messages: seq<Message>): seq<ModelMessage> {
    if messages == [] then [] else FreezeOne(messages[0]) + Freeze(messages[1..])
  }

  predicate Answers(turn: ModelMessage, call: ToolCall) {
    turn.ToolTurn? && turn.id == call.id && turn.tool == call.tool
  }

  /** What a function-calling backend demands: each assistant turn is followed at once by one tool
      turn per call, in call order, and tool turns occur nowhere else. */
  predicate Interleaved(prompt: seq<ModelMessage>) {
    if prompt == [] then true
    else match prompt[0]
      case UserTurn(_) => Interleaved(prompt[1..])
      case AssistantTurn(_, calls) =>
        && |calls| < |prompt|
        && (forall i :: 0 <= i < |calls| ==> Answers(prompt[1 + i], calls[i]))
        && Interleaved(prompt[1 + |calls|..])
      case ToolTurn(_, _, _) => false
  }

  // ---------------------------------------------------------------- rounds

  predicate ResultFor(part: Part, call: ToolCall) {
    part.ResultPart? && part.id == call.id && part.tool == call.tool
  }

  /** The results in `parts` answer, one for one and in order, the first calls in `parts`. */
  predicate AnsweredSoFar(parts: seq<Part>) {
    && |ResultsOf(parts)| <= |CallsOf(parts)|
    && forall i :: 0 <= i < |ResultsOf(parts)| ==> ResultFor(ResultsOf(parts)[i], CallsOf(parts)[i])
  }

  /** One complete round: every call it asked for has its result. A user message asks for none. */
  predicate Complete(message: Message) {
    && AnsweredSoFar(message.parts)
    && |ResultsOf(message.parts)| == |CallsOf(message.parts)|
    && (message.role == User ==> CallsOf(message.parts) == [])
  }

  predicate AllComplete(messages: seq<Message>) {
    forall i :: 0 <= i < |messages| ==> Complete(messages[i])
  }

  lemma {:induction false} CallsSplit(a: seq<Part>, b: seq<Part>)
    ensures CallsOf(a + b) == CallsOf(a) + CallsOf(b)
  {
    if a == [] {
      assert a + b == b;
    } else {
      assert (a + b)[0] == a[0] && (a + b)[1..] == a[1..] + b;
      CallsSplit(a[1..], b);
      var head := if a[0].CallPart? then [a[0].call] else [];
      assert CallsOf(a + b) == head + (CallsOf(a[1..]) + CallsOf(b));
    }
  }

  lemma {:induction false} ResultsSplit(a: seq<Part>, b: seq<Part>)
    ensures ResultsOf(a + b) == ResultsOf(a) + ResultsOf(b)
  {
    if a == [] {
      assert a + b == b;
    } else {
      assert (a + b)[0] == a[0] && (a + b)[1..] == a[1..] + b;
      ResultsSplit(a[1..], b);
      var head := if a[0].ResultPart? then [a[0]] else [];
      assert ResultsOf(a + b) == head + (ResultsOf(a[1..]) + ResultsOf(b));
    }
  }

  lemma PartsSplit(a: seq<Part>, b: seq<Part>)
    ensures CallsOf(a + b) == CallsOf(a) + CallsOf(b)
    ensures ResultsOf(a + b) == ResultsOf(a) + ResultsOf(b)
  {
    CallsSplit(a, b);
    ResultsSplit(a, b);
  }

  lemma AppendTextKeeps(parts: seq<Part>, delta: string)
    ensures CallsOf(AppendText(parts, delta)) == CallsOf(parts)
    ensures ResultsOf(AppendText(parts, delta)) == ResultsOf(parts)
  {
    if delta == "" {
    } else if parts != [] && parts[|parts| - 1].Text? {
      var front := parts[..|parts| - 1];
      var last := parts[|parts| - 1];
      assert parts == front + [last];
      PartsSplit(front, [last]);
      PartsSplit(front, [Text(last.text + delta)]);
    } else {
      PartsSplit(parts, [Text(delta)]);
    }
  }

  lemma AppendCall(parts: seq<Part>, call: ToolCall)
    ensures CallsOf(parts + [CallPart(call)]) == CallsOf(parts) + [call]
    ensures ResultsOf(parts + [CallPart(call)]) == ResultsOf(parts)
  {
    PartsSplit(parts, [CallPart(call)]);
  }

  lemma AppendResult(parts: seq<Part>, result: Part)
    requires result.ResultPart?
    ensures CallsOf(parts + [result]) == CallsOf(parts)
    ensures ResultsOf(parts + [result]) == ResultsOf(parts) + [result]
  {
    PartsSplit(parts, [result]);
  }

  /** A transcript of complete rounds always freezes into a prompt the backend accepts. */
  lemma {:induction false} CompleteFreezesInterleaved(messages: seq<Message>)
    requires AllComplete(messages)
    ensures Interleaved(Freeze(messages))
  {
    if messages != [] {
      var rest := Freeze(messages[1..]);
      CompleteFreezesInterleaved(messages[1..]);
      var message := messages[0];
      assert Complete(message);
      if message.role == User {
        if ProseOf(message.parts) != "" {
          assert Freeze(messages)[1..] == rest;
        } else {
          assert Freeze(messages) == rest;
        }
      } else {
        var calls := CallsOf(message.parts);
        ResultsAreResults(message.parts);
        var turns := ToolTurns(ResultsOf(message.parts));
        var prompt := Freeze(messages);
        assert prompt == [AssistantTurn(ProseOf(message.parts), calls)] + turns + rest;
        assert prompt[1 + |calls|..] == rest;
        forall i | 0 <= i < |calls| ensures Answers(prompt[1 + i], calls[i]) {
          assert prompt[1 + i] == turns[i];
        }
      }
    }
  }

  lemma {:induction false} KeptAreComplete(messages: seq<Message>)
    requires AllComplete(messages)
    ensures AllComplete(KeepPersistable(messages))
  {
    if messages != [] {
      KeptAreComplete(messages[1..]);
      assert Complete(messages[0]);
    }
  }
}
