/**
 The provider prompt read back: what `toModelMessages` (packages/workspace/src/agent/message.ts) writes tells
 the conversation it froze, message by message and in order.
 */
module PromptReading {
  import opened ToolGate
  import opened Transcript

  // ---------------------------------------------------------------- what a message holds

  lemma {:induction false} ProseSplit(a: seq<Part>, b: seq<Part>)
    ensures ProseOf(a + b) == ProseOf(a) + ProseOf(b)
  {
    if a == [] {
      assert a + b == b;
    } else {
      assert (a + b)[0] == a[0] && (a + b)[1..] == a[1..] + b;
      ProseSplit(a[1..], b);
    }
  }

  /** The three contents of a message are read off part by part, in order. */
  lemma PartsAdd(parts: seq<Part>, part: Part)
    ensures ProseOf(parts + [part]) == ProseOf(parts) + (match part case Text(text) => text case _ => "")
    ensures CallsOf(parts + [part]) == CallsOf(parts) + (match part case CallPart(call) => [call] case _ => [])
    ensures ResultsOf(parts + [part]) ==
            ResultsOf(parts) + (match part case ResultPart(_, _, _, _) => [part] case _ => [])
    ensures ProseOf([]) == "" && CallsOf([]) == [] && ResultsOf([]) == []
  {
    ProseSplit(parts, [part]);
    PartsSplit(parts, [part]);
  }

  /** A delta adds its text to the message's prose and nothing else, and never leaves two text parts in a row. */
  lemma AppendTextAdds(parts: seq<Part>, delta: string)
    ensures ProseOf(AppendText(parts, delta)) == ProseOf(parts) + delta
    ensures CallsOf(AppendText(parts, delta)) == CallsOf(parts)
    ensures ResultsOf(AppendText(parts, delta)) == ResultsOf(parts)
    ensures |parts| <= |AppendText(parts, delta)| <= |parts| + 1
    ensures parts != [] && parts[|parts| - 1].Text? ==> |AppendText(parts, delta)| == |parts|
  {
    AppendTextKeeps(parts, delta);
    if delta != "" {
      if parts != [] && parts[|parts| - 1].Text? {
        var front, last := parts[..|parts| - 1], parts[|parts| - 1];
        assert parts == front + [last];
        PartsAdd(front, last);
        PartsAdd(front, Text(last.text + delta));
      } else {
        PartsAdd(parts, Text(delta));
      }
    }
  }

  /** A message is worth keeping exactly when it has prose or any tool activity. */
  lemma {:induction false} KeptIff(message: Message)
    ensures Persistable(message) <==>
            ProseOf(message.parts) != "" || CallsOf(message.parts) != [] || ResultsOf(message.parts) != []
    decreases |message.parts|
  {
    var parts := message.parts;
    if parts != [] {
      var rest := Message(message.role, parts[1..]);
      KeptIff(rest);
      assert parts == [parts[0]] + parts[1..];
      if Persistable(rest) {
        var i :| 0 <= i < |rest.parts| && WorthKeeping(rest.parts[i]);
        assert WorthKeeping(parts[i + 1]);
      }
    }
  }

  // ---------------------------------------------------------------- reading a prompt

  datatype Answer = Answer(id: CallId, tool: string, content: string)

  /** One exchange: something the user said, or a reply with the calls it asked for and the answers it was given. */
  datatype Exchange =
    | Said(content: string)
    | Replied(content: string, calls: seq<ToolCall>, answers: seq<Answer>)
    | Stray(answer: Answer)

  function AnswersIn(parts: seq<Part>): seq<Answer> {
    if parts == [] then []
    else (match parts[0]
          case ResultPart(id, tool, content, _) => [Answer(id, tool, content)]
          case _ => []) + AnswersIn(parts[1..])
  }

  /** The conversation as its exchanges; a user message without text says nothing. */
  function Exchanges(messages: seq<Message>): seq<Exchange> {
    if messages == [] then []
    else
      var parts := messages[0].parts;
      var prose := ProseOf(parts);
      (match messages[0].role
       case User => if prose != "" then [Said(prose)] else []
       case Assistant => [Replied(prose, CallsOf(parts), AnswersIn(parts))]) + Exchanges(messages[1..])
  }

  /** The tool turns a prompt opens with. */
  function LeadingAnswers(prompt: seq<ModelMessage>): (answers: seq<Answer>)
    ensures |answers| <= |prompt|
  {
    if prompt != [] && prompt[0].ToolTurn? then
      [Answer(prompt[0].id, prompt[0].tool, prompt[0].content)] + LeadingAnswers(prompt[1..])
    else []
  }

  /** A prompt as a backend reads it: tool turns belong to the assistant turn before them. */
  function ReadBack(prompt: seq<ModelMessage>): seq<Exchange>
    decreases |prompt|
  {
    if prompt == [] then []
    else match prompt[0]
      case UserTurn(content) => [Said(content)] + ReadBack(prompt[1..])
      case AssistantTurn(content, calls) =>
        var answers := LeadingAnswers(prompt[1..]);
        [Replied(content, calls, answers)] + ReadBack(prompt[1..][|answers|..])
      case ToolTurn(id, tool, content) => [Stray(Answer(id, tool, content))] + ReadBack(prompt[1..])
  }

  predicate OpensWithoutTools(prompt: seq<ModelMessage>) {
    prompt == [] || !prompt[0].ToolTurn?
  }

  lemma {:induction false} LeadingStops(results: seq<Part>, rest: seq<ModelMessage>)
    requires forall i :: 0 <= i < |results| ==> results[i].ResultPart?
    requires OpensWithoutTools(rest)
    ensures LeadingAnswers(ToolTurns(results) + rest) == AnswersIn(results)
    ensures |AnswersIn(results)| == |results|
  {
    if results == [] {
      assert ToolTurns(results) + rest == rest;
    } else {
      LeadingStops(results[1..], rest);
      var prompt := ToolTurns(results) + rest;
      assert prompt[0] == ToolTurn(results[0].id, results[0].tool, results[0].content);
      assert prompt[1..] == ToolTurns(results[1..]) + rest;
    }
  }

  lemma {:induction false} AnswersOfResults(parts: seq<Part>)
    ensures AnswersIn(ResultsOf(parts)) == AnswersIn(parts)
  {
    if parts != [] {
      AnswersOfResults(parts[1..]);
      if parts[0].ResultPart? {
        assert ResultsOf(parts)[1..] == ResultsOf(parts[1..]);
      } else {
        assert ResultsOf(parts) == ResultsOf(parts[1..]);
      }
    }
  }

  lemma {:induction false} FreezeOpens(messages: seq<Message>)
    ensures OpensWithoutTools(Freeze(messages))
  {
    if messages != [] {
      FreezeOpens(messages[1..]);
      if FreezeOne(messages[0]) == [] {
        assert Freeze(messages) == Freeze(messages[1..]);
      }
    }
  }

  lemma ReplyReadsBack(message: Message, rest: seq<ModelMessage>)
    requires message.role == Assistant && OpensWithoutTools(rest)
    ensures ReadBack(FreezeOne(message) + rest) ==
            [Replied(ProseOf(message.parts), CallsOf(message.parts), AnswersIn(message.parts))] + ReadBack(rest)
  {
    ResultsAreResults(message.parts);
    var turns := ToolTurns(ResultsOf(message.parts));
    var prompt := FreezeOne(message) + rest;
    assert prompt[0] == AssistantTurn(ProseOf(message.parts), CallsOf(message.parts));
    assert prompt[1..] == turns + rest;
    LeadingStops(ResultsOf(message.parts), rest);
    AnswersOfResults(message.parts);
    assert prompt[1..][|turns|..] == rest;
  }

  /** Reading a frozen transcript back gives the conversation: every non-empty user text, every reply with its
      text, its calls and the answers to them, in order, and nothing besides. */
  lemma {:induction false} FrozenReadsBack(messages: seq<Message>)
    ensures ReadBack(Freeze(messages)) == Exchanges(messages)
  {
    if messages != [] {
      var rest := Freeze(messages[1..]);
      FrozenReadsBack(messages[1..]);
      FreezeOpens(messages[1..]);
      if messages[0].role == User {
        var prose := ProseOf(messages[0].parts);
        if prose == "" {
          assert Freeze(messages) == rest;
        } else {
          assert Freeze(messages) == [UserTurn(prose)] + rest;
        }
      } else {
        ReplyReadsBack(messages[0], rest);
      }
    }
  }

  /** Freezing goes message by message: what was frozen before stays a prefix of every later prompt. */
  lemma {:induction false} FreezeSplit(a: seq<Message>, b: seq<Message>)
    ensures Freeze(a + b) == Freeze(a) + Freeze(b)
  {
    if a == [] {
      assert a + b == b;
    } else {
      assert (a + b)[0] == a[0] && (a + b)[1..] == a[1..] + b;
      FreezeSplit(a[1..], b);
    }
  }
}
