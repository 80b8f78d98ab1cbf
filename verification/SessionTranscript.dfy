/**
 The agent loop's transcript over whole runs of the session: every call is answered by its own
 outcome, in order, before the next prompt is built, however turns are stopped, retried, cleared
 or interleaved with direct invocations.
 */
module SessionTranscript {
  import opened Prelude
  import opened Strings
  import opened ToolGate
  import opened Transcript
  import opened Session

  function Init<T>(xs: seq<T>): seq<T> {
    if xs == [] then [] else xs[..|xs| - 1]
  }

  /** The round being built: earlier rounds are complete, and the last one has its calls answered in
      order up to the one in flight. */
  ghost predicate TurnInv(turn: Turn) {
    && turn.messages != []
    && AllComplete(Init(turn.messages))
    && turn.messages[|turn.messages| - 1].role == Assistant
    && var parts := LastParts(turn);
       match turn.phase
       case Streaming(calls, _) => CallsOf(parts) == calls && ResultsOf(parts) == []
       case Tools(queue, _) =>
         && queue != []
         && AnsweredSoFar(parts)
         && CallsOf(parts)[|ResultsOf(parts)|..] == queue
       case BetweenSteps => false
  }

  ghost predicate ConversationInv(c: Conversation) {
    AllComplete(c.persisted) && (c.turn.Some? ==> TurnInv(c.turn.value))
  }

  /** A turn that waits for a tool waits for a task that still owes it exactly that call's outcome. */
  ghost predicate FlightInv(s: State) {
    s.conversation.turn.Some? && s.conversation.turn.value.phase.Tools? ==>
      Owes(s.gate, s.conversation.turn.value.phase.task, s.conversation.turn.value.phase.queue)
  }

  ghost predicate Owes(g: Gate, t: nat, queue: seq<ToolCall>) {
    && queue != [] && t < |g.tasks|
    && g.tasks[t].owner == Chat && g.tasks[t].call == queue[0] && !g.tasks[t].phase.Delivered?
  }

  ghost predicate ChatInv(s: State) {
    ConversationInv(s.conversation) && FlightInv(s)
  }

  lemma CompleteConcat(a: seq<Message>, b: seq<Message>)
    requires AllComplete(a) && AllComplete(b)
    ensures AllComplete(a + b)
  {
  }

  lemma EndTurnKeeps(s: State, turn: Turn, failure: Option<string>)
    requires AllComplete(s.conversation.persisted)
    requires turn.aborted || failure.Some? || AllComplete(turn.messages)
    ensures ChatInv(EndTurn(s, turn, failure))
  {
    if !turn.aborted && failure.None? {
      KeptAreComplete(turn.messages);
    }
    CompleteConcat(s.conversation.persisted, Finished(turn, failure));
  }

  lemma NextStepKeeps(s: State, turn: Turn)
    requires AllComplete(s.conversation.persisted) && AllComplete(turn.messages)
    ensures ChatInv(NextStep(s, turn))
  {
    if turn.steps >= MAX_STEPS {
      EndTurnKeeps(s, turn, OUT_OF_STEPS);
    } else {
      var next := NextStep(s, turn).conversation.turn.value;
      assert Init(next.messages) == turn.messages;
    }
  }

  lemma BeginToolKeeps(s: State, tools: Catalog, turn: Turn, queue: seq<ToolCall>)
    requires AllComplete(s.conversation.persisted) && queue != []
    requires TurnInv(turn.(phase := Tools(queue, |s.gate.tasks|)))
    ensures ChatInv(BeginTool(s, tools, turn, queue))
  {
  }

  lemma LastComplete(turn: Turn)
    requires turn.messages != [] && AllComplete(Init(turn.messages))
    requires Complete(turn.messages[|turn.messages| - 1])
    ensures AllComplete(turn.messages)
  {
    assert turn.messages == Init(turn.messages) + [turn.messages[|turn.messages| - 1]];
  }

  lemma EndStreamKeeps(s: State, tools: Catalog, thrown: Option<string>)
    requires ConversationInv(s.conversation) && StreamingTurn(s).Some?
    ensures ChatInv(EndStream(s, tools, s.conversation.turn.value, thrown))
  {
    var turn := s.conversation.turn.value;
    var failure := if thrown.Some? then thrown else turn.phase.failure;
    if turn.aborted {
      EndTurnKeeps(s, turn, None);
    } else if failure.Some? {
      EndTurnKeeps(s, turn, failure);
    } else if turn.phase.calls == [] {
      LastComplete(turn);
      EndTurnKeeps(s, turn, None);
    } else {
      BeginToolKeeps(s, tools, turn, turn.phase.calls);
    }
  }

  lemma AppendKeepsInit(turn: Turn, parts: seq<Part>)
    requires turn.messages != []
    ensures Init(AppendPart(turn, parts).messages) == Init(turn.messages)
    ensures LastParts(AppendPart(turn, parts)) == parts
  {
  }

  lemma ChunkKeeps(s: State, tools: Catalog, chunk: EngineChunk)
    requires ConversationInv(s.conversation) && StreamingTurn(s).Some?
    ensures ChatInv(TakeChunk(s, tools, s.conversation.turn.value, chunk))
  {
    var turn := s.conversation.turn.value;
    if turn.aborted {
      EndStreamKeeps(s, tools, None);
    } else {
      match chunk
      case TextDelta(delta) =>
        AppendTextKeeps(LastParts(turn), delta);
        AppendKeepsInit(turn, AppendText(LastParts(turn), delta));
      case ToolRequest(call) =>
        AppendCall(LastParts(turn), call);
        AppendKeepsInit(turn, LastParts(turn) + [CallPart(call)]);
      case RunError(message) =>
    }
  }

  /** Answering the call in flight: its result is the next one the round owes. */
  lemma AnswerOne(parts: seq<Part>, queue: seq<ToolCall>, result: Part)
    requires AnsweredSoFar(parts) && queue != [] && CallsOf(parts)[|ResultsOf(parts)|..] == queue
    requires ResultFor(result, queue[0])
    ensures AnsweredSoFar(parts + [result])
    ensures CallsOf(parts + [result])[|ResultsOf(parts + [result])|..] == queue[1..]
  {
    AppendResult(parts, result);
    var done := ResultsOf(parts);
    assert CallsOf(parts)[|done|] == CallsOf(parts)[|done|..][0];
  }

  lemma OutcomeKeeps(s: State, tools: Catalog, turn: Turn, outcome: Outcome)
    requires AllComplete(s.conversation.persisted) && TurnInv(turn) && turn.phase.Tools?
    ensures ChatInv(TakeOutcome(s, tools, turn, turn.phase.queue, outcome))
  {
    var queue := turn.phase.queue;
    if turn.aborted {
      EndTurnKeeps(s, turn, None);
    } else {
      var result := ResultPart(queue[0].id, queue[0].tool, outcome.content, outcome.isError);
      AnswerOne(LastParts(turn), queue, result);
      AppendKeepsInit(turn, LastParts(turn) + [result]);
      var answered := AppendPart(turn, LastParts(turn) + [result]);
      var shown := Notify(WithTurn(s, answered));
      if |queue| > 1 {
        BeginToolKeeps(shown, tools, answered, queue[1..]);
      } else {
        LastComplete(answered);
        NextStepKeeps(shown, answered.(phase := BetweenSteps));
      }
    }
  }

  lemma RunTurnKeeps(s: State)
    requires AllComplete(s.conversation.persisted)
    ensures ChatInv(RunTurn(s))
  {
    var turn := Turn([], false, 0, BetweenSteps);
    NextStepKeeps(Notify(WithTurn(s.(conversation := s.conversation.(error := None)), turn)), turn);
  }

  lemma SendKeeps(s: State, content: string)
    requires ConversationInv(s.conversation) && CanSend(s, content)
    ensures ChatInv(Send(s, content))
  {
    var message := Message(User, [Text(Trim(content))]);
    assert CallsOf(message.parts[1..]) == [] && ResultsOf(message.parts[1..]) == [];
    assert Complete(message);
    CompleteConcat(s.conversation.persisted, [message]);
    RunTurnKeeps(Persist(s, [message]));
  }

  /** Cancelling prompts takes no outcome from anyone. */
  lemma {:induction false} CancelAllOwes(g: Gate, t: nat, queue: seq<ToolCall>)
    requires Owes(g, t, queue)
    ensures Owes(CancelAll(g), t, queue)
    decreases |g.pending|
  {
    if g.pending != [] {
      CancelAllOwes(ResolveAt(g, 0, false, false), t, queue);
    }
  }

  lemma CancelKeeps(s: State)
    requires ChatInv(s)
    ensures ChatInv(Cancel(s))
  {
    if s.conversation.turn.Some? && s.conversation.turn.value.phase.Tools? {
      CancelAllOwes(s.gate, s.conversation.turn.value.phase.task, s.conversation.turn.value.phase.queue);
    }
  }

  lemma AbortKeeps(s: State)
    requires ChatInv(s)
    ensures ChatInv(s.(conversation := AbortTurn(s.conversation)))
  {
  }

  lemma StartOwes(g: Gate, tools: Catalog, owner: Owner, call: ToolCall, t: nat, queue: seq<ToolCall>)
    requires Owes(g, t, queue)
    ensures Owes(Start(g, tools, owner, call), t, queue)
  {
  }

  lemma InvokeKeeps(s: State, tools: Catalog, tool: string, input: string)
    requires ChatInv(s)
    ensures ChatInv(Invoke(s, tools, tool, input))
  {
    if s.conversation.turn.Some? && s.conversation.turn.value.phase.Tools? {
      StartOwes(s.gate, tools, Direct(s.invoked), ToolCall(Minted(s.invoked), tool, input),
                s.conversation.turn.value.phase.task, s.conversation.turn.value.phase.queue);
    }
  }

  lemma CommandKeeps(s: State, tools: Catalog, command: Command)
    requires ChatInv(s)
    ensures ChatInv(Handle(s, tools, command))
  {
    match command
    case SendText(content) =>
      if CanSend(s, content) {
        SendKeeps(s, content);
      }
    case StopTurn =>
      AbortKeeps(s);
      CancelKeeps(s.(conversation := AbortTurn(s.conversation)));
    case RetryTurn =>
      if s.conversation.turn.None? {
        RunTurnKeeps(s);
      }
    case ClearSession =>
    case ApprovePrompt(id, approved, always) =>
    case InvokeTool(tool, input) => InvokeKeeps(s, tools, tool, input);
  }

  lemma StepKeepsChat(s: State, tools: Catalog, e: Event)
    requires ChatInv(s)
    ensures ChatInv(Step(s, tools, e))
  {
    match e
    case Client(command) => CommandKeeps(s, tools, command);
    case Engine(chunk) =>
      if StreamingTurn(s).Some? {
        ChunkKeeps(s, tools, chunk);
      }
    case EngineDone(thrown) =>
      if StreamingTurn(s).Some? {
        EndStreamKeeps(s, tools, thrown);
      }
    case ResumeTask(t) =>
    case ToolDone(t, outcome) =>
    case DeliverOutcome(t) => DeliverKeeps(s, tools, t);
    case DisposeHost =>
      AbortKeeps(s);
      CancelKeeps(s.(conversation := AbortTurn(s.conversation)));
    case Tick =>
  }

  lemma DeliverKeeps(s: State, tools: Catalog, t: nat)
    requires ChatInv(s)
    ensures ChatInv(DeliverTask(s, tools, t))
  {
    if t < |s.gate.tasks| && s.gate.tasks[t].phase.Settled? && s.gate.tasks[t].owner.Chat? && InFlight(s, t) {
      OutcomeKeeps(s.(gate := Deliver(s.gate, t)), tools, s.conversation.turn.value, s.gate.tasks[t].phase.outcome);
    }
  }

  lemma {:induction false} RunKeepsChat(s: State, tools: Catalog, events: seq<Event>)
    requires ChatInv(s)
    ensures ChatInv(Run(s, tools, events))
  {
    if events != [] {
      RunKeepsChat(s, tools, events[..|events| - 1]);
      StepKeepsChat(Run(s, tools, events[..|events| - 1]), tools, events[|events| - 1]);
    }
  }

  /** The transcript the engine was called with: everything before the message being filled. */
  function EngineHistory(s: State): seq<Message> {
    s.conversation.persisted +
    (if s.conversation.turn.Some? then Init(s.conversation.turn.value.messages) else [])
  }

  /** In every reachable state the stored transcript, and whenever the engine is streaming the history
      it was called with, freeze into a prompt in which each assistant turn is followed at once by one
      result per call, in call order; and a turn waiting on a tool is owed that very call's outcome. */
  lemma PromptsAreInterleaved(s: State, tools: Catalog, events: seq<Event>)
    requires AllComplete(s.conversation.persisted) && s.conversation.turn.None?
    ensures
      var r := Run(s, tools, events);
      && AllComplete(r.conversation.persisted)
      && Interleaved(Freeze(r.conversation.persisted))
      && (StreamingTurn(r).Some? ==> Interleaved(Freeze(EngineHistory(r))))
      && FlightInv(r)
  {
    RunKeepsChat(s, tools, events);
    var r := Run(s, tools, events);
    CompleteFreezesInterleaved(r.conversation.persisted);
    if StreamingTurn(r).Some? {
      CompleteConcat(r.conversation.persisted, Init(r.conversation.turn.value.messages));
      CompleteFreezesInterleaved(EngineHistory(r));
    }
  }

  /** Direct invocations never touch the conversation: neither starting one nor settling one. */
  lemma InvocationsStayOutOfChat(s: State, tools: Catalog, tool: string, input: string, t: nat)
    ensures Handle(s, tools, InvokeTool(tool, input)).conversation == s.conversation
    ensures t < |s.gate.tasks| && s.gate.tasks[t].owner.Direct? ==>
              DeliverTask(s, tools, t).conversation == s.conversation
  {
  }
}
