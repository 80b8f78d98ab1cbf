/**
 When does the session tell its subscribers? `host.ts` and the loop call `notify` after every change,
 with one exception in the loop: a step whose stream ends with tool requests stops streaming its
 message silently, and if the first request needs no prompt nothing notifies until its outcome.
 */
module SessionNotify {
  import opened Prelude
  import opened Strings
  import opened ToolGate
  import opened Transcript
  import opened Session
  import opened SessionConsent
  import opened SessionTranscript

  /** The silent change: a clean stream end whose first tool request raises no prompt. */
  predicate Quiet(s: State, tools: Catalog, e: Event) {
    && e.EngineDone?
    && FirstCall(s, e.thrown) != []
    && !Asks(s.gate, tools, StreamingTurn(s).value.phase.calls[0])
  }

  /** The last snapshot pushed to subscribers is the current one. */
  ghost predicate ToldLast(r: State) {
    r.heard != [] && r.heard[|r.heard| - 1] == Snap(r)
  }

  /** From `s` to `r`, subscribers heard about the change, or there was none to hear about. */
  ghost predicate Told(s: State, r: State) {
    && s.heard <= r.heard
    && (if |s.heard| < |r.heard| then ToldLast(r) else Snap(r) == Snap(s))
  }

  lemma EndTurnTold(s: State, turn: Turn, failure: Option<string>)
    ensures s.heard < EndTurn(s, turn, failure).heard && ToldLast(EndTurn(s, turn, failure))
  {
  }

  lemma NextStepTold(s: State, turn: Turn)
    ensures s.heard < NextStep(s, turn).heard && ToldLast(NextStep(s, turn))
  {
    if turn.steps >= MAX_STEPS {
      EndTurnTold(s, turn, OUT_OF_STEPS);
    }
  }

  lemma RunTurnTold(s: State)
    ensures s.heard < RunTurn(s).heard && ToldLast(RunTurn(s))
  {
    var turn := Turn([], false, 0, BetweenSteps);
    NextStepTold(Notify(WithTurn(s.(conversation := s.conversation.(error := None)), turn)), turn);
  }

  lemma SendTold(s: State, content: string)
    ensures Told(s, Send(s, content))
  {
    if CanSend(s, content) {
      RunTurnTold(Persist(s, [Message(User, [Text(Trim(content))])]));
    }
  }

  lemma ClearTold(s: State)
    ensures s.heard < Clear(s).heard && ToldLast(Clear(s))
  {
  }

  lemma LaunchTold(s: State, tools: Catalog, owner: Owner, call: ToolCall)
    ensures Told(s, Launch(s, tools, owner, call))
    ensures |Launch(s, tools, owner, call).heard| > |s.heard| <==> Asks(s.gate, tools, call)
  {
  }

  lemma CommandTold(s: State, tools: Catalog, command: Command)
    ensures Told(s, Handle(s, tools, command))
  {
    match command
    case SendText(content) => SendTold(s, content);
    case StopTurn => AbortUnseen(s.conversation);
    case RetryTurn =>
      if s.conversation.turn.None? {
        RunTurnTold(s);
      }
    case ClearSession => ClearTold(s);
    case ApprovePrompt(id, approved, always) =>
    case InvokeTool(tool, input) =>
      LaunchTold(PushRecord(s, tool), tools, Direct(s.invoked), ToolCall(Minted(s.invoked), tool, input));
  }

  lemma AbortUnseen(c: Conversation)
    ensures ViewOf(AbortTurn(c)) == ViewOf(c)
  {
  }

  /** Moving on to the next queued call shows nothing new by itself. */
  lemma OutcomeTold(s: State, tools: Catalog, turn: Turn, queue: seq<ToolCall>, outcome: Outcome)
    requires queue != [] && turn.phase.Tools?
    ensures
      var r := TakeOutcome(s, tools, turn, queue, outcome);
      s.heard < r.heard && ToldLast(r)
  {
    if turn.aborted {
      EndTurnTold(s, turn, None);
    } else {
      var result := ResultPart(queue[0].id, queue[0].tool, outcome.content, outcome.isError);
      var answered := AppendPart(turn, LastParts(turn) + [result]);
      var shown := Notify(WithTurn(s, answered));
      if |queue| > 1 {
        var waiting := WithTurn(shown, answered.(phase := Tools(queue[1..], |shown.gate.tasks|)));
        assert Snap(waiting) == Snap(shown);
        LaunchTold(waiting, tools, Chat, queue[1]);
      } else {
        NextStepTold(shown, answered.(phase := BetweenSteps));
      }
    }
  }

  /** A message with a tool request is worth keeping, so it leaves the streaming slot for the transcript. */
  lemma {:induction false} CallsPersist(parts: seq<Part>)
    requires CallsOf(parts) != []
    ensures Persistable(Message(Assistant, parts))
  {
    if parts[0].CallPart? {
      assert WorthKeeping(parts[0]);
    } else {
      CallsPersist(parts[1..]);
      var i :| 0 <= i < |parts[1..]| && WorthKeeping(parts[1..][i]);
      assert WorthKeeping(parts[i + 1]);
    }
  }

  lemma StreamEndShows(s: State, t: nat)
    requires ConversationInv(s.conversation) && StreamingTurn(s).Some?
    requires s.conversation.turn.value.phase.calls != []
    ensures
      var turn := s.conversation.turn.value;
      ViewOf(WithTurn(s, turn.(phase := Tools(turn.phase.calls, t))).conversation) != ViewOf(s.conversation)
  {
    var turn := s.conversation.turn.value;
    CallsPersist(LastParts(turn));
    assert Filling(turn).Some?;
  }

  lemma StreamTold(s: State, tools: Catalog, thrown: Option<string>)
    requires ConversationInv(s.conversation) && StreamingTurn(s).Some?
    ensures
      var r := EndStream(s, tools, s.conversation.turn.value, thrown);
      if Quiet(s, tools, EngineDone(thrown)) then r.heard == s.heard && Snap(r) != Snap(s) else Told(s, r)
  {
    var turn := s.conversation.turn.value;
    var failure := if thrown.Some? then thrown else turn.phase.failure;
    if turn.aborted {
      EndTurnTold(s, turn, None);
    } else if failure.Some? {
      EndTurnTold(s, turn, failure);
    } else if turn.phase.calls == [] {
      EndTurnTold(s, turn, None);
    } else {
      StreamEndShows(s, |s.gate.tasks|);
      var waiting := WithTurn(s, turn.(phase := Tools(turn.phase.calls, |s.gate.tasks|)));
      LaunchTold(waiting, tools, Chat, turn.phase.calls[0]);
    }
  }

  lemma ChunkTold(s: State, tools: Catalog, chunk: EngineChunk)
    requires ConversationInv(s.conversation) && StreamingTurn(s).Some?
    ensures Told(s, TakeChunk(s, tools, s.conversation.turn.value, chunk))
  {
    var turn := s.conversation.turn.value;
    if turn.aborted {
      StreamTold(s, tools, None);
    } else if chunk.RunError? {
      var marked := turn.(phase := turn.phase.(failure := Some(chunk.message)));
      assert Quiescent(marked) == Quiescent(turn) && Filling(marked) == Filling(turn);
    }
  }

  lemma DeliverTold(s: State, tools: Catalog, t: nat)
    ensures Told(s, DeliverTask(s, tools, t))
  {
    if t < |s.gate.tasks| && s.gate.tasks[t].phase.Settled? && s.gate.tasks[t].owner.Chat? && InFlight(s, t) {
      OutcomeTold(s.(gate := Deliver(s.gate, t)), tools, s.conversation.turn.value,
                  s.conversation.turn.value.phase.queue, s.gate.tasks[t].phase.outcome);
    }
  }

  lemma DisposeTold(s: State)
    ensures Told(s, Dispose(s))
  {
    AbortUnseen(s.conversation);
  }

  /** The exact condition: subscribers hear the current snapshot after every step that changes it,
      unless the step is quiet; and a quiet step does change the snapshot, unheard. */
  lemma ChangesAreTold(s: State, tools: Catalog, e: Event)
    requires ChatInv(s)
    ensures
      var r := Step(s, tools, e);
      if Quiet(s, tools, e) then r.heard == s.heard && Snap(r) != Snap(s) else Told(s, r)
  {
    match e
    case Client(command) => CommandTold(s, tools, command);
    case Engine(chunk) =>
      if StreamingTurn(s).Some? {
        ChunkTold(s, tools, chunk);
      }
    case EngineDone(thrown) =>
      if StreamingTurn(s).Some? {
        StreamTold(s, tools, thrown);
      }
    case ResumeTask(t) =>
    case ToolDone(t, outcome) =>
    case DeliverOutcome(t) => DeliverTold(s, tools, t);
    case DisposeHost => DisposeTold(s);
    case Tick =>
  }

  const EXAMPLE_TOOLS: Catalog := map["todos__list" := Definition(Query, None, None)]

  const EXAMPLE_CALL := ToolCall(FromEngine("call-1"), "todos__list", "{}")

  const EXAMPLE_HOST := Boot(map[], [], map[], 0, 0)

  lemma ExampleBoot()
    ensures !EXAMPLE_HOST.disposed && EXAMPLE_HOST.gate == EMPTY_GATE
    ensures EXAMPLE_HOST.conversation == Conversation(0, [], None, None)
  {
  }

  lemma SendOpensTurn(s: State, tools: Catalog, content: string)
    requires !s.disposed && CanSend(s, content)
    ensures
      var r := Step(s, tools, Client(SendText(content)));
      && r.conversation.turn == Some(Turn([Message(Assistant, [])], false, 1, Streaming([], None)))
      && r.gate == s.gate
  {
  }

  lemma ExampleSend()
    ensures Step(EXAMPLE_HOST, EXAMPLE_TOOLS, Client(SendText("hi"))).conversation.turn ==
            Some(Turn([Message(Assistant, [])], false, 1, Streaming([], None)))
    ensures Step(EXAMPLE_HOST, EXAMPLE_TOOLS, Client(SendText("hi"))).gate == EMPTY_GATE
  {
    var text := "hi";
    assert !IsSpace(text[0]) && !IsSpace(text[1]);
    assert TrimEnd(text) == text;
    ExampleBoot();
    assert CanSend(EXAMPLE_HOST, text);
    SendOpensTurn(EXAMPLE_HOST, EXAMPLE_TOOLS, text);
  }

  lemma ExampleRequest(s: State)
    requires s.conversation.turn == Some(Turn([Message(Assistant, [])], false, 1, Streaming([], None)))
    requires s.gate == EMPTY_GATE
    ensures
      var r := Step(s, EXAMPLE_TOOLS, Engine(ToolRequest(EXAMPLE_CALL)));
      ToldLast(r) && Quiet(r, EXAMPLE_TOOLS, EngineDone(None))
  {
  }

  lemma RunTwo(s: State, tools: Catalog, first: Event, second: Event)
    ensures Run(s, tools, [first, second]) == Step(Step(s, tools, first), tools, second)
  {
    var events := [first, second];
    assert Run(s, tools, [first]) == Step(s, tools, first) by {
      assert [first][..0] == [];
    }
    assert events[..1] == [first];
  }

  lemma ExampleRun()
    ensures
      var r := Run(EXAMPLE_HOST, EXAMPLE_TOOLS, [Client(SendText("hi")), Engine(ToolRequest(EXAMPLE_CALL))]);
      ToldLast(r) && Quiet(r, EXAMPLE_TOOLS, EngineDone(None))
  {
    RunTwo(EXAMPLE_HOST, EXAMPLE_TOOLS, Client(SendText("hi")), Engine(ToolRequest(EXAMPLE_CALL)));
    var s := Step(EXAMPLE_HOST, EXAMPLE_TOOLS, Client(SendText("hi")));
    ExampleSend();
    ExampleRequest(s);
  }

  lemma QuietEndIsStale(s: State, tools: Catalog, events: seq<Event>, e: Event)
    requires ChatInv(s)
    requires ToldLast(Run(s, tools, events)) && Quiet(Run(s, tools, events), tools, e)
    ensures Run(s, tools, events + [e]).heard != [] && !ToldLast(Run(s, tools, events + [e]))
  {
    RunKeepsChat(s, tools, events);
    ChangesAreTold(Run(s, tools, events), tools, e);
    assert (events + [e])[..|events|] == events;
  }

  /** A concrete run in which the last snapshot pushed is not the current one: the model asks for one
      query tool and the stream ends. */
  lemma StaleAfterQueryRequest()
    ensures
      var events := [Client(SendText("hi")), Engine(ToolRequest(EXAMPLE_CALL)), EngineDone(None)];
      var r := Run(EXAMPLE_HOST, EXAMPLE_TOOLS, events);
      r.heard != [] && r.heard[|r.heard| - 1] != Snap(r)
  {
    ExampleRun();
    var events := [Client(SendText("hi")), Engine(ToolRequest(EXAMPLE_CALL))];
    QuietEndIsStale(EXAMPLE_HOST, EXAMPLE_TOOLS, events, EngineDone(None));
    assert events + [EngineDone(None)] == [Client(SendText("hi")), Engine(ToolRequest(EXAMPLE_CALL)), EngineDone(None)];
  }
}
