/**
 What one turn of the agent loop (packages/workspace/src/agent/loop.ts) does with what it is given: the text
 sent, the chunks of the model's stream, the outcomes of its calls, and what is shown meanwhile.
 */
module SessionReplies {
  import opened Prelude
  import opened Strings
  import opened ToolGate
  import opened Transcript
  import opened PromptReading
  import opened Session
  import opened SessionConsent
  import opened SessionTranscript
  import opened SessionCalls
  import opened SessionTurns

  // ---------------------------------------------------------------- opening a turn

  /** A turn whose first model call has just been made, with nothing back from it. */
  predicate JustOpened(c: Conversation) {
    c.turn == Some(Turn([Message(Assistant, [])], false, 1, Streaming([], None))) && c.error == None
  }

  lemma OpeningTurn(s: State)
    ensures
      var r := RunTurn(s);
      && JustOpened(r.conversation) && r.conversation.persisted == s.conversation.persisted
      && EngineHistory(r) == s.conversation.persisted
      && r.gate == s.gate
  {
    assert [Message(Assistant, [])][..0] == [];
    assert s.conversation.persisted + [] == s.conversation.persisted;
  }

  lemma SaidFreezes(text: string)
    requires text != ""
    ensures Freeze([Message(User, [Text(text)])]) == [UserTurn(text)]
  {
    var message := Message(User, [Text(text)]);
    assert [] + message.parts == message.parts;
    PartsAdd([], Text(text));
    assert ProseOf(message.parts) == "" + text == text;
    assert [message][1..] == [];
  }

  /** A text sent to an idle conversation is stored trimmed, and the model is asked at once, with a prompt that is
      the stored conversation and ends in exactly that text. A blank text, or one sent while a turn runs, does
      nothing. */
  lemma SendAsksTheModel(s: State, tools: Catalog, content: string)
    requires !s.disposed
    ensures
      var r := Step(s, tools, Client(SendText(content)));
      if Blank(content) || s.conversation.turn.Some? then r == s
      else
        && r.conversation.persisted == s.conversation.persisted + [Message(User, [Text(Trim(content))])]
        && JustOpened(r.conversation)
        && Freeze(EngineHistory(r)) == Freeze(s.conversation.persisted) + [UserTurn(Trim(content))]
        && r.gate == s.gate
  {
    TrimmedAway(content);
    if CanSend(s, content) {
      var message := Message(User, [Text(Trim(content))]);
      OpeningTurn(Persist(s, [message]));
      FreezeSplit(s.conversation.persisted, [message]);
      SaidFreezes(Trim(content));
    }
  }

  lemma TrimmedAway(text: string)
    ensures Trim(text) == "" <==> Blank(text)
  {
    TrimStrips(text);
    var before, after :| Strips(text, before, Trim(text), after);
    if Trim(text) != "" {
      assert text[|before|] == Trim(text)[0];
    }
  }

  /** A retry of an idle conversation asks the model with the stored conversation; during a turn it does nothing. */
  lemma RetryAsksTheModel(s: State, tools: Catalog)
    requires !s.disposed
    ensures
      var r := Step(s, tools, Client(RetryTurn));
      if s.conversation.turn.Some? then r == s
      else
        && r.conversation.persisted == s.conversation.persisted && JustOpened(r.conversation)
        && EngineHistory(r) == s.conversation.persisted && r.gate == s.gate
  {
    if s.conversation.turn.None? {
      OpeningTurn(s);
    }
  }

  // ---------------------------------------------------------------- the model's stream

  /** What a message being filled holds, and the error the stream last reported. */
  datatype Reply = Reply(prose: string, calls: seq<ToolCall>, failure: Option<string>)

  /** Deltas and requests add up in the order in which they come; the last error reported counts. */
  function Heeding(reply: Reply, chunk: EngineChunk): Reply {
    match chunk
    case TextDelta(delta) => reply.(prose := reply.prose + delta)
    case ToolRequest(call) => reply.(calls := reply.calls + [call])
    case RunError(message) => reply.(failure := Some(message))
  }

  function HeedingAll(reply: Reply, chunks: seq<EngineChunk>): Reply {
    if chunks == [] then reply
    else Heeding(HeedingAll(reply, chunks[..|chunks| - 1]), chunks[|chunks| - 1])
  }

  function FromEngine(chunks: seq<EngineChunk>): (events: seq<Event>)
    ensures |events| == |chunks|
    ensures forall i :: 0 <= i < |chunks| ==> events[i] == Engine(chunks[i])
  {
    seq(|chunks|, i requires 0 <= i < |chunks| => Engine(chunks[i]))
  }

  /** The turn is streaming, was not stopped, and its last message is an assistant's that holds `reply`. */
  predicate Filling(c: Conversation, reply: Reply) {
    && c.turn.Some? && !c.turn.value.aborted && c.turn.value.messages != []
    && c.turn.value.phase == Streaming(reply.calls, reply.failure)
    && HoldsReply(LastParts(c.turn.value), reply)
  }

  predicate HoldsReply(parts: seq<Part>, reply: Reply) {
    ProseOf(parts) == reply.prose && CallsOf(parts) == reply.calls && ResultsOf(parts) == []
  }

  /** `r` is `c` but for the parts of its last message and the phase of its turn. */
  predicate LastOnly(c: Conversation, r: Conversation)
    requires c.turn.Some? && c.turn.value.messages != []
    requires r.turn.Some? && r.turn.value.messages != []
  {
    var turn, after := c.turn.value, r.turn.value;
    var last := turn.messages[|turn.messages| - 1].(parts := LastParts(after));
    && r == c.(turn := Some(after))
    && after == turn.(messages := Init(turn.messages) + [last], phase := after.phase)
  }

  lemma AppendIsLastOnly(c: Conversation, parts: seq<Part>, phase: TurnPhase)
    requires c.turn.Some? && c.turn.value.messages != []
    ensures
      var turn := AppendPart(c.turn.value, parts).(phase := phase);
      turn.messages != [] && LastOnly(c, c.(turn := Some(turn))) && LastParts(turn) == parts
  {
    var messages := c.turn.value.messages;
    var last := |messages| - 1;
    assert messages[last := messages[last].(parts := parts)] == messages[..last] + [messages[last].(parts := parts)];
  }

  lemma ChunkHeeded(s: State, tools: Catalog, chunk: EngineChunk, reply: Reply)
    requires Filling(s.conversation, reply)
    ensures
      var r := Step(s, tools, Engine(chunk)).conversation;
      Filling(r, Heeding(reply, chunk)) && LastOnly(s.conversation, r)
  {
    var turn := s.conversation.turn.value;
    var parts := LastParts(turn);
    match chunk
    case TextDelta(delta) =>
      AppendTextAdds(parts, delta);
      AppendIsLastOnly(s.conversation, AppendText(parts, delta), turn.phase);
    case ToolRequest(call) =>
      PartsAdd(parts, CallPart(call));
      AppendIsLastOnly(s.conversation, parts + [CallPart(call)], turn.phase.(calls := turn.phase.calls + [call]));
    case RunError(message) =>
      AppendIsLastOnly(s.conversation, parts, turn.phase.(failure := Some(message)));
      assert Init(turn.messages) + [turn.messages[|turn.messages| - 1]] == turn.messages;
  }

  lemma LastOnlyTransitive(a: Conversation, b: Conversation, c: Conversation)
    requires a.turn.Some? && a.turn.value.messages != [] && b.turn.Some? && b.turn.value.messages != []
    requires c.turn.Some? && c.turn.value.messages != []
    requires LastOnly(a, b) && LastOnly(b, c)
    ensures LastOnly(a, c)
  {
  }

  /** A stream adds up: after any chunks the message being filled holds the text and the calls it had, followed
      by all the deltas and all the requests in order, the last error reported is remembered, and nothing else
      of the conversation has changed. */
  lemma {:induction false} StreamAddsUp(s: State, tools: Catalog, chunks: seq<EngineChunk>, reply: Reply)
    requires Filling(s.conversation, reply)
    ensures
      var r := Run(s, tools, FromEngine(chunks)).conversation;
      Filling(r, HeedingAll(reply, chunks)) && LastOnly(s.conversation, r)
  {
    if chunks == [] {
      var messages := s.conversation.turn.value.messages;
      assert Init(messages) + [messages[|messages| - 1]] == messages;
    } else {
      var n := |chunks| - 1;
      StreamAddsUp(s, tools, chunks[..n], reply);
      assert FromEngine(chunks)[..n] == FromEngine(chunks[..n]);
      var before := Run(s, tools, FromEngine(chunks[..n]));
      ChunkHeeded(before, tools, chunks[n], HeedingAll(reply, chunks[..n]));
      LastOnlyTransitive(s.conversation, before.conversation, Step(before, tools, Engine(chunks[n])).conversation);
    }
  }

  // ---------------------------------------------------------------- the end of a stream

  lemma TurnEnds(r: State, tools: Catalog, reply: Reply, thrown: Option<string>)
    requires Filling(r.conversation, reply)
    ensures
      var q := EndStream(r, tools, r.conversation.turn.value, thrown);
      var c := r.conversation;
      var failure := if thrown.Some? then thrown else reply.failure;
      var kept := if failure.Some? then [] else KeepPersistable(c.turn.value.messages);
      failure.Some? || reply.calls == [] ==>
        && q.conversation == c.(turn := None, error := failure, persisted := c.persisted + kept)
        && q.gate == r.gate
  {
    EndStores(r, r.conversation.turn.value, if thrown.Some? then thrown else reply.failure);
  }

  lemma FirstCallBegins(r: State, tools: Catalog, reply: Reply, thrown: Option<string>)
    requires GrantsInv(r.gate) && Filling(r.conversation, reply)
    requires thrown.None? && reply.failure.None? && reply.calls != []
    ensures
      var q := EndStream(r, tools, r.conversation.turn.value, thrown);
      var turn := r.conversation.turn.value;
      && q.conversation == r.conversation.(turn := Some(turn.(phase := Tools(reply.calls, |r.gate.tasks|))))
      && Begun(r.gate, q.gate, tools, Chat, reply.calls[0])
  {
    StartBegins(r.gate, tools, Chat, reply.calls[0]);
  }

  /** `q` is `r` after the stream of its live turn, whose message holds `reply`, ended. */
  ghost predicate StreamOver(r: State, q: State, tools: Catalog, reply: Reply, thrown: Option<string>)
    requires Filling(r.conversation, reply)
  {
    var c, turn := r.conversation, r.conversation.turn.value;
    var failure := if thrown.Some? then thrown else reply.failure;
    if failure.Some? then
      q.conversation == c.(turn := None, error := failure) && q.gate == r.gate
    else if reply.calls == [] then
      && q.conversation == c.(turn := None, error := None, persisted := c.persisted + KeepPersistable(turn.messages))
      && q.gate == r.gate
    else
      && q.conversation == c.(turn := Some(turn.(phase := Tools(reply.calls, |r.gate.tasks|))))
      && Begun(r.gate, q.gate, tools, Chat, reply.calls[0])
  }

  lemma StreamIsOver(r: State, tools: Catalog, reply: Reply, thrown: Option<string>)
    requires GrantsInv(r.gate) && Filling(r.conversation, reply)
    ensures StreamOver(r, EndStream(r, tools, r.conversation.turn.value, thrown), tools, reply, thrown)
  {
    if thrown.None? && reply.failure.None? && reply.calls != [] {
      FirstCallBegins(r, tools, reply, thrown);
    } else {
      TurnEnds(r, tools, reply, thrown);
      assert r.conversation.persisted + [] == r.conversation.persisted;
    }
  }

  lemma RunGrants(s: State, tools: Catalog, events: seq<Event>)
    requires Fresh(s)
    ensures GrantsInv(Run(s, tools, events).gate)
  {
    EmptyGateInv(tools);
    RunGate(s, tools, events);
  }

  /** When the stream of a live turn ends: an error, thrown or reported, ends the turn with that error and nothing
      kept; a reply that asks for no call ends it with everything kept; otherwise the first call asked for is
      begun, and the turn waits for it. */
  lemma StreamEnds(s: State, tools: Catalog, events: seq<Event>, reply: Reply, thrown: Option<string>)
    requires Fresh(s) && Filling(Run(s, tools, events).conversation, reply)
    ensures
      var r := Run(s, tools, events);
      StreamOver(r, Step(r, tools, EngineDone(thrown)), tools, reply, thrown)
  {
    RunGrants(s, tools, events);
    StreamIsOver(Run(s, tools, events), tools, reply, thrown);
  }

  /** A stopped turn ends with its stream: nothing is kept and no call is begun. */
  lemma StoppedStreamEnds(s: State, tools: Catalog, thrown: Option<string>)
    requires StreamingTurn(s).Some? && s.conversation.turn.value.aborted
    ensures
      var r := Step(s, tools, EngineDone(thrown));
      r.conversation == s.conversation.(turn := None, error := None) && r.gate == s.gate
  {
    EndStores(s, s.conversation.turn.value, None);
    assert s.conversation.persisted + [] == s.conversation.persisted;
  }

  // ---------------------------------------------------------------- outcomes

  /** Turns count their messages, one a step, and take no more than fifty. */
  predicate Counted(c: Conversation) {
    c.turn.Some? ==> 1 <= c.turn.value.steps == |c.turn.value.messages| <= 50
  }

  lemma NextStepCounts(s: State, turn: Turn)
    requires turn.steps == |turn.messages|
    ensures Counted(NextStep(s, turn).conversation)
  {
  }

  lemma EndCounts(s: State, tools: Catalog, thrown: Option<string>)
    requires StreamingTurn(s).Some? && Counted(s.conversation)
    ensures Counted(EndStream(s, tools, s.conversation.turn.value, thrown).conversation)
  {
  }

  lemma ChunkCounts(s: State, tools: Catalog, chunk: EngineChunk)
    requires StreamingTurn(s).Some? && Counted(s.conversation)
    ensures Counted(TakeChunk(s, tools, s.conversation.turn.value, chunk).conversation)
  {
    EndCounts(s, tools, None);
  }

  lemma OutcomeCounts(s: State, tools: Catalog, t: nat)
    requires Counted(s.conversation)
    ensures Counted(DeliverTask(s, tools, t).conversation)
  {
    if t < |s.gate.tasks| && s.gate.tasks[t].phase.Settled? && s.gate.tasks[t].owner.Chat? && InFlight(s, t) {
      var turn, outcome := s.conversation.turn.value, s.gate.tasks[t].phase.outcome;
      var result := ResultPart(turn.phase.queue[0].id, turn.phase.queue[0].tool, outcome.content, outcome.isError);
      var answered := AppendPart(turn, LastParts(turn) + [result]);
      NextStepCounts(Notify(WithTurn(s.(gate := Deliver(s.gate, t)), answered)), answered.(phase := BetweenSteps));
    }
  }

  lemma CommandCounts(s: State, tools: Catalog, command: Command)
    requires Counted(s.conversation)
    ensures Counted(Handle(s, tools, command).conversation)
  {
  }

  lemma StepCounts(s: State, tools: Catalog, e: Event)
    requires Counted(s.conversation)
    ensures Counted(Step(s, tools, e).conversation)
  {
    match e
    case Client(command) => CommandCounts(s, tools, command);
    case Engine(chunk) =>
      if StreamingTurn(s).Some? {
        ChunkCounts(s, tools, chunk);
      }
    case EngineDone(thrown) =>
      if StreamingTurn(s).Some? {
        EndCounts(s, tools, thrown);
      }
    case DeliverOutcome(t) => OutcomeCounts(s, tools, t);
    case _ =>
  }

  lemma {:induction false} RunCounts(s: State, tools: Catalog, events: seq<Event>)
    requires s.conversation.turn.None?
    ensures Counted(Run(s, tools, events).conversation)
  {
    if events != [] {
      RunCounts(s, tools, events[..|events| - 1]);
      StepCounts(Run(s, tools, events[..|events| - 1]), tools, events[|events| - 1]);
    }
  }

  /** `g` after the settled outcome of `t` was handed over. */
  function HandedOver(g: Gate, t: nat, outcome: Outcome): Gate
    requires t < |g.tasks|
  {
    g.(tasks := g.tasks[t := g.tasks[t].(phase := Delivered(outcome))])
  }

  /** `q` is `r` after the settled outcome of the call its live turn waits for came back. */
  ghost predicate Answered(r: State, q: State, tools: Catalog, queue: seq<ToolCall>, t: nat, outcome: Outcome)
    requires t < |r.gate.tasks| && queue != [] && r.conversation.turn.Some?
  {
    var c, turn := r.conversation, r.conversation.turn.value;
    var result := ResultPart(queue[0].id, queue[0].tool, outcome.content, outcome.isError);
    var answered := Init(turn.messages) + [Message(Assistant, LastParts(turn) + [result])];
    var taken := HandedOver(r.gate, t, outcome);
    if |queue| > 1 then
      && q.conversation == c.(turn := Some(turn.(messages := answered, phase := Tools(queue[1..], |r.gate.tasks|))))
      && Begun(taken, q.gate, tools, Chat, queue[1])
    else if |turn.messages| < 50 then
      && q.conversation ==
         c.(turn := Some(Turn(answered + [Message(Assistant, [])], false, |answered| + 1, Streaming([], None))))
      && q.gate == taken
    else
      && q.conversation == c.(turn := None, error := Some("Stopped after 50 steps without a final answer."))
      && q.gate == taken
  }

  lemma AnswerTaken(r: State, tools: Catalog, t: nat, queue: seq<ToolCall>, outcome: Outcome)
    requires GrantsInv(r.gate) && Counted(r.conversation) && r.conversation.turn.Some?
    requires TurnInv(r.conversation.turn.value) && !r.conversation.turn.value.aborted
    requires r.conversation.turn.value.phase == Tools(queue, t)
    requires t < |r.gate.tasks| && r.gate.tasks[t].phase == Settled(outcome)
    ensures
      var taken := r.(gate := Deliver(r.gate, t));
      Answered(r, TakeOutcome(taken, tools, r.conversation.turn.value, queue, outcome), tools, queue, t, outcome)
  {
    var turn := r.conversation.turn.value;
    var result := ResultPart(queue[0].id, queue[0].tool, outcome.content, outcome.isError);
    AppendIsLastOnly(r.conversation, LastParts(turn) + [result], turn.phase);
    var taken := r.(gate := Deliver(r.gate, t));
    var shown := Notify(WithTurn(taken, AppendPart(turn, LastParts(turn) + [result])));
    if |queue| > 1 {
      SameResolvedSameGrants(r.gate, taken.gate);
      StartBegins(taken.gate, tools, Chat, queue[1]);
    } else {
      EndStores(shown, AppendPart(turn, LastParts(turn) + [result]).(phase := BetweenSteps), OUT_OF_STEPS);
    }
  }

  lemma RunInvs(s: State, tools: Catalog, events: seq<Event>)
    requires Idle(s) && AllComplete(s.conversation.persisted)
    ensures
      var r := Run(s, tools, events);
      GrantsInv(r.gate) && Counted(r.conversation) && ChatInv(r)
  {
    RunGrants(s, tools, events);
    RunCounts(s, tools, events);
    RunKeepsChat(s, tools, events);
  }

  /** What the delivery of a chat call's outcome does. */
  ghost predicate Returned(r: State, q: State, tools: Catalog, t: nat)
    requires t < |r.gate.tasks| && r.gate.tasks[t].phase.Settled?
  {
    var task, turn := r.gate.tasks[t], r.conversation.turn;
    if turn.None? || !turn.value.phase.Tools? || turn.value.phase.task != t then
      q.conversation == r.conversation && q.gate == HandedOver(r.gate, t, task.phase.outcome)
    else if turn.value.aborted then
      && q.conversation == r.conversation.(turn := None, error := None)
      && q.gate == HandedOver(r.gate, t, task.phase.outcome)
    else
      var queue, parts := turn.value.phase.queue, LastParts(turn.value);
      && queue != [] && queue[0] == task.call
      && |ResultsOf(parts)| <= |CallsOf(parts)| && queue == CallsOf(parts)[|ResultsOf(parts)|..]
      && Answered(r, q, tools, queue, t, task.phase.outcome)
  }

  lemma OutcomeReturns(r: State, tools: Catalog, t: nat)
    requires GrantsInv(r.gate) && Counted(r.conversation) && ChatInv(r)
    requires t < |r.gate.tasks| && r.gate.tasks[t].phase.Settled? && r.gate.tasks[t].owner.Chat?
    ensures Returned(r, DeliverTask(r, tools, t), tools, t)
  {
    if InFlight(r, t) {
      var turn, outcome := r.conversation.turn.value, r.gate.tasks[t].phase.outcome;
      if turn.aborted {
        EndStores(r.(gate := Deliver(r.gate, t)), turn, None);
        assert r.conversation.persisted + [] == r.conversation.persisted;
      } else {
        AnswerTaken(r, tools, t, turn.phase.queue, outcome);
      }
    }
  }

  /** Over every run, the outcome of the call the turn waits for is shown as the answer to exactly that call, the
      next one its message still owes an answer; then the call after it is begun, or, once all are answered, the
      model is asked again, or the turn ends with an error after fifty steps. An outcome that comes back to a
      stopped turn ends it, and one no turn waits for any more is dropped. */
  lemma OutcomesReturn(s: State, tools: Catalog, events: seq<Event>, t: nat)
    requires Idle(s) && AllComplete(s.conversation.persisted)
    requires
      var tasks := Run(s, tools, events).gate.tasks;
      t < |tasks| && tasks[t].phase.Settled? && tasks[t].owner.Chat?
    ensures
      var r := Run(s, tools, events);
      Returned(r, Step(r, tools, DeliverOutcome(t)), tools, t)
  {
    RunInvs(s, tools, events);
    OutcomeReturns(Run(s, tools, events), tools, t);
  }

  /** When that makes the model be asked again, its prompt ends in the outcome. */
  lemma OutcomeReachesTheModel(r: State, q: State, tools: Catalog, queue: seq<ToolCall>, t: nat, outcome: Outcome)
    requires t < |r.gate.tasks| && |queue| == 1 && r.conversation.turn.Some?
    requires Answered(r, q, tools, queue, t, outcome) && StreamingTurn(q).Some?
    ensures
      var prompt := Freeze(EngineHistory(q));
      prompt != [] && prompt[|prompt| - 1] == ToolTurn(queue[0].id, queue[0].tool, outcome.content)
  {
    var turn := r.conversation.turn.value;
    var result := ResultPart(queue[0].id, queue[0].tool, outcome.content, outcome.isError);
    var message := Message(Assistant, LastParts(turn) + [result]);
    var before := r.conversation.persisted + Init(turn.messages);
    assert EngineHistory(q) == before + [message];
    FreezeSplit(before, [message]);
    assert [message][1..] == [];
    assert Freeze([message]) == FreezeOne(message);
    PartsAdd(LastParts(turn), result);
    ResultsAreResults(message.parts);
  }

  /** A call in progress takes the outcome its tool comes back with, and nothing else moves at the gate. */
  lemma ToolsSettle(s: State, tools: Catalog, t: nat, outcome: Outcome)
    ensures
      var r := Step(s, tools, ToolDone(t, outcome));
      if t < |s.gate.tasks| && s.gate.tasks[t].phase.Running? then
        r == s.(gate := s.gate.(tasks := s.gate.tasks[t := s.gate.tasks[t].(phase := Settled(outcome))]))
      else r == s
  {
  }

  // ---------------------------------------------------------------- what is shown

  /** A view says what is stored and what the turn has built so far, whether a turn runs, and whether it has
      anything to show yet. */
  lemma ViewTells(c: Conversation)
    ensures
      var view := ViewOf(c);
      var built := if c.turn.Some? then KeepPersistable(c.turn.value.messages) else [];
      && Shown(view) == c.persisted + built
      && (view.isGenerating <==> c.turn.Some?)
      && (view.isThinking <==> c.turn.Some? && built == [])
      && view.error == c.error
      && (view.streaming.Some? <==>
          && c.turn.Some? && c.turn.value.phase.Streaming? && c.turn.value.messages != []
          && Persistable(c.turn.value.messages[|c.turn.value.messages| - 1]))
  {
    if c.turn.Some? {
      ShownIsKept(c);
      var turn := c.turn.value;
      if turn.phase.Streaming? && turn.messages != [] {
        var n := |turn.messages| - 1;
        assert turn.messages == turn.messages[..n] + [turn.messages[n]];
        KeepSnoc(turn.messages[..n], turn.messages[n]);
      }
    }
  }

  /** A stop marks the turn and leaves the rest of the conversation; a clear leaves an empty conversation of a new
      id; neither touches the log of invocations. */
  lemma StopMarksClearEmpties(s: State, tools: Catalog)
    requires !s.disposed
    ensures
      var stopped := Step(s, tools, Client(StopTurn));
      var cleared := Step(s, tools, Client(ClearSession));
      && stopped.conversation ==
         (if s.conversation.turn.None? then s.conversation
          else s.conversation.(turn := Some(s.conversation.turn.value.(aborted := true))))
      && cleared.conversation == Conversation(s.library.nextId, [], None, None)
      && stopped.invocations == cleared.invocations == s.invocations
      && |stopped.heard| == |s.heard| + (if s.gate.pending == [] then 0 else 1)
      && |cleared.heard| == |stopped.heard| + 1
  {
  }
}
