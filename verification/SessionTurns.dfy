/**
 How turns end: a stopped turn leaves nothing behind, and a clean finish keeps exactly what was shown.
 */
module SessionTurns {
  import opened Prelude
  import opened ToolGate
  import opened Transcript
  import opened Session
  import opened SessionLibrary

  predicate Stopped(s: State) {
    s.conversation.turn.Some? && s.conversation.turn.value.aborted
  }

  /** The conversation is still the active one, and its turn still under way. */
  predicate Going(s: State, id: nat) {
    s.conversation.id == id && s.conversation.turn.Some?
  }

  lemma CommandKeepsStopped(s: State, tools: Catalog, command: Command)
    requires Stopped(s) && command != ClearSession
    ensures Handle(s, tools, command).conversation == s.conversation
  {
  }

  lemma ClearShelves(s: State)
    requires DiskInv(s)
    ensures Clear(s).conversation.id == s.library.nextId
    ensures s.conversation.id in OnDisk(Clear(s)) && OnDisk(Clear(s))[s.conversation.id] == s.conversation.persisted
  {
  }

  /** No event makes a stopped turn store anything or go on. */
  lemma StepKeepsStopped(s: State, tools: Catalog, e: Event)
    requires DiskInv(s) && Stopped(s)
    ensures
      var r := Step(s, tools, e);
      && s.conversation.id in OnDisk(r) && OnDisk(r)[s.conversation.id] == s.conversation.persisted
      && (Going(r, s.conversation.id) ==> Stopped(r) && r.conversation.persisted == s.conversation.persisted)
  {
    match e
    case Client(command) =>
      if !s.disposed {
        if command == ClearSession {
          ClearShelves(s);
        } else {
          CommandKeepsStopped(s, tools, command);
        }
      }
    case Engine(chunk) =>
    case EngineDone(thrown) =>
    case DeliverOutcome(t) =>
    case _ =>
  }

  /** Once a turn is stopped its conversation stores nothing more, up to and including the event that ends
      the turn: what it had streamed is dropped. */
  lemma {:induction false} StoppedTurnStoresNothing(s: State, tools: Catalog, events: seq<Event>)
    requires DiskInv(s) && Stopped(s)
    requires forall n :: 0 <= n < |events| ==> Going(Run(s, tools, events[..n]), s.conversation.id)
    ensures
      var r := Run(s, tools, events);
      && s.conversation.id in OnDisk(r) && OnDisk(r)[s.conversation.id] == s.conversation.persisted
      && (Going(r, s.conversation.id) ==> Stopped(r) && r.conversation.persisted == s.conversation.persisted)
  {
    if events != [] {
      var before := events[..|events| - 1];
      forall n | 0 <= n < |before| ensures Going(Run(s, tools, before[..n]), s.conversation.id) {
        assert before[..n] == events[..n];
      }
      StoppedTurnStoresNothing(s, tools, before);
      RunKeepsDisk(s, tools, before);
      assert Going(Run(s, tools, before), s.conversation.id);
      StepKeepsStopped(Run(s, tools, before), tools, events[|events| - 1]);
    }
  }

  // ---------------------------------------------------------------- what a finish keeps

  /** All that a view shows, the message being filled included. */
  function Shown(view: View): seq<Message> {
    view.messages + if view.streaming.Some? then [view.streaming.value] else []
  }

  lemma {:induction false} KeepSnoc(messages: seq<Message>, last: Message)
    ensures KeepPersistable(messages + [last]) ==
            KeepPersistable(messages) + if Persistable(last) then [last] else []
  {
    if messages == [] {
      assert messages + [last] == [last];
    } else {
      assert (messages + [last])[0] == messages[0] && (messages + [last])[1..] == messages[1..] + [last];
      KeepSnoc(messages[1..], last);
    }
  }

  lemma ShownIsKept(c: Conversation)
    requires c.turn.Some?
    ensures Shown(ViewOf(c)) == c.persisted + KeepPersistable(c.turn.value.messages)
  {
    var turn := c.turn.value;
    if turn.phase.Streaming? && turn.messages != [] {
      var n := |turn.messages| - 1;
      assert turn.messages == turn.messages[..n] + [turn.messages[n]];
      KeepSnoc(turn.messages[..n], turn.messages[n]);
    }
  }

  lemma EndStores(s: State, turn: Turn, failure: Option<string>)
    ensures EndTurn(s, turn, failure).conversation ==
            s.conversation.(turn := None, error := failure,
                            persisted := s.conversation.persisted + Finished(turn, failure))
  {
  }

  /** What is left of a turn: all its messages after a clean finish, none if it was stopped or failed. */
  predicate LeavesOf(c: Conversation, r: Conversation)
    requires c.turn.Some?
  {
    var turn := c.turn.value;
    r.persisted == c.persisted + if turn.aborted || r.error.Some? then [] else KeepPersistable(turn.messages)
  }

  lemma StreamEndStores(s: State, tools: Catalog, thrown: Option<string>)
    requires StreamingTurn(s).Some?
    ensures
      var r := EndStream(s, tools, s.conversation.turn.value, thrown).conversation;
      r.turn.None? ==> LeavesOf(s.conversation, r)
  {
    var turn := s.conversation.turn.value;
    EndStores(s, turn, None);
    EndStores(s, turn, if thrown.Some? then thrown else turn.phase.failure);
  }

  lemma ChunkStores(s: State, tools: Catalog, chunk: EngineChunk)
    requires StreamingTurn(s).Some?
    ensures
      var r := TakeChunk(s, tools, s.conversation.turn.value, chunk).conversation;
      r.turn.None? ==> LeavesOf(s.conversation, r)
  {
    StreamEndStores(s, tools, None);
  }

  lemma StepsRunOut(s: State, turn: Turn)
    ensures
      var r := NextStep(s, turn).conversation;
      r.turn.None? ==> r.persisted == s.conversation.persisted && r.error.Some?
  {
    EndStores(s, turn, OUT_OF_STEPS);
  }

  lemma OutcomeStores(s: State, tools: Catalog, turn: Turn, queue: seq<ToolCall>, outcome: Outcome)
    requires queue != []
    ensures
      var r := TakeOutcome(s, tools, turn, queue, outcome).conversation;
      r.turn.None? ==> r.persisted == s.conversation.persisted && (turn.aborted || r.error.Some?)
  {
    EndStores(s, turn, None);
    var result := ResultPart(queue[0].id, queue[0].tool, outcome.content, outcome.isError);
    var answered := AppendPart(turn, LastParts(turn) + [result]);
    StepsRunOut(Notify(WithTurn(s, answered)), answered.(phase := BetweenSteps));
  }

  lemma DeliveryStores(s: State, tools: Catalog, t: nat)
    requires s.conversation.turn.Some?
    ensures
      var r := DeliverTask(s, tools, t).conversation;
      r.turn.None? ==> LeavesOf(s.conversation, r)
  {
    if t < |s.gate.tasks| && s.gate.tasks[t].phase.Settled? && s.gate.tasks[t].owner.Chat? && InFlight(s, t) {
      var turn := s.conversation.turn.value;
      OutcomeStores(s.(gate := Deliver(s.gate, t)), tools, turn, turn.phase.queue, s.gate.tasks[t].phase.outcome);
    }
  }

  lemma CommandsDoNotEnd(s: State, tools: Catalog, command: Command)
    requires s.conversation.turn.Some? && command != ClearSession
    ensures Handle(s, tools, command).conversation.turn.Some?
  {
  }

  lemma EndingStores(s: State, tools: Catalog, e: Event)
    requires s.conversation.turn.Some? && (e != Client(ClearSession) || s.disposed)
    ensures
      var r := Step(s, tools, e).conversation;
      r.turn.None? ==> LeavesOf(s.conversation, r)
  {
    match e
    case Client(command) =>
      if !s.disposed {
        CommandsDoNotEnd(s, tools, command);
      }
    case Engine(chunk) =>
      if StreamingTurn(s).Some? {
        ChunkStores(s, tools, chunk);
      }
    case EngineDone(thrown) =>
      if StreamingTurn(s).Some? {
        StreamEndStores(s, tools, thrown);
      }
    case DeliverOutcome(t) => DeliveryStores(s, tools, t);
    case _ =>
  }

  /** A turn that ends cleanly leaves exactly what was shown just before, all of it stored; one that was
      stopped or failed leaves what was stored before it. */
  lemma FinishKeepsWhatWasShown(s: State, tools: Catalog, e: Event)
    requires s.conversation.turn.Some? && (e != Client(ClearSession) || s.disposed)
    requires Step(s, tools, e).conversation.turn.None?
    ensures
      var r := Step(s, tools, e).conversation;
      && Shown(ViewOf(r)) == r.persisted
      && r.persisted == (if s.conversation.turn.value.aborted || r.error.Some? then s.conversation.persisted
                         else Shown(ViewOf(s.conversation)))
  {
    ShownIsKept(s.conversation);
    EndingStores(s, tools, e);
    assert s.conversation.persisted + [] == s.conversation.persisted;
  }
}
