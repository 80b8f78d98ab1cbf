/**
 Safety of the approval gate over whole runs of the session: mutations run with consent only,
 prompts are conserved, and an abort or a denial is final.
 */
module SessionConsent {
  import opened Prelude
  import opened ToolGate
  import opened Session

  /** What one event does to the gate. */
  function GateOps(s: State, tools: Catalog, e: Event): seq<Op> {
    match e
    case Client(command) =>
      if s.disposed then [] else CommandOps(s, command)
    case Engine(_) => []
    case EngineDone(thrown) => FirstCall(s, thrown)
    case ResumeTask(t) => [Wake(t, Aborted(s, t))]
    case ToolDone(t, outcome) => [Conclude(t, outcome)]
    case DeliverOutcome(t) => [Consume(t)] + NextCall(s, t)
    case DisposeHost => if s.disposed then [] else [DenyAll]
    case Tick => []
  }

  function CommandOps(s: State, command: Command): seq<Op> {
    match command
    case SendText(_) => []
    case StopTurn => [DenyAll]
    case RetryTurn => []
    case ClearSession => [DenyAll]
    case ApprovePrompt(id, approved, always) => [Decide(id, approved, always)]
    case InvokeTool(tool, input) => [Begin(Direct(s.invoked), ToolCall(Minted(s.invoked), tool, input))]
  }

  lemma CommandGate(s: State, tools: Catalog, command: Command)
    ensures Handle(s, tools, command).gate == ApplyAll(s.gate, tools, CommandOps(s, command))
  {
  }

  /** A stream that ends cleanly with tool requests starts the first of them. */
  function FirstCall(s: State, thrown: Option<string>): seq<Op> {
    var turn := StreamingTurn(s);
    if turn.Some? && !turn.value.aborted && thrown.None? && turn.value.phase.failure.None?
       && turn.value.phase.calls != []
    then [Begin(Chat, turn.value.phase.calls[0])]
    else []
  }

  /** A chat call that came back to a live turn starts the next one queued. */
  function NextCall(s: State, t: nat): seq<Op> {
    if t < |s.gate.tasks| && s.gate.tasks[t].phase.Settled? && s.gate.tasks[t].owner.Chat? && InFlight(s, t)
       && !s.conversation.turn.value.aborted && |s.conversation.turn.value.phase.queue| > 1
    then [Begin(Chat, s.conversation.turn.value.phase.queue[1])]
    else []
  }

  lemma EndStreamGate(s: State, tools: Catalog, thrown: Option<string>)
    requires StreamingTurn(s).Some?
    ensures EndStream(s, tools, s.conversation.turn.value, thrown).gate ==
            ApplyAll(s.gate, tools, FirstCall(s, thrown))
  {
  }

  lemma DeliverGate(s: State, tools: Catalog, t: nat)
    ensures DeliverTask(s, tools, t).gate == ApplyAll(s.gate, tools, [Consume(t)] + NextCall(s, t))
  {
    var ops := [Consume(t)] + NextCall(s, t);
    assert ops[1..] == NextCall(s, t);
    var g := Deliver(s.gate, t);
    if NextCall(s, t) != [] {
      var turn := s.conversation.turn.value;
      assert turn.phase.queue[1..][0] == turn.phase.queue[1];
      assert ApplyAll(g, tools, NextCall(s, t)) == Start(g, tools, Chat, turn.phase.queue[1]);
    }
  }

  lemma StepGate(s: State, tools: Catalog, e: Event)
    ensures Step(s, tools, e).gate == ApplyAll(s.gate, tools, GateOps(s, tools, e))
  {
    match e
    case Client(command) =>
      if !s.disposed {
        CommandGate(s, tools, command);
      }
    case Engine(chunk) =>
    case EngineDone(thrown) =>
      if StreamingTurn(s).Some? {
        EndStreamGate(s, tools, thrown);
      }
    case ResumeTask(t) =>
    case ToolDone(t, outcome) =>
    case DeliverOutcome(t) => DeliverGate(s, tools, t);
    case DisposeHost =>
    case Tick =>
  }

  lemma {:induction false} RunGate(s: State, tools: Catalog, events: seq<Event>)
    requires GateInv(s.gate, tools)
    ensures GateInv(Run(s, tools, events).gate, tools)
    ensures Extends(s.gate, Run(s, tools, events).gate)
  {
    if events != [] {
      var before := Run(s, tools, events[..|events| - 1]);
      RunGate(s, tools, events[..|events| - 1]);
      StepGate(before, tools, events[|events| - 1]);
      ApplyAllInv(before.gate, tools, GateOps(before, tools, events[|events| - 1]));
      ApplyAllExtends(before.gate, tools, GateOps(before, tools, events[|events| - 1]));
      ExtendsTransitive(s.gate, before.gate, Run(s, tools, events).gate);
    }
  }

  ghost predicate Fresh(s: State) {
    s.gate == EMPTY_GATE
  }

  lemma EmptyGateInv(tools: Catalog)
    ensures GateInv(EMPTY_GATE, tools)
  {
    assert forall k, tool :: !AlwaysAllows(EMPTY_GATE, k, tool);
  }

  /** No command, interleaving or restart of a turn can run a mutation without consent: whatever
      reached `tools.resolve` was listed, ran once, and, if a mutation, had its own prompt approved or
      its tool granted for the session; no prompt raised for it was ever denied. */
  lemma MutationsRunWithConsent(s: State, tools: Catalog, events: seq<Event>)
    requires Fresh(s)
    ensures
      var g := Run(s, tools, events).gate;
      && (forall i :: 0 <= i < |g.ran| ==> g.ran[i] < |g.tasks| && Consented(g, tools, g.ran[i]))
      && (forall i, j :: 0 <= i < j < |g.ran| ==> g.ran[i] != g.ran[j])
      && (forall k :: 0 <= k < |g.resolved| && !g.resolved[k].approved ==> g.resolved[k].entry.task !in g.ran)
  {
    EmptyGateInv(tools);
    RunGate(s, tools, events);
    var g := Run(s, tools, events).gate;
    forall k | 0 <= k < |g.resolved| && !g.resolved[k].approved
      ensures g.resolved[k].entry.task !in g.ran
    {
      assert ResolvesTask(g, k, g.resolved[k].entry.task);
    }
  }

  /** The prompts ever requested are the disjoint union of those pending and those resolved, none
      resolved twice; and the session's grants are exactly the tools some answer always-allowed. */
  lemma PromptsAreConserved(s: State, tools: Catalog, events: seq<Event>)
    requires Fresh(s)
    ensures
      var g := Run(s, tools, events).gate;
      && multiset(g.asked) == multiset(g.pending) + multiset(EntriesOf(g.resolved))
      && (forall i, j :: 0 <= i < j < |g.asked| ==> g.asked[i] != g.asked[j])
      && (forall tool :: tool in g.grants <==> exists k :: AlwaysAllows(g, k, tool))
  {
    EmptyGateInv(tools);
    RunGate(s, tools, events);
  }

  // ---------------------------------------------------------------- aborts are final

  /** A call whose signal is aborted before it ran: it will not. */
  ghost predicate Doomed(s: State, t: nat) {
    t < |s.gate.tasks| && Aborted(s, t) && t !in s.gate.ran
  }

  /** The tasks in flight after a step were in flight before, or are new. */
  ghost predicate NoRevival(s: State, r: State) {
    && (s.disposed ==> r.disposed)
    && (forall t :: 0 <= t < |s.gate.tasks| && InFlight(r, t) ==>
          InFlight(s, t) && (s.conversation.turn.value.aborted ==> r.conversation.turn.value.aborted))
  }

  lemma DeliverRevivesNone(s: State, tools: Catalog, t: nat)
    ensures NoRevival(s, DeliverTask(s, tools, t))
  {
    assert |Deliver(s.gate, t).tasks| == |s.gate.tasks|;
  }

  lemma StreamRevivesNone(s: State, tools: Catalog, thrown: Option<string>)
    requires StreamingTurn(s).Some?
    ensures NoRevival(s, EndStream(s, tools, s.conversation.turn.value, thrown))
  {
  }

  lemma CommandRevivesNone(s: State, tools: Catalog, command: Command)
    ensures NoRevival(s, Handle(s, tools, command))
  {
  }

  lemma StepRevivesNone(s: State, tools: Catalog, e: Event)
    ensures NoRevival(s, Step(s, tools, e))
  {
    match e
    case Client(command) => CommandRevivesNone(s, tools, command);
    case Engine(chunk) =>
      if StreamingTurn(s).Some? {
        StreamRevivesNone(s, tools, None);
      }
    case EngineDone(thrown) =>
      if StreamingTurn(s).Some? {
        StreamRevivesNone(s, tools, thrown);
      }
    case ResumeTask(t) =>
    case ToolDone(t, outcome) =>
    case DeliverOutcome(t) => DeliverRevivesNone(s, tools, t);
    case DisposeHost =>
    case Tick =>
  }

  lemma {:induction false} OpsNeverRun(g: Gate, tools: Catalog, ops: seq<Op>, t: nat)
    requires t < |g.tasks| && t !in g.ran && Wake(t, false) !in ops
    ensures t < |ApplyAll(g, tools, ops).tasks| && t !in ApplyAll(g, tools, ops).ran
    ensures ApplyAll(g, tools, ops).tasks[t].owner == g.tasks[t].owner
    decreases |ops|
  {
    if ops != [] {
      RunsOnlyAwake(g, tools, ops[0], t);
      OpsNeverRun(Apply(g, tools, ops[0]), tools, ops[1..], t);
    }
  }

  lemma StepDoomed(s: State, tools: Catalog, e: Event, t: nat)
    requires Doomed(s, t)
    ensures Doomed(Step(s, tools, e), t)
  {
    StepGate(s, tools, e);
    assert Wake(t, false) !in GateOps(s, tools, e);
    OpsNeverRun(s.gate, tools, GateOps(s, tools, e), t);
    StepRevivesNone(s, tools, e);
  }

  lemma {:induction false} DoomedForever(s: State, tools: Catalog, events: seq<Event>, t: nat)
    requires Doomed(s, t)
    ensures Doomed(Run(s, tools, events), t)
  {
    if events != [] {
      DoomedForever(s, tools, events[..|events| - 1], t);
      StepDoomed(Run(s, tools, events[..|events| - 1]), tools, events[|events| - 1], t);
    }
  }

  lemma {:induction false} CancelAllDenies(g: Gate, k: nat)
    requires k < |g.pending|
    ensures Resolution(g.pending[k], false, false) in CancelAll(g).resolved
    decreases |g.pending|
  {
    var h := ResolveAt(g, 0, false, false);
    if k == 0 {
      CancelAllGrows(h);
      assert h.resolved[|g.resolved|] == Resolution(g.pending[0], false, false);
    } else {
      assert h.pending[k - 1] == g.pending[k];
      CancelAllDenies(h, k - 1);
    }
  }

  lemma {:induction false} CancelAllGrows(g: Gate)
    ensures g.resolved <= CancelAll(g).resolved && CancelAll(g).pending == []
    decreases |g.pending|
  {
    if g.pending != [] {
      CancelAllGrows(ResolveAt(g, 0, false, false));
    }
  }

  predicate CancelsPrompts(e: Event) {
    e == Client(StopTurn) || e == Client(ClearSession) || e == DisposeHost
  }

  /** A prompt once denied, with whatever always-allow flag, keeps its call from running. */
  lemma DeniedNeverRuns(s: State, tools: Catalog, later: seq<Event>, entry: Entry, always: bool)
    requires GateInv(s.gate, tools) && Resolution(entry, false, always) in s.gate.resolved
    ensures entry.task !in Run(s, tools, later).gate.ran
  {
    RunGate(s, tools, later);
    DeniedStays(s.gate, Run(s, tools, later).gate, tools, entry, always);
  }

  lemma DeniedStays(g: Gate, h: Gate, tools: Catalog, entry: Entry, always: bool)
    requires RanInv(h, tools) && Extends(g, h) && Resolution(entry, false, always) in g.resolved
    ensures entry.task !in h.ran
  {
    var k :| 0 <= k < |g.resolved| && g.resolved[k] == Resolution(entry, false, always);
    assert h.resolved[k] == g.resolved[k];
    assert ResolvesTask(h, k, entry.task);
  }

  lemma CancelGate(s: State, tools: Catalog, e: Event)
    requires CancelsPrompts(e) && !s.disposed
    ensures Step(s, tools, e).gate == CancelAll(s.gate)
  {
    CancelAllGrows(s.gate);
  }

  lemma CancelDooms(s: State, tools: Catalog, e: Event, t: nat)
    requires CancelsPrompts(e) && !s.disposed
    requires t < |s.gate.tasks| && t !in s.gate.ran && (s.gate.tasks[t].owner.Chat? || e == DisposeHost)
    ensures Doomed(Step(s, tools, e), t)
  {
    CancelGate(s, tools, e);
    RunsOnlyAwake(s.gate, tools, DenyAll, t);
  }

  lemma CancelledNeverRuns(s: State, tools: Catalog, e: Event, later: seq<Event>, k: nat)
    requires GateInv(s.gate, tools) && CancelsPrompts(e) && !s.disposed && k < |s.gate.pending|
    ensures s.gate.pending[k].task !in Run(Step(s, tools, e), tools, later).gate.ran
  {
    CancelGate(s, tools, e);
    CancelAllInv(s.gate, tools);
    CancelAllDenies(s.gate, k);
    DeniedNeverRuns(Step(s, tools, e), tools, later, s.gate.pending[k], false);
  }

  /** A stop, a clear or disposal leaves no prompt pending, and none of the calls they were raised for
      ever runs; nor does any chat call that had not started (on disposal, any call at all), even one
      whose approval had already arrived. */
  lemma CancelIsFinal(start: State, tools: Catalog, events: seq<Event>, e: Event, later: seq<Event>)
    requires Fresh(start) && CancelsPrompts(e) && !Run(start, tools, events).disposed
    ensures
      var s := Run(start, tools, events);
      var r := Step(s, tools, e);
      var end := Run(r, tools, later);
      && r.gate.pending == []
      && (forall k :: 0 <= k < |s.gate.pending| ==> s.gate.pending[k].task !in end.gate.ran)
      && (forall t :: 0 <= t < |s.gate.tasks| && t !in s.gate.ran ==>
            (s.gate.tasks[t].owner.Chat? || e == DisposeHost) ==> t !in end.gate.ran)
  {
    var s := Run(start, tools, events);
    assert GateInv(s.gate, tools) by {
      EmptyGateInv(tools);
      RunGate(start, tools, events);
    }
    var r := Step(s, tools, e);
    CancelGate(s, tools, e);
    CancelAllGrows(s.gate);
    forall k | 0 <= k < |s.gate.pending|
      ensures s.gate.pending[k].task !in Run(r, tools, later).gate.ran
    {
      CancelledNeverRuns(s, tools, e, later, k);
    }
    forall t | 0 <= t < |s.gate.tasks| && t !in s.gate.ran && (s.gate.tasks[t].owner.Chat? || e == DisposeHost)
      ensures t !in Run(r, tools, later).gate.ran
    {
      CancelDooms(s, tools, e, t);
      DoomedForever(r, tools, later, t);
    }
  }
}
