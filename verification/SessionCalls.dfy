/**
 What becomes of a gated call, from its start to the place that shows its outcome:
 `resolveApprovedToolCall` (packages/workspace/src/agent/tools.ts) over whole runs of the session.
 */
module SessionCalls {
  import opened Prelude
  import opened ToolGate
  import opened Transcript
  import opened Session
  import opened SessionConsent

  // ---------------------------------------------------------------- the start of a call

  /** `h` is `g` with one call begun: refused at once when the tool is not listed, run at once when it is a
      query or the user has always-allowed it, and otherwise put to the user in one new prompt. */
  ghost predicate Begun(g: Gate, h: Gate, tools: Catalog, owner: Owner, call: ToolCall) {
    var t := |g.tasks|;
    if call.tool !in tools then
      h == g.(tasks := g.tasks +
                       [Task(owner, call, Settled(Outcome("No tool named " + call.tool + " is available.", true)))])
    else if tools[call.tool].kind == Query || exists k :: AlwaysAllows(g, k, call.tool) then
      h == g.(tasks := g.tasks + [Task(owner, call, Running)], ran := g.ran + [t])
    else
      var definition := tools[call.tool];
      var prompt := Prompt(|g.asked|, call.id, call.tool, definition.title, definition.description, call.input);
      h == g.(tasks := g.tasks + [Task(owner, call, Waiting(prompt.id))],
              asked := g.asked + [Entry(prompt, t)],
              pending := g.pending + [Entry(prompt, t)])
  }

  lemma StartBegins(g: Gate, tools: Catalog, owner: Owner, call: ToolCall)
    requires GrantsInv(g)
    ensures Begun(g, Start(g, tools, owner, call), tools, owner, call)
  {
    assert call.tool in g.grants <==> exists k :: AlwaysAllows(g, k, call.tool);
  }

  lemma InvokeStarts(r: State, tools: Catalog, tool: string, input: string)
    requires !r.disposed
    ensures Step(r, tools, Client(InvokeTool(tool, input))).gate ==
            Start(r.gate, tools, Direct(r.invoked), ToolCall(Minted(r.invoked), tool, input))
  {
  }

  /** Whatever ran before, invoking a tool begins one call of it. */
  lemma InvocationBegins(s: State, tools: Catalog, events: seq<Event>, tool: string, input: string)
    requires Fresh(s) && !Run(s, tools, events).disposed
    ensures
      var r := Run(s, tools, events);
      var q := Step(r, tools, Client(InvokeTool(tool, input)));
      && Begun(r.gate, q.gate, tools, Direct(r.invoked), ToolCall(Minted(r.invoked), tool, input))
      && |q.heard| == |r.heard| + 1 + |q.gate.pending| - |r.gate.pending|
  {
    EmptyGateInv(tools);
    RunGate(s, tools, events);
    var r := Run(s, tools, events);
    InvokeStarts(r, tools, tool, input);
    StartBegins(r.gate, tools, Direct(r.invoked), ToolCall(Minted(r.invoked), tool, input));
  }

  // ---------------------------------------------------------------- answering and cancelling

  /** `h` is `g` with its k-th prompt answered: that prompt is resolved, its call told, and its tool granted if that
      was an approval for always. */
  ghost predicate AnsweredAt(g: Gate, h: Gate, k: nat, approved: bool, always: bool)
    requires k < |g.pending| && g.pending[k].task < |g.tasks|
  {
    var entry := g.pending[k];
    && h == g.(pending := g.pending[..k] + g.pending[k + 1..],
               resolved := g.resolved + [Resolution(entry, approved, always)],
               grants := h.grants,
               tasks := g.tasks[entry.task := g.tasks[entry.task].(phase := Answered(entry.prompt.id, approved))])
    && forall tool :: tool in h.grants <==> tool in g.grants || (approved && always && tool == entry.prompt.tool)
  }

  lemma AnswerIsAt(g: Gate, tools: Catalog, k: nat, approved: bool, always: bool)
    requires AskedInv(g, tools) && PendingInv(g) && k < |g.pending|
    ensures g.pending[k].task < |g.tasks|
    ensures AnsweredAt(g, Answer(g, g.pending[k].prompt.id, approved, always), k, approved, always)
  {
    PendingTask(g, tools, k);
    assert FindPending(g.pending, g.pending[k].prompt.id) == k;
  }

  lemma ApproveAnswers(r: State, tools: Catalog, id: nat, approved: bool, always: bool)
    requires !r.disposed
    ensures
      var q := Step(r, tools, Client(ApprovePrompt(id, approved, always)));
      && q.gate == Answer(r.gate, id, approved, always)
      && ((forall k :: 0 <= k < |r.gate.pending| ==> r.gate.pending[k].prompt.id != id) ==> q == r)
  {
  }

  /** Over every run, an answer to a pending prompt answers that prompt and touches no other, and an answer to
      anything else does nothing. */
  lemma AnswersTakeOne(s: State, tools: Catalog, events: seq<Event>, id: nat, approved: bool, always: bool)
    requires Fresh(s) && !Run(s, tools, events).disposed
    ensures
      var r := Run(s, tools, events);
      var q := Step(r, tools, Client(ApprovePrompt(id, approved, always)));
      && (forall k :: 0 <= k < |r.gate.pending| && r.gate.pending[k].prompt.id == id ==>
            r.gate.pending[k].task < |r.gate.tasks| && AnsweredAt(r.gate, q.gate, k, approved, always))
      && ((forall k :: 0 <= k < |r.gate.pending| ==> r.gate.pending[k].prompt.id != id) ==> q == r)
  {
    var g := Run(s, tools, events).gate;
    assert AskedInv(g, tools) && PendingInv(g) by {
      EmptyGateInv(tools);
      RunGate(s, tools, events);
    }
    ApproveAnswers(Run(s, tools, events), tools, id, approved, always);
    forall k | 0 <= k < |g.pending| && g.pending[k].prompt.id == id
      ensures g.pending[k].task < |g.tasks| && AnsweredAt(g, Answer(g, id, approved, always), k, approved, always)
    {
      AnswerIsAt(g, tools, k, approved, always);
    }
  }

  function Denials(pending: seq<Entry>): (denials: seq<Resolution>)
    ensures |denials| == |pending|
    ensures forall k :: 0 <= k < |pending| ==> denials[k] == Resolution(pending[k], false, false)
  {
    seq(|pending|, k requires 0 <= k < |pending| => Resolution(pending[k], false, false))
  }

  lemma CancelUnfolds(g: Gate)
    requires g.pending != []
    ensures CancelAll(g) == CancelAll(ResolveAt(g, 0, false, false))
    ensures ResolveAt(g, 0, false, false).pending == g.pending[1..]
    ensures ResolveAt(g, 0, false, false).resolved == g.resolved + [Resolution(g.pending[0], false, false)]
    ensures |ResolveAt(g, 0, false, false).tasks| == |g.tasks|
    ensures forall t :: 0 <= t < |g.tasks| && t != g.pending[0].task ==>
              ResolveAt(g, 0, false, false).tasks[t] == g.tasks[t]
  {
    assert g.pending[..0] == [];
  }

  lemma DenialsCons(pending: seq<Entry>, resolved: seq<Resolution>)
    requires pending != []
    ensures resolved + Denials(pending) ==
            resolved + [Resolution(pending[0], false, false)] + Denials(pending[1..])
  {
    assert Denials(pending) == [Resolution(pending[0], false, false)] + Denials(pending[1..]);
  }

  lemma {:induction false} CancelResolves(g: Gate)
    ensures CancelAll(g).resolved == g.resolved + Denials(g.pending)
    decreases |g.pending|
  {
    if g.pending == [] {
      assert g.resolved + [] == g.resolved;
    } else {
      CancelUnfolds(g);
      CancelResolves(ResolveAt(g, 0, false, false));
      DenialsCons(g.pending, g.resolved);
    }
  }

  lemma {:induction false} CancelKeepsRest(g: Gate)
    ensures CancelAll(g) == g.(pending := [], resolved := CancelAll(g).resolved, tasks := CancelAll(g).tasks)
    decreases |g.pending|
  {
    if g.pending != [] {
      CancelUnfolds(g);
      CancelKeepsRest(ResolveAt(g, 0, false, false));
    }
  }

  ghost predicate Awaited(pending: seq<Entry>, t: nat) {
    exists e :: e in pending && e.task == t
  }

  lemma {:induction false} CancelSpares(g: Gate, t: nat)
    requires t < |g.tasks| && !Awaited(g.pending, t)
    ensures t < |CancelAll(g).tasks| && CancelAll(g).tasks[t] == g.tasks[t]
    decreases |g.pending|
  {
    if g.pending != [] {
      CancelUnfolds(g);
      assert g.pending[0] in g.pending;
      assert forall e :: e in g.pending[1..] ==> e in g.pending;
      CancelSpares(ResolveAt(g, 0, false, false), t);
    }
  }

  /** Cancelling denies every pending prompt, in order, and touches nothing but the calls they suspend. */
  lemma CancelDeniesInOrder(g: Gate)
    ensures
      var h := CancelAll(g);
      && h == g.(pending := [], resolved := g.resolved + Denials(g.pending), tasks := h.tasks)
      && forall t :: 0 <= t < |g.tasks| && !Awaited(g.pending, t) ==> t < |h.tasks| && h.tasks[t] == g.tasks[t]
  {
    CancelResolves(g);
    CancelKeepsRest(g);
    forall t | 0 <= t < |g.tasks| && !Awaited(g.pending, t)
      ensures t < |CancelAll(g).tasks| && CancelAll(g).tasks[t] == g.tasks[t]
    {
      CancelSpares(g, t);
    }
  }

  // ---------------------------------------------------------------- the signal of a call

  /** The turn is waiting for `t` and was not stopped; a direct call listens to the host alone. */
  ghost predicate SignalClear(s: State, t: nat) {
    && t < |s.gate.tasks| && !s.disposed
    && (s.gate.tasks[t].owner.Chat? ==>
          && s.conversation.turn.Some? && !s.conversation.turn.value.aborted
          && s.conversation.turn.value.phase.Tools?
          && s.conversation.turn.value.phase.queue != [] && s.conversation.turn.value.phase.task == t)
  }

  /** While a prompt stands nobody has stopped its call; a disposed host's turn is stopped. */
  ghost predicate LiveInv(s: State) {
    && (forall t :: 0 <= t < |s.gate.tasks| && s.gate.tasks[t].phase.Waiting? ==> SignalClear(s, t))
    && (s.disposed ==> s.conversation.turn.None? || s.conversation.turn.value.aborted)
  }

  lemma WaitsForPending(g: Gate, tools: Catalog, t: nat)
    requires AskedInv(g, tools) && PendingInv(g) && t < |g.tasks| && g.tasks[t].phase.Waiting?
    ensures g.tasks[t].phase.prompt < |g.asked| && g.asked[g.tasks[t].phase.prompt] in g.pending
  {
    assert g.asked[g.tasks[t].phase.prompt].task == t;
  }

  lemma NobodyWaits(g: Gate, tools: Catalog)
    requires AskedInv(g, tools) && PendingInv(g) && g.pending == []
    ensures forall t :: 0 <= t < |g.tasks| ==> !g.tasks[t].phase.Waiting?
  {
    forall t | 0 <= t < |g.tasks| && g.tasks[t].phase.Waiting? ensures false {
      WaitsForPending(g, tools, t);
    }
  }

  lemma CancelsStopTurns(s: State, tools: Catalog, e: Event)
    requires CancelsPrompts(e) && !s.disposed
    ensures
      var r := Step(s, tools, e);
      && (r.disposed <==> e == DisposeHost)
      && (r.conversation.turn.Some? ==> r.conversation.turn.value.aborted)
  {
  }

  lemma CancelsKeepLive(s: State, tools: Catalog, e: Event)
    requires GateInv(s.gate, tools) && LiveInv(s) && CancelsPrompts(e) && !s.disposed
    ensures LiveInv(Step(s, tools, e))
  {
    CancelsStopTurns(s, tools, e);
    CancelGate(s, tools, e);
    CancelAllInv(s.gate, tools);
    NobodyWaits(Step(s, tools, e).gate, tools);
  }

  /** Opening a turn, when there is none, leaves the prompts of direct calls standing. */
  lemma TurnsKeepLive(s: State, tools: Catalog, command: Command)
    requires LiveInv(s) && !s.disposed && (command.SendText? || command.RetryTurn?)
    ensures LiveInv(Step(s, tools, Client(command)))
  {
    var r := Step(s, tools, Client(command));
    assert r.gate == s.gate && !r.disposed;
    if s.conversation.turn.None? {
      assert forall t :: 0 <= t < |s.gate.tasks| && s.gate.tasks[t].phase.Waiting? ==> s.gate.tasks[t].owner.Direct?;
    }
  }

  lemma AnswersKeepLive(s: State, tools: Catalog, id: nat, approved: bool, always: bool)
    requires LiveInv(s)
    ensures LiveInv(Step(s, tools, Client(ApprovePrompt(id, approved, always))))
  {
  }

  lemma InvokeKeepsLive(s: State, tools: Catalog, tool: string, input: string)
    requires LiveInv(s)
    ensures LiveInv(Step(s, tools, Client(InvokeTool(tool, input))))
  {
  }

  /** While the model streams, or between a call's outcome and the next, no chat call waits. */
  lemma BeginToolLive(s: State, tools: Catalog, turn: Turn, queue: seq<ToolCall>)
    requires queue != [] && !turn.aborted && !s.disposed
    requires forall t :: 0 <= t < |s.gate.tasks| && s.gate.tasks[t].phase.Waiting? ==> s.gate.tasks[t].owner.Direct?
    ensures LiveInv(BeginTool(s, tools, turn, queue))
  {
  }

  lemma EngineKeepsLive(s: State, tools: Catalog, thrown: Option<string>)
    requires LiveInv(s) && StreamingTurn(s).Some?
    ensures LiveInv(EndStream(s, tools, s.conversation.turn.value, thrown))
  {
    var turn := s.conversation.turn.value;
    assert forall t :: 0 <= t < |s.gate.tasks| && s.gate.tasks[t].phase.Waiting? ==> s.gate.tasks[t].owner.Direct?;
    var failure := if thrown.Some? then thrown else turn.phase.failure;
    if !turn.aborted && failure.None? && turn.phase.calls != [] {
      BeginToolLive(s, tools, turn, turn.phase.calls);
    }
  }

  lemma ChunkKeepsLive(s: State, tools: Catalog, chunk: EngineChunk)
    requires LiveInv(s) && StreamingTurn(s).Some?
    ensures LiveInv(TakeChunk(s, tools, s.conversation.turn.value, chunk))
  {
    EngineKeepsLive(s, tools, None);
    assert forall t :: 0 <= t < |s.gate.tasks| && s.gate.tasks[t].phase.Waiting? ==> s.gate.tasks[t].owner.Direct?;
  }

  lemma DeliverKeepsLive(s: State, tools: Catalog, t: nat)
    requires LiveInv(s)
    ensures LiveInv(DeliverTask(s, tools, t))
  {
    if t < |s.gate.tasks| && s.gate.tasks[t].phase.Settled? && s.gate.tasks[t].owner.Chat? && InFlight(s, t) {
      var taken := s.(gate := Deliver(s.gate, t));
      var turn := s.conversation.turn.value;
      var outcome := s.gate.tasks[t].phase.outcome;
      assert forall u :: 0 <= u < |taken.gate.tasks| && taken.gate.tasks[u].phase.Waiting? ==>
                           taken.gate.tasks[u].owner.Direct?;
      if !turn.aborted {
        var result := ResultPart(turn.phase.queue[0].id, turn.phase.queue[0].tool, outcome.content, outcome.isError);
        var answered := AppendPart(turn, LastParts(turn) + [result]);
        if |turn.phase.queue| > 1 {
          BeginToolLive(Notify(WithTurn(taken, answered)), tools, answered, turn.phase.queue[1..]);
        }
      }
    }
  }

  lemma CommandKeepsLive(s: State, tools: Catalog, command: Command)
    requires GateInv(s.gate, tools) && LiveInv(s) && !s.disposed
    ensures LiveInv(Step(s, tools, Client(command)))
  {
    match command
    case SendText(_) => TurnsKeepLive(s, tools, command);
    case RetryTurn => TurnsKeepLive(s, tools, command);
    case StopTurn => CancelsKeepLive(s, tools, Client(command));
    case ClearSession => CancelsKeepLive(s, tools, Client(command));
    case ApprovePrompt(id, approved, always) => AnswersKeepLive(s, tools, id, approved, always);
    case InvokeTool(tool, input) => InvokeKeepsLive(s, tools, tool, input);
  }

  lemma MovesKeepLive(s: State, tools: Catalog, e: Event)
    requires LiveInv(s) && (e.ResumeTask? || e.ToolDone? || e.Tick?)
    ensures LiveInv(Step(s, tools, e))
  {
  }

  lemma StepKeepsLive(s: State, tools: Catalog, e: Event)
    requires GateInv(s.gate, tools) && LiveInv(s)
    ensures LiveInv(Step(s, tools, e))
  {
    match e
    case Client(command) =>
      if !s.disposed {
        CommandKeepsLive(s, tools, command);
      }
    case Engine(chunk) =>
      if StreamingTurn(s).Some? {
        ChunkKeepsLive(s, tools, chunk);
      }
    case EngineDone(thrown) =>
      if StreamingTurn(s).Some? {
        EngineKeepsLive(s, tools, thrown);
      }
    case DeliverOutcome(t) => DeliverKeepsLive(s, tools, t);
    case DisposeHost =>
      if !s.disposed {
        CancelsKeepLive(s, tools, e);
      }
    case _ => MovesKeepLive(s, tools, e);
  }

  /** A host with no call, no turn and no disposal behind it, whatever it resumed. */
  ghost predicate Idle(s: State) {
    Fresh(s) && s.conversation.turn.None? && !s.disposed
  }

  lemma {:induction false} RunKeepsLive(s: State, tools: Catalog, events: seq<Event>)
    requires Idle(s)
    ensures LiveInv(Run(s, tools, events)) && GateInv(Run(s, tools, events).gate, tools)
  {
    EmptyGateInv(tools);
    RunGate(s, tools, events);
    if events != [] {
      RunKeepsLive(s, tools, events[..|events| - 1]);
      StepKeepsLive(Run(s, tools, events[..|events| - 1]), tools, events[|events| - 1]);
    }
  }

  // ---------------------------------------------------------------- an answer stands until the call is woken

  ghost predicate AnsweredAs(g: Gate, t: nat, approved: bool) {
    t < |g.tasks| && g.tasks[t].phase.Answered? && g.tasks[t].phase.approved == approved
  }

  lemma ResolveSparesAnswer(g: Gate, tools: Catalog, k: nat, yes: bool, always: bool, t: nat, approved: bool)
    requires AskedInv(g, tools) && PendingInv(g) && AnsweredAs(g, t, approved) && k < |g.pending|
    ensures AnsweredAs(ResolveAt(g, k, yes, always), t, approved)
  {
    PendingTask(g, tools, k);
  }

  lemma {:induction false} DenyAllKeepsAnswer(g: Gate, tools: Catalog, t: nat, approved: bool)
    requires AskedInv(g, tools) && PendingInv(g) && AnsweredAs(g, t, approved)
    ensures AnsweredAs(CancelAll(g), t, approved)
    decreases |g.pending|
  {
    if g.pending != [] {
      ResolveSparesAnswer(g, tools, 0, false, false, t, approved);
      ResolveKeepsAsked(g, tools, 0, false, false);
      ResolveKeepsPending(g, tools, 0, false, false);
      DenyAllKeepsAnswer(ResolveAt(g, 0, false, false), tools, t, approved);
    }
  }

  predicate Wakes(op: Op, t: nat) {
    op.Wake? && op.task == t
  }

  lemma OpKeepsAnswer(g: Gate, tools: Catalog, op: Op, t: nat, approved: bool)
    requires AskedInv(g, tools) && PendingInv(g) && AnsweredAs(g, t, approved) && !Wakes(op, t)
    ensures AnsweredAs(ToolGate.Apply(g, tools, op), t, approved)
  {
    if op.DenyAll? {
      DenyAllKeepsAnswer(g, tools, t, approved);
    } else if op.Decide? && FindPending(g.pending, op.id) < |g.pending| {
      ResolveSparesAnswer(g, tools, FindPending(g.pending, op.id), op.approved, op.always, t, approved);
    }
  }

  lemma {:induction false} OpsKeepAnswer(g: Gate, tools: Catalog, ops: seq<Op>, t: nat, approved: bool)
    requires GateInv(g, tools) && AnsweredAs(g, t, approved)
    requires forall i :: 0 <= i < |ops| ==> !Wakes(ops[i], t)
    ensures AnsweredAs(ApplyAll(g, tools, ops), t, approved)
    decreases |ops|
  {
    if ops != [] {
      assert !Wakes(ops[0], t);
      OpKeepsAnswer(g, tools, ops[0], t, approved);
      ApplyKeeps(g, tools, ops[0]);
      forall i | 0 <= i < |ops[1..]| ensures !Wakes(ops[1..][i], t) {
        assert !Wakes(ops[i + 1], t);
      }
      OpsKeepAnswer(ToolGate.Apply(g, tools, ops[0]), tools, ops[1..], t, approved);
    }
  }

  lemma OnlyResumptionWakes(s: State, tools: Catalog, e: Event, t: nat)
    requires e != ResumeTask(t)
    ensures forall i :: 0 <= i < |GateOps(s, tools, e)| ==> !Wakes(GateOps(s, tools, e)[i], t)
  {
  }

  lemma StepKeepsGate(s: State, tools: Catalog, e: Event)
    requires GateInv(s.gate, tools)
    ensures GateInv(Step(s, tools, e).gate, tools) && Extends(s.gate, Step(s, tools, e).gate)
  {
    StepGate(s, tools, e);
    ApplyAllInv(s.gate, tools, GateOps(s, tools, e));
    ApplyAllExtends(s.gate, tools, GateOps(s, tools, e));
  }

  lemma StepKeepsAnswer(s: State, tools: Catalog, e: Event, t: nat, approved: bool)
    requires GateInv(s.gate, tools) && AnsweredAs(s.gate, t, approved) && e != ResumeTask(t)
    ensures AnsweredAs(Step(s, tools, e).gate, t, approved)
  {
    StepGate(s, tools, e);
    OnlyResumptionWakes(s, tools, e, t);
    OpsKeepAnswer(s.gate, tools, GateOps(s, tools, e), t, approved);
  }

  /** The events that abort a call: disposal of the host, and for a chat call also a stop or a clear. */
  predicate Aborts(e: Event, owner: Owner) {
    e == DisposeHost || (owner.Chat? && (e == Client(StopTurn) || e == Client(ClearSession)))
  }

  ghost predicate AbortedIn(events: seq<Event>, owner: Owner) {
    exists i :: 0 <= i < |events| && Aborts(events[i], owner)
  }

  lemma OthersKeepSignal(s: State, tools: Catalog, e: Event, t: nat)
    requires SignalClear(s, t) && s.gate.tasks[t].phase.Answered? && !Aborts(e, s.gate.tasks[t].owner)
    ensures !Step(s, tools, e).disposed
    ensures s.gate.tasks[t].owner.Chat? ==> Step(s, tools, e).conversation == s.conversation
  {
  }

  lemma StepKeepsSignal(s: State, tools: Catalog, e: Event, t: nat, approved: bool)
    requires GateInv(s.gate, tools) && SignalClear(s, t) && AnsweredAs(s.gate, t, approved)
    requires e != ResumeTask(t)
    ensures if Aborts(e, s.gate.tasks[t].owner) then Doomed(Step(s, tools, e), t) else SignalClear(Step(s, tools, e), t)
  {
    StepKeepsAnswer(s, tools, e, t, approved);
    StepKeepsGate(s, tools, e);
    if Aborts(e, s.gate.tasks[t].owner) {
      CancelDooms(s, tools, e, t);
    } else {
      OthersKeepSignal(s, tools, e, t);
    }
  }

  lemma AbortedInSnoc(events: seq<Event>, e: Event, owner: Owner)
    ensures AbortedIn(events + [e], owner) <==> AbortedIn(events, owner) || Aborts(e, owner)
  {
    var all := events + [e];
    if AbortedIn(events, owner) {
      var i :| 0 <= i < |events| && Aborts(events[i], owner);
      assert Aborts(all[i], owner);
    }
    assert all[|events|] == e;
  }

  ghost predicate Signals(s: State, t: nat, stopped: bool) {
    if stopped then Doomed(s, t) else SignalClear(s, t)
  }

  /** Whatever happens before a call with an answered prompt is woken, the answer stands, and the call is
      aborted exactly if the turn was stopped or cleared, or the host disposed, in between. */
  lemma {:induction false} AnswerStands(s: State, tools: Catalog, later: seq<Event>, t: nat, approved: bool,
                                        stopped: bool)
    requires GateInv(s.gate, tools) && AnsweredAs(s.gate, t, approved) && Signals(s, t, stopped)
    requires ResumeTask(t) !in later
    ensures
      var z := Run(s, tools, later);
      && GateInv(z.gate, tools) && AnsweredAs(z.gate, t, approved)
      && z.gate.tasks[t].owner == s.gate.tasks[t].owner
      && Signals(z, t, stopped || AbortedIn(later, s.gate.tasks[t].owner))
  {
    if later != [] {
      var before, e := later[..|later| - 1], later[|later| - 1];
      assert later == before + [e];
      AnswerStands(s, tools, before, t, approved, stopped);
      AbortedInSnoc(before, e, s.gate.tasks[t].owner);
      var z := Run(s, tools, before);
      StepKeepsAnswer(z, tools, e, t, approved);
      StepKeepsGate(z, tools, e);
      if stopped || AbortedIn(before, s.gate.tasks[t].owner) {
        StepDoomed(z, tools, e, t);
      } else {
        StepKeepsSignal(z, tools, e, t, approved);
      }
    }
  }

  /** `h` is `g` after task `t`, whose prompt was answered, was woken. */
  ghost predicate Woken(g: Gate, h: Gate, t: nat, approved: bool, stopped: bool)
    requires t < |g.tasks|
  {
    if stopped then
      h == g.(tasks := g.tasks[t := g.tasks[t].(phase := Settled(Outcome("Stopped before the tool ran.", true)))])
    else if !approved then
      h == g.(tasks := g.tasks[t := g.tasks[t].(phase := Settled(Outcome("Denied by the user.", true)))])
    else
      h == g.(tasks := g.tasks[t := g.tasks[t].(phase := Running)], ran := g.ran + [t])
  }

  lemma WakingObeys(z: State, tools: Catalog, t: nat, approved: bool, stopped: bool)
    requires AnsweredAs(z.gate, t, approved) && Signals(z, t, stopped)
    ensures Woken(z.gate, Step(z, tools, ResumeTask(t)).gate, t, approved, stopped)
  {
    assert stopped <==> Aborted(z, t);
  }

  lemma ApprovalAnswers(r: State, tools: Catalog, k: nat, approved: bool, always: bool)
    requires AskedInv(r.gate, tools) && PendingInv(r.gate) && LiveInv(r) && k < |r.gate.pending|
    ensures
      var entry := r.gate.pending[k];
      var q := Step(r, tools, Client(ApprovePrompt(entry.prompt.id, approved, always)));
      && entry.task < |r.gate.tasks| && q.gate == ResolveAt(r.gate, k, approved, always)
      && q.conversation == r.conversation && q.disposed == r.disposed
      && SignalClear(r, entry.task)
  {
    PendingTask(r.gate, tools, k);
    assert FindPending(r.gate.pending, r.gate.pending[k].prompt.id) == k;
  }

  lemma AnsweredIsClear(r: State, q: State, k: nat, approved: bool, always: bool)
    requires k < |r.gate.pending| && r.gate.pending[k].task < |r.gate.tasks|
    requires q.gate == ResolveAt(r.gate, k, approved, always)
    requires q.conversation == r.conversation && q.disposed == r.disposed && SignalClear(r, r.gate.pending[k].task)
    ensures SignalClear(q, r.gate.pending[k].task) && AnsweredAs(q.gate, r.gate.pending[k].task, approved)
    ensures q.gate.tasks[r.gate.pending[k].task].owner == r.gate.tasks[r.gate.pending[k].task].owner
  {
  }

  lemma AnswerIsObeyed(r: State, tools: Catalog, k: nat, approved: bool, always: bool, later: seq<Event>)
    requires GateInv(r.gate, tools) && LiveInv(r) && k < |r.gate.pending|
    requires ResumeTask(r.gate.pending[k].task) !in later
    ensures
      var entry := r.gate.pending[k];
      var z := Run(Step(r, tools, Client(ApprovePrompt(entry.prompt.id, approved, always))), tools, later);
      && entry.task < |r.gate.tasks| && entry.task < |z.gate.tasks|
      && Woken(z.gate, Step(z, tools, ResumeTask(entry.task)).gate, entry.task, approved,
               AbortedIn(later, r.gate.tasks[entry.task].owner))
  {
    var entry := r.gate.pending[k];
    var q := Step(r, tools, Client(ApprovePrompt(entry.prompt.id, approved, always)));
    ApprovalAnswers(r, tools, k, approved, always);
    AnsweredIsClear(r, q, k, approved, always);
    StepKeepsGate(r, tools, Client(ApprovePrompt(entry.prompt.id, approved, always)));
    AnswerStands(q, tools, later, entry.task, approved, false);
    WakingObeys(Run(q, tools, later), tools, entry.task, approved, AbortedIn(later, r.gate.tasks[entry.task].owner));
  }

  /** An answer is obeyed. In every reachable state, answer a pending prompt; let anything happen before the
      call it suspends is woken, and wake it. If its turn was stopped or cleared, or the host disposed, in
      between, it is settled as stopped; otherwise an approved call reaches its tool at that moment and a
      denied one is settled as denied. Nothing else changes at the gate. */
  lemma AnswersAreObeyed(s: State, tools: Catalog, events: seq<Event>, k: nat, approved: bool, always: bool,
                         later: seq<Event>)
    requires Idle(s) && k < |Run(s, tools, events).gate.pending|
    requires ResumeTask(Run(s, tools, events).gate.pending[k].task) !in later
    ensures
      var r := Run(s, tools, events);
      var entry := r.gate.pending[k];
      var z := Run(Step(r, tools, Client(ApprovePrompt(entry.prompt.id, approved, always))), tools, later);
      && entry.task < |r.gate.tasks| && entry.task < |z.gate.tasks|
      && Woken(z.gate, Step(z, tools, ResumeTask(entry.task)).gate, entry.task, approved,
               AbortedIn(later, r.gate.tasks[entry.task].owner))
  {
    RunKeepsLive(s, tools, events);
    AnswerIsObeyed(Run(s, tools, events), tools, k, approved, always, later);
  }

  lemma ResolveFirst(g: Gate, tools: Catalog)
    requires AskedInv(g, tools) && PendingInv(g) && g.pending != []
    ensures
      var h := ResolveAt(g, 0, false, false);
      && AskedInv(h, tools) && PendingInv(h) && h.pending == g.pending[1..]
      && AnsweredAs(h, g.pending[0].task, false)
  {
    PendingTask(g, tools, 0);
    ResolveKeepsAsked(g, tools, 0, false, false);
    ResolveKeepsPending(g, tools, 0, false, false);
    assert g.pending[..0] == [];
  }

  lemma {:induction false} CancelAllAnswers(g: Gate, tools: Catalog, k: nat)
    requires AskedInv(g, tools) && PendingInv(g) && k < |g.pending|
    ensures AnsweredAs(CancelAll(g), g.pending[k].task, false)
    decreases |g.pending|
  {
    ResolveFirst(g, tools);
    CancelUnfolds(g);
    var h := ResolveAt(g, 0, false, false);
    if k == 0 {
      DenyAllKeepsAnswer(h, tools, g.pending[0].task, false);
    } else {
      CancelAllAnswers(h, tools, k - 1);
    }
  }

  lemma CancelIsObeyed(r: State, tools: Catalog, k: nat, e: Event, later: seq<Event>)
    requires GateInv(r.gate, tools) && LiveInv(r) && k < |r.gate.pending| && CancelsPrompts(e)
    requires ResumeTask(r.gate.pending[k].task) !in later
    ensures
      var t := r.gate.pending[k].task;
      var z := Run(Step(r, tools, e), tools, later);
      && t < |r.gate.tasks| && t < |z.gate.tasks|
      && Woken(z.gate, Step(z, tools, ResumeTask(t)).gate, t, false, AbortedIn([e] + later, r.gate.tasks[t].owner))
  {
    var t := r.gate.pending[k].task;
    var q := Step(r, tools, e);
    PendingTask(r.gate, tools, k);
    CancelGate(r, tools, e);
    CancelAllAnswers(r.gate, tools, k);
    StepKeepsGate(r, tools, e);
    var owner := r.gate.tasks[t].owner;
    if Aborts(e, owner) {
      CancelDooms(r, tools, e, t);
    } else {
      CancelsStopTurns(r, tools, e);
    }
    AnswerStands(q, tools, later, t, false, Aborts(e, owner));
    AbortedInCons(e, later, owner);
    WakingObeys(Run(q, tools, later), tools, t, false, AbortedIn([e] + later, owner));
  }

  lemma AbortedInCons(e: Event, events: seq<Event>, owner: Owner)
    ensures AbortedIn([e] + events, owner) <==> Aborts(e, owner) || AbortedIn(events, owner)
  {
    var all := [e] + events;
    assert all[0] == e;
    if AbortedIn(events, owner) {
      var i :| 0 <= i < |events| && Aborts(events[i], owner);
      assert Aborts(all[i + 1], owner);
    }
  }

  /** Cancelling is obeyed too. A prompt pending when the turn is stopped or cleared, or the host disposed, ends
      its call the next time it is woken: as stopped if the call is the turn's or the host was disposed, and as
      denied if it is a direct call of a host that stands. */
  lemma CancelsAreObeyed(s: State, tools: Catalog, events: seq<Event>, k: nat, e: Event, later: seq<Event>)
    requires Idle(s) && k < |Run(s, tools, events).gate.pending| && CancelsPrompts(e)
    requires ResumeTask(Run(s, tools, events).gate.pending[k].task) !in later
    ensures
      var r := Run(s, tools, events);
      var t := r.gate.pending[k].task;
      var z := Run(Step(r, tools, e), tools, later);
      && t < |r.gate.tasks| && t < |z.gate.tasks|
      && Woken(z.gate, Step(z, tools, ResumeTask(t)).gate, t, false, AbortedIn([e] + later, r.gate.tasks[t].owner))
  {
    RunKeepsLive(s, tools, events);
    CancelIsObeyed(Run(s, tools, events), tools, k, e, later);
  }
}
