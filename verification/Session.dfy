/**
 The host-owned Query session as a state machine: `createQueryHost` and `createSessionApproval`
 (apps/epicenter/src/host.ts) over the agent loop (packages/workspace/src/agent/loop.ts).

 One `Event` is one macrotask the process runs to completion: a client command, an engine chunk,
 the resumption of a suspended tool call, disposal, or the millisecond clock ticking. An event that
 does not apply to the state (a chunk with no turn streaming, a resumption of a task that is not
 suspended there) leaves it unchanged, so every sequence of events is a run.

 `heard` records what `host.snapshot()` returned at each call of `notify`, the value every
 subscribed transport pushes at that moment.
 */
module Session {
  import opened Prelude
  import opened Strings
  import opened ToolGate
  import opened Transcript
  import Log = InvocationLog

  const MAX_STEPS := 50

  // ---------------------------------------------------------------- the agent loop's turn

  datatype TurnPhase =
    | Streaming(calls: seq<ToolCall>, failure: Option<string>) // the last message is being filled
    | Tools(queue: seq<ToolCall>, task: nat)                   // queue[0] is in flight as `task`
    | BetweenSteps

  datatype Turn = Turn(messages: seq<Message>, aborted: bool, steps: nat, phase: TurnPhase)

  datatype Conversation = Conversation(id: nat, persisted: seq<Message>, turn: Option<Turn>, error: Option<string>)

  datatype View = View(messages: seq<Message>, streaming: Option<Message>,
                       isThinking: bool, isGenerating: bool, error: Option<string>)

  /** The messages of the turn that no step is filling. */
  function Quiescent(turn: Turn): seq<Message> {
    if turn.phase.Streaming? && turn.messages != [] then turn.messages[..|turn.messages| - 1] else turn.messages
  }

  function Filling(turn: Turn): Option<Message> {
    if turn.phase.Streaming? && turn.messages != [] && Persistable(turn.messages[|turn.messages| - 1])
    then Some(turn.messages[|turn.messages| - 1])
    else None
  }

  /** `conversation.snapshot()`. */
  function ViewOf(c: Conversation): View {
    match c.turn
    case None => View(c.persisted, None, false, false, c.error)
    case Some(turn) =>
      var completed := KeepPersistable(Quiescent(turn));
      View(c.persisted + completed, Filling(turn), Filling(turn).None? && completed == [], true, c.error)
  }

  // ---------------------------------------------------------------- durable rows and stores

  datatype Row = Row(title: string, createdAt: nat, updatedAt: nat)

  datatype Lifecycle = Opened(id: nat) | Bound(id: nat) | Unbound(id: nat) | Parked(id: nat) | Disposed(id: nat)

  /** The conversations table, the transcripts of inactive conversations, the clock of row writes, and
      what happened to conversations and their stores, in order. */
  datatype Library = Library(rows: map<nat, Row>, shelved: map<nat, seq<Message>>, clock: nat, nextId: nat,
                             lifecycle: seq<Lifecycle>, parked: seq<nat>)

  // ---------------------------------------------------------------- the session

  datatype Snapshot = Snapshot(conversation: View, pendingApprovals: seq<Prompt>, invocations: seq<Log.Invocation>)

  datatype State = State(
    gate: Gate,
    invocations: seq<Log.Invocation>,
    invoked: nat,
    conversation: Conversation,
    library: Library,
    disposed: bool,
    heard: seq<Snapshot>)

  function Prompts(pending: seq<Entry>): (prompts: seq<Prompt>)
    ensures |prompts| == |pending|
    ensures forall k :: 0 <= k < |pending| ==> prompts[k] == pending[k].prompt
  {
    if pending == [] then [] else [pending[0].prompt] + Prompts(pending[1..])
  }

  function Snap(s: State): Snapshot {
    Snapshot(ViewOf(s.conversation), Prompts(s.gate.pending), s.invocations)
  }

  function Notify(s: State): State {
    s.(heard := s.heard + [Snap(s)])
  }

  // ---------------------------------------------------------------- approvals and invocations

  /** Start one gated call; raising a prompt notifies. */
  function Launch(s: State, tools: Catalog, owner: Owner, call: ToolCall): State {
    var started := s.(gate := Start(s.gate, tools, owner, call));
    if Asks(s.gate, tools, call) then Notify(started) else started
  }

  function Cancel(s: State): State {
    if s.gate.pending == [] then s else Notify(s.(gate := CancelAll(s.gate)))
  }

  function Approve(s: State, id: nat, approved: bool, always: bool): State {
    if FindPending(s.gate.pending, id) == |s.gate.pending| then s
    else Notify(s.(gate := Answer(s.gate, id, approved, always)))
  }

  function PushRecord(s: State, tool: string): State {
    var record := Log.Invocation(s.invoked, tool, Log.Running, None);
    Notify(s.(invoked := s.invoked + 1, invocations := Log.Push(s.invocations, record)))
  }

  function Invoke(s: State, tools: Catalog, tool: string, input: string): State {
    Launch(PushRecord(s, tool), tools, Direct(s.invoked), ToolCall(Minted(s.invoked), tool, input))
  }

  // ---------------------------------------------------------------- the turn machine

  function WithTurn(s: State, turn: Turn): State {
    s.(conversation := s.conversation.(turn := Some(turn)))
  }

  /** `r` differs from `s` in the conversation's turn and in what was heard, and its transcript is at
      most longer. */
  ghost predicate ChatOnly(s: State, r: State) {
    && r == s.(conversation := r.conversation, heard := r.heard)
    && r.conversation.id == s.conversation.id
    && s.conversation.persisted <= r.conversation.persisted
  }

  /** Store finished messages one by one; the store's observer notifies after each. */
  function Persist(s: State, finished: seq<Message>): (r: State)
    ensures ChatOnly(s, r)
    ensures r.conversation == s.conversation.(persisted := s.conversation.persisted + finished)
    ensures |r.heard| == |s.heard| + |finished| && s.heard <= r.heard
    decreases |finished|
  {
    if finished == [] then s
    else Persist(Notify(s.(conversation := s.conversation.(persisted := s.conversation.persisted + [finished[0]]))),
                 finished[1..])
  }

  function Finished(turn: Turn, failure: Option<string>): seq<Message> {
    if turn.aborted || failure.Some? then [] else KeepPersistable(turn.messages)
  }

  function EndTurn(s: State, turn: Turn, failure: Option<string>): (r: State)
    ensures ChatOnly(s, r)
  {
    Notify(Persist(s.(conversation := s.conversation.(turn := None, error := failure)), Finished(turn, failure)))
  }

  const OUT_OF_STEPS := Some("Stopped after 50 steps without a final answer.")

  /** The head of the loop: a fresh assistant message to fill, or the runaway backstop. */
  function NextStep(s: State, turn: Turn): (r: State)
    ensures ChatOnly(s, r)
  {
    if turn.steps >= MAX_STEPS then EndTurn(s, turn, OUT_OF_STEPS)
    else Notify(WithTurn(s, turn.(messages := turn.messages + [Message(Assistant, [])],
                                  steps := turn.steps + 1,
                                  phase := Streaming([], None))))
  }

  function RunTurn(s: State): (r: State)
    ensures ChatOnly(s, r)
  {
    var turn := Turn([], false, 0, BetweenSteps);
    NextStep(Notify(WithTurn(s.(conversation := s.conversation.(error := None)), turn)), turn)
  }

  function BeginTool(s: State, tools: Catalog, turn: Turn, queue: seq<ToolCall>): State
    requires queue != []
  {
    Launch(WithTurn(s, turn.(phase := Tools(queue, |s.gate.tasks|))), tools, Chat, queue[0])
  }

  function AppendPart(turn: Turn, parts: seq<Part>): Turn {
    if turn.messages == [] then turn
    else
      var last := |turn.messages| - 1;
      turn.(messages := turn.messages[last := turn.messages[last].(parts := parts)])
  }

  function LastParts(turn: Turn): seq<Part> {
    if turn.messages == [] then [] else turn.messages[|turn.messages| - 1].parts
  }

  /** The engine's stream is over (or threw): the step ends. */
  function EndStream(s: State, tools: Catalog, turn: Turn, thrown: Option<string>): State
    requires turn.phase.Streaming?
  {
    var failure := if thrown.Some? then thrown else turn.phase.failure;
    if turn.aborted then EndTurn(s, turn, None)
    else if failure.Some? then EndTurn(s, turn, failure)
    else if turn.phase.calls == [] then EndTurn(s, turn, None)
    else BeginTool(s, tools, turn, turn.phase.calls)
  }

  datatype EngineChunk = TextDelta(delta: string) | ToolRequest(call: ToolCall) | RunError(message: string)

  function TakeChunk(s: State, tools: Catalog, turn: Turn, chunk: EngineChunk): State
    requires turn.phase.Streaming?
  {
    if turn.aborted then EndStream(s, tools, turn, None)
    else match chunk
      case TextDelta(delta) =>
        Notify(WithTurn(s, AppendPart(turn, AppendText(LastParts(turn), delta))))
      case ToolRequest(call) =>
        Notify(WithTurn(s, AppendPart(turn, LastParts(turn) + [CallPart(call)])
                           .(phase := turn.phase.(calls := turn.phase.calls + [call]))))
      case RunError(message) =>
        WithTurn(s, turn.(phase := turn.phase.(failure := Some(message))))
  }

  /** `runTools` after one call came back. */
  function TakeOutcome(s: State, tools: Catalog, turn: Turn, queue: seq<ToolCall>, outcome: Outcome): State
    requires queue != []
  {
    if turn.aborted then EndTurn(s, turn, None)
    else
      var result := ResultPart(queue[0].id, queue[0].tool, outcome.content, outcome.isError);
      var answered := AppendPart(turn, LastParts(turn) + [result]);
      var shown := Notify(WithTurn(s, answered));
      if |queue| > 1 then BeginTool(shown, tools, answered, queue[1..])
      else NextStep(shown, answered.(phase := BetweenSteps))
  }

  // ---------------------------------------------------------------- commands

  function First50(content: string): string {
    if |content| <= 50 then content else content[..50]
  }

  /** `touchConversationRow`: mint the active row on its first send, or bump its recency. */
  function TouchRow(lib: Library, id: nat, content: string): Library {
    var now := lib.clock;
    var row :=
      if id !in lib.rows then Row(First50(content), now, now)
      else lib.rows[id].(title := if lib.rows[id].title == "New Chat" then First50(content) else lib.rows[id].title,
                         updatedAt := now);
    lib.(rows := lib.rows[id := row])
  }

  predicate CanSend(s: State, content: string) {
    Trim(content) != "" && s.conversation.turn.None?
  }

  function Send(s: State, content: string): State {
    if !CanSend(s, content) then s
    else
      var started := RunTurn(Persist(s, [Message(User, [Text(Trim(content))])]));
      started.(library := TouchRow(started.library, s.conversation.id, content))
  }

  function AbortTurn(c: Conversation): Conversation {
    match c.turn
    case None => c
    case Some(turn) => c.(turn := Some(turn.(aborted := true)))
  }

  function Stop(s: State): State {
    Cancel(s.(conversation := AbortTurn(s.conversation)))
  }

  function Retry(s: State): State {
    if s.conversation.turn.Some? then s else RunTurn(s)
  }

  /** Shelve the active store's transcript and open a fresh conversation. */
  function SwapConversation(s: State): State {
    var c := s.conversation;
    var lib := s.library;
    s.(conversation := Conversation(lib.nextId, [], None, None),
       library := lib.(shelved := lib.shelved[c.id := c.persisted],
                       nextId := lib.nextId + 1,
                       lifecycle := lib.lifecycle + [Opened(lib.nextId), Bound(lib.nextId)]))
  }

  function Retire(s: State): State {
    var id := s.conversation.id;
    s.(conversation := AbortTurn(s.conversation),
       library := s.library.(lifecycle := s.library.lifecycle + [Unbound(id), Parked(id), Disposed(id)],
                             parked := s.library.parked + [id]))
  }

  function Clear(s: State): State {
    Notify(SwapConversation(Cancel(Retire(s))))
  }

  function Dispose(s: State): State {
    var id := s.conversation.id;
    Cancel(s.(conversation := AbortTurn(s.conversation),
              library := s.library.(lifecycle := s.library.lifecycle + [Disposed(id)]),
              disposed := true))
  }

  // ---------------------------------------------------------------- suspended calls

  /** The abort signal a task was handed: the host's for a direct invocation, its turn's for chat. */
  predicate Aborted(s: State, t: nat) {
    t < |s.gate.tasks| &&
    match s.gate.tasks[t].owner
    case Direct(_) => s.disposed
    case Chat => !InFlight(s, t) || s.conversation.turn.value.aborted
  }

  /** Is `t` the call the active turn is awaiting? */
  predicate InFlight(s: State, t: nat) {
    && s.conversation.turn.Some?
    && s.conversation.turn.value.phase.Tools?
    && s.conversation.turn.value.phase.queue != []
    && s.conversation.turn.value.phase.task == t
  }

  function DeliverTask(s: State, tools: Catalog, t: nat): State {
    if t >= |s.gate.tasks| || !s.gate.tasks[t].phase.Settled? then s
    else
      var outcome := s.gate.tasks[t].phase.outcome;
      var taken := s.(gate := Deliver(s.gate, t));
      match s.gate.tasks[t].owner
      case Direct(record) =>
        Notify(taken.(invocations := Log.Settle(s.invocations, record, outcome.content, outcome.isError)))
      case Chat =>
        if InFlight(s, t) then
          TakeOutcome(taken, tools, s.conversation.turn.value, s.conversation.turn.value.phase.queue, outcome)
        else taken
  }

  // ---------------------------------------------------------------- runs

  datatype Command =
    | SendText(content: string)
    | StopTurn
    | RetryTurn
    | ClearSession
    | ApprovePrompt(requestId: nat, approved: bool, always: bool)
    | InvokeTool(tool: string, input: string)

  datatype Event =
    | Client(command: Command)
    | Engine(chunk: EngineChunk)
    | EngineDone(thrown: Option<string>)
    | ResumeTask(task: nat)
    | ToolDone(task: nat, outcome: Outcome)
    | DeliverOutcome(task: nat)
    | DisposeHost
    | Tick

  /** `handleCommand`. */
  function Handle(s: State, tools: Catalog, command: Command): State {
    match command
    case SendText(content) => Send(s, content)
    case StopTurn => Stop(s)
    case RetryTurn => Retry(s)
    case ClearSession => Clear(s)
    case ApprovePrompt(id, approved, always) => Approve(s, id, approved, always)
    case InvokeTool(tool, input) => Invoke(s, tools, tool, input)
  }

  function StreamingTurn(s: State): Option<Turn> {
    if s.conversation.turn.Some? && s.conversation.turn.value.phase.Streaming?
    then s.conversation.turn
    else None
  }

  function Step(s: State, tools: Catalog, e: Event): State {
    match e
    case Client(command) => if s.disposed then s else Handle(s, tools, command)
    case Engine(chunk) =>
      if StreamingTurn(s).Some? then TakeChunk(s, tools, s.conversation.turn.value, chunk) else s
    case EngineDone(thrown) =>
      if StreamingTurn(s).Some? then EndStream(s, tools, s.conversation.turn.value, thrown) else s
    case ResumeTask(t) => s.(gate := Resume(s.gate, t, Aborted(s, t)))
    case ToolDone(t, outcome) => s.(gate := Finish(s.gate, t, outcome))
    case DeliverOutcome(t) => DeliverTask(s, tools, t)
    case DisposeHost => if s.disposed then s else Dispose(s)
    case Tick => s.(library := s.library.(clock := s.library.clock + 1))
  }

  function Run(s: State, tools: Catalog, events: seq<Event>): State {
    if events == [] then s else Step(Run(s, tools, events[..|events| - 1]), tools, events[|events| - 1])
  }

  // ---------------------------------------------------------------- boot

  /** The boot scan over the rows the table lists, in listing order: the latest row wins, the first
      listed among equals. */
  function Latest(rows: seq<(nat, Row)>): Option<(nat, Row)> {
    if rows == [] then None
    else
      var before := Latest(rows[..|rows| - 1]);
      var row := rows[|rows| - 1];
      if before.None? || row.1.updatedAt > before.value.1.updatedAt then Some(row) else before
  }

  function StoredMessages(shelved: map<nat, seq<Message>>, id: nat): seq<Message> {
    if id in shelved then shelved[id] else []
  }

  /** A host over a data directory: `rows` as listed, the stored transcripts, and a freshly minted id. */
  function Boot(rows: map<nat, Row>, listed: seq<(nat, Row)>, shelved: map<nat, seq<Message>>,
                clock: nat, freshId: nat): State {
    var latest := Latest(listed);
    var id := if latest.Some? then latest.value.0 else freshId;
    State(EMPTY_GATE, [], 0, Conversation(id, StoredMessages(shelved, id), None, None),
          Library(rows, shelved, clock, if id == freshId then freshId + 1 else freshId, [Opened(id), Bound(id)],
                  []),
          false, [])
  }
}
