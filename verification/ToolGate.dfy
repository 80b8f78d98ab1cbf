/**
 The approval gate of one session: the prompts and grants of `createSessionApproval`
 (apps/epicenter/src/host.ts) and the coroutine `resolveApprovedToolCall`
 (packages/workspace/src/agent/tools.ts) that every tool call rides.

 A `Task` is one activation of that coroutine; its `Phase` says where it is suspended.
 `asked`, `resolved` and `ran` are the calls of `request`, of a prompt's `resolve` and of
 `tools.resolve`, in the order in which they happened.
 */
module ToolGate {
  import opened Prelude

  datatype Kind = Query | Mutation

  datatype Definition = Definition(kind: Kind, title: Option<string>, description: Option<string>)

  /** The composed catalog: tool names are unique after composition (first catalog wins). */
  type Catalog = map<string, Definition>

  datatype CallId = Minted(record: nat) | FromEngine(text: string)

  datatype ToolCall = ToolCall(id: CallId, tool: string, input: string)

  datatype Outcome = Outcome(content: string, isError: bool)

  datatype Prompt = Prompt(id: nat, toolCallId: CallId, tool: string,
                           title: Option<string>, description: Option<string>, input: string)

  /** An entry of the pending map: the prompt, and the task its promise resumes. */
  datatype Entry = Entry(prompt: Prompt, task: nat)

  datatype Resolution = Resolution(entry: Entry, approved: bool, always: bool)

  datatype Owner = Direct(record: nat) | Chat

  datatype Phase =
    | Waiting(prompt: nat)
    | Answered(prompt: nat, approved: bool)
    | Running
    | Settled(outcome: Outcome)
    | Delivered(outcome: Outcome)

  datatype Task = Task(owner: Owner, call: ToolCall, phase: Phase)

  datatype Gate = Gate(
    pending: seq<Entry>,
    grants: set<string>,
    asked: seq<Entry>,
    resolved: seq<Resolution>,
    tasks: seq<Task>,
    ran: seq<nat>)

  const EMPTY_GATE := Gate([], {}, [], [], [], [])

  const STOPPED := Outcome("Stopped before the tool ran.", true)
  const DENIED := Outcome("Denied by the user.", true)

  function NoTool(name: string): Outcome {
    Outcome("No tool named " + name + " is available.", true)
  }

  // ---------------------------------------------------------------- transitions

  function WithPhase(tasks: seq<Task>, t: nat, phase: Phase): seq<Task> {
    if t < |tasks| then tasks[t := tasks[t].(phase := phase)] else tasks
  }

  /** `decide`: a session grant or a query runs unattended, any other mutation is asked. */
  predicate RunsUnattended(g: Gate, tools: Catalog, tool: string) {
    tool in g.grants || (tool in tools && tools[tool].kind == Query)
  }

  function PromptFor(g: Gate, definition: Definition, call: ToolCall): Prompt {
    Prompt(|g.asked|, call.id, call.tool, definition.title, definition.description, call.input)
  }

  /** The synchronous head of `resolveApprovedToolCall`, up to its first suspension. */
  function Start(g: Gate, tools: Catalog, owner: Owner, call: ToolCall): Gate {
    var t := |g.tasks|;
    if call.tool !in tools then
      g.(tasks := g.tasks + [Task(owner, call, Settled(NoTool(call.tool)))])
    else if RunsUnattended(g, tools, call.tool) then
      g.(tasks := g.tasks + [Task(owner, call, Running)], ran := g.ran + [t])
    else
      var entry := Entry(PromptFor(g, tools[call.tool], call), t);
      g.(tasks := g.tasks + [Task(owner, call, Waiting(entry.prompt.id))],
         asked := g.asked + [entry],
         pending := g.pending + [entry])
  }

  /** Does starting this call raise a prompt (and so notify)? */
  predicate Asks(g: Gate, tools: Catalog, call: ToolCall) {
    call.tool in tools && !RunsUnattended(g, tools, call.tool)
  }

  /** Take the k-th pending entry off the map and resolve its promise. */
  function ResolveAt(g: Gate, k: nat, approved: bool, always: bool): Gate
    requires k < |g.pending|
  {
    var e := g.pending[k];
    g.(pending := g.pending[..k] + g.pending[k + 1..],
       grants := if approved && always then g.grants + {e.prompt.tool} else g.grants,
       resolved := g.resolved + [Resolution(e, approved, always)],
       tasks := WithPhase(g.tasks, e.task, Answered(e.prompt.id, approved)))
  }

  function FindPending(pending: seq<Entry>, id: nat): (k: nat)
    ensures k <= |pending|
    ensures k < |pending| ==> pending[k].prompt.id == id
    ensures forall j :: 0 <= j < k ==> pending[j].prompt.id != id
  {
    if pending == [] then 0
    else if pending[0].prompt.id == id then 0
    else 1 + FindPending(pending[1..], id)
  }

  function Answer(g: Gate, id: nat, approved: bool, always: bool): Gate {
    var k := FindPending(g.pending, id);
    if k < |g.pending| then ResolveAt(g, k, approved, always) else g
  }

  function CancelAll(g: Gate): Gate
    decreases |g.pending|
  {
    if g.pending == [] then g else CancelAll(ResolveAt(g, 0, false, false))
  }

  /** The continuation after a prompt's promise settles: the abort signal wins over a late approval. */
  function Resume(g: Gate, t: nat, aborted: bool): Gate {
    if t >= |g.tasks| || !g.tasks[t].phase.Answered? then g
    else if aborted then g.(tasks := WithPhase(g.tasks, t, Settled(STOPPED)))
    else if !g.tasks[t].phase.approved then g.(tasks := WithPhase(g.tasks, t, Settled(DENIED)))
    else g.(tasks := WithPhase(g.tasks, t, Running), ran := g.ran + [t])
  }

  /** The catalog's own promise settles (a rejection arrives as an error outcome). */
  function Finish(g: Gate, t: nat, outcome: Outcome): Gate {
    if t < |g.tasks| && g.tasks[t].phase.Running?
    then g.(tasks := WithPhase(g.tasks, t, Settled(outcome)))
    else g
  }

  /** The caller consumes the outcome. */
  function Deliver(g: Gate, t: nat): Gate {
    if t < |g.tasks| && g.tasks[t].phase.Settled?
    then g.(tasks := WithPhase(g.tasks, t, Delivered(g.tasks[t].phase.outcome)))
    else g
  }

  // ---------------------------------------------------------------- invariant

  /** Prompt ids are minted in order; a prompt describes the call of the one task that waits on it. */
  ghost predicate AskedInv(g: Gate, tools: Catalog) {
    && (forall i :: 0 <= i < |g.asked| ==>
          var e := g.asked[i];
          && e.prompt.id == i
          && e.task < |g.tasks|
          && e.prompt.tool in tools
          && e.prompt == PromptFor(g, tools[e.prompt.tool], g.tasks[e.task].call).(id := i))
    && (forall i, j :: 0 <= i < j < |g.asked| ==> g.asked[i].task != g.asked[j].task)
    && (forall t :: 0 <= t < |g.tasks| && (g.tasks[t].phase.Waiting? || g.tasks[t].phase.Answered?) ==>
          g.tasks[t].phase.prompt < |g.asked| && g.asked[g.tasks[t].phase.prompt].task == t)
  }

  /** The pending map, in insertion order, holds exactly the prompts whose task still waits. */
  ghost predicate PendingInv(g: Gate) {
    && (forall k :: 0 <= k < |g.pending| ==>
          g.pending[k].prompt.id < |g.asked| && g.asked[g.pending[k].prompt.id] == g.pending[k])
    && (forall j, k :: 0 <= j < k < |g.pending| ==> g.pending[j].prompt.id < g.pending[k].prompt.id)
    && (forall i :: 0 <= i < |g.asked| && g.asked[i].task < |g.tasks| ==>
          (g.asked[i] in g.pending <==> g.tasks[g.asked[i].task].phase.Waiting?))
  }

  ghost predicate ResolvesTask(g: Gate, k: int, t: nat) {
    0 <= k < |g.resolved| && g.resolved[k].entry.task == t
  }

  /** Resolutions answer prompts that were asked and no longer wait, no prompt twice. */
  ghost predicate ResolvedOnce(g: Gate) {
    && (forall k :: 0 <= k < |g.resolved| ==>
          && g.resolved[k].entry.prompt.id < |g.asked|
          && g.asked[g.resolved[k].entry.prompt.id] == g.resolved[k].entry
          && g.resolved[k].entry.task < |g.tasks|
          && !g.tasks[g.resolved[k].entry.task].phase.Waiting?)
    && (forall j, k :: 0 <= j < k < |g.resolved| ==> g.resolved[j].entry.task != g.resolved[k].entry.task)
  }

  /** Every prompt whose task no longer waits was resolved. */
  ghost predicate NoneLost(g: Gate) {
    forall i :: 0 <= i < |g.asked| && g.asked[i].task < |g.tasks| && !g.tasks[g.asked[i].task].phase.Waiting? ==>
      exists k :: ResolvesTask(g, k, g.asked[i].task)
  }

  /** A resumed task was told what its prompt's resolution said. */
  ghost predicate ToldVerdict(g: Gate) {
    forall t, k :: 0 <= t < |g.tasks| && g.tasks[t].phase.Answered? && ResolvesTask(g, k, t) ==>
      g.resolved[k].approved == g.tasks[t].phase.approved
  }

  ghost predicate ResolvedInv(g: Gate) {
    ResolvedOnce(g) && NoneLost(g) && ToldVerdict(g)
  }

  /** The user said "always allow" for this tool in the k-th resolution. */
  ghost predicate AlwaysAllows(g: Gate, k: int, tool: string) {
    && 0 <= k < |g.resolved|
    && g.resolved[k].approved && g.resolved[k].always
    && g.resolved[k].entry.prompt.tool == tool
  }

  ghost predicate GrantsInv(g: Gate) {
    forall tool :: tool in g.grants <==> exists k :: AlwaysAllows(g, k, tool)
  }

  ghost predicate ApprovesTask(g: Gate, k: int, t: nat) {
    ResolvesTask(g, k, t) && g.resolved[k].approved
  }

  /** What the mutation policy demands of a call that reached `tools.resolve`. */
  ghost predicate Consented(g: Gate, tools: Catalog, t: nat)
    requires t < |g.tasks|
  {
    var tool := g.tasks[t].call.tool;
    && tool in tools
    && (tools[tool].kind == Mutation ==>
          (exists k :: ApprovesTask(g, k, t)) || (exists k :: AlwaysAllows(g, k, tool)))
  }

  ghost predicate RanInv(g: Gate, tools: Catalog) {
    && (forall i :: 0 <= i < |g.ran| ==>
          && g.ran[i] < |g.tasks|
          && !g.tasks[g.ran[i]].phase.Waiting? && !g.tasks[g.ran[i]].phase.Answered?
          && Consented(g, tools, g.ran[i])
          && (forall k :: ResolvesTask(g, k, g.ran[i]) ==> g.resolved[k].approved))
    && (forall i, j :: 0 <= i < j < |g.ran| ==> g.ran[i] != g.ran[j])
    && (forall t :: 0 <= t < |g.tasks| && g.tasks[t].phase.Running? ==> t in g.ran)
  }

  function EntriesOf(resolved: seq<Resolution>): seq<Entry> {
    if resolved == [] then [] else EntriesOf(resolved[..|resolved| - 1]) + [resolved[|resolved| - 1].entry]
  }

  /** Every prompt ever asked is pending or resolved, once. */
  ghost predicate Conserved(g: Gate) {
    multiset(g.asked) == multiset(g.pending) + multiset(EntriesOf(g.resolved))
  }

  ghost predicate GateInv(g: Gate, tools: Catalog) {
    AskedInv(g, tools) && PendingInv(g) && ResolvedInv(g) && GrantsInv(g) && RanInv(g, tools) && Conserved(g)
  }

  /** History only grows: no prompt, resolution or execution is ever taken back. */
  ghost predicate Extends(g: Gate, h: Gate) {
    && g.asked <= h.asked && g.resolved <= h.resolved && g.ran <= h.ran
    && |g.tasks| <= |h.tasks|
    && (forall t :: 0 <= t < |g.tasks| ==>
          h.tasks[t].owner == g.tasks[t].owner && h.tasks[t].call == g.tasks[t].call)
    && (forall t :: 0 <= t < |g.tasks| && g.tasks[t].phase.Delivered? ==> h.tasks[t] == g.tasks[t])
  }

  // ---------------------------------------------------------------- Start

  lemma StartKeepsAsked(g: Gate, tools: Catalog, owner: Owner, call: ToolCall)
    requires AskedInv(g, tools)
    ensures AskedInv(Start(g, tools, owner, call), tools)
  {
    var h := Start(g, tools, owner, call);
    assert forall t :: 0 <= t < |g.tasks| ==> h.tasks[t] == g.tasks[t];
    forall i | 0 <= i < |h.asked|
      ensures h.asked[i].prompt.id == i && h.asked[i].task < |h.tasks| && h.asked[i].prompt.tool in tools
      ensures h.asked[i].prompt ==
              PromptFor(h, tools[h.asked[i].prompt.tool], h.tasks[h.asked[i].task].call).(id := i)
    {
      if i < |g.asked| {
        assert h.asked[i] == g.asked[i];
      }
    }
  }

  lemma StartKeepsPending(g: Gate, tools: Catalog, owner: Owner, call: ToolCall)
    requires AskedInv(g, tools) && PendingInv(g)
    ensures PendingInv(Start(g, tools, owner, call))
  {
    var h := Start(g, tools, owner, call);
    assert forall t :: 0 <= t < |g.tasks| ==> h.tasks[t] == g.tasks[t];
    if Asks(g, tools, call) {
      var e := h.asked[|g.asked|];
      assert e !in g.pending;
      assert h.pending[|g.pending|] == e;
      forall i | 0 <= i < |h.asked| && h.asked[i].task < |h.tasks|
        ensures h.asked[i] in h.pending <==> h.tasks[h.asked[i].task].phase.Waiting?
      {
        if i < |g.asked| {
          assert h.asked[i] == g.asked[i] != e;
        }
      }
    }
  }

  lemma StartLosesNone(g: Gate, tools: Catalog, owner: Owner, call: ToolCall)
    requires AskedInv(g, tools) && NoneLost(g)
    ensures NoneLost(Start(g, tools, owner, call))
  {
    var h := Start(g, tools, owner, call);
    assert forall t :: 0 <= t < |g.tasks| ==> h.tasks[t] == g.tasks[t];
    forall i | 0 <= i < |h.asked| && h.asked[i].task < |h.tasks| && !h.tasks[h.asked[i].task].phase.Waiting?
      ensures exists k :: ResolvesTask(h, k, h.asked[i].task)
    {
      assert i < |g.asked| && h.asked[i] == g.asked[i];
      var k :| ResolvesTask(g, k, g.asked[i].task);
      assert ResolvesTask(h, k, h.asked[i].task);
    }
  }

  lemma StartKeepsVerdicts(g: Gate, tools: Catalog, owner: Owner, call: ToolCall)
    requires AskedInv(g, tools) && ResolvedInv(g)
    ensures ToldVerdict(Start(g, tools, owner, call))
  {
    var h := Start(g, tools, owner, call);
    assert forall t :: 0 <= t < |g.tasks| ==> h.tasks[t] == g.tasks[t];
    forall t, k | 0 <= t < |h.tasks| && h.tasks[t].phase.Answered? && ResolvesTask(h, k, t)
      ensures h.resolved[k].approved == h.tasks[t].phase.approved
    {
      assert ResolvesTask(g, k, t);
    }
  }

  lemma StartKeepsOnce(g: Gate, tools: Catalog, owner: Owner, call: ToolCall)
    requires AskedInv(g, tools) && ResolvedInv(g)
    ensures ResolvedOnce(Start(g, tools, owner, call))
  {
  }

  lemma StartKeepsResolved(g: Gate, tools: Catalog, owner: Owner, call: ToolCall)
    requires AskedInv(g, tools) && ResolvedInv(g)
    ensures ResolvedInv(Start(g, tools, owner, call))
  {
    StartKeepsOnce(g, tools, owner, call);
    StartLosesNone(g, tools, owner, call);
    StartKeepsVerdicts(g, tools, owner, call);
  }

  lemma SameResolvedSameGrants(g: Gate, h: Gate)
    requires GrantsInv(g) && h.grants == g.grants && h.resolved == g.resolved
    ensures GrantsInv(h)
  {
    assert forall k, tool :: AlwaysAllows(h, k, tool) <==> AlwaysAllows(g, k, tool);
  }

  lemma StartKeepsGrants(g: Gate, tools: Catalog, owner: Owner, call: ToolCall)
    requires GrantsInv(g)
    ensures GrantsInv(Start(g, tools, owner, call))
  {
    SameResolvedSameGrants(g, Start(g, tools, owner, call));
  }

  lemma StartKeepsRan(g: Gate, tools: Catalog, owner: Owner, call: ToolCall)
    requires ResolvedInv(g) && GrantsInv(g) && RanInv(g, tools)
    ensures RanInv(Start(g, tools, owner, call), tools)
  {
    var h := Start(g, tools, owner, call);
    assert forall t :: 0 <= t < |g.tasks| ==> h.tasks[t] == g.tasks[t];
    assert forall k, t :: ResolvesTask(h, k, t) <==> ResolvesTask(g, k, t);
    assert forall k, t :: ApprovesTask(h, k, t) <==> ApprovesTask(g, k, t);
    assert forall k, tool :: AlwaysAllows(h, k, tool) <==> AlwaysAllows(g, k, tool);
    forall i | 0 <= i < |h.ran|
      ensures h.ran[i] < |h.tasks| && Consented(h, tools, h.ran[i])
    {
      if i < |g.ran| {
        assert h.ran[i] == g.ran[i] && Consented(g, tools, g.ran[i]);
      }
    }
    assert forall t :: t in h.ran <==> t in g.ran || (|h.ran| > |g.ran| && t == |g.tasks|);
  }

  lemma StartConserves(g: Gate, tools: Catalog, owner: Owner, call: ToolCall)
    requires Conserved(g)
    ensures Conserved(Start(g, tools, owner, call))
  {
  }

  lemma StartExtends(g: Gate, tools: Catalog, owner: Owner, call: ToolCall)
    ensures Extends(g, Start(g, tools, owner, call))
  {
  }

  lemma StartInv(g: Gate, tools: Catalog, owner: Owner, call: ToolCall)
    requires GateInv(g, tools)
    ensures GateInv(Start(g, tools, owner, call), tools)
    ensures Extends(g, Start(g, tools, owner, call))
  {
    StartKeepsAsked(g, tools, owner, call);
    StartKeepsPending(g, tools, owner, call);
    StartKeepsResolved(g, tools, owner, call);
    StartKeepsGrants(g, tools, owner, call);
    StartKeepsRan(g, tools, owner, call);
    StartConserves(g, tools, owner, call);
    StartExtends(g, tools, owner, call);
  }

  // ---------------------------------------------------------------- ResolveAt

  lemma PendingTask(g: Gate, tools: Catalog, k: nat)
    requires AskedInv(g, tools) && PendingInv(g) && k < |g.pending|
    ensures g.pending[k].task < |g.tasks|
    ensures g.tasks[g.pending[k].task].phase == Waiting(g.pending[k].prompt.id)
  {
    var e := g.pending[k];
    assert g.asked[e.prompt.id] == e && e in g.pending;
  }

  lemma ResolveKeepsAsked(g: Gate, tools: Catalog, k: nat, approved: bool, always: bool)
    requires AskedInv(g, tools) && PendingInv(g) && k < |g.pending|
    ensures AskedInv(ResolveAt(g, k, approved, always), tools)
  {
    PendingTask(g, tools, k);
    var h := ResolveAt(g, k, approved, always);
    assert forall t :: 0 <= t < |g.tasks| ==> h.tasks[t].call == g.tasks[t].call;
    forall i | 0 <= i < |h.asked|
      ensures h.asked[i].prompt ==
              PromptFor(h, tools[h.asked[i].prompt.tool], h.tasks[h.asked[i].task].call).(id := i)
    {
      assert h.asked[i] == g.asked[i];
    }
  }

  ghost predicate Increasing(pending: seq<Entry>) {
    forall j, k :: 0 <= j < k < |pending| ==> pending[j].prompt.id < pending[k].prompt.id
  }

  lemma RemoveEntry(pending: seq<Entry>, k: nat)
    requires Increasing(pending) && k < |pending|
    ensures Increasing(pending[..k] + pending[k + 1..])
    ensures forall e :: e in pending[..k] + pending[k + 1..] <==> e in pending && e != pending[k]
  {
    var rest := pending[..k] + pending[k + 1..];
    forall e | e in pending && e != pending[k] ensures e in rest {
      var j :| 0 <= j < |pending| && pending[j] == e;
      assert rest[if j < k then j else j - 1] == e;
    }
    forall j | 0 <= j < |rest| ensures rest[j] == pending[if j < k then j else j + 1] {}
  }

  lemma ResolveKeepsPending(g: Gate, tools: Catalog, k: nat, approved: bool, always: bool)
    requires AskedInv(g, tools) && PendingInv(g) && k < |g.pending|
    ensures PendingInv(ResolveAt(g, k, approved, always))
  {
    PendingTask(g, tools, k);
    RemoveEntry(g.pending, k);
    var h := ResolveAt(g, k, approved, always);
    var e := g.pending[k];
    forall i | 0 <= i < |h.asked| && h.asked[i].task < |h.tasks|
      ensures h.asked[i] in h.pending <==> h.tasks[h.asked[i].task].phase.Waiting?
    {
      assert h.asked[i].task == e.task <==> i == e.prompt.id;
    }
    forall j | 0 <= j < |h.pending|
      ensures h.pending[j].prompt.id < |h.asked| && h.asked[h.pending[j].prompt.id] == h.pending[j]
    {
      assert h.pending[j] in g.pending;
    }
  }

  lemma ResolveKeepsOnce(g: Gate, tools: Catalog, k: nat, approved: bool, always: bool)
    requires AskedInv(g, tools) && PendingInv(g) && ResolvedOnce(g) && k < |g.pending|
    ensures ResolvedOnce(ResolveAt(g, k, approved, always))
  {
    PendingTask(g, tools, k);
    ResolveOthers(g, k, approved, always);
  }

  lemma ResolveLosesNone(g: Gate, tools: Catalog, k: nat, approved: bool, always: bool)
    requires AskedInv(g, tools) && PendingInv(g) && NoneLost(g) && k < |g.pending|
    ensures NoneLost(ResolveAt(g, k, approved, always))
  {
    PendingTask(g, tools, k);
    var h := ResolveAt(g, k, approved, always);
    assert ResolvesTask(h, |g.resolved|, g.pending[k].task);
    forall i | 0 <= i < |h.asked| && h.asked[i].task < |h.tasks| && !h.tasks[h.asked[i].task].phase.Waiting?
      ensures exists j :: ResolvesTask(h, j, h.asked[i].task)
    {
      if h.asked[i].task != g.pending[k].task {
        var j :| ResolvesTask(g, j, g.asked[i].task);
        assert ResolvesTask(h, j, h.asked[i].task);
      }
    }
  }

  lemma ResolveTellsVerdict(g: Gate, tools: Catalog, k: nat, approved: bool, always: bool)
    requires AskedInv(g, tools) && PendingInv(g) && ResolvedOnce(g) && ToldVerdict(g) && k < |g.pending|
    ensures ToldVerdict(ResolveAt(g, k, approved, always))
  {
    PendingTask(g, tools, k);
    ResolveOthers(g, k, approved, always);
    var h := ResolveAt(g, k, approved, always);
    forall t, j | 0 <= t < |h.tasks| && h.tasks[t].phase.Answered? && ResolvesTask(h, j, t)
      ensures h.resolved[j].approved == h.tasks[t].phase.approved
    {
      if j < |g.resolved| {
        assert ResolvesTask(g, j, t);
      }
    }
  }

  lemma ResolveOthers(g: Gate, k: nat, approved: bool, always: bool)
    requires ResolvedOnce(g) && k < |g.pending| && g.pending[k].task < |g.tasks|
    requires g.tasks[g.pending[k].task].phase.Waiting?
    ensures forall j :: 0 <= j < |g.resolved| ==>
              && ResolveAt(g, k, approved, always).resolved[j] == g.resolved[j]
              && g.resolved[j].entry.task != g.pending[k].task
  {
  }

  lemma ResolveKeepsGrants(g: Gate, k: nat, approved: bool, always: bool)
    requires GrantsInv(g) && k < |g.pending|
    ensures GrantsInv(ResolveAt(g, k, approved, always))
  {
    var h := ResolveAt(g, k, approved, always);
    var n := |g.resolved|;
    assert forall j, tool :: j < n ==> (AlwaysAllows(h, j, tool) <==> AlwaysAllows(g, j, tool));
    forall tool ensures tool in h.grants <==> exists j :: AlwaysAllows(h, j, tool) {
      if tool in g.grants {
        var j :| AlwaysAllows(g, j, tool);
        assert AlwaysAllows(h, j, tool);
      } else if tool in h.grants {
        assert AlwaysAllows(h, n, tool);
      } else {
        assert forall j :: !AlwaysAllows(h, j, tool);
      }
    }
  }

  lemma ResolveKeepsRan(g: Gate, tools: Catalog, k: nat, approved: bool, always: bool)
    requires AskedInv(g, tools) && PendingInv(g) && RanInv(g, tools) && k < |g.pending|
    ensures RanInv(ResolveAt(g, k, approved, always), tools)
  {
    PendingTask(g, tools, k);
    var h := ResolveAt(g, k, approved, always);
    forall j, t | ResolvesTask(g, j, t) ensures ResolvesTask(h, j, t) && h.resolved[j] == g.resolved[j] {}
    forall i | 0 <= i < |h.ran|
      ensures Consented(h, tools, h.ran[i])
      ensures forall j :: ResolvesTask(h, j, h.ran[i]) ==> h.resolved[j].approved
    {
      var t := h.ran[i];
      assert t != g.pending[k].task;
      RanConsentGrows(g, h, tools, t);
      forall j | ResolvesTask(h, j, t) ensures h.resolved[j].approved {
        assert ResolvesTask(g, j, t);
      }
    }
  }

  /** Consent, once given, is never withdrawn by later resolutions. */
  lemma RanConsentGrows(g: Gate, h: Gate, tools: Catalog, t: nat)
    requires t < |g.tasks| && t < |h.tasks| && h.tasks[t].call == g.tasks[t].call
    requires g.resolved <= h.resolved && Consented(g, tools, t)
    ensures Consented(h, tools, t)
  {
    if k :| ApprovesTask(g, k, t) {
      assert ApprovesTask(h, k, t);
    }
    if k :| AlwaysAllows(g, k, g.tasks[t].call.tool) {
      assert AlwaysAllows(h, k, g.tasks[t].call.tool);
    }
  }

  lemma ResolveConserves(g: Gate, k: nat, approved: bool, always: bool)
    requires Conserved(g) && k < |g.pending|
    ensures Conserved(ResolveAt(g, k, approved, always))
  {
    var h := ResolveAt(g, k, approved, always);
    assert g.pending == g.pending[..k] + [g.pending[k]] + g.pending[k + 1..];
    assert h.resolved[..|h.resolved| - 1] == g.resolved;
    assert EntriesOf(h.resolved) == EntriesOf(g.resolved) + [g.pending[k]];
  }

  lemma ResolveInv(g: Gate, tools: Catalog, k: nat, approved: bool, always: bool)
    requires GateInv(g, tools) && k < |g.pending|
    ensures GateInv(ResolveAt(g, k, approved, always), tools)
    ensures Extends(g, ResolveAt(g, k, approved, always))
  {
    PendingTask(g, tools, k);
    ResolveKeepsAsked(g, tools, k, approved, always);
    ResolveKeepsPending(g, tools, k, approved, always);
    ResolveKeepsOnce(g, tools, k, approved, always);
    ResolveLosesNone(g, tools, k, approved, always);
    ResolveTellsVerdict(g, tools, k, approved, always);
    ResolveKeepsGrants(g, k, approved, always);
    ResolveKeepsRan(g, tools, k, approved, always);
    ResolveConserves(g, k, approved, always);
  }

  lemma {:induction false} CancelAllInv(g: Gate, tools: Catalog)
    requires GateInv(g, tools)
    ensures GateInv(CancelAll(g), tools) && Extends(g, CancelAll(g))
    ensures CancelAll(g).pending == []
    decreases |g.pending|
  {
    if g.pending != [] {
      ResolveInv(g, tools, 0, false, false);
      CancelAllInv(ResolveAt(g, 0, false, false), tools);
    }
  }

  // ---------------------------------------------------------------- suspensions

  /** `h` differs from `g` in the phase of task `t` alone, which waits on no prompt before or after. */
  ghost predicate MovesOn(g: Gate, h: Gate, t: nat) {
    && t < |g.tasks| && |h.tasks| == |g.tasks|
    && h.tasks == g.tasks[t := g.tasks[t].(phase := h.tasks[t].phase)]
    && !g.tasks[t].phase.Waiting? && !h.tasks[t].phase.Waiting? && !h.tasks[t].phase.Answered?
    && h.pending == g.pending && h.grants == g.grants && h.asked == g.asked && h.resolved == g.resolved
  }

  lemma MoveKeepsPrompts(g: Gate, h: Gate, tools: Catalog, t: nat)
    requires AskedInv(g, tools) && PendingInv(g) && MovesOn(g, h, t)
    ensures AskedInv(h, tools) && PendingInv(h)
  {
    assert forall u :: 0 <= u < |g.tasks| ==> h.tasks[u].call == g.tasks[u].call;
    assert forall u :: 0 <= u < |g.tasks| ==> h.tasks[u].phase.Waiting? == g.tasks[u].phase.Waiting?;
    forall i | 0 <= i < |h.asked|
      ensures h.asked[i].prompt ==
              PromptFor(h, tools[h.asked[i].prompt.tool], h.tasks[h.asked[i].task].call).(id := i)
    {
      assert h.asked[i] == g.asked[i];
    }
  }

  lemma MoveKeepsResolved(g: Gate, h: Gate, tools: Catalog, t: nat)
    requires AskedInv(g, tools) && ResolvedInv(g) && MovesOn(g, h, t)
    ensures ResolvedInv(h)
  {
    assert forall u :: 0 <= u < |g.tasks| ==> h.tasks[u].phase.Waiting? == g.tasks[u].phase.Waiting?;
    forall i | 0 <= i < |h.asked| && h.asked[i].task < |h.tasks| && !h.tasks[h.asked[i].task].phase.Waiting?
      ensures exists k :: ResolvesTask(h, k, h.asked[i].task)
    {
      var k :| ResolvesTask(g, k, g.asked[i].task);
      assert ResolvesTask(h, k, h.asked[i].task);
    }
    forall u, k | 0 <= u < |h.tasks| && h.tasks[u].phase.Answered? && ResolvesTask(h, k, u)
      ensures h.resolved[k].approved == h.tasks[u].phase.approved
    {
      assert u != t && ResolvesTask(g, k, u);
    }
  }

  /** Moving on without running: the outcome is known, or consumed. */
  lemma MoveKeepsRan(g: Gate, h: Gate, tools: Catalog, t: nat)
    requires RanInv(g, tools) && MovesOn(g, h, t) && h.ran == g.ran && !h.tasks[t].phase.Running?
    ensures RanInv(h, tools)
  {
    assert forall k, u :: ResolvesTask(h, k, u) <==> ResolvesTask(g, k, u);
    forall i | 0 <= i < |h.ran| ensures Consented(h, tools, h.ran[i]) {
      assert Consented(g, tools, g.ran[i]);
      RanConsentGrows(g, h, tools, h.ran[i]);
    }
  }

  /** An approved prompt is the consent its own task needs, and nothing contradicts it. */
  lemma ApprovalConsents(g: Gate, tools: Catalog, t: nat)
    requires AskedInv(g, tools) && NoneLost(g) && ToldVerdict(g)
    requires t < |g.tasks| && g.tasks[t].phase.Answered? && g.tasks[t].phase.approved
    ensures Consented(g, tools, t)
    ensures forall k :: ResolvesTask(g, k, t) ==> g.resolved[k].approved
  {
    var p := g.tasks[t].phase.prompt;
    assert g.asked[p].task == t;
    var k :| ResolvesTask(g, k, g.asked[p].task);
    assert ApprovesTask(g, k, t);
  }

  lemma ConsentedMayRun(g: Gate, h: Gate, tools: Catalog, t: nat)
    requires RanInv(g, tools) && MovesOn(g, h, t)
    requires g.tasks[t].phase.Answered? && Consented(g, tools, t)
    requires forall k :: ResolvesTask(g, k, t) ==> g.resolved[k].approved
    requires h.tasks[t].phase.Running? && h.ran == g.ran + [t]
    ensures RanInv(h, tools)
  {
    assert forall k, u :: ResolvesTask(h, k, u) <==> ResolvesTask(g, k, u);
    forall i | 0 <= i < |h.ran|
      ensures h.ran[i] < |h.tasks| && Consented(h, tools, h.ran[i])
    {
      assert h.ran[i] == if i < |g.ran| then g.ran[i] else t;
      RanConsentGrows(g, h, tools, h.ran[i]);
    }
    assert h.ran[|g.ran|] == t;
    forall u | 0 <= u < |h.tasks| && h.tasks[u].phase.Running? ensures u in h.ran {
      assert u == t || u in g.ran;
    }
  }

  lemma MoveInv(g: Gate, h: Gate, tools: Catalog, t: nat)
    requires GateInv(g, tools) && MovesOn(g, h, t) && !g.tasks[t].phase.Delivered?
    requires h.ran == g.ran && !h.tasks[t].phase.Running?
    ensures GateInv(h, tools) && Extends(g, h)
  {
    MoveKeepsPrompts(g, h, tools, t);
    MoveKeepsResolved(g, h, tools, t);
    SameResolvedSameGrants(g, h);
    MoveKeepsRan(g, h, tools, t);
  }

  lemma ResumeMoves(g: Gate, t: nat, aborted: bool)
    requires t < |g.tasks| && g.tasks[t].phase.Answered?
    ensures MovesOn(g, Resume(g, t, aborted), t)
  {
  }

  lemma RunApproved(g: Gate, tools: Catalog, t: nat)
    requires AskedInv(g, tools) && ResolvedInv(g) && RanInv(g, tools)
    requires t < |g.tasks| && g.tasks[t].phase.Answered? && g.tasks[t].phase.approved
    ensures RanInv(Resume(g, t, false), tools)
  {
    ApprovalConsents(g, tools, t);
    ConsentedMayRun(g, Resume(g, t, false), tools, t);
  }

  lemma RunInv(g: Gate, h: Gate, tools: Catalog, t: nat)
    requires GateInv(g, tools) && MovesOn(g, h, t) && !g.tasks[t].phase.Delivered?
    requires RanInv(h, tools) && g.ran <= h.ran
    ensures GateInv(h, tools) && Extends(g, h)
  {
    MoveKeepsPrompts(g, h, tools, t);
    MoveKeepsResolved(g, h, tools, t);
    SameResolvedSameGrants(g, h);
  }

  lemma ResumeInv(g: Gate, tools: Catalog, t: nat, aborted: bool)
    requires GateInv(g, tools)
    ensures GateInv(Resume(g, t, aborted), tools) && Extends(g, Resume(g, t, aborted))
    ensures Resume(g, t, aborted).ran ==
            if t < |g.tasks| && g.tasks[t].phase.Answered? && g.tasks[t].phase.approved && !aborted then g.ran + [t]
            else g.ran
  {
    if t < |g.tasks| && g.tasks[t].phase.Answered? {
      var h := Resume(g, t, aborted);
      ResumeMoves(g, t, aborted);
      if h.ran == g.ran {
        MoveInv(g, h, tools, t);
      } else {
        RunApproved(g, tools, t);
        RunInv(g, h, tools, t);
      }
    }
  }

  lemma FinishInv(g: Gate, tools: Catalog, t: nat, outcome: Outcome)
    requires GateInv(g, tools)
    ensures GateInv(Finish(g, t, outcome), tools) && Extends(g, Finish(g, t, outcome))
  {
    if t < |g.tasks| && g.tasks[t].phase.Running? {
      MoveInv(g, Finish(g, t, outcome), tools, t);
    }
  }

  lemma DeliverInv(g: Gate, tools: Catalog, t: nat)
    requires GateInv(g, tools)
    ensures GateInv(Deliver(g, t), tools) && Extends(g, Deliver(g, t))
  {
    if t < |g.tasks| && g.tasks[t].phase.Settled? {
      MoveInv(g, Deliver(g, t), tools, t);
    }
  }

  lemma AnswerInv(g: Gate, tools: Catalog, id: nat, approved: bool, always: bool)
    requires GateInv(g, tools)
    ensures GateInv(Answer(g, id, approved, always), tools)
    ensures Extends(g, Answer(g, id, approved, always))
  {
    if FindPending(g.pending, id) < |g.pending| {
      ResolveInv(g, tools, FindPending(g.pending, id), approved, always);
    }
  }

  lemma ExtendsTransitive(a: Gate, b: Gate, c: Gate)
    requires Extends(a, b) && Extends(b, c)
    ensures Extends(a, c)
  {
    forall t | 0 <= t < |a.tasks| && a.tasks[t].phase.Delivered? ensures c.tasks[t] == a.tasks[t] {
      assert b.tasks[t] == a.tasks[t];
    }
  }
  // ---------------------------------------------------------------- everything a caller can do

  datatype Op =
    | Begin(owner: Owner, call: ToolCall)
    | Decide(id: nat, approved: bool, always: bool)
    | DenyAll
    | Wake(task: nat, aborted: bool)
    | Conclude(task: nat, outcome: Outcome)
    | Consume(task: nat)

  function Apply(g: Gate, tools: Catalog, op: Op): Gate {
    match op
    case Begin(owner, call) => Start(g, tools, owner, call)
    case Decide(id, approved, always) => Answer(g, id, approved, always)
    case DenyAll => CancelAll(g)
    case Wake(t, aborted) => Resume(g, t, aborted)
    case Conclude(t, outcome) => Finish(g, t, outcome)
    case Consume(t) => Deliver(g, t)
  }

  function ApplyAll(g: Gate, tools: Catalog, ops: seq<Op>): Gate
    decreases |ops|
  {
    if ops == [] then g else ApplyAll(Apply(g, tools, ops[0]), tools, ops[1..])
  }

  lemma ApplyKeeps(g: Gate, tools: Catalog, op: Op)
    requires GateInv(g, tools)
    ensures GateInv(Apply(g, tools, op), tools)
  {
    match op
    case Begin(owner, call) => StartInv(g, tools, owner, call);
    case Decide(id, approved, always) => AnswerInv(g, tools, id, approved, always);
    case DenyAll => CancelAllInv(g, tools);
    case Wake(t, aborted) => ResumeInv(g, tools, t, aborted);
    case Conclude(t, outcome) => FinishInv(g, tools, t, outcome);
    case Consume(t) => DeliverInv(g, tools, t);
  }

  lemma ApplyExtends(g: Gate, tools: Catalog, op: Op)
    requires GateInv(g, tools)
    ensures Extends(g, Apply(g, tools, op))
  {
    match op
    case Begin(owner, call) => StartExtends(g, tools, owner, call);
    case Decide(id, approved, always) => AnswerInv(g, tools, id, approved, always);
    case DenyAll => CancelAllInv(g, tools);
    case Wake(t, aborted) => ResumeInv(g, tools, t, aborted);
    case Conclude(t, outcome) => FinishInv(g, tools, t, outcome);
    case Consume(t) => DeliverInv(g, tools, t);
  }

  lemma {:induction false} ApplyAllInv(g: Gate, tools: Catalog, ops: seq<Op>)
    requires GateInv(g, tools)
    ensures GateInv(ApplyAll(g, tools, ops), tools)
    decreases |ops|
  {
    if ops != [] {
      ApplyKeeps(g, tools, ops[0]);
      ApplyAllInv(Apply(g, tools, ops[0]), tools, ops[1..]);
    }
  }

  lemma {:induction false} ApplyAllExtends(g: Gate, tools: Catalog, ops: seq<Op>)
    requires GateInv(g, tools)
    ensures Extends(g, ApplyAll(g, tools, ops))
    decreases |ops|
  {
    if ops != [] {
      var h := Apply(g, tools, ops[0]);
      ApplyKeeps(g, tools, ops[0]);
      ApplyExtends(g, tools, ops[0]);
      ApplyAllExtends(h, tools, ops[1..]);
      ExtendsTransitive(g, h, ApplyAll(h, tools, ops[1..]));
    }
  }

  /** A task that has not run starts running only when it is woken with its signal clear. */
  lemma {:induction false} RunsOnlyAwake(g: Gate, tools: Catalog, op: Op, t: nat)
    requires t < |g.tasks| && t !in g.ran && op != Wake(t, false)
    ensures t < |Apply(g, tools, op).tasks| && t !in Apply(g, tools, op).ran
    ensures Apply(g, tools, op).tasks[t].owner == g.tasks[t].owner
    decreases |g.pending|
  {
    if op.DenyAll? && g.pending != [] {
      RunsOnlyAwake(ResolveAt(g, 0, false, false), tools, DenyAll, t);
    }
  }
}
