/**
 The invocation log over whole runs: a record is running exactly while its own gated call is
 outstanding, stays visible until then, and is settled once, with that call's outcome.
 */
module SessionInvocations {
  import opened Prelude
  import opened ToolGate
  import opened Session
  import opened SessionConsent
  import Log = InvocationLog

  ghost predicate Shows(record: Log.Invocation, task: Task) {
    match task.phase
    case Delivered(outcome) =>
      record == Log.Invocation(record.id, task.call.tool, if outcome.isError then Log.Failed else Log.Succeeded,
                               Some(outcome.content))
    case _ => record == Log.Invocation(record.id, task.call.tool, Log.Running, None)
  }

  /** One task per direct invocation, correlated with its record by the minted id. */
  ghost predicate TasksInv(tasks: seq<Task>, invoked: nat) {
    && (forall t :: 0 <= t < |tasks| && tasks[t].owner.Direct? ==>
          tasks[t].owner.record < invoked && tasks[t].call.id == Minted(tasks[t].owner.record))
    && (forall t, u :: 0 <= t < u < |tasks| && tasks[t].owner.Direct? ==> tasks[t].owner != tasks[u].owner)
  }

  ghost predicate Owns(tasks: seq<Task>, t: int, record: Log.Invocation) {
    0 <= t < |tasks| && tasks[t].owner == Direct(record.id)
  }

  ghost predicate Owned(tasks: seq<Task>, record: Log.Invocation) {
    exists t :: Owns(tasks, t, record)
  }

  /** Every record shows the state of the task that owns it. */
  ghost predicate RecordsInv(tasks: seq<Task>, log: seq<Log.Invocation>, invoked: nat) {
    && Log.IncreasingIds(log)
    && (forall i :: 0 <= i < |log| ==> log[i].id < invoked && Owned(tasks, log[i]))
    && (forall i, t :: 0 <= i < |log| && Owns(tasks, t, log[i]) ==> Shows(log[i], tasks[t]))
  }

  /** No outstanding invocation is missing from the log. */
  ghost predicate VisibleInv(tasks: seq<Task>, log: seq<Log.Invocation>) {
    forall t :: 0 <= t < |tasks| && tasks[t].owner.Direct? && !tasks[t].phase.Delivered? ==>
      Log.Invocation(tasks[t].owner.record, tasks[t].call.tool, Log.Running, None) in log
  }

  ghost predicate LogInv(s: State) {
    && TasksInv(s.gate.tasks, s.invoked)
    && RecordsInv(s.gate.tasks, s.invocations, s.invoked)
    && VisibleInv(s.gate.tasks, s.invocations)
  }

  // ---------------------------------------------------------------- steps the log does not see

  /** Direct tasks keep their call and their delivery; new tasks belong to the chat. */
  ghost predicate SameDirect(a: seq<Task>, b: seq<Task>) {
    && |a| <= |b|
    && (forall t :: 0 <= t < |a| ==> b[t].owner == a[t].owner && b[t].call == a[t].call)
    && (forall t :: 0 <= t < |a| && a[t].owner.Direct? ==>
          b[t].phase == a[t].phase || (!a[t].phase.Delivered? && !b[t].phase.Delivered?))
    && (forall t :: |a| <= t < |b| ==> b[t].owner == Chat)
  }

  lemma SameDirectKeeps(a: seq<Task>, b: seq<Task>, log: seq<Log.Invocation>, invoked: nat)
    requires SameDirect(a, b) && TasksInv(a, invoked) && RecordsInv(a, log, invoked) && VisibleInv(a, log)
    ensures TasksInv(b, invoked) && RecordsInv(b, log, invoked) && VisibleInv(b, log)
  {
    forall i, t | 0 <= i < |log| && Owns(b, t, log[i]) ensures Shows(log[i], b[t]) {
      assert Owns(a, t, log[i]);
    }
    forall i | 0 <= i < |log| ensures Owned(b, log[i]) {
      var t :| Owns(a, t, log[i]);
      assert Owns(b, t, log[i]);
    }
  }

  predicate Unseen(g: Gate, op: Op) {
    match op
    case Begin(owner, _) => owner == Chat
    case Consume(t) => t < |g.tasks| ==> g.tasks[t].owner == Chat || !g.tasks[t].phase.Settled?
    case _ => true
  }

  lemma ResolveUnseen(g: Gate, tools: Catalog, k: nat, approved: bool, always: bool)
    requires GateInv(g, tools) && k < |g.pending|
    ensures SameDirect(g.tasks, ResolveAt(g, k, approved, always).tasks)
  {
    PendingTask(g, tools, k);
  }

  lemma SameDirectTransitive(a: seq<Task>, b: seq<Task>, c: seq<Task>)
    requires SameDirect(a, b) && SameDirect(b, c)
    ensures SameDirect(a, c)
  {
  }

  lemma {:induction false} CancelUnseen(g: Gate, tools: Catalog)
    requires GateInv(g, tools)
    ensures SameDirect(g.tasks, CancelAll(g).tasks)
    decreases |g.pending|
  {
    if g.pending != [] {
      var h := ResolveAt(g, 0, false, false);
      ResolveUnseen(g, tools, 0, false, false);
      ResolveInv(g, tools, 0, false, false);
      CancelUnseen(h, tools);
      SameDirectTransitive(g.tasks, h.tasks, CancelAll(h).tasks);
    }
  }

  /** Decisions deliver nothing: only tasks that wait on a prompt change. */
  lemma DecisionUnseen(g: Gate, tools: Catalog, op: Op)
    requires GateInv(g, tools) && (op.Decide? || op.DenyAll?)
    ensures SameDirect(g.tasks, Apply(g, tools, op).tasks)
  {
    if op.DenyAll? {
      CancelUnseen(g, tools);
    } else if FindPending(g.pending, op.id) < |g.pending| {
      ResolveUnseen(g, tools, FindPending(g.pending, op.id), op.approved, op.always);
    }
  }

  lemma MoveUnseen(g: Gate, tools: Catalog, op: Op)
    requires Unseen(g, op) && !op.Decide? && !op.DenyAll?
    ensures SameDirect(g.tasks, Apply(g, tools, op).tasks)
  {
  }

  lemma ApplyUnseen(g: Gate, tools: Catalog, op: Op)
    requires GateInv(g, tools) && Unseen(g, op)
    ensures SameDirect(g.tasks, Apply(g, tools, op).tasks)
  {
    if op.Decide? || op.DenyAll? {
      DecisionUnseen(g, tools, op);
    } else {
      MoveUnseen(g, tools, op);
    }
  }

  lemma OpsUnseen(g: Gate, tools: Catalog, ops: seq<Op>)
    requires GateInv(g, tools) && |ops| <= 2
    requires ops != [] ==> Unseen(g, ops[0])
    requires |ops| == 2 ==> ops[1].Begin? && ops[1].owner == Chat
    ensures SameDirect(g.tasks, ApplyAll(g, tools, ops).tasks)
  {
    if ops != [] {
      var h := Apply(g, tools, ops[0]);
      ApplyUnseen(g, tools, ops[0]);
      SecondUnseen(g, h, tools, ops[1..]);
    }
  }

  lemma SecondUnseen(g: Gate, h: Gate, tools: Catalog, ops: seq<Op>)
    requires SameDirect(g.tasks, h.tasks) && |ops| <= 1
    requires ops != [] ==> ops[0].Begin? && ops[0].owner == Chat
    ensures SameDirect(g.tasks, ApplyAll(h, tools, ops).tasks)
  {
    if ops != [] {
      assert ops[1..] == [];
      MoveUnseen(h, tools, ops[0]);
      SameDirectTransitive(g.tasks, h.tasks, Apply(h, tools, ops[0]).tasks);
    }
  }

  /** Does the event push or settle a record? */
  predicate TouchesLog(s: State, e: Event) {
    || (e.Client? && e.command.InvokeTool? && !s.disposed)
    || (e.DeliverOutcome? && e.task < |s.gate.tasks| && s.gate.tasks[e.task].phase.Settled?
        && s.gate.tasks[e.task].owner.Direct?)
  }

  lemma OthersLeaveLog(s: State, tools: Catalog, e: Event)
    requires !TouchesLog(s, e)
    ensures Step(s, tools, e).invocations == s.invocations && Step(s, tools, e).invoked == s.invoked
  {
  }

  lemma OthersKeepLog(s: State, tools: Catalog, e: Event)
    requires GateInv(s.gate, tools) && LogInv(s) && !TouchesLog(s, e)
    ensures LogInv(Step(s, tools, e))
  {
    OthersLeaveLog(s, tools, e);
    StepGate(s, tools, e);
    OpsUnseen(s.gate, tools, GateOps(s, tools, e));
    SameDirectKeeps(s.gate.tasks, Step(s, tools, e).gate.tasks, s.invocations, s.invoked);
  }

  // ---------------------------------------------------------------- push and settle

  lemma PushRecords(tasks: seq<Task>, log: seq<Log.Invocation>, invoked: nat, task: Task)
    requires TasksInv(tasks, invoked) && RecordsInv(tasks, log, invoked)
    requires task.owner == Direct(invoked) && !task.phase.Delivered?
    ensures
      var record := Log.Invocation(invoked, task.call.tool, Log.Running, None);
      RecordsInv(tasks + [task], Log.Push(log, record), invoked + 1)
  {
    var record := Log.Invocation(invoked, task.call.tool, Log.Running, None);
    var after := Log.Push(log, record);
    var grown := tasks + [task];
    Log.PushKeeps(log, record);
    assert Owns(grown, |tasks|, record);
    forall i | 0 <= i < |after| ensures after[i].id < invoked + 1 && Owned(grown, after[i]) {
      assert after[i] in after;
      if after[i] in log {
        var t :| Owns(tasks, t, after[i]);
        assert Owns(grown, t, after[i]);
      }
    }
    forall i, t | 0 <= i < |after| && Owns(grown, t, after[i]) ensures Shows(after[i], grown[t]) {
      assert after[i] in after;
      if after[i] in log {
        assert t < |tasks| && Owns(tasks, t, after[i]);
      }
    }
  }

  lemma PushVisible(tasks: seq<Task>, log: seq<Log.Invocation>, invoked: nat, task: Task)
    requires TasksInv(tasks, invoked) && RecordsInv(tasks, log, invoked) && VisibleInv(tasks, log)
    requires task.owner == Direct(invoked) && task.call.id == Minted(invoked)
    ensures TasksInv(tasks + [task], invoked + 1)
    ensures VisibleInv(tasks + [task], Log.Push(log, Log.Invocation(invoked, task.call.tool, Log.Running, None)))
  {
    Log.PushKeeps(log, Log.Invocation(invoked, task.call.tool, Log.Running, None));
  }

  lemma InvokeKeepsLog(s: State, tools: Catalog, tool: string, input: string)
    requires LogInv(s)
    ensures LogInv(Invoke(s, tools, tool, input))
  {
    var r := Invoke(s, tools, tool, input);
    var task := r.gate.tasks[|s.gate.tasks|];
    assert r.gate.tasks == s.gate.tasks + [task];
    PushRecords(s.gate.tasks, s.invocations, s.invoked, task);
    PushVisible(s.gate.tasks, s.invocations, s.invoked, task);
  }

  lemma SettleKeepsLog(s: State, tools: Catalog, t: nat)
    requires LogInv(s) && TouchesLog(s, DeliverOutcome(t))
    ensures LogInv(DeliverTask(s, tools, t))
  {
    var r := DeliverTask(s, tools, t);
    var id := s.gate.tasks[t].owner.record;
    var outcome := s.gate.tasks[t].phase.outcome;
    Log.SettleKeepsIds(s.invocations, id, outcome.content, outcome.isError);
    forall i | 0 <= i < |s.invocations|
      ensures r.invocations[i] ==
              if s.invocations[i].id == id
              then Log.Outcome(s.invocations[i], outcome.content, outcome.isError)
              else s.invocations[i]
    {
      Log.SettleAt(s.invocations, id, outcome.content, outcome.isError, i);
    }
    SettleRecords(s, r, t, id, outcome);
  }

  lemma SettleRecords(s: State, r: State, t: nat, id: nat, outcome: Outcome)
    requires LogInv(s) && t < |s.gate.tasks|
    requires s.gate.tasks[t].owner == Direct(id) && s.gate.tasks[t].phase == Settled(outcome)
    requires r.gate.tasks == s.gate.tasks[t := s.gate.tasks[t].(phase := Delivered(outcome))]
    requires r.invoked == s.invoked && |r.invocations| == |s.invocations| && Log.IncreasingIds(r.invocations)
    requires forall i :: 0 <= i < |s.invocations| ==>
               r.invocations[i] ==
               if s.invocations[i].id == id
               then Log.Outcome(s.invocations[i], outcome.content, outcome.isError)
               else s.invocations[i]
    ensures LogInv(r)
  {
    forall i | 0 <= i < |r.invocations|
      ensures r.invocations[i].id < r.invoked && Owned(r.gate.tasks, r.invocations[i])
    {
      var u :| Owns(s.gate.tasks, u, s.invocations[i]);
      assert Owns(r.gate.tasks, u, r.invocations[i]);
    }
    forall i, u | 0 <= i < |r.invocations| && Owns(r.gate.tasks, u, r.invocations[i])
      ensures Shows(r.invocations[i], r.gate.tasks[u])
    {
      assert Owns(s.gate.tasks, u, s.invocations[i]);
    }
    forall u | 0 <= u < |r.gate.tasks| && r.gate.tasks[u].owner.Direct? && !r.gate.tasks[u].phase.Delivered?
      ensures
        var task := r.gate.tasks[u];
        Log.Invocation(task.owner.record, task.call.tool, Log.Running, None) in r.invocations
    {
      var record := Log.Invocation(s.gate.tasks[u].owner.record, s.gate.tasks[u].call.tool, Log.Running, None);
      var i :| 0 <= i < |s.invocations| && s.invocations[i] == record;
      assert r.invocations[i] == record;
    }
  }

  lemma StepKeepsLog(s: State, tools: Catalog, e: Event)
    requires GateInv(s.gate, tools) && LogInv(s)
    ensures LogInv(Step(s, tools, e))
  {
    if !TouchesLog(s, e) {
      OthersKeepLog(s, tools, e);
    } else if e.Client? {
      InvokeKeepsLog(s, tools, e.command.tool, e.command.input);
    } else {
      SettleKeepsLog(s, tools, e.task);
    }
  }

  ghost predicate NoInvocations(s: State) {
    Fresh(s) && s.invocations == [] && s.invoked == 0
  }

  lemma {:induction false} RunKeepsLog(s: State, tools: Catalog, events: seq<Event>)
    requires NoInvocations(s)
    ensures LogInv(Run(s, tools, events)) && GateInv(Run(s, tools, events).gate, tools)
  {
    EmptyGateInv(tools);
    RunGate(s, tools, events);
    if events != [] {
      RunKeepsLog(s, tools, events[..|events| - 1]);
      StepKeepsLog(Run(s, tools, events[..|events| - 1]), tools, events[|events| - 1]);
    }
  }

  /** In every reachable state each record is owned by exactly one call and shows exactly its state:
      running while the outcome is owed, and then that outcome; a running record is never missing. */
  lemma RecordsMirrorTheirCalls(s: State, tools: Catalog, events: seq<Event>)
    requires NoInvocations(s)
    ensures
      var r := Run(s, tools, events);
      && (forall i :: 0 <= i < |r.invocations| ==> Owned(r.gate.tasks, r.invocations[i]))
      && (forall i, t :: 0 <= i < |r.invocations| && Owns(r.gate.tasks, t, r.invocations[i]) ==>
            Shows(r.invocations[i], r.gate.tasks[t]))
      && VisibleInv(r.gate.tasks, r.invocations)
  {
    RunKeepsLog(s, tools, events);
  }

  lemma SettledRecordIsIn(log: seq<Log.Invocation>, id: nat, tool: string, content: string, isError: bool)
    requires Log.IncreasingIds(log) && Log.Invocation(id, tool, Log.Running, None) in log
    ensures Log.Outcome(Log.Invocation(id, tool, Log.Running, None), content, isError)
            in Log.Settle(log, id, content, isError)
  {
    var i :| 0 <= i < |log| && log[i] == Log.Invocation(id, tool, Log.Running, None);
    Log.SettleAt(log, id, content, isError, i);
    assert Log.Settle(log, id, content, isError)[i] in Log.Settle(log, id, content, isError);
  }

  /** A settling record is seen at least once: in every reachable state the notification of a direct call's
      settlement shows its record with that outcome, whatever was evicted before. */
  lemma SettlementIsHeard(s: State, tools: Catalog, events: seq<Event>, t: nat)
    requires NoInvocations(s)
    requires
      var tasks := Run(s, tools, events).gate.tasks;
      t < |tasks| && tasks[t].owner.Direct? && tasks[t].phase.Settled?
    ensures
      var r := Run(s, tools, events);
      var q := Step(r, tools, DeliverOutcome(t));
      var task := r.gate.tasks[t];
      var outcome := task.phase.outcome;
      var settled := Log.Invocation(task.owner.record, task.call.tool,
                                    if outcome.isError then Log.Failed else Log.Succeeded, Some(outcome.content));
      && |q.heard| == |r.heard| + 1 && r.heard < q.heard
      && settled in q.heard[|r.heard|].invocations
  {
    RunKeepsLog(s, tools, events);
    var r := Run(s, tools, events);
    var task := r.gate.tasks[t];
    SettledRecordIsIn(r.invocations, task.owner.record, task.call.tool, task.phase.outcome.content,
                      task.phase.outcome.isError);
    assert Step(r, tools, DeliverOutcome(t)) == DeliverTask(r, tools, t);
  }

  /** A settled record never changes again; it can only leave the log. */
  lemma SettledForever(s: State, tools: Catalog, events: seq<Event>, later: seq<Event>, i: nat, j: nat)
    requires NoInvocations(s)
    requires
      var r := Run(s, tools, events);
      var q := Run(s, tools, events + later);
      && i < |r.invocations| && j < |q.invocations|
      && r.invocations[i].id == q.invocations[j].id
      && !r.invocations[i].status.Running?
    ensures Run(s, tools, events + later).invocations[j] == Run(s, tools, events).invocations[i]
  {
    var r := Run(s, tools, events);
    var q := Run(s, tools, events + later);
    RunKeepsLog(s, tools, events);
    RunKeepsLog(s, tools, events + later);
    RunConcat(s, tools, events, later);
    RunGate(r, tools, later);
    var t :| Owns(r.gate.tasks, t, r.invocations[i]);
    assert Shows(r.invocations[i], r.gate.tasks[t]);
    assert q.gate.tasks[t] == r.gate.tasks[t];
    assert Owns(q.gate.tasks, t, q.invocations[j]);
  }

  lemma {:induction false} RunConcat(s: State, tools: Catalog, a: seq<Event>, b: seq<Event>)
    ensures Run(s, tools, a + b) == Run(Run(s, tools, a), tools, b)
    decreases |b|
  {
    if b == [] {
      assert a + b == a;
    } else {
      assert (a + b)[..|a + b| - 1] == a + b[..|b| - 1];
      RunConcat(s, tools, a, b[..|b| - 1]);
    }
  }
}
