/**
 The host object itself (apps/epicenter/src/host.ts): its mutable collections, the loops over them and
 the command switch, each method proved to take the step of the session state machine.
 */
module QueryHostObject {
  import opened Prelude
  import opened Strings
  import opened ToolGate
  import opened Transcript
  import opened Session
  import Log = InvocationLog
  import SessionLibrary

  /** A turn started by a message: the message is stored, the turn runs, subscribers were told. */
  lemma TurnStarts(s: State, message: Message)
    ensures
      var r := RunTurn(Persist(s, [message]));
      && r.conversation.persisted == s.conversation.persisted + [message]
      && r.conversation.turn.Some? && r.conversation.id == s.conversation.id && s.heard < r.heard
  {
    var stored := Persist(s, [message]);
    assert s.heard < stored.heard;
    var turn := Turn([], false, 0, BetweenSteps);
    var told := Notify(WithTurn(stored.(conversation := stored.conversation.(error := None)), turn));
    assert RunTurn(stored) == NextStep(told, turn);
  }

  class QueryHost {
    const tools: Catalog

    // createSessionApproval
    var pending: seq<Entry>
    var sessionGrants: set<string>
    // what callers of the gate are suspended on, and what it has asked, resolved and run
    var asked: seq<Entry>
    var resolved: seq<Resolution>
    var tasks: seq<Task>
    var ran: seq<nat>
    // createQueryHost
    var invocations: seq<Log.Invocation>
    var invoked: nat
    var conversation: Conversation
    var library: Library
    var disposed: bool
    var heard: seq<Snapshot>

    function GateNow(): Gate
      reads this
    {
      Gate(pending, sessionGrants, asked, resolved, tasks, ran)
    }

    function Now(): State
      reads this
    {
      State(GateNow(), invocations, invoked, conversation, library, disposed, heard)
    }

    /** Boot: scan the listed rows for the latest one, open its store, start the conversation. */
    constructor (tools: Catalog, rows: map<nat, Row>, listed: seq<(nat, Row)>, shelved: map<nat, seq<Message>>,
                 clock: nat, freshId: nat)
      ensures this.tools == tools
      ensures Now() == Boot(rows, listed, shelved, clock, freshId)
    {
      var latest: Option<(nat, Row)> := None;
      for i := 0 to |listed|
        invariant latest == Latest(listed[..i])
      {
        assert listed[..i + 1][..i] == listed[..i];
        if latest.None? || listed[i].1.updatedAt > latest.value.1.updatedAt {
          latest := Some(listed[i]);
        }
      }
      assert listed[..|listed|] == listed;
      var activeId := if latest.Some? then latest.value.0 else freshId;
      this.tools := tools;
      pending, sessionGrants, asked, resolved, tasks, ran := [], {}, [], [], [], [];
      invocations, invoked, disposed, heard := [], 0, false, [];
      conversation := Conversation(activeId, StoredMessages(shelved, activeId), None, None);
      library := Library(rows, shelved, clock, if activeId == freshId then freshId + 1 else freshId,
                         [Opened(activeId), Bound(activeId)], []);
    }

    method NotifyListeners()
      modifies this`heard
      ensures Now() == Notify(old(Now()))
    {
      heard := heard + [Snap(Now())];
    }

    /** `entry.resolve(approved)`: the suspended call learns the verdict. */
    method ResolveEntry(entry: Entry, approved: bool, always: bool)
      modifies this`resolved, this`tasks
      ensures resolved == old(resolved) + [Resolution(entry, approved, always)]
      ensures tasks == WithPhase(old(tasks), entry.task, Answered(entry.prompt.id, approved))
    {
      resolved := resolved + [Resolution(entry, approved, always)];
      if entry.task < |tasks| {
        tasks := tasks[entry.task := tasks[entry.task].(phase := Answered(entry.prompt.id, approved))];
      }
    }

    /** Empty the pending map, deny every entry in order, then notify once. */
    method CancelEveryPrompt()
      modifies this
      ensures Now() == Cancel(old(Now()))
    {
      if |pending| == 0 {
        return;
      }
      var entries := pending;
      pending := [];
      for i := 0 to |entries|
        invariant pending == []
        invariant CancelAll(GateNow().(pending := entries[i..])) == CancelAll(old(GateNow()))
        invariant Now() == old(Now()).(gate := GateNow())
      {
        assert entries[i..][1..] == entries[i + 1..];
        ResolveEntry(entries[i], false, false);
      }
      NotifyListeners();
    }

    method AnswerPrompt(requestId: nat, approved: bool, always: bool) returns (ok: bool)
      modifies this
      ensures Now() == Approve(old(Now()), requestId, approved, always)
      ensures ok <==> exists k :: 0 <= k < |old(pending)| && old(pending)[k].prompt.id == requestId
    {
      var k := 0;
      while k < |pending| && pending[k].prompt.id != requestId
        invariant 0 <= k <= |pending|
        invariant forall j :: 0 <= j < k ==> pending[j].prompt.id != requestId
      {
        k := k + 1;
      }
      FindIsFirst(pending, requestId, k);
      if k == |pending| {
        return false;
      }
      AnswerAt(GateNow(), requestId, k, approved, always);
      var entry := pending[k];
      pending := pending[..k] + pending[k + 1..];
      if approved && always {
        sessionGrants := sessionGrants + {entry.prompt.tool};
      }
      ResolveEntry(entry, approved, always);
      NotifyListeners();
      return true;
    }

    lemma AnswerAt(g: Gate, id: nat, k: nat, approved: bool, always: bool)
      requires k < |g.pending| && FindPending(g.pending, id) == k
      ensures Answer(g, id, approved, always) == ResolveAt(g, k, approved, always)
    {
    }

    lemma FindIsFirst(entries: seq<Entry>, id: nat, k: nat)
      requires k <= |entries| && forall j :: 0 <= j < k ==> entries[j].prompt.id != id
      requires k < |entries| ==> entries[k].prompt.id == id
      ensures FindPending(entries, id) == k
    {
    }

    lemma FirstSettledIsFirst(log: seq<Log.Invocation>, i: nat)
      requires i <= |log| && forall j :: 0 <= j < i ==> log[j].status.Running?
      requires i < |log| ==> !log[i].status.Running?
      ensures Log.FindSettled(log) == i
    {
    }

    /** The synchronous head of `resolveApprovedToolCall`: run unattended, prompt, or refuse. */
    method StartCall(owner: Owner, call: ToolCall)
      modifies this
      ensures Now() == Launch(old(Now()), tools, owner, call)
    {
      var t := |tasks|;
      if call.tool !in tools {
        tasks := tasks + [Task(owner, call, Settled(NoTool(call.tool)))];
      } else if call.tool in sessionGrants || tools[call.tool].kind == Query {
        tasks := tasks + [Task(owner, call, Running)];
        ran := ran + [t];
      } else {
        var entry := Entry(PromptFor(GateNow(), tools[call.tool], call), t);
        tasks := tasks + [Task(owner, call, Waiting(entry.prompt.id))];
        asked := asked + [entry];
        pending := pending + [entry];
        NotifyListeners();
      }
    }

    /** Push a running record, trim settled history to the cap, notify, then start the gated call. */
    method RunInvocation(tool: string, input: string)
      modifies this
      ensures Now() == Invoke(old(Now()), tools, tool, input)
    {
      var record := Log.Invocation(invoked, tool, Log.Running, None);
      invoked := invoked + 1;
      invocations := invocations + [record];
      while |invocations| > Log.INVOCATION_LIMIT
        invariant Log.Evict(invocations) == Log.Push(old(invocations), record)
        invariant Now() == old(Now()).(invoked := record.id + 1, invocations := invocations)
        decreases |invocations|
      {
        var evictable := FirstSettled();
        if evictable == |invocations| {
          break;
        }
        invocations := invocations[..evictable] + invocations[evictable + 1..];
      }
      assert Log.Evict(invocations) == invocations;
      NotifyListeners();
      StartCall(Direct(record.id), ToolCall(Minted(record.id), tool, input));
    }

    /** `findIndex` over the log; its length when every record is running. */
    method FirstSettled() returns (i: nat)
      ensures i == Log.FindSettled(invocations)
    {
      i := 0;
      while i < |invocations| && invocations[i].status.Running?
        invariant 0 <= i <= |invocations|
        invariant forall j :: 0 <= j < i ==> invocations[j].status.Running?
      {
        i := i + 1;
      }
      FirstSettledIsFirst(invocations, i);
    }

    /** Write the outcome into the invocation's own record, in place. */
    method UpdateRecord(id: nat, outcome: Outcome)
      modifies this`invocations
      ensures invocations == Log.Settle(old(invocations), id, outcome.content, outcome.isError)
    {
      var i := 0;
      while i < |invocations| && invocations[i].id != id
        invariant 0 <= i <= |invocations|
        invariant forall j :: 0 <= j < i ==> invocations[j].id != id
        invariant invocations == old(invocations)
      {
        i := i + 1;
      }
      Log.SettleIsUpdate(invocations, id, outcome.content, outcome.isError, i);
      if i < |invocations| {
        invocations := invocations[i := Log.Outcome(invocations[i], outcome.content, outcome.isError)];
      }
    }

    /** The `.then` of a direct invocation: settle its record and notify. */
    method SettleInvocation(t: nat)
      requires t < |tasks| && tasks[t].phase.Settled? && tasks[t].owner.Direct?
      modifies this
      ensures Now() == DeliverTask(old(Now()), tools, t)
    {
      var outcome := tasks[t].phase.outcome;
      var id := tasks[t].owner.record;
      tasks := tasks[t := tasks[t].(phase := Delivered(outcome))];
      UpdateRecord(id, outcome);
      NotifyListeners();
    }

    /** The active row is minted or made the most recent; every other row stays, and a name other than the
        placeholder is kept. */
    method TouchConversationRow(content: string)
      modifies this`library
      ensures library == TouchRow(old(library), conversation.id, content)
      ensures library.rows.Keys == old(library).rows.Keys + {conversation.id}
      ensures forall id :: id in old(library).rows && id != conversation.id ==>
                library.rows[id] == old(library).rows[id]
      ensures library.rows[conversation.id].updatedAt == library.clock
      ensures conversation.id in old(library).rows ==>
                library.rows[conversation.id].createdAt == old(library).rows[conversation.id].createdAt
      ensures conversation.id in old(library).rows && old(library).rows[conversation.id].title != "New Chat" ==>
                library.rows[conversation.id].title == old(library).rows[conversation.id].title
    {
      var now := library.clock;
      var row;
      if conversation.id !in library.rows {
        row := Row(First50(content), now, now);
      } else {
        var existing := library.rows[conversation.id];
        row := existing.(title := if existing.title == "New Chat" then First50(content) else existing.title,
                         updatedAt := now);
      }
      library := library.(rows := library.rows[conversation.id := row]);
    }

    method LogEffect(effect: Lifecycle)
      modifies this`library
      ensures library == old(library).(lifecycle := old(library).lifecycle + [effect])
    {
      library := library.(lifecycle := library.lifecycle + [effect]);
    }

    method ClearConversation()
      modifies this
      ensures Now() == Clear(old(Now()))
    {
      var id := conversation.id;
      LogEffect(Unbound(id));
      LogEffect(Parked(id));
      library := library.(parked := library.parked + [id]);
      conversation := AbortTurn(conversation);
      LogEffect(Disposed(id));
      assert Now() == Retire(old(Now()));
      CancelEveryPrompt();
      var nextId := library.nextId;
      library := library.(shelved := library.shelved[id := conversation.persisted], nextId := nextId + 1);
      LogEffect(Opened(nextId));
      conversation := Conversation(nextId, [], None, None);
      LogEffect(Bound(nextId));
      NotifyListeners();
    }

    /** `conversation.send`, and the row it touches when a turn started. */
    method SendToConversation(content: string) returns (started: bool)
      modifies this
      ensures Now() == Send(old(Now()), content)
      ensures started <==> CanSend(old(Now()), content)
      ensures !started ==> Now() == old(Now())
      ensures started ==>
                && conversation.persisted == old(conversation).persisted + [Message(User, [Text(Trim(content))])]
                && conversation.turn.Some? && conversation.id in library.rows
                && old(heard) < heard
      ensures GateNow() == old(GateNow()) && invocations == old(invocations)
    {
      started := CanSend(Now(), content);
      if started {
        var after := RunTurn(Persist(Now(), [Message(User, [Text(Trim(content))])]));
        TurnStarts(Now(), Message(User, [Text(Trim(content))]));
        conversation, heard := after.conversation, after.heard;
        TouchConversationRow(content);
      }
    }

    /** Apply one client command; the result says whether it was accepted. */
    method HandleCommand(command: Command) returns (ok: bool)
      modifies this
      ensures Now() == Handle(old(Now()), tools, command)
      ensures match command
              case SendText(content) => ok <==> CanSend(old(Now()), content)
              case ApprovePrompt(id, _, _) =>
                ok <==> exists k :: 0 <= k < |old(pending)| && old(pending)[k].prompt.id == id
              case _ => ok
    {
      match command
      case SendText(content) =>
        ok := SendToConversation(content);
      case StopTurn =>
        conversation := AbortTurn(conversation);
        CancelEveryPrompt();
        ok := true;
      case RetryTurn =>
        if conversation.turn.None? {
          var started := RunTurn(Now());
          conversation, heard := started.conversation, started.heard;
        }
        ok := true;
      case ClearSession =>
        ClearConversation();
        ok := true;
      case ApprovePrompt(requestId, approved, always) =>
        ok := AnswerPrompt(requestId, approved, always);
      case InvokeTool(tool, input) =>
        RunInvocation(tool, input);
        ok := true;
    }

    /** Disposal: abort the turn and every invocation, deny every prompt, and await each store ever opened,
        once; each of them was then disposed once. */
    method DisposeAsync() returns (awaited: seq<nat>)
      modifies this
      ensures Now() == Dispose(old(Now()))
      ensures SessionLibrary.LivesInv(old(Now())) && !old(disposed) ==>
                && multiset(awaited) == multiset(SessionLibrary.OpenedIds(library.lifecycle))
                && SessionLibrary.DisposedIds(library.lifecycle) == SessionLibrary.OpenedIds(library.lifecycle)
    {
      ghost var before := Now();
      conversation := AbortTurn(conversation);
      LogEffect(Disposed(conversation.id));
      disposed := true;
      CancelEveryPrompt();
      awaited := [conversation.id] + library.parked;
      assert Now() == Dispose(before) && awaited == SessionLibrary.Awaited(before);
      if SessionLibrary.LivesInv(before) && !before.disposed {
        SessionLibrary.DisposeAccounts(before);
      }
    }
  }
}
