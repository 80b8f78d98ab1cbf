/**
 What a host leaves on disk and how the next one resumes it: conversation rows over whole runs, the
 boot scan, and the lifecycle of conversations and their stores.
 */
module SessionLibrary {
  import opened Prelude
  import opened Strings
  import opened ToolGate
  import opened Transcript
  import opened Session

  function Last<T>(xs: seq<T>): T
    requires xs != []
  {
    xs[|xs| - 1]
  }

  // ---------------------------------------------------------------- rows

  lemma CommandLibrary(s: State, tools: Catalog, command: Command)
    ensures Handle(s, tools, command).library ==
            if command.SendText? && CanSend(s, command.content) then
              TouchRow(s.library, s.conversation.id, command.content)
            else if command == ClearSession then SwapConversation(Retire(s)).library
            else s.library
  {
  }

  lemma LoopLeavesLibrary(s: State, tools: Catalog, e: Event)
    requires !e.Client? && e != DisposeHost && e != Tick
    ensures Step(s, tools, e).library == s.library
  {
  }

  /** Only a started send, a clear, disposal and the clock touch the library. */
  lemma StepLibrary(s: State, tools: Catalog, e: Event)
    ensures
      Step(s, tools, e).library ==
      if e == Tick then s.library.(clock := s.library.clock + 1)
      else if s.disposed then s.library
      else if e == DisposeHost then s.library.(lifecycle := s.library.lifecycle + [Disposed(s.conversation.id)])
      else if e.Client? && e.command.SendText? && CanSend(s, e.command.content) then
        TouchRow(s.library, s.conversation.id, e.command.content)
      else if e == Client(ClearSession) then SwapConversation(Retire(s)).library
      else s.library
  {
    if e.Client? {
      CommandLibrary(s, tools, e.command);
    } else if e != DisposeHost && e != Tick {
      LoopLeavesLibrary(s, tools, e);
    }
  }

  ghost predicate HonestDisk(rows: map<nat, Row>, clock: nat) {
    forall id :: id in rows ==> rows[id].updatedAt <= clock
  }

  /** A command that starts a turn. */
  predicate Starts(s: State, e: Event) {
    !s.disposed && e.Client? && e.command.SendText? && CanSend(s, e.command.content)
  }

  /** What a started send to conversation `id` would call it. */
  function SentBy(r: State, e: Event, id: nat): (names: seq<string>)
    ensures |names| <= 1
  {
    if Starts(r, e) && r.conversation.id == id then [First50(e.command.content)] else []
  }

  /** What the started sends of a run to one conversation would call it. */
  function SentNames(s: State, tools: Catalog, events: seq<Event>, id: nat): seq<string> {
    if events == [] then []
    else
      var before, e := events[..|events| - 1], events[|events| - 1];
      SentNames(s, tools, before, id) + SentBy(Run(s, tools, before), e, id)
  }

  /** The first name that is not the placeholder. */
  function FirstReal(names: seq<string>): string {
    if names == [] then "New Chat"
    else if names[0] != "New Chat" then names[0]
    else FirstReal(names[1..])
  }

  lemma {:induction false} FirstRealSnoc(names: seq<string>, name: string)
    ensures FirstReal(names + [name]) == if FirstReal(names) == "New Chat" then name else FirstReal(names)
  {
    if names == [] {
      assert names + [name] == [name];
    } else {
      assert (names + [name])[1..] == names[1..] + [name];
      FirstRealSnoc(names[1..], name);
    }
  }

  lemma {:induction false} AllPlaceholders(names: seq<string>)
    ensures FirstReal(names) == "New Chat" <==> forall i :: 0 <= i < |names| ==> names[i] == "New Chat"
  {
    if names != [] {
      AllPlaceholders(names[1..]);
      assert forall i :: 0 < i < |names| ==> names[i] == names[1..][i - 1];
    }
  }

  lemma FirstRealGrows(title: string, names: seq<string>, more: seq<string>)
    requires |more| <= 1
    ensures FirstReal([title] + (names + more)) ==
            if more != [] && FirstReal([title] + names) == "New Chat" then more[0] else FirstReal([title] + names)
  {
    if more == [] {
      assert names + more == names;
    } else {
      FirstRealSnoc([title] + names, more[0]);
      assert [title] + (names + more) == [title] + names + [more[0]];
    }
  }

  lemma NamedByStep(r: State, tools: Catalog, e: Event, id: nat)
    requires id in r.library.rows
    ensures
      var row, now := r.library.rows[id], Step(r, tools, e).library.rows;
      && id in now && now[id].createdAt == row.createdAt
      && now[id].title == if SentBy(r, e, id) != [] && row.title == "New Chat" then SentBy(r, e, id)[0] else row.title
  {
    StepLibrary(r, tools, e);
  }

  lemma {:induction false} NamedByRun(s: State, tools: Catalog, events: seq<Event>, id: nat)
    requires id in s.library.rows
    ensures
      var rows := Run(s, tools, events).library.rows;
      && id in rows
      && rows[id].title == FirstReal([s.library.rows[id].title] + SentNames(s, tools, events, id))
      && rows[id].createdAt == s.library.rows[id].createdAt
  {
    var title := s.library.rows[id].title;
    if events == [] {
      assert [title] + [] == [title];
    } else {
      var before, e := events[..|events| - 1], events[|events| - 1];
      NamedByRun(s, tools, before, id);
      var r := Run(s, tools, before);
      NamedByStep(r, tools, e, id);
      FirstRealGrows(title, SentNames(s, tools, before, id), SentBy(r, e, id));
    }
  }

  /** A conversation's row is born at its first started send and, whatever follows, called by the first of
      its sends that does not spell the placeholder: the first send's name stays if and only if it is not
      the placeholder or every later send spells it again. */
  lemma TitledByFirstRealSend(s: State, tools: Catalog, content: string, later: seq<Event>)
    requires !s.disposed && CanSend(s, content) && s.conversation.id !in s.library.rows
    ensures
      var sent := Step(s, tools, Client(SendText(content)));
      var rows := Run(sent, tools, later).library.rows;
      var id, name := s.conversation.id, if |content| <= 50 then content else content[..50];
      var names := SentNames(sent, tools, later, id);
      && id in rows
      && rows[id].createdAt == s.library.clock
      && rows[id].title == FirstReal([name] + names)
      && (rows[id].title == name <==>
            name != "New Chat" || forall i :: 0 <= i < |names| ==> names[i] == "New Chat")
  {
    var sent := Step(s, tools, Client(SendText(content)));
    StepLibrary(s, tools, Client(SendText(content)));
    NamedByRun(sent, tools, later, s.conversation.id);
    var names := SentNames(sent, tools, later, s.conversation.id);
    AllPlaceholders(names);
    assert ([First50(content)] + names)[1..] == names;
  }

  // ---------------------------------------------------------------- the boot scan

  /** `listed` is the table's rows in some order. */
  ghost predicate Lists(listed: seq<(nat, Row)>, rows: map<nat, Row>) {
    && (forall i :: 0 <= i < |listed| ==> listed[i].0 in rows && rows[listed[i].0] == listed[i].1)
    && (forall id :: id in rows ==> (id, rows[id]) in listed)
    && (forall i, j :: 0 <= i < j < |listed| ==> listed[i].0 != listed[j].0)
  }

  lemma {:induction false} LatestIsMaximal(listed: seq<(nat, Row)>)
    ensures Latest(listed).None? <==> listed == []
    ensures listed != [] ==>
              && Latest(listed).value in listed
              && forall i :: 0 <= i < |listed| ==> listed[i].1.updatedAt <= Latest(listed).value.1.updatedAt
  {
    if listed != [] {
      LatestIsMaximal(listed[..|listed| - 1]);
      assert listed == listed[..|listed| - 1] + [listed[|listed| - 1]];
    }
  }

  /** The scan keeps the first row listed among the most recent ones. */
  lemma {:induction false} LatestKeepsFirst(listed: seq<(nat, Row)>)
    requires listed != []
    requires forall i :: 0 <= i < |listed| ==> listed[i].1.updatedAt <= listed[0].1.updatedAt
    ensures Latest(listed) == Some(listed[0])
  {
    if |listed| > 1 {
      LatestKeepsFirst(listed[..|listed| - 1]);
    }
  }

  lemma {:induction false} ListingExists(rows: map<nat, Row>) returns (listed: seq<(nat, Row)>)
    ensures Lists(listed, rows)
    decreases |rows|
  {
    if rows.Keys == {} {
      listed := [];
    } else {
      var id :| id in rows.Keys;
      var rest := ListingExists(rows - {id});
      listed := [(id, rows[id])] + rest;
      forall x | x in rows ensures (x, rows[x]) in listed {
        if x != id {
          assert (x, (rows - {id})[x]) in rest;
        }
      }
    }
  }

  lemma ListingFrom(rows: map<nat, Row>, id: nat) returns (listed: seq<(nat, Row)>)
    requires id in rows
    ensures Lists(listed, rows) && listed != [] && listed[0] == (id, rows[id])
  {
    var rest := ListingExists(rows - {id});
    listed := [(id, rows[id])] + rest;
    forall x | x in rows ensures (x, rows[x]) in listed {
      if x != id {
        assert (x, (rows - {id})[x]) in rest;
      }
    }
  }

  /** Every other row is strictly older. */
  ghost predicate StrictlyLatest(rows: map<nat, Row>, id: nat) {
    id in rows && forall other :: other in rows && other != id ==> rows[other].updatedAt < rows[id].updatedAt
  }

  ghost predicate AlwaysResumes(rows: map<nat, Row>, id: nat) {
    id in rows && forall listed :: Lists(listed, rows) ==> Latest(listed) == Some((id, rows[id]))
  }

  lemma StrictlyLatestResumes(rows: map<nat, Row>, id: nat, listed: seq<(nat, Row)>)
    requires StrictlyLatest(rows, id) && Lists(listed, rows)
    ensures Latest(listed) == Some((id, rows[id]))
  {
    assert (id, rows[id]) in listed;
    LatestIsMaximal(listed);
  }

  /** Two rows sharing the greatest millisecond make the outcome depend on the listing order. */
  lemma TieResumesEither(rows: map<nat, Row>, id: nat, other: nat)
    requires id in rows && other in rows && id != other
    requires forall x :: x in rows ==> rows[x].updatedAt <= rows[other].updatedAt
    ensures !AlwaysResumes(rows, id)
  {
    var listed := ListingFrom(rows, other);
    LatestKeepsFirst(listed);
    assert Lists(listed, rows) && Latest(listed) == Some((other, rows[other]));
  }

  // ---------------------------------------------------------------- sends and their milliseconds

  datatype Sent = Sent(id: nat, at: nat)

  function Ticks(events: seq<Event>): nat {
    if events == [] then 0
    else Ticks(events[..|events| - 1]) + if events[|events| - 1] == Tick then 1 else 0
  }

  /** The started sends of a run: the conversation active at each, and its millisecond on the host's clock,
      which stands at the ticks so far (`RunTicks`). */
  function Sends(s: State, tools: Catalog, events: seq<Event>): seq<Sent> {
    if events == [] then []
    else
      var before := events[..|events| - 1];
      WithEvent(Sends(s, tools, before), Run(s, tools, before), events[|events| - 1])
  }

  /** The sends after one more event. */
  function WithEvent(sends: seq<Sent>, s: State, e: Event): seq<Sent> {
    if Starts(s, e) then sends + [Sent(s.conversation.id, s.library.clock)] else sends
  }

  /** When a row was last written: by the last send to it, else as found. */
  function LastWritten(rows: map<nat, Row>, sends: seq<Sent>, id: nat): Option<nat> {
    if sends == [] then (if id in rows then Some(rows[id].updatedAt) else None)
    else if Last(sends).id == id then Some(Last(sends).at)
    else LastWritten(rows, sends[..|sends| - 1], id)
  }

  ghost predicate WrittenAsSent(rows: map<nat, Row>, sends: seq<Sent>, now: map<nat, Row>) {
    forall id :: LastWritten(rows, sends, id) == if id in now then Some(now[id].updatedAt) else None
  }

  ghost predicate InOrder(rows: map<nat, Row>, sends: seq<Sent>, clock: nat) {
    && (forall i :: 0 <= i < |sends| ==> sends[i].at <= clock)
    && (forall i, j :: 0 <= i < j < |sends| ==> sends[i].at <= sends[j].at)
    && (forall id, i :: id in rows && 0 <= i < |sends| ==> rows[id].updatedAt <= sends[i].at)
  }

  /** What an event writes: the active row when it starts a turn, the clock when it ticks. */
  lemma StepWrites(s: State, tools: Catalog, e: Event)
    ensures
      var after := Step(s, tools, e).library;
      && after.clock == s.library.clock + (if e == Tick then 1 else 0)
      && after.rows == if Starts(s, e) then TouchRow(s.library, s.conversation.id, e.command.content).rows
                       else s.library.rows
  {
    StepLibrary(s, tools, e);
  }

  lemma {:induction false} RunTicks(s: State, tools: Catalog, events: seq<Event>)
    ensures Run(s, tools, events).library.clock == s.library.clock + Ticks(events)
  {
    if events != [] {
      RunTicks(s, tools, events[..|events| - 1]);
      StepWrites(Run(s, tools, events[..|events| - 1]), tools, events[|events| - 1]);
    }
  }

  lemma {:induction false} RunWrites(s: State, tools: Catalog, events: seq<Event>)
    requires HonestDisk(s.library.rows, s.library.clock)
    ensures WrittenAsSent(s.library.rows, Sends(s, tools, events), Run(s, tools, events).library.rows)
    ensures InOrder(s.library.rows, Sends(s, tools, events), Run(s, tools, events).library.clock)
    ensures s.library.clock <= Run(s, tools, events).library.clock
  {
    if events != [] {
      var before, e := events[..|events| - 1], events[|events| - 1];
      var middle := Run(s, tools, before);
      RunWrites(s, tools, before);
      StepWrites(middle, tools, e);
      EventWrites(s.library.rows, Sends(s, tools, before), middle, Step(middle, tools, e).library, e);
    }
  }

  lemma EventWrites(rows: map<nat, Row>, sends: seq<Sent>, s: State, after: Library, e: Event)
    requires WrittenAsSent(rows, sends, s.library.rows) && InOrder(rows, sends, s.library.clock)
    requires HonestDisk(rows, s.library.clock) && s.library.clock <= after.clock
    requires after.rows == if Starts(s, e) then TouchRow(s.library, s.conversation.id, e.command.content).rows
                           else s.library.rows
    ensures WrittenAsSent(rows, WithEvent(sends, s, e), after.rows)
    ensures InOrder(rows, WithEvent(sends, s, e), after.clock)
  {
    if Starts(s, e) {
      var sent := Sent(s.conversation.id, s.library.clock);
      SendWrites(rows, sends, s.library, sent, e.command.content);
      SendStaysInOrder(rows, sends, s.library.clock, sent);
      LaterStaysInOrder(rows, sends + [sent], s.library.clock, after.clock);
    } else {
      LaterStaysInOrder(rows, sends, s.library.clock, after.clock);
    }
  }

  lemma LaterStaysInOrder(rows: map<nat, Row>, sends: seq<Sent>, clock: nat, later: nat)
    requires InOrder(rows, sends, clock) && clock <= later
    ensures InOrder(rows, sends, later)
  {
  }

  lemma SendStaysInOrder(rows: map<nat, Row>, sends: seq<Sent>, clock: nat, sent: Sent)
    requires InOrder(rows, sends, clock) && HonestDisk(rows, clock) && sent.at == clock
    ensures InOrder(rows, sends + [sent], clock)
  {
  }

  lemma SendWrites(rows: map<nat, Row>, sends: seq<Sent>, lib: Library, sent: Sent, content: string)
    requires WrittenAsSent(rows, sends, lib.rows) && sent.at == lib.clock
    ensures WrittenAsSent(rows, sends + [sent], TouchRow(lib, sent.id, content).rows)
  {
    assert (sends + [sent])[..|sends|] == sends;
  }

  /** Something else was written in that millisecond: a send, or a row found at the start. */
  predicate WrittenAt(rows: map<nat, Row>, sends: seq<Sent>, id: nat, at: nat) {
    Sent(id, at) in sends || (id in rows && rows[id].updatedAt == at)
  }

  lemma {:induction false} WrittenLast(rows: map<nat, Row>, sends: seq<Sent>, id: nat, top: nat)
    requires InOrder(rows, sends, top) && HonestDisk(rows, top)
    ensures
      var written := LastWritten(rows, sends, id);
      if written.None? then !WrittenAt(rows, sends, id, top)
      else written.value <= top && (written.value == top <==> WrittenAt(rows, sends, id, top))
  {
    if sends != [] {
      var n := |sends| - 1;
      var before := sends[..n];
      assert sends == before + [sends[n]];
      if sends[n].id == id {
        assert forall i :: 0 <= i <= n ==> sends[i].at <= sends[n].at;
      } else {
        assert InOrder(rows, before, top);
        WrittenLast(rows, before, id, top);
      }
    }
  }

  /** The last send has its millisecond to itself: no other conversation was sent to in it, and no other
      row found at boot was dated in it. */
  ghost predicate Alone(rows: map<nat, Row>, sends: seq<Sent>)
    requires sends != []
  {
    && (forall i :: 0 <= i < |sends| && sends[i].at == Last(sends).at ==> sends[i].id == Last(sends).id)
    && (forall id :: id in rows && rows[id].updatedAt == Last(sends).at ==> id == Last(sends).id)
  }

  lemma AloneIffStrictlyLatest(rows: map<nat, Row>, sends: seq<Sent>, clock: nat, now: map<nat, Row>)
    requires sends != [] && InOrder(rows, sends, clock) && WrittenAsSent(rows, sends, now)
    ensures Alone(rows, sends) <==> StrictlyLatest(now, Last(sends).id)
    ensures MostRecent(now, Last(sends).id)
  {
    var last := Last(sends);
    assert LastWritten(rows, sends, last.id) == Some(last.at);
    assert InOrder(rows, sends, last.at) && HonestDisk(rows, last.at);
    forall id
      ensures id in now ==> now[id].updatedAt <= last.at
      ensures (id in now && now[id].updatedAt == last.at) <==> WrittenAt(rows, sends, id, last.at)
    {
      WrittenLast(rows, sends, id, last.at);
      assert LastWritten(rows, sends, id) == if id in now then Some(now[id].updatedAt) else None;
    }
    if Alone(rows, sends) {
      forall other | other in now && other != last.id ensures now[other].updatedAt < last.at {
        assert !WrittenAt(rows, sends, other, last.at);
      }
    }
    if StrictlyLatest(now, last.id) {
      forall i | 0 <= i < |sends| && sends[i].at == last.at ensures sends[i].id == last.id {
        assert WrittenAt(rows, sends, sends[i].id, last.at);
      }
      forall id | id in rows && rows[id].updatedAt == last.at ensures id == last.id {
        assert WrittenAt(rows, sends, id, last.at);
      }
    }
  }

  /** The row is there, and none is more recent. */
  ghost predicate MostRecent(rows: map<nat, Row>, id: nat) {
    id in rows && forall other :: other in rows ==> rows[other].updatedAt <= rows[id].updatedAt
  }

  predicate SentTo(sends: seq<Sent>, id: nat) {
    exists i :: 0 <= i < |sends| && sends[i].id == id
  }

  lemma {:induction false} LastWrittenSome(rows: map<nat, Row>, sends: seq<Sent>, id: nat)
    ensures LastWritten(rows, sends, id).Some? <==>
            id in rows || SentTo(sends, id)
  {
    if sends != [] {
      LastWrittenSome(rows, sends[..|sends| - 1], id);
      assert forall i :: 0 <= i < |sends| - 1 ==> sends[i] == sends[..|sends| - 1][i];
    }
  }

  lemma RowsAsSent(rows: map<nat, Row>, sends: seq<Sent>, now: map<nat, Row>, id: nat)
    requires WrittenAsSent(rows, sends, now)
    ensures id in now <==> id in rows || SentTo(sends, id)
  {
    assert LastWritten(rows, sends, id) == if id in now then Some(now[id].updatedAt) else None;
    LastWrittenSome(rows, sends, id);
  }

  /** Idle launches and clears leave no rows: the rows of a run are those it found and those sent to. */
  lemma RowsFoundOrSent(s: State, tools: Catalog, events: seq<Event>, id: nat)
    requires HonestDisk(s.library.rows, s.library.clock)
    ensures
      id in Run(s, tools, events).library.rows <==>
      id in s.library.rows || SentTo(Sends(s, tools, events), id)
  {
    RunWrites(s, tools, events);
    RowsAsSent(s.library.rows, Sends(s, tools, events), Run(s, tools, events).library.rows, id);
  }

  // ---------------------------------------------------------------- restart

  /** What the next host reads: the shelved transcripts, with the active store's own. */
  function OnDisk(s: State): map<nat, seq<Message>> {
    s.library.shelved[s.conversation.id := s.conversation.persisted]
  }

  /** The next host, at whatever time and in whatever order the table lists its rows, has this conversation
      with what was stored for it, and no turn, prompt, grant or invocation. */
  ghost predicate Resumes(s: State, id: nat) {
    && id in OnDisk(s)
    && forall listed, clock, freshId :: Lists(listed, s.library.rows) ==>
         ResumesIn(Boot(s.library.rows, listed, OnDisk(s), clock, freshId), id, OnDisk(s)[id])
  }

  predicate ResumesIn(next: State, id: nat, messages: seq<Message>) {
    && next.conversation == Conversation(id, messages, None, None)
    && next.gate == EMPTY_GATE && next.invocations == [] && !next.disposed
  }

  /** A restart from any state resumes a most recent row with its stored transcript, or a new conversation
      when there is no row; nothing else is carried over. */
  lemma RestartReplays(s: State, listed: seq<(nat, Row)>, clock: nat, freshId: nat)
    requires Lists(listed, s.library.rows)
    ensures
      var next := Boot(s.library.rows, listed, OnDisk(s), clock, freshId);
      var id := next.conversation.id;
      && ResumesIn(next, id, StoredMessages(OnDisk(s), id))
      && (if s.library.rows == map[] then id == freshId else MostRecent(s.library.rows, id))
  {
    LatestIsMaximal(listed);
    assert forall i :: 0 <= i < |listed| ==> listed[i].0 in s.library.rows;
    if s.library.rows != map[] {
      var some :| some in s.library.rows;
      assert (some, s.library.rows[some]) in listed;
      forall other | other in s.library.rows
        ensures s.library.rows[other].updatedAt <= Latest(listed).value.1.updatedAt
      {
        assert (other, s.library.rows[other]) in listed;
      }
    }
  }

  lemma ResumesIffStrictlyLatest(s: State, id: nat)
    requires MostRecent(s.library.rows, id) && id in OnDisk(s)
    ensures Resumes(s, id) <==> StrictlyLatest(s.library.rows, id)
  {
    var rows := s.library.rows;
    if StrictlyLatest(rows, id) {
      forall listed, clock, freshId | Lists(listed, rows)
        ensures ResumesIn(Boot(rows, listed, OnDisk(s), clock, freshId), id, OnDisk(s)[id])
      {
        StrictlyLatestResumes(rows, id, listed);
      }
    } else {
      var other :| other in rows && other != id && rows[other].updatedAt >= rows[id].updatedAt;
      TieResumesEither(rows, id, other);
      var listed :| Lists(listed, rows) && Latest(listed) != Some((id, rows[id]));
      assert (id, rows[id]) in listed;
      LatestIsMaximal(listed);
      assert !ResumesIn(Boot(rows, listed, OnDisk(s), 0, 0), id, OnDisk(s)[id]);
    }
  }

  // ---------------------------------------------------------------- durability

  ghost predicate DiskInv(s: State) {
    && s.conversation.id < s.library.nextId
    && forall id :: id in s.library.shelved ==> id < s.library.nextId
  }

  /** Nothing stored is lost, edited or reordered: transcripts only grow at their end. */
  ghost predicate Keeps(disk: map<nat, seq<Message>>, later: map<nat, seq<Message>>) {
    forall id :: id in disk ==> id in later && disk[id] <= later[id]
  }

  lemma StepGrowsTranscript(s: State, tools: Catalog, e: Event)
    requires e != Client(ClearSession) || s.disposed
    ensures Step(s, tools, e).conversation.id == s.conversation.id
    ensures s.conversation.persisted <= Step(s, tools, e).conversation.persisted
  {
    match e
    case Client(command) =>
      if !s.disposed {
        CommandGrowsTranscript(s, tools, command);
      }
    case DeliverOutcome(t) =>
    case _ =>
  }

  lemma CommandGrowsTranscript(s: State, tools: Catalog, command: Command)
    requires command != ClearSession
    ensures Handle(s, tools, command).conversation.id == s.conversation.id
    ensures s.conversation.persisted <= Handle(s, tools, command).conversation.persisted
  {
  }

  lemma StepKeepsDisk(s: State, tools: Catalog, e: Event)
    requires DiskInv(s)
    ensures DiskInv(Step(s, tools, e)) && Keeps(OnDisk(s), OnDisk(Step(s, tools, e)))
  {
    StepLibrary(s, tools, e);
    if e == Client(ClearSession) && !s.disposed {
      assert Clear(s).conversation.id == s.library.nextId;
    } else {
      StepGrowsTranscript(s, tools, e);
    }
  }

  lemma {:induction false} RunKeepsDisk(s: State, tools: Catalog, events: seq<Event>)
    requires DiskInv(s)
    ensures DiskInv(Run(s, tools, events)) && Keeps(OnDisk(s), OnDisk(Run(s, tools, events)))
  {
    if events != [] {
      RunKeepsDisk(s, tools, events[..|events| - 1]);
      StepKeepsDisk(Run(s, tools, events[..|events| - 1]), tools, events[|events| - 1]);
    }
  }

  /** A started send is durable at once: whatever happens next, stop, clear or disposal included, the
      user's message stays in its conversation's stored transcript. */
  lemma SentIsStored(s: State, tools: Catalog, content: string, later: seq<Event>)
    requires DiskInv(s) && !s.disposed && CanSend(s, content)
    ensures
      var disk := OnDisk(Run(Step(s, tools, Client(SendText(content))), tools, later));
      s.conversation.id in disk && Message(User, [Text(Trim(content))]) in disk[s.conversation.id]
  {
    var message := Message(User, [Text(Trim(content))]);
    var r := Step(s, tools, Client(SendText(content)));
    var stored := Persist(s, [message]);
    assert stored.conversation.persisted == s.conversation.persisted + [message];
    assert stored.conversation.persisted[|s.conversation.persisted|] == message;
    assert stored.conversation.persisted <= r.conversation.persisted;
    StepKeepsDisk(s, tools, Client(SendText(content)));
    RunKeepsDisk(r, tools, later);
    assert message in OnDisk(r)[s.conversation.id];
    var disk := OnDisk(Run(r, tools, later));
    assert OnDisk(r)[s.conversation.id] <= disk[s.conversation.id];
    var i :| 0 <= i < |OnDisk(r)[s.conversation.id]| && OnDisk(r)[s.conversation.id][i] == message;
    assert disk[s.conversation.id][i] == message;
  }

  ghost predicate AllOnDisk(sends: seq<Sent>, disk: map<nat, seq<Message>>) {
    forall i :: 0 <= i < |sends| ==> sends[i].id in disk
  }

  lemma SentStay(sends: seq<Sent>, s: State, e: Event, later: map<nat, seq<Message>>)
    requires AllOnDisk(sends, OnDisk(s)) && Keeps(OnDisk(s), later)
    ensures AllOnDisk(WithEvent(sends, s, e), later)
  {
    assert s.conversation.id in OnDisk(s);
  }

  lemma {:induction false} SentAreOnDisk(s: State, tools: Catalog, events: seq<Event>)
    requires DiskInv(s)
    ensures AllOnDisk(Sends(s, tools, events), OnDisk(Run(s, tools, events)))
  {
    if events != [] {
      var before, e := events[..|events| - 1], events[|events| - 1];
      SentAreOnDisk(s, tools, before);
      RunKeepsDisk(s, tools, before);
      StepKeepsDisk(Run(s, tools, before), tools, e);
      SentStay(Sends(s, tools, before), Run(s, tools, before), e, OnDisk(Step(Run(s, tools, before), tools, e)));
    }
  }

  // ---------------------------------------------------------------- boot resumes the last send

  /** A data directory a host can find: ids new to it, no row dated in the future. */
  ghost predicate Disk(rows: map<nat, Row>, listed: seq<(nat, Row)>, shelved: map<nat, seq<Message>>, clock: nat,
                       freshId: nat)
  {
    && Lists(listed, rows) && HonestDisk(rows, clock)
    && (forall id :: id in rows ==> id < freshId)
    && (forall id :: id in shelved ==> id < freshId)
  }

  lemma BootDisk(rows: map<nat, Row>, listed: seq<(nat, Row)>, shelved: map<nat, seq<Message>>, clock: nat,
                 freshId: nat)
    requires Disk(rows, listed, shelved, clock, freshId)
    ensures DiskInv(Boot(rows, listed, shelved, clock, freshId))
  {
    LatestIsMaximal(listed);
  }

  /** Over every run of a booted host with a started send: the next host resumes the last send's
      conversation, whole and whatever the order its row is listed in, if and only if that send had its
      millisecond to itself. */
  lemma BootResumesLastSend(rows: map<nat, Row>, listed: seq<(nat, Row)>, shelved: map<nat, seq<Message>>,
                            clock: nat, freshId: nat, tools: Catalog, events: seq<Event>)
    requires Disk(rows, listed, shelved, clock, freshId)
    requires Sends(Boot(rows, listed, shelved, clock, freshId), tools, events) != []
    ensures
      var host := Boot(rows, listed, shelved, clock, freshId);
      var sends := Sends(host, tools, events);
      Resumes(Run(host, tools, events), Last(sends).id) <==> Alone(rows, sends)
  {
    var host := Boot(rows, listed, shelved, clock, freshId);
    var sends, r := Sends(host, tools, events), Run(host, tools, events);
    BootDisk(rows, listed, shelved, clock, freshId);
    RunWrites(host, tools, events);
    AloneIffStrictlyLatest(rows, sends, r.library.clock, r.library.rows);
    SentAreOnDisk(host, tools, events);
    ResumesIffStrictlyLatest(r, Last(sends).id);
  }

  /** Ticks since the last started send, or since the run's start. */
  function SinceSend(s: State, tools: Catalog, events: seq<Event>): nat {
    if events == [] then 0
    else
      var before, e := events[..|events| - 1], events[|events| - 1];
      if Starts(Run(s, tools, before), e) then 0
      else SinceSend(s, tools, before) + if e == Tick then 1 else 0
  }

  /** Every started send has a tick between it and the one before, or the start. */
  predicate TicksBeforeSends(s: State, tools: Catalog, events: seq<Event>) {
    events == [] ||
    var before := events[..|events| - 1];
    && TicksBeforeSends(s, tools, before)
    && (Starts(Run(s, tools, before), events[|events| - 1]) ==> SinceSend(s, tools, before) > 0)
  }

  predicate Spaced(sends: seq<Sent>, start: nat) {
    && (sends != [] ==> start < sends[0].at)
    && forall i, j :: 0 <= i < j < |sends| ==> sends[i].at < sends[j].at
  }

  lemma SpacedSnoc(sends: seq<Sent>, start: nat, sent: Sent)
    requires Spaced(sends, start) && (if sends == [] then start else Last(sends).at) < sent.at
    ensures Spaced(sends + [sent], start)
  {
  }

  lemma SpacedIsAlone(rows: map<nat, Row>, sends: seq<Sent>, clock: nat)
    requires sends != [] && Spaced(sends, clock) && HonestDisk(rows, clock)
    ensures Alone(rows, sends)
  {
    assert forall i :: 0 <= i < |sends| && sends[i].at == Last(sends).at ==> i == |sends| - 1;
    assert clock < Last(sends).at;
  }

  /** Such sends fall in ever later milliseconds. */
  lemma {:induction false} TicksSpaceSends(s: State, tools: Catalog, events: seq<Event>)
    requires TicksBeforeSends(s, tools, events)
    ensures
      var sends := Sends(s, tools, events);
      && Spaced(sends, s.library.clock)
      && (if sends == [] then s.library.clock else Last(sends).at) + SinceSend(s, tools, events)
         == s.library.clock + Ticks(events)
  {
    if events != [] {
      var before, e := events[..|events| - 1], events[|events| - 1];
      TicksSpaceSends(s, tools, before);
      RunTicks(s, tools, before);
      var middle := Run(s, tools, before);
      if Starts(middle, e) {
        SpacedSnoc(Sends(s, tools, before), s.library.clock, Sent(middle.conversation.id, middle.library.clock));
      }
    }
  }

  /** With a tick before every send the last one is always resumed. */
  lemma TickingSendsResume(rows: map<nat, Row>, listed: seq<(nat, Row)>, shelved: map<nat, seq<Message>>,
                           clock: nat, freshId: nat, tools: Catalog, events: seq<Event>)
    requires Disk(rows, listed, shelved, clock, freshId)
    requires
      var host := Boot(rows, listed, shelved, clock, freshId);
      Sends(host, tools, events) != [] && TicksBeforeSends(host, tools, events)
    ensures
      var host := Boot(rows, listed, shelved, clock, freshId);
      Resumes(Run(host, tools, events), Last(Sends(host, tools, events)).id)
  {
    TicksSpaceSends(Boot(rows, listed, shelved, clock, freshId), tools, events);
    SpacedIsAlone(rows, Sends(Boot(rows, listed, shelved, clock, freshId), tools, events), clock);
    BootResumesLastSend(rows, listed, shelved, clock, freshId, tools, events);
  }

  /** Two sends around a clear within one millisecond: the next host may resume the cleared conversation. */
  lemma ClearedWithinAMillisecond(rows: map<nat, Row>, listed: seq<(nat, Row)>, shelved: map<nat, seq<Message>>,
                                  clock: nat, freshId: nat, tools: Catalog, first: string, second: string)
    requires Disk(rows, listed, shelved, clock, freshId) && Trim(first) != "" && Trim(second) != ""
    ensures
      var host := Boot(rows, listed, shelved, clock, freshId);
      var events := [Client(SendText(first)), Client(ClearSession), Client(SendText(second))];
      && Sends(host, tools, events) == [Sent(host.conversation.id, clock), Sent(host.library.nextId, clock)]
      && !Resumes(Run(host, tools, events), host.library.nextId)
  {
    var host := Boot(rows, listed, shelved, clock, freshId);
    var events := [Client(SendText(first)), Client(ClearSession), Client(SendText(second))];
    BootDisk(rows, listed, shelved, clock, freshId);
    SendsAroundClear(host, tools, first, second);
    var sends := Sends(host, tools, events);
    assert sends[0].id != Last(sends).id && !Alone(rows, sends);
    BootResumesLastSend(rows, listed, shelved, clock, freshId, tools, events);
  }

  lemma RunSnoc(s: State, tools: Catalog, before: seq<Event>, e: Event)
    ensures Run(s, tools, before + [e]) == Step(Run(s, tools, before), tools, e)
  {
    assert (before + [e])[..|before|] == before;
  }

  lemma SendsSnoc(s: State, tools: Catalog, before: seq<Event>, e: Event)
    ensures Sends(s, tools, before + [e]) == WithEvent(Sends(s, tools, before), Run(s, tools, before), e)
  {
    assert (before + [e])[..|before|] == before;
  }

  lemma SendsAroundClear(host: State, tools: Catalog, first: string, second: string)
    requires !host.disposed && CanSend(host, first) && Trim(second) != ""
    ensures
      var events := [Client(SendText(first)), Client(ClearSession), Client(SendText(second))];
      Sends(host, tools, events) ==
      [Sent(host.conversation.id, host.library.clock), Sent(host.library.nextId, host.library.clock)]
  {
    var one := [Client(SendText(first))];
    var two := one + [Client(ClearSession)];
    var sent := Step(host, tools, Client(SendText(first)));
    assert one == [] + one && Run(host, tools, []) == host;
    RunSnoc(host, tools, [], Client(SendText(first)));
    RunSnoc(host, tools, one, Client(ClearSession));
    SendsSnoc(host, tools, [], Client(SendText(first)));
    SendsSnoc(host, tools, one, Client(ClearSession));
    SendsSnoc(host, tools, two, Client(SendText(second)));
    SendThenClear(host, sent, Clear(sent), tools, first, second);
    assert two + [Client(SendText(second))] ==
           [Client(SendText(first)), Client(ClearSession), Client(SendText(second))];
  }

  lemma SendThenClear(host: State, sent: State, cleared: State, tools: Catalog, first: string, second: string)
    requires !host.disposed && CanSend(host, first) && Trim(second) != ""
    requires sent == Step(host, tools, Client(SendText(first))) && cleared == Clear(sent)
    ensures Starts(host, Client(SendText(first))) && !Starts(sent, Client(ClearSession))
    ensures cleared == Step(sent, tools, Client(ClearSession)) && Starts(cleared, Client(SendText(second)))
    ensures cleared.conversation.id == host.library.nextId && cleared.library.clock == host.library.clock
  {
    StepLibrary(host, tools, Client(SendText(first)));
    StepKeepsIdentity(host, tools, Client(SendText(first)));
    ClearStep(sent, tools);
    ClearReadies(sent, second);
    StepWrites(sent, tools, Client(ClearSession));
  }

  lemma ClearStep(s: State, tools: Catalog)
    requires !s.disposed
    ensures Step(s, tools, Client(ClearSession)) == Clear(s)
  {
  }

  lemma ClearReadies(s: State, content: string)
    requires Trim(content) != ""
    ensures CanSend(Clear(s), content) && Clear(s).conversation.id == s.library.nextId
    ensures Clear(s).disposed == s.disposed
  {
  }

  // ---------------------------------------------------------------- stores and subscriptions

  /** The life of a host that has used these conversations, in order: each predecessor is unbound,
      its flush parked, and disposed before its successor's store is opened and bound. */
  function Lives(ids: seq<nat>): seq<Lifecycle> {
    if ids == [] then []
    else if |ids| == 1 then [Opened(ids[0]), Bound(ids[0])]
    else
      var prior := ids[|ids| - 2];
      var next := ids[|ids| - 1];
      Lives(ids[..|ids| - 1]) + [Unbound(prior), Parked(prior), Disposed(prior), Opened(next), Bound(next)]
  }

  ghost predicate LivesInv(s: State) {
    var lib := s.library;
    var used := lib.parked + [s.conversation.id];
    && lib.lifecycle == Lives(used) + (if s.disposed then [Disposed(s.conversation.id)] else [])
    && (forall i :: 0 <= i < |used| ==> used[i] < lib.nextId || i == 0)
    && (|used| > 1 ==> used[0] != s.conversation.id)
    && (forall i, j :: 0 <= i < j < |used| ==> used[i] != used[j])
    && s.conversation.id < lib.nextId
    && used[0] < lib.nextId
  }

  lemma ClearKeepsLives(s: State)
    requires LivesInv(s) && !s.disposed
    ensures LivesInv(Clear(s))
    ensures Clear(s).library.parked == s.library.parked + [s.conversation.id]
  {
    var used := s.library.parked + [s.conversation.id];
    var next := used + [s.library.nextId];
    assert next[..|next| - 1] == used;
    assert Clear(s).library.parked + [Clear(s).conversation.id] == next;
    var id, nextId := s.conversation.id, s.library.nextId;
    assert Lives(next) == Lives(used) + [Unbound(id), Parked(id), Disposed(id), Opened(nextId), Bound(nextId)];
  }

  lemma StepKeepsIdentity(s: State, tools: Catalog, e: Event)
    requires e != Client(ClearSession) || s.disposed
    ensures Step(s, tools, e).conversation.id == s.conversation.id
    ensures Step(s, tools, e).disposed == (s.disposed || e == DisposeHost)
  {
  }

  lemma StepKeepsLifecycle(s: State, tools: Catalog, e: Event)
    requires e != Client(ClearSession) || s.disposed
    ensures
      var lib := Step(s, tools, e).library;
      && lib.parked == s.library.parked && lib.nextId == s.library.nextId
      && lib.lifecycle ==
         s.library.lifecycle + if e == DisposeHost && !s.disposed then [Disposed(s.conversation.id)] else []
  {
    StepLibrary(s, tools, e);
  }

  lemma OthersKeepLives(s: State, r: State)
    requires LivesInv(s) && r.conversation.id == s.conversation.id
    requires r.library.parked == s.library.parked && r.library.nextId == s.library.nextId
    requires s.disposed ==> r.disposed
    requires r.library.lifecycle ==
             s.library.lifecycle + if r.disposed && !s.disposed then [Disposed(s.conversation.id)] else []
    ensures LivesInv(r)
  {
  }

  lemma StepKeepsLives(s: State, tools: Catalog, e: Event)
    requires LivesInv(s)
    ensures LivesInv(Step(s, tools, e))
    ensures |Step(s, tools, e).library.parked| ==
            |s.library.parked| + if e == Client(ClearSession) && !s.disposed then 1 else 0
  {
    if e == Client(ClearSession) && !s.disposed {
      ClearKeepsLives(s);
    } else {
      StepKeepsIdentity(s, tools, e);
      StepKeepsLifecycle(s, tools, e);
      OthersKeepLives(s, Step(s, tools, e));
    }
  }

  /** The clears of a run, up to disposal. */
  function Clears(s: State, tools: Catalog, events: seq<Event>): nat {
    if events == [] then 0
    else
      var before := events[..|events| - 1];
      Clears(s, tools, before) +
      if events[|events| - 1] == Client(ClearSession) && !Run(s, tools, before).disposed then 1 else 0
  }

  lemma {:induction false} RunKeepsLives(s: State, tools: Catalog, events: seq<Event>)
    requires LivesInv(s)
    ensures LivesInv(Run(s, tools, events))
    ensures |Run(s, tools, events).library.parked| == |s.library.parked| + Clears(s, tools, events)
  {
    if events != [] {
      RunKeepsLives(s, tools, events[..|events| - 1]);
      StepKeepsLives(Run(s, tools, events[..|events| - 1]), tools, events[|events| - 1]);
    }
  }

  function OpenedIds(life: seq<Lifecycle>): seq<nat> {
    if life == [] then []
    else OpenedIds(life[..|life| - 1]) + (if Last(life).Opened? then [Last(life).id] else [])
  }

  function DisposedIds(life: seq<Lifecycle>): seq<nat> {
    if life == [] then []
    else DisposedIds(life[..|life| - 1]) + (if Last(life).Disposed? then [Last(life).id] else [])
  }

  /** Subscriptions live after this history: each `Bound` adds one, each `Unbound` takes it away. */
  function LiveBindings(life: seq<Lifecycle>): set<nat> {
    if life == [] then {}
    else
      var before := LiveBindings(life[..|life| - 1]);
      match Last(life)
      case Bound(id) => before + {id}
      case Unbound(id) => before - {id}
      case _ => before
  }

  /** Stores open after this history. */
  function OpenNow(life: seq<Lifecycle>): set<nat> {
    if life == [] then {}
    else
      var before := OpenNow(life[..|life| - 1]);
      match Last(life)
      case Opened(id) => before + {id}
      case Disposed(id) => before - {id}
      case _ => before
  }

  /** At no moment of this history were two stores open, or two subscriptions live. */
  predicate OneAtATime(life: seq<Lifecycle>) {
    life == [] ||
    (OneAtATime(life[..|life| - 1]) && |OpenNow(life)| <= 1 && |LiveBindings(life)| <= 1)
  }

  lemma AfterEvent(life: seq<Lifecycle>, event: Lifecycle)
    ensures OpenedIds(life + [event]) == OpenedIds(life) + if event.Opened? then [event.id] else []
    ensures DisposedIds(life + [event]) == DisposedIds(life) + if event.Disposed? then [event.id] else []
    ensures LiveBindings(life + [event]) ==
            if event.Bound? then LiveBindings(life) + {event.id}
            else if event.Unbound? then LiveBindings(life) - {event.id}
            else LiveBindings(life)
    ensures OpenNow(life + [event]) ==
            if event.Opened? then OpenNow(life) + {event.id}
            else if event.Disposed? then OpenNow(life) - {event.id}
            else OpenNow(life)
    ensures OneAtATime(life + [event]) <==>
            OneAtATime(life) && |OpenNow(life + [event])| <= 1 && |LiveBindings(life + [event])| <= 1
  {
    assert (life + [event])[..|life|] == life;
  }

  lemma AfterClear(life: seq<Lifecycle>, prior: nat, next: nat)
    requires OneAtATime(life) && OpenNow(life) == {prior} == LiveBindings(life)
    ensures
      var after := life + [Unbound(prior), Parked(prior), Disposed(prior), Opened(next), Bound(next)];
      && OpenedIds(after) == OpenedIds(life) + [next]
      && DisposedIds(after) == DisposedIds(life) + [prior]
      && LiveBindings(after) == OpenNow(after) == {next} && OneAtATime(after)
  {
    var l1 := life + [Unbound(prior)];
    var l2 := l1 + [Parked(prior)];
    var l3 := l2 + [Disposed(prior)];
    var l4 := l3 + [Opened(next)];
    AfterEvent(life, Unbound(prior));
    AfterEvent(l1, Parked(prior));
    AfterEvent(l2, Disposed(prior));
    AfterEvent(l3, Opened(next));
    AfterEvent(l4, Bound(next));
    assert {prior} - {prior} == {} && {} + {next} == {next};
    assert life + [Unbound(prior), Parked(prior), Disposed(prior), Opened(next), Bound(next)] == l4 + [Bound(next)];
  }

  lemma LivesBegin(id: nat)
    ensures
      var life := [Opened(id), Bound(id)];
      OpenedIds(life) == [id] && DisposedIds(life) == [] && LiveBindings(life) == OpenNow(life) == {id}
      && OneAtATime(life)
  {
    AfterEvent([], Opened(id));
    AfterEvent([Opened(id)], Bound(id));
    assert [Opened(id), Bound(id)] == [Opened(id)] + [Bound(id)] && [Opened(id)] == [] + [Opened(id)];
    assert {} + {id} == {id};
  }

  lemma {:induction false} LivesBalance(ids: seq<nat>)
    requires ids != []
    ensures OpenedIds(Lives(ids)) == ids
    ensures DisposedIds(Lives(ids)) == ids[..|ids| - 1]
    ensures LiveBindings(Lives(ids)) == OpenNow(Lives(ids)) == {Last(ids)} && OneAtATime(Lives(ids))
  {
    if |ids| == 1 {
      LivesBegin(ids[0]);
      assert ids == [ids[0]];
    } else {
      var before, prior, next := ids[..|ids| - 1], ids[|ids| - 2], ids[|ids| - 1];
      LivesBalance(before);
      AfterClear(Lives(before), prior, next);
      assert before == before[..|before| - 1] + [prior] && ids == before + [next];
    }
  }

  /** What disposal awaits: the active store's flush and those `clear` parked. */
  function Awaited(s: State): seq<nat> {
    [s.conversation.id] + s.library.parked
  }

  /** Every store ever opened is the active one or parked, once, and disposal awaits exactly those; only the
      active one's subscription is live; those replaced were disposed, in order, and on disposal the active
      one too, so that every store opened was then disposed once; and at no moment were two open. */
  ghost predicate Accounted(r: State) {
    var life := r.library.lifecycle;
    && (forall i, j :: 0 <= i < j < |OpenedIds(life)| ==> OpenedIds(life)[i] != OpenedIds(life)[j])
    && LiveBindings(life) == {r.conversation.id}
    && DisposedIds(life) == r.library.parked + (if r.disposed then [r.conversation.id] else [])
    && multiset(Awaited(r)) == multiset(OpenedIds(life))
    && (r.disposed ==> DisposedIds(life) == OpenedIds(life))
    && OneAtATime(life)
  }

  lemma LivesAccount(r: State)
    requires LivesInv(r)
    ensures Accounted(r) && |OpenedIds(r.library.lifecycle)| == |r.library.parked| + 1
  {
    var active, parked := r.conversation.id, r.library.parked;
    var used := parked + [active];
    LivesBalance(used);
    assert used[..|used| - 1] == parked;
    assert multiset(used) == multiset(Awaited(r));
    if r.disposed {
      LivesEnd(Lives(used), active, parked);
    } else {
      assert r.library.lifecycle == Lives(used) + [] == Lives(used);
    }
  }

  lemma LivesEnd(life: seq<Lifecycle>, active: nat, parked: seq<nat>)
    requires OpenedIds(life) == parked + [active] && DisposedIds(life) == parked
    requires LiveBindings(life) == OpenNow(life) == {active} && OneAtATime(life)
    ensures
      var end := life + [Disposed(active)];
      && OpenedIds(end) == DisposedIds(end) == parked + [active]
      && LiveBindings(end) == {active} && OneAtATime(end)
  {
    AfterEvent(life, Disposed(active));
    assert {active} - {active} == {};
  }

  /** Disposal ends it: each store opened was disposed, once, and is awaited. */
  lemma DisposeAccounts(s: State)
    requires LivesInv(s) && !s.disposed
    ensures
      var life := Dispose(s).library.lifecycle;
      DisposedIds(life) == OpenedIds(life) && multiset(Awaited(s)) == multiset(OpenedIds(life))
  {
    var r := Dispose(s);
    OthersKeepLives(s, r);
    LivesAccount(r);
    assert Awaited(r) == Awaited(s);
  }

  lemma BootLives(rows: map<nat, Row>, listed: seq<(nat, Row)>, shelved: map<nat, seq<Message>>, clock: nat,
                  freshId: nat)
    requires Lists(listed, rows) && forall id :: id in rows ==> id < freshId
    ensures LivesInv(Boot(rows, listed, shelved, clock, freshId))
    ensures Boot(rows, listed, shelved, clock, freshId).library.parked == []
  {
    LatestIsMaximal(listed);
  }

  /** A run with n clears, disposed or not, opened n + 1 stores, all of them accounted for. */
  lemma StoresAreAccountedFor(rows: map<nat, Row>, listed: seq<(nat, Row)>, shelved: map<nat, seq<Message>>,
                              clock: nat, freshId: nat, tools: Catalog, events: seq<Event>)
    requires Lists(listed, rows) && forall id :: id in rows ==> id < freshId
    ensures
      var host := Boot(rows, listed, shelved, clock, freshId);
      var r := Run(host, tools, events);
      Accounted(r) && |OpenedIds(r.library.lifecycle)| == Clears(host, tools, events) + 1
  {
    var host := Boot(rows, listed, shelved, clock, freshId);
    BootLives(rows, listed, shelved, clock, freshId);
    RunKeepsLives(host, tools, events);
    LivesAccount(Run(host, tools, events));
  }
}
